/** Flat plan nodes, typed graph nodes, and the dictionary that holds the latter. */
module Nodes {
  import opened Collections
  import opened Graphs
  import opened Retry

  datatype JoinType = SpatialJoinType | BufferType | ProximityType | OtherJoin(name: string)

  datatype Dependency = Dependency(nodeId: Id, joinType: Option<JoinType>)

  datatype FlatKind = WhereKind | CountKind | AddressKind | LocationKind | ToolKind | OtherKind(name: string)

  /** A node of the plan the LLM writes; the fields that only travel to a tool call are not kept. */
  datatype FlatNode = FlatNode(
    nodeId: Id, kind: FlatKind, dependOn: seq<Dependency>, joinType: Option<JoinType>,
    layer: Option<string>, distance: Option<real>, address: Option<string>,
    lon: Option<real>, lat: Option<real>)

  datatype NodeType = Geocode | Query | Buffer | Union | SpatialJoin | Proximity | Summarize | Count

  datatype TypedNode = TypedNode(
    nodeId: Id, nodeType: NodeType, output: string, dependsOn: seq<Id>,
    geometryRef: Option<string>, featuresRef: Option<string>, retry: Option<RetryPolicy>)
  {
    /** Whether the node's class declares a `geometry_ref` field. */
    predicate HasGeometryField() {
      nodeType in {Query, Buffer, SpatialJoin, Proximity, Count}
    }
  }

  /** An insertion-ordered dictionary of typed nodes. */
  datatype NodeDict = NodeDict(order: seq<Id>, byId: map<Id, TypedNode>) {
    predicate IsDict() {
      Distinct(order) && Elems(order) == byId.Keys
    }

    function Put(n: TypedNode): NodeDict {
      NodeDict(if n.nodeId in byId then order else order + [n.nodeId], byId[n.nodeId := n])
    }
  }

  function DependencyGraph(nodes: NodeDict): Graph {
    Graph(nodes.order, map id | id in nodes.byId :: nodes.byId[id].dependsOn)
  }

  lemma {:induction false} PutKeepsDict(nodes: NodeDict, n: TypedNode)
    requires nodes.IsDict()
    ensures nodes.Put(n).IsDict()
  {
    if n.nodeId !in nodes.byId {
      assert n.nodeId !in nodes.order by {
        assert n.nodeId !in Elems(nodes.order);
      }
      DistinctSnoc(nodes.order, n.nodeId);
    }
  }

  const DEFAULT_RETRY := RetryPolicy(3, 0.5, 5.0, true)
  const NO_RETRY := RetryPolicy(1, 1.0, 8.0, true)

  function ArtifactKey(id: Id): string {
    "artifact_" + id.name
  }

  function UnionId(parent: Id): Id {
    Id("_union_" + parent.name)
  }

  function UnionKey(parent: Id): string {
    "union_" + UnionId(parent).name
  }

  predicate HasUnionPrefix(id: Id) {
    "_union_" <= id.name
  }

  lemma {:induction false} UnionIdInjective(p: Id, q: Id)
    ensures UnionId(p) == UnionId(q) ==> p == q
    ensures HasUnionPrefix(UnionId(p))
  {
    var prefix := "_union_";
    assert (prefix + p.name)[|prefix|..] == p.name;
    assert (prefix + q.name)[|prefix|..] == q.name;
  }

  /** The two families of output keys are injective and do not meet. */
  lemma {:induction false} KeysInjective(p: Id, q: Id)
    ensures ArtifactKey(p) == ArtifactKey(q) ==> p == q
    ensures UnionKey(p) == UnionKey(q) ==> p == q
    ensures ArtifactKey(p) != UnionKey(q)
  {
    var prefix := "artifact_";
    assert (prefix + p.name)[|prefix|..] == p.name;
    assert (prefix + q.name)[|prefix|..] == q.name;
    assert ("union_" + UnionId(p).name)[6..] == UnionId(p).name;
    assert ("union_" + UnionId(q).name)[6..] == UnionId(q).name;
    UnionIdInjective(p, q);
    assert ArtifactKey(p)[0] == 'a' && UnionKey(q)[0] == 'u';
  }
}
