/** Flat plans: the typed node each flat node stands for, and what the whole plan expands to. */
module FlatPlans {
  import opened Collections
  import opened Graphs
  import opened Nodes
  import opened Retry

  datatype ExpansionError =
    | MissingAddress(node: Id)
    | MissingCoordinates(node: Id)
    | MissingDependencyOf(node: Id)
    | MissingLayer(node: Id)
    | UnknownToolJoin(node: Id)
    | UnknownKind(node: Id)
    | InvalidDistance(node: Id)   // schema check of the buffer and proximity nodes

  // ---- One node -------------------------------------------------------------------------

  predicate IsSpatial(d: Dependency) {
    d.joinType == Some(SpatialJoinType)
  }

  predicate HasSpatialDep(f: FlatNode) {
    exists i :: 0 <= i < |f.dependOn| && IsSpatial(f.dependOn[i])
  }

  function DepIds(ds: seq<Dependency>): (r: seq<Id>)
    ensures |r| == |ds| && forall i :: 0 <= i < |ds| ==> r[i] == ds[i].nodeId
  {
    Mapped(ds, (d: Dependency) => d.nodeId)
  }

  predicate IsBlank(s: Option<string>) {
    s == None || s.value == ""
  }

  predicate IsPositive(x: Option<real>) {
    x.Some? && x.value > 0.0
  }

  /** The typed node made from one flat node, or the error it raises. */
  function CreateTypedNode(f: FlatNode): Result<TypedNode, ExpansionError> {
    var deps := DepIds(f.dependOn);
    var geometry := if f.dependOn == [] then None else Some(ArtifactKey(f.dependOn[0].nodeId));
    var node := TypedNode(f.nodeId, Geocode, ArtifactKey(f.nodeId), deps, None, None, Some(DEFAULT_RETRY));
    match f.kind
    case AddressKind =>
      if IsBlank(f.address) then Failure(MissingAddress(f.nodeId)) else Success(node)
    case LocationKind =>
      if f.lon == None || f.lat == None then Failure(MissingCoordinates(f.nodeId)) else Success(node)
    case ToolKind =>
      if f.joinType == Some(BufferType) then
        if geometry == None then Failure(MissingDependencyOf(f.nodeId))
        else if !IsPositive(f.distance) then Failure(InvalidDistance(f.nodeId))
        else Success(node.(nodeType := Buffer, geometryRef := geometry))
      else if f.joinType == Some(ProximityType) then
        if IsBlank(f.layer) then Failure(MissingLayer(f.nodeId))
        else if geometry == None then Failure(MissingDependencyOf(f.nodeId))
        else if !IsPositive(f.distance) then Failure(InvalidDistance(f.nodeId))
        else Success(node.(nodeType := Proximity, geometryRef := geometry))
      else Failure(UnknownToolJoin(f.nodeId))
    case CountKind =>
      Success(node.(nodeType := Count, geometryRef := if HasSpatialDep(f) then geometry else None))
    case WhereKind =>
      if HasSpatialDep(f) then Success(node.(nodeType := SpatialJoin, geometryRef := geometry))
      else Success(node.(nodeType := Query))
    case OtherKind(_) => Failure(UnknownKind(f.nodeId))
  }

  /** Plain queries are the nodes whose features a union node can merge. */
  predicate IsQuery(f: FlatNode) {
    f.kind == WhereKind && !HasSpatialDep(f)
  }

  function UnionNodeFor(parent: Id): TypedNode {
    TypedNode(UnionId(parent), Union, UnionKey(parent), [parent], None, Some(ArtifactKey(parent)), Some(NO_RETRY))
  }

  // ---- What the whole expansion is ------------------------------------------------------

  function Ids(flats: seq<FlatNode>): (r: seq<Id>)
    ensures |r| == |flats| && forall i :: 0 <= i < |flats| ==> r[i] == flats[i].nodeId
  {
    Mapped(flats, (f: FlatNode) => f.nodeId)
  }

  ghost predicate IsQueryId(flats: seq<FlatNode>, id: Id) {
    exists f :: f in flats && f.nodeId == id && IsQuery(f)
  }

  /** Dependency `j` of flat node `i` joins spatially with `id`. */
  ghost predicate AsksAt(flats: seq<FlatNode>, i: nat, j: nat, id: Id) {
    && i < |flats| && j < |flats[i].dependOn|
    && IsSpatial(flats[i].dependOn[j]) && flats[i].dependOn[j].nodeId == id
  }

  /** Some node joins spatially with the query `id`. */
  ghost predicate IsUnionParent(flats: seq<FlatNode>, id: Id) {
    IsQueryId(flats, id) && exists i: nat, j: nat :: AsksAt(flats, i, j, id)
  }

  ghost function UnionParents(flats: seq<FlatNode>): set<Id> {
    set id | id in Ids(flats) && IsUnionParent(flats, id)
  }

  predicate Redirected(d: Dependency, parents: set<Id>) {
    IsSpatial(d) && d.nodeId in parents
  }

  /** The dependencies that stay as they are, in order. */
  function KeptIds(ds: seq<Dependency>, parents: set<Id>): seq<Id> {
    if ds == [] then []
    else
      var d := ds[|ds| - 1];
      KeptIds(ds[..|ds| - 1], parents) + if Redirected(d, parents) then [] else [d.nodeId]
  }

  /** The union nodes that replace the others, in order. */
  function RedirectedIds(ds: seq<Dependency>, parents: set<Id>): seq<Id> {
    if ds == [] then []
    else
      var d := ds[|ds| - 1];
      RedirectedIds(ds[..|ds| - 1], parents) + if Redirected(d, parents) then [UnionId(d.nodeId)] else []
  }

  /** The geometry reference: the union of the last redirected dependency, or what it was. */
  function RedirectedRef(ds: seq<Dependency>, parents: set<Id>, before: Option<string>): Option<string> {
    if ds == [] then before
    else
      var d := ds[|ds| - 1];
      if Redirected(d, parents) then Some(UnionKey(d.nodeId))
      else RedirectedRef(ds[..|ds| - 1], parents, before)
  }

  /** The typed node of `f` once its edges and reference have been redirected to `parents`' unions, in order. */
  function Rewired(n: TypedNode, ds: seq<Dependency>, parents: set<Id>): TypedNode {
    n.(dependsOn := KeptIds(ds, parents) + RedirectedIds(ds, parents),
       geometryRef := if n.HasGeometryField() then RedirectedRef(ds, parents, n.geometryRef) else n.geometryRef)
  }

  /**
   `m` is `n` redirected: it depends on what is kept, as often as before, and once on each union. Without
   repeated dependencies the order is determined too.
   */
  ghost predicate IsRewired(n: TypedNode, ds: seq<Dependency>, parents: set<Id>, m: TypedNode) {
    && m == Rewired(n, ds, parents).(dependsOn := m.dependsOn)
    && multiset(m.dependsOn) == multiset(KeptIds(ds, parents)) + multiset(Elems(RedirectedIds(ds, parents)))
    && (Distinct(DepIds(ds)) ==> m == Rewired(n, ds, parents))
  }

  /** The plan has a node of this id, or a node that depends on it. */
  predicate Mentions(flats: seq<FlatNode>, id: Id) {
    id in Ids(flats) || exists i :: 0 <= i < |flats| && id in DepIds(flats[i].dependOn)
  }

  /** What a caller can check before expanding: no id is used twice, and none is the id of a union to be injected. */
  ghost predicate WellNamed(flats: seq<FlatNode>) {
    Distinct(Ids(flats)) && forall p :: p in UnionParents(flats) ==> !Mentions(flats, UnionId(p))
  }

  /** None of the dependencies is the union of one of the parents. */
  ghost predicate ClearOf(ds: seq<Dependency>, parents: set<Id>) {
    forall p :: p in parents ==> UnionId(p) !in DepIds(ds)
  }

  /** Every flat node became its typed node, with the redirected dependencies replaced. */
  ghost predicate NodesExpanded(flats: seq<FlatNode>, nodes: NodeDict, parents: set<Id>) {
    forall i :: 0 <= i < |flats| ==>
      && flats[i].nodeId in nodes.byId
      && CreateTypedNode(flats[i]).Success?
      && IsRewired(CreateTypedNode(flats[i]).value, flats[i].dependOn, parents, nodes.byId[flats[i].nodeId])
  }

  ghost predicate UnionsAdded(nodes: NodeDict, parents: set<Id>) {
    forall p :: p in parents ==> UnionId(p) in nodes.byId && nodes.byId[UnionId(p)] == UnionNodeFor(p)
  }

  /** The plan's nodes come first, in plan order, and nothing but the unions is added. */
  ghost predicate NothingElse(flats: seq<FlatNode>, nodes: NodeDict, parents: set<Id>) {
    && Ids(flats) <= nodes.order
    && forall id :: id in nodes.byId <==> id in Ids(flats) || exists p :: p in parents && id == UnionId(p)
  }

  ghost predicate IsExpansion(flats: seq<FlatNode>, nodes: NodeDict) {
    && nodes.IsDict()
    && NodesExpanded(flats, nodes, UnionParents(flats))
    && UnionsAdded(nodes, UnionParents(flats))
    && NothingElse(flats, nodes, UnionParents(flats))
  }

  // ---- Field by field -------------------------------------------------------------------

  /** Dependency `j` of the node is a spatial join. */
  ghost predicate JoinsAt(f: FlatNode, j: nat) {
    j < |f.dependOn| && f.dependOn[j].joinType == Some(SpatialJoinType)
  }

  ghost predicate JoinsSpatially(f: FlatNode) {
    exists j: nat :: JoinsAt(f, j)
  }

  /** The type of the node that a flat node becomes. */
  ghost predicate Becomes(f: FlatNode, ty: NodeType) {
    match ty
    case Geocode => f.kind == AddressKind || f.kind == LocationKind
    case Buffer => f.kind == ToolKind && f.joinType == Some(BufferType)
    case Proximity => f.kind == ToolKind && f.joinType == Some(ProximityType)
    case Count => f.kind == CountKind
    case SpatialJoin => f.kind == WhereKind && JoinsSpatially(f)
    case Query => f.kind == WhereKind && !JoinsSpatially(f)
    case _ => false
  }

  /** Tools work on a geometry, and so do counts and queries that join spatially. */
  ghost predicate NeedsGeometry(f: FlatNode) {
    f.kind == ToolKind || ((f.kind == CountKind || f.kind == WhereKind) && JoinsSpatially(f))
  }

  /** The conditions under which a flat node cannot be typed, and the error each leads to. */
  ghost predicate Refused(f: FlatNode, error: ExpansionError) {
    var buffers := f.kind == ToolKind && f.joinType == Some(BufferType);
    var nears := f.kind == ToolKind && f.joinType == Some(ProximityType);
    var layered := f.layer != None && f.layer != Some("");
    error.node == f.nodeId
    && match error
       case MissingAddress(_) => f.kind == AddressKind && (f.address == None || f.address == Some(""))
       case MissingCoordinates(_) => f.kind == LocationKind && (f.lon == None || f.lat == None)
       case MissingLayer(_) => nears && !layered
       case MissingDependencyOf(_) => (buffers || (nears && layered)) && f.dependOn == []
       case InvalidDistance(_) =>
         && (buffers || (nears && layered)) && f.dependOn != []
         && (f.distance == None || f.distance.value <= 0.0)
       case UnknownToolJoin(_) => f.kind == ToolKind && !buffers && !nears
       case UnknownKind(_) => f.kind.OtherKind?
  }

  ghost predicate IsRefused(f: FlatNode) {
    exists error :: Refused(f, error)
  }

  ghost predicate AllTypable(flats: seq<FlatNode>) {
    forall i :: 0 <= i < |flats| ==> !IsRefused(flats[i])
  }

  ghost predicate RefusedFirstAt(flats: seq<FlatNode>, i: nat, error: ExpansionError) {
    i < |flats| && Refused(flats[i], error) && forall j :: 0 <= j < i ==> !IsRefused(flats[j])
  }

  /** The error is that of the first node that cannot be typed. */
  ghost predicate FirstRefusal(flats: seq<FlatNode>, error: ExpansionError) {
    exists i: nat :: RefusedFirstAt(flats, i, error)
  }

  lemma {:induction false} SpatialDepIff(f: FlatNode)
    ensures HasSpatialDep(f) <==> JoinsSpatially(f)
  {
    forall j: nat | j < |f.dependOn| ensures JoinsAt(f, j) <==> IsSpatial(f.dependOn[j]) {}
  }

  lemma {:induction false} RefusedIff(f: FlatNode)
    ensures forall error :: Refused(f, error) <==> CreateTypedNode(f) == Failure(error)
    ensures IsRefused(f) <==> CreateTypedNode(f).Failure?
  {
    hide HasSpatialDep;
    forall error ensures Refused(f, error) <==> CreateTypedNode(f) == Failure(error) {
      OneRefusal(f, error);
    }
    if CreateTypedNode(f).Failure? {
      OneRefusal(f, CreateTypedNode(f).error);
    }
  }

  lemma {:induction false} OneRefusal(f: FlatNode, error: ExpansionError)
    ensures Refused(f, error) <==> CreateTypedNode(f) == Failure(error)
  {
    hide HasSpatialDep;
  }

  /** `n` is what the first pass makes of `f`. */
  ghost predicate Made(f: FlatNode, n: TypedNode) {
    && Common(f, n)
    && n.dependsOn == DepIds(f.dependOn)
    && (if NeedsGeometry(f)
        then f.dependOn != [] && n.geometryRef == Some("artifact_" + f.dependOn[0].nodeId.name)
        else n.geometryRef == None)
  }

  /** What the later passes leave alone. */
  ghost predicate Common(f: FlatNode, n: TypedNode) {
    && n.nodeId == f.nodeId && n.output == "artifact_" + f.nodeId.name && n.featuresRef == None
    && n.retry == Some(RetryPolicy(3, 0.5, 5.0, true))
    && forall ty {:trigger Becomes(f, ty)} :: n.nodeType == ty <==> Becomes(f, ty)
  }

  lemma {:induction false} CreatedIsMade(f: FlatNode)
    requires CreateTypedNode(f).Success?
    ensures Made(f, CreateTypedNode(f).value)
  {
    hide JoinsSpatially, HasSpatialDep;
    SpatialDepIff(f);
    if JoinsSpatially(f) {
      JoinsSomething(f);
    }
  }

  lemma JoinsSomething(f: FlatNode)
    requires JoinsSpatially(f)
    ensures f.dependOn != []
  {
  }

  /** The node `id` is a plain query, and some node joins with it spatially. */
  ghost predicate JoinedQuery(flats: seq<FlatNode>, id: Id) {
    && (exists f :: f in flats && f.nodeId == id && f.kind == WhereKind && !JoinsSpatially(f))
    && exists f, j: nat :: f in flats && JoinsAt(f, j) && f.dependOn[j].nodeId == id
  }

  /** Dependency `j` goes through a union node. */
  ghost predicate ViaUnion(flats: seq<FlatNode>, f: FlatNode, j: nat) {
    JoinsAt(f, j) && JoinedQuery(flats, f.dependOn[j].nodeId)
  }

  ghost predicate LastViaUnion(flats: seq<FlatNode>, f: FlatNode, j: nat) {
    ViaUnion(flats, f, j) && forall k: nat :: k > j ==> !ViaUnion(flats, f, k)
  }

  /** After expansion dependency `j` of the node is `x`. */
  ghost predicate DependsAt(flats: seq<FlatNode>, f: FlatNode, j: nat, x: Id) {
    && j < |f.dependOn|
    && x == if ViaUnion(flats, f, j) then Id("_union_" + f.dependOn[j].nodeId.name) else f.dependOn[j].nodeId
  }

  /** The reference is the union of the last dependency that has one, or the first dependency's artifact. */
  ghost predicate RefersTo(flats: seq<FlatNode>, f: FlatNode, ref: string) {
    || (exists j: nat :: LastViaUnion(flats, f, j) && ref == "union__union_" + f.dependOn[j].nodeId.name)
    || ((forall j: nat :: !ViaUnion(flats, f, j)) && f.dependOn != []
        && ref == "artifact_" + f.dependOn[0].nodeId.name)
  }

  /** `n` is what the plan's node `f` has become when the plan is expanded. */
  ghost predicate Described(flats: seq<FlatNode>, f: FlatNode, n: TypedNode) {
    && Common(f, n)
    && (n.geometryRef.Some? <==> NeedsGeometry(f))
    && (n.geometryRef.Some? ==> RefersTo(flats, f, n.geometryRef.value))
    && forall x :: x in n.dependsOn <==> exists j: nat :: DependsAt(flats, f, j, x)
  }

  /** The node that merges the features of the query `p`. */
  ghost predicate IsUnionOf(p: Id, n: TypedNode) {
    n == TypedNode(Id("_union_" + p.name), Union, "union__union_" + p.name, [p], None,
                   Some("artifact_" + p.name), Some(RetryPolicy(1, 1.0, 8.0, true)))
  }

  /** The dictionary holds every node of the plan as described, a union for every joined query, and nothing else. */
  ghost predicate IsDescribed(flats: seq<FlatNode>, nodes: NodeDict) {
    && (forall i :: 0 <= i < |flats| ==>
          flats[i].nodeId in nodes.byId && Described(flats, flats[i], nodes.byId[flats[i].nodeId]))
    && (forall p {:trigger JoinedQuery(flats, p)} :: JoinedQuery(flats, p) ==>
          Id("_union_" + p.name) in nodes.byId && IsUnionOf(p, nodes.byId[Id("_union_" + p.name)]))
    && forall id :: id in nodes.byId ==>
         || (exists i :: 0 <= i < |flats| && flats[i].nodeId == id)
         || exists p {:trigger JoinedQuery(flats, p)} :: JoinedQuery(flats, p) && id == Id("_union_" + p.name)
  }

  ghost predicate KeptAt(ds: seq<Dependency>, parents: set<Id>, i: nat, x: Id) {
    i < |ds| && ds[i].nodeId == x && !Redirected(ds[i], parents)
  }

  ghost predicate RedirectedAt(ds: seq<Dependency>, parents: set<Id>, i: nat, x: Id) {
    i < |ds| && UnionId(ds[i].nodeId) == x && Redirected(ds[i], parents)
  }

  lemma {:induction false} KeptIff(ds: seq<Dependency>, parents: set<Id>, x: Id)
    ensures x in KeptIds(ds, parents) <==> exists i: nat :: KeptAt(ds, parents, i, x)
  {
    hide Redirected;
    if ds != [] {
      var last := |ds| - 1;
      KeptIff(ds[..last], parents, x);
      forall i: nat | i < last ensures KeptAt(ds[..last], parents, i, x) <==> KeptAt(ds, parents, i, x) {
        assert ds[..last][i] == ds[i];
      }
      assert KeptAt(ds, parents, last, x) <==> ds[last].nodeId == x && !Redirected(ds[last], parents);
    }
  }

  lemma {:induction false} RedirectedIff(ds: seq<Dependency>, parents: set<Id>, x: Id)
    ensures x in RedirectedIds(ds, parents) <==> exists i: nat :: RedirectedAt(ds, parents, i, x)
  {
    hide Redirected;
    if ds != [] {
      var last := |ds| - 1;
      RedirectedIff(ds[..last], parents, x);
      forall i: nat | i < last ensures RedirectedAt(ds[..last], parents, i, x) <==> RedirectedAt(ds, parents, i, x) {
        assert ds[..last][i] == ds[i];
      }
      assert RedirectedAt(ds, parents, last, x) <==> UnionId(ds[last].nodeId) == x && Redirected(ds[last], parents);
    }
  }

  lemma {:induction false} QueryIdIff(flats: seq<FlatNode>, id: Id)
    ensures IsQueryId(flats, id) <==>
            exists f :: f in flats && f.nodeId == id && f.kind == WhereKind && !JoinsSpatially(f)
  {
    hide HasSpatialDep, JoinsSpatially;
    forall f | f in flats ensures IsQuery(f) <==> f.kind == WhereKind && !JoinsSpatially(f) {
      SpatialDepIff(f);
    }
  }

  lemma {:induction false} UnionParentIff(flats: seq<FlatNode>, id: Id)
    ensures id in UnionParents(flats) <==> JoinedQuery(flats, id)
  {
    hide IsQueryId;
    QueryIdIff(flats, id);
    if IsQueryId(flats, id) {
      QueryIdIsPlanId(flats, id);
    }
    if exists i: nat, j: nat :: AsksAt(flats, i, j, id) {
      var i: nat, j: nat :| AsksAt(flats, i, j, id);
      assert flats[i] in flats && JoinsAt(flats[i], j) && flats[i].dependOn[j].nodeId == id;
    }
    if exists f, j: nat :: f in flats && JoinsAt(f, j) && f.dependOn[j].nodeId == id {
      var f, j: nat :| f in flats && JoinsAt(f, j) && f.dependOn[j].nodeId == id;
      assert AsksAt(flats, IndexOf(flats, f), j, id);
    }
  }

  lemma {:induction false} QueryIdIsPlanId(flats: seq<FlatNode>, id: Id)
    requires IsQueryId(flats, id)
    ensures id in Ids(flats)
  {
    var f :| f in flats && f.nodeId == id && IsQuery(f);
    assert Ids(flats)[IndexOf(flats, f)] == id;
  }

  lemma {:induction false} ViaUnionIff(flats: seq<FlatNode>, f: FlatNode, j: nat)
    ensures ViaUnion(flats, f, j) <==> j < |f.dependOn| && Redirected(f.dependOn[j], UnionParents(flats))
  {
    hide UnionParents, JoinedQuery;
    if j < |f.dependOn| {
      UnionParentIff(flats, f.dependOn[j].nodeId);
    }
  }

  /** Where the last redirected dependency is, -1 if there is none. */
  lemma {:induction false} LastRedirected(ds: seq<Dependency>, parents: set<Id>, before: Option<string>)
    returns (j: int)
    ensures -1 <= j < |ds| && (j >= 0 ==> Redirected(ds[j], parents))
    ensures forall k :: j < k < |ds| ==> !Redirected(ds[k], parents)
    ensures RedirectedRef(ds, parents, before) == if j >= 0 then Some(UnionKey(ds[j].nodeId)) else before
  {
    hide Redirected;
    j := |ds| - 1;
    if ds != [] && !Redirected(ds[j], parents) {
      var last := j;
      j := LastRedirected(ds[..last], parents, before);
      forall k | j < k < |ds| ensures !Redirected(ds[k], parents) {
        if k < last { assert ds[..last][k] == ds[k]; }
      }
    }
  }

  lemma {:induction false} RefDescribed(flats: seq<FlatNode>, f: FlatNode, before: string)
    requires f.dependOn != [] && before == "artifact_" + f.dependOn[0].nodeId.name
    ensures var ref := RedirectedRef(f.dependOn, UnionParents(flats), Some(before));
            ref.Some? && RefersTo(flats, f, ref.value)
  {
    hide UnionParents, ViaUnion, Redirected, RedirectedRef;
    var ds, parents := f.dependOn, UnionParents(flats);
    var j := LastRedirected(ds, parents, Some(before));
    forall k: nat ensures ViaUnion(flats, f, k) <==> k < |ds| && Redirected(ds[k], parents) {
      ViaUnionIff(flats, f, k);
    }
    if j >= 0 {
      assert LastViaUnion(flats, f, j);
      UnionSpelled(ds[j].nodeId);
    }
  }

  lemma UnionSpelled(p: Id)
    ensures UnionKey(p) == "union__union_" + p.name && IsUnionOf(p, UnionNodeFor(p))
  {
    assert "union_" + ("_union_" + p.name) == "union__union_" + p.name;
  }

  lemma {:induction false} DepsDescribed(flats: seq<FlatNode>, f: FlatNode, deps: seq<Id>, x: Id)
    requires multiset(deps) == multiset(KeptIds(f.dependOn, UnionParents(flats)))
                               + multiset(Elems(RedirectedIds(f.dependOn, UnionParents(flats))))
    ensures x in deps <==> exists j: nat :: DependsAt(flats, f, j, x)
  {
    hide UnionParents, ViaUnion, Redirected, KeptIds, RedirectedIds;
    var ds, parents := f.dependOn, UnionParents(flats);
    KeptIff(ds, parents, x);
    RedirectedIff(ds, parents, x);
    forall j: nat ensures DependsAt(flats, f, j, x) <==> KeptAt(ds, parents, j, x) || RedirectedAt(ds, parents, j, x) {
      ViaUnionIff(flats, f, j);
    }
    assert x in deps <==> x in multiset(deps);
  }

  lemma {:induction false} NodeDescribed(flats: seq<FlatNode>, f: FlatNode, n: TypedNode)
    requires CreateTypedNode(f).Success?
    requires IsRewired(CreateTypedNode(f).value, f.dependOn, UnionParents(flats), n)
    ensures Described(flats, f, n)
  {
    hide CreateTypedNode, UnionParents, KeptIds, RedirectedIds, RedirectedRef, DependsAt, RefersTo, NeedsGeometry;
    var made := CreateTypedNode(f).value;
    CreatedIsMade(f);
    forall x ensures x in n.dependsOn <==> exists j: nat :: DependsAt(flats, f, j, x) {
      DepsDescribed(flats, f, n.dependsOn, x);
    }
    GeometryField(f, made);
    if NeedsGeometry(f) {
      RefDescribed(flats, f, made.geometryRef.value);
    } else {
      NoRefRedirected(flats, f, made);
    }
  }

  lemma {:induction false} GeometryField(f: FlatNode, n: TypedNode)
    requires Made(f, n)
    ensures NeedsGeometry(f) ==> n.HasGeometryField()
    ensures n.HasGeometryField() && !NeedsGeometry(f) ==> !JoinsSpatially(f)
  {
    hide JoinsSpatially, DepIds;
    assert Becomes(f, n.nodeType);
  }

  lemma {:induction false} NoRefRedirected(flats: seq<FlatNode>, f: FlatNode, n: TypedNode)
    requires Made(f, n) && !NeedsGeometry(f)
    ensures n.HasGeometryField() ==> RedirectedRef(f.dependOn, UnionParents(flats), n.geometryRef) == None
  {
    hide NeedsGeometry, UnionParents, RedirectedRef, Common;
    var ds, parents := f.dependOn, UnionParents(flats);
    GeometryField(f, n);
    if n.HasGeometryField() {
      var j := LastRedirected(ds, parents, n.geometryRef);
      assert j >= 0 ==> JoinsAt(f, j);
    }
  }

  /** An expansion is what the plan says, field by field. */
  lemma {:induction false} ExpansionDescribed(flats: seq<FlatNode>, nodes: NodeDict)
    requires WellNamed(flats) && IsExpansion(flats, nodes)
    ensures IsDescribed(flats, nodes)
  {
    hide CreateTypedNode, UnionParents, WellNamed, IsRewired, Described, JoinedQuery;
    var parents := UnionParents(flats);
    forall p ensures p in parents <==> JoinedQuery(flats, p) {
      UnionParentIff(flats, p);
    }
    forall i | 0 <= i < |flats|
      ensures flats[i].nodeId in nodes.byId && Described(flats, flats[i], nodes.byId[flats[i].nodeId])
    {
      NodeDescribed(flats, flats[i], nodes.byId[flats[i].nodeId]);
    }
    forall p | JoinedQuery(flats, p)
      ensures Id("_union_" + p.name) in nodes.byId && IsUnionOf(p, nodes.byId[Id("_union_" + p.name)])
    {
      UnionSpelled(p);
      assert UnionId(p) in nodes.byId;
    }
    forall id | id in nodes.byId
      ensures || (exists i :: 0 <= i < |flats| && flats[i].nodeId == id)
              || exists p {:trigger JoinedQuery(flats, p)} :: JoinedQuery(flats, p) && id == Id("_union_" + p.name)
    {
      if id in Ids(flats) {
        var i := IndexOf(Ids(flats), id);
        assert flats[i].nodeId == id;
      }
    }
  }
}
