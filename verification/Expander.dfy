/** The three passes that expand a flat plan: create, inject unions, redirect edges and references. */
module Expander {
  import opened Collections
  import opened Graphs
  import opened Nodes
  import opened FlatPlans

  // ---- First pass -----------------------------------------------------------------------

  ghost predicate LastWithItsId(flats: seq<FlatNode>, i: nat)
    requires i < |flats|
  {
    forall j :: i < j < |flats| ==> flats[j].nodeId != flats[i].nodeId
  }

  /** The order in which a dictionary gets its keys: a repeated key keeps its first place. */
  function FirstOccurrences(ids: seq<Id>): (r: seq<Id>)
    ensures forall x :: x in r <==> x in ids
    ensures Distinct(r)
  {
    if ids == [] then []
    else
      var before, last := FirstOccurrences(ids[..|ids| - 1]), ids[|ids| - 1];
      assert ids == ids[..|ids| - 1] + [last];
      if last in before then before else before + [last]
  }

  lemma {:induction false} FirstOccurrencesOfDistinct(ids: seq<Id>)
    requires Distinct(ids)
    ensures FirstOccurrences(ids) == ids
  {
    if ids != [] {
      var last := |ids| - 1;
      FirstOccurrencesOfDistinct(ids[..last]);
      assert ids[last] !in ids[..last];
      assert ids == ids[..last] + [ids[last]];
    }
  }

  /** The dictionary after the first pass over `flats`; a repeated id keeps its place and takes the later node. */
  ghost predicate Created(flats: seq<FlatNode>, nodes: NodeDict) {
    && nodes.IsDict()
    && nodes.byId.Keys == Elems(Ids(flats))
    && nodes.order == FirstOccurrences(Ids(flats))
    && (forall i :: 0 <= i < |flats| ==> CreateTypedNode(flats[i]).Success?)
    && (forall i :: 0 <= i < |flats| && LastWithItsId(flats, i) ==>
          flats[i].nodeId in nodes.byId && nodes.byId[flats[i].nodeId] == CreateTypedNode(flats[i]).value)
  }

  ghost predicate QueriesOf(flats: seq<FlatNode>, queries: map<Id, string>) {
    && (forall id :: id in queries <==> IsQueryId(flats, id))
    && (forall id :: id in queries ==> queries[id] == ArtifactKey(id))
  }

  lemma {:induction false} IdsSnoc(flats: seq<FlatNode>, f: FlatNode)
    ensures Ids(flats + [f]) == Ids(flats) + [f.nodeId]
    ensures Elems(Ids(flats + [f])) == Elems(Ids(flats)) + {f.nodeId}
    ensures Distinct(Ids(flats + [f])) ==> Distinct(Ids(flats)) && f.nodeId !in Ids(flats)
  {
    var ids, more := Ids(flats), Ids(flats + [f]);
    assert more == ids + [f.nodeId];
    assert forall i :: 0 <= i < |ids| ==> more[i] == ids[i];
    assert more[|ids|] == f.nodeId;
  }

  lemma {:induction false} QueryIdsSnoc(flats: seq<FlatNode>, f: FlatNode, id: Id)
    ensures IsQueryId(flats + [f], id) <==> IsQueryId(flats, id) || (f.nodeId == id && IsQuery(f))
  {
    assert forall g :: g in flats + [f] <==> g in flats || g == f;
    if f.nodeId == id && IsQuery(f) {
      assert f in flats + [f];
    }
    if IsQueryId(flats, id) {
      var g :| g in flats && g.nodeId == id && IsQuery(g);
      assert g in flats + [f];
    }
  }

  lemma {:induction false} QueriesOne(flats: seq<FlatNode>, queries: map<Id, string>, f: FlatNode)
    requires QueriesOf(flats, queries)
    ensures QueriesOf(flats + [f], if IsQuery(f) then queries[f.nodeId := ArtifactKey(f.nodeId)] else queries)
  {
    forall id {
      QueryIdsSnoc(flats, f, id);
    }
  }

  lemma {:induction false} LastBefore(flats: seq<FlatNode>, f: FlatNode, i: nat)
    requires i < |flats| && LastWithItsId(flats + [f], i)
    ensures LastWithItsId(flats, i) && flats[i].nodeId != f.nodeId
  {
    var all := flats + [f];
    assert all[|flats|] == f && all[i] == flats[i];
    forall j | i < j < |flats| ensures flats[j].nodeId != flats[i].nodeId { assert all[j] == flats[j]; }
  }

  lemma {:induction false} CreatedKeys(flats: seq<FlatNode>, nodes: NodeDict, n: TypedNode)
    requires nodes.IsDict() && nodes.byId.Keys == Elems(Ids(flats)) && nodes.order == FirstOccurrences(Ids(flats))
    ensures nodes.Put(n).IsDict() && nodes.Put(n).byId.Keys == Elems(Ids(flats)) + {n.nodeId}
    ensures nodes.Put(n).order == FirstOccurrences(Ids(flats) + [n.nodeId])
  {
    PutKeepsDict(nodes, n);
    assert (Ids(flats) + [n.nodeId])[..|flats|] == Ids(flats);
    assert n.nodeId in nodes.byId <==> n.nodeId in Elems(Ids(flats));
  }

  lemma {:induction false} CreatedOne(flats: seq<FlatNode>, nodes: NodeDict, f: FlatNode)
    requires Created(flats, nodes) && CreateTypedNode(f).Success?
    ensures Created(flats + [f], nodes.Put(CreateTypedNode(f).value))
  {
    hide CreateTypedNode, FirstOccurrences, LastWithItsId;
    var n := CreateTypedNode(f).value;
    var all := flats + [f];
    CreatedId(f);
    IdsSnoc(flats, f);
    CreatedKeys(flats, nodes, n);
    forall i | 0 <= i < |all| && LastWithItsId(all, i)
      ensures all[i].nodeId in nodes.Put(n).byId && nodes.Put(n).byId[all[i].nodeId] == CreateTypedNode(all[i]).value
    {
      if i < |flats| {
        LastBefore(flats, f, i);
      }
    }
  }

  lemma CreatedId(f: FlatNode)
    requires CreateTypedNode(f).Success?
    ensures CreateTypedNode(f).value.nodeId == f.nodeId
  {
  }

  /** Index of the first flat node that cannot be typed. */
  ghost predicate FirstBad(flats: seq<FlatNode>, i: nat) {
    && i < |flats| && CreateTypedNode(flats[i]).Failure?
    && forall j :: 0 <= j < i ==> CreateTypedNode(flats[j]).Success?
  }

  method CreateAll(flats: seq<FlatNode>) returns (r: Result<NodeDict, ExpansionError>, queries: map<Id, string>)
    ensures r.Failure? ==> exists i: nat :: FirstBad(flats, i) && r.error == CreateTypedNode(flats[i]).error
    ensures r.Failure? ==> FirstRefusal(flats, r.error)
    ensures r.Success? ==> Created(flats, r.value) && QueriesOf(flats, queries)
    ensures r.Success? ==> AllTypable(flats) && MadeFrom(flats, r.value)
  {
    hide Created, QueriesOf;
    var nodes := NodeDict([], map[]);
    queries := map[];
    CreatedNothing();
    assert flats[..0] == [];
    for i := 0 to |flats|
      invariant forall j :: 0 <= j < i ==> CreateTypedNode(flats[j]).Success?
      invariant Created(flats[..i], nodes) && QueriesOf(flats[..i], queries)
    {
      var typed := CreateTypedNode(flats[i]);
      if typed.Failure? {
        assert FirstBad(flats, i);
        RefusesFirst(flats, i);
        return Failure(typed.error), queries;
      }
      ghost var before := queries;
      if typed.value.nodeType == Query {
        queries := queries[flats[i].nodeId := ArtifactKey(flats[i].nodeId)];
      }
      assert flats[..i + 1] == flats[..i] + [flats[i]];
      assert typed.value.nodeType == Query <==> IsQuery(flats[i]);
      QueriesOne(flats[..i], before, flats[i]);
      CreatedOne(flats[..i], nodes, flats[i]);
      nodes := nodes.Put(typed.value);
    }
    assert flats[..|flats|] == flats;
    CreatedAsMade(flats, nodes);
    RefusesNobody(flats);
    r := Success(nodes);
  }

  /** Every node of the dictionary is made from the last flat node of its id. */
  ghost predicate MadeFrom(flats: seq<FlatNode>, nodes: NodeDict) {
    forall i :: 0 <= i < |flats| && LastWithItsId(flats, i) ==>
      flats[i].nodeId in nodes.byId && Made(flats[i], nodes.byId[flats[i].nodeId])
  }

  lemma {:induction false} CreatedAsMade(flats: seq<FlatNode>, nodes: NodeDict)
    requires Created(flats, nodes)
    ensures MadeFrom(flats, nodes)
  {
    hide CreateTypedNode, Made;
    forall i | 0 <= i < |flats| && LastWithItsId(flats, i)
      ensures flats[i].nodeId in nodes.byId && Made(flats[i], nodes.byId[flats[i].nodeId])
    {
      CreatedIsMade(flats[i]);
    }
  }

  lemma {:induction false} RefusesFirst(flats: seq<FlatNode>, i: nat)
    requires FirstBad(flats, i)
    ensures FirstRefusal(flats, CreateTypedNode(flats[i]).error)
  {
    hide CreateTypedNode, Refused;
    RefusedIff(flats[i]);
    forall j | 0 <= j < i ensures !IsRefused(flats[j]) { RefusedIff(flats[j]); }
    assert RefusedFirstAt(flats, i, CreateTypedNode(flats[i]).error);
  }

  lemma {:induction false} RefusesNobody(flats: seq<FlatNode>)
    requires forall i :: 0 <= i < |flats| ==> CreateTypedNode(flats[i]).Success?
    ensures AllTypable(flats)
  {
    hide CreateTypedNode, Refused;
    forall i | 0 <= i < |flats| ensures !IsRefused(flats[i]) { RefusedIff(flats[i]); }
  }

  lemma CreatedNothing()
    ensures Created([], NodeDict([], map[])) && QueriesOf([], map[])
  {
  }

  // ---- Second pass ----------------------------------------------------------------------

  /** The dictionary `after` is `nodes` with the unions of `unions`' parents put in. */
  ghost predicate Injected(nodes: NodeDict, after: NodeDict, unions: map<Id, string>) {
    && after.IsDict()
    && nodes.order <= after.order
    && (forall id :: id in after.byId <==> id in nodes.byId || exists p :: p in unions && id == UnionId(p))
    && (forall p :: p in unions ==>
          unions[p] == UnionKey(p) && UnionId(p) in after.byId && after.byId[UnionId(p)] == UnionNodeFor(p))
    && (forall id :: id in nodes.byId && (forall p :: p in unions ==> id != UnionId(p)) ==>
          after.byId[id] == nodes.byId[id])
  }

  lemma {:induction false} InjectedOne(nodes: NodeDict, after: NodeDict, unions: map<Id, string>, p: Id)
    requires Injected(nodes, after, unions) && p !in unions
    ensures Injected(nodes, after.Put(UnionNodeFor(p)), unions[p := UnionKey(p)])
  {
    hide UnionId, UnionKey, Distinct, NodeDict.IsDict, UnionNodeFor;
    PutKeepsDict(after, UnionNodeFor(p));
    InjectedKeys(nodes, after, unions, p);
    InjectedUnions(after, unions, p);
    InjectedOthers(nodes, after, unions, p);
    assert nodes.order <= after.Put(UnionNodeFor(p)).order;
  }

  lemma {:induction false} InjectedUnions(after: NodeDict, unions: map<Id, string>, p: Id)
    requires forall q :: q in unions ==>
      unions[q] == UnionKey(q) && UnionId(q) in after.byId && after.byId[UnionId(q)] == UnionNodeFor(q)
    ensures var more, grown := unions[p := UnionKey(p)], after.Put(UnionNodeFor(p));
            forall q :: q in more ==>
              more[q] == UnionKey(q) && UnionId(q) in grown.byId && grown.byId[UnionId(q)] == UnionNodeFor(q)
  {
    hide UnionId, UnionKey;
    var more, grown := unions[p := UnionKey(p)], after.Put(UnionNodeFor(p));
    forall q | q in more
      ensures more[q] == UnionKey(q) && UnionId(q) in grown.byId && grown.byId[UnionId(q)] == UnionNodeFor(q)
    {
      UnionIdInjective(p, q);
    }
  }

  lemma {:induction false} InjectedOthers(nodes: NodeDict, after: NodeDict, unions: map<Id, string>, p: Id)
    requires Injected(nodes, after, unions)
    ensures var more, grown := unions[p := UnionKey(p)], after.Put(UnionNodeFor(p));
            forall id :: id in nodes.byId && (forall q :: q in more ==> id != UnionId(q)) ==>
              id in grown.byId && grown.byId[id] == nodes.byId[id]
  {
    hide UnionId, UnionKey, NodeDict.IsDict;
    var more, grown := unions[p := UnionKey(p)], after.Put(UnionNodeFor(p));
    assert p in more && forall q :: q in unions ==> q in more;
    forall id | id in nodes.byId && (forall q :: q in more ==> id != UnionId(q))
      ensures id in grown.byId && grown.byId[id] == nodes.byId[id]
    {
      assert after.byId[id] == nodes.byId[id];
    }
  }

  lemma {:induction false} InjectedKeys(nodes: NodeDict, after: NodeDict, unions: map<Id, string>, p: Id)
    requires forall id :: id in after.byId <==> id in nodes.byId || exists q :: q in unions && id == UnionId(q)
    ensures var more, grown := unions[p := UnionKey(p)], after.Put(UnionNodeFor(p));
            forall id :: id in grown.byId <==> id in nodes.byId || exists q :: q in more && id == UnionId(q)
  {
    hide UnionId, UnionKey;
    var more, grown := unions[p := UnionKey(p)], after.Put(UnionNodeFor(p));
    forall id ensures id in grown.byId <==> id in nodes.byId || exists q :: q in more && id == UnionId(q) {
      if id == UnionId(p) { assert p in more; }
      if q :| q in unions && id == UnionId(q) { assert q in more; }
    }
  }

  /** Some dependency before position `(i, j)` of the nested loops asks for a union of `id`. */
  ghost predicate AskedBefore(flats: seq<FlatNode>, i: nat, j: nat, id: Id) {
    exists a: nat, b: nat :: AsksAt(flats, a, b, id) && (a < i || (a == i && b < j))
  }

  /** The parents whose union has been injected once the loops stand at `(i, j)`. */
  ghost predicate Progress(flats: seq<FlatNode>, queries: map<Id, string>, unions: map<Id, string>, i: nat, j: nat) {
    forall id :: id in unions <==> id in queries && AskedBefore(flats, i, j, id)
  }

  lemma {:induction false} ProgressOne(flats: seq<FlatNode>, queries: map<Id, string>, unions: map<Id, string>,
                                       i: nat, j: nat, unions': map<Id, string>)
    requires i < |flats| && j < |flats[i].dependOn|
    requires Progress(flats, queries, unions, i, j)
    requires var d := flats[i].dependOn[j];
             unions'.Keys == unions.Keys + if IsSpatial(d) && d.nodeId in queries then {d.nodeId} else {}
    ensures Progress(flats, queries, unions', i, j + 1)
  {
    var d := flats[i].dependOn[j];
    forall id
      ensures AskedBefore(flats, i, j + 1, id) <==> AskedBefore(flats, i, j, id) || (IsSpatial(d) && d.nodeId == id)
    {
      if IsSpatial(d) && d.nodeId == id {
        assert AsksAt(flats, i, j, id);
      }
      if AskedBefore(flats, i, j + 1, id) {
        var a: nat, b: nat :| AsksAt(flats, a, b, id) && (a < i || (a == i && b < j + 1));
        if a == i && b == j {
          assert d.nodeId == id;
        }
      }
    }
  }

  lemma {:induction false} ProgressRow(flats: seq<FlatNode>, queries: map<Id, string>, unions: map<Id, string>, i: nat)
    requires i < |flats| && Progress(flats, queries, unions, i, |flats[i].dependOn|)
    ensures Progress(flats, queries, unions, i + 1, 0)
  {
    forall id ensures AskedBefore(flats, i, |flats[i].dependOn|, id) <==> AskedBefore(flats, i + 1, 0, id) {
      if AskedBefore(flats, i + 1, 0, id) {
        var a: nat, b: nat :| AsksAt(flats, a, b, id) && a < i + 1;
        assert a < i || (a == i && b < |flats[i].dependOn|);
      }
    }
  }

  lemma {:induction false} QueryIdIsId(flats: seq<FlatNode>, id: Id)
    requires IsQueryId(flats, id)
    ensures id in Ids(flats)
  {
    var f :| f in flats && f.nodeId == id && IsQuery(f);
    assert Ids(flats)[IndexOf(flats, f)] == id;
  }

  lemma {:induction false} ProgressDone(flats: seq<FlatNode>, queries: map<Id, string>, unions: map<Id, string>)
    requires Progress(flats, queries, unions, |flats|, 0)
    requires QueriesOf(flats, queries)
    ensures unions.Keys == UnionParents(flats)
  {
    forall id ensures id in unions <==> id in UnionParents(flats) {
      if IsUnionParent(flats, id) {
        var a: nat, b: nat :| AsksAt(flats, a, b, id);
        assert a < |flats|;
        assert AskedBefore(flats, |flats|, 0, id);
      }
      if IsQueryId(flats, id) {
        QueryIdIsId(flats, id);
      }
    }
  }

  method InjectUnions(flats: seq<FlatNode>, nodes: NodeDict, queries: map<Id, string>)
    returns (after: NodeDict, unions: map<Id, string>)
    requires nodes.IsDict()
    requires QueriesOf(flats, queries)
    ensures Injected(nodes, after, unions)
    ensures unions.Keys == UnionParents(flats)
  {
    hide Injected, Progress, UnionParents;
    after, unions := nodes, map[];
    NothingInjected(nodes);
    NoProgress(flats, queries);
    for i := 0 to |flats|
      invariant Injected(nodes, after, unions) && Progress(flats, queries, unions, i, 0)
    {
      for j := 0 to |flats[i].dependOn|
        invariant Injected(nodes, after, unions) && Progress(flats, queries, unions, i, j)
      {
        var d := flats[i].dependOn[j];
        ghost var before := unions;
        if IsSpatial(d) && d.nodeId in queries && d.nodeId !in unions {
          InjectedOne(nodes, after, unions, d.nodeId);
          after := after.Put(TypedNode(UnionId(d.nodeId), Union, UnionKey(d.nodeId), [d.nodeId], None,
                                       Some(queries[d.nodeId]), Some(NO_RETRY)));
          unions := unions[d.nodeId := UnionKey(d.nodeId)];
        }
        ProgressOne(flats, queries, before, i, j, unions);
      }
      ProgressRow(flats, queries, unions, i);
    }
    ProgressDone(flats, queries, unions);
  }

  lemma NothingInjected(nodes: NodeDict)
    requires nodes.IsDict()
    ensures Injected(nodes, nodes, map[])
  {
  }

  lemma NoProgress(flats: seq<FlatNode>, queries: map<Id, string>)
    ensures Progress(flats, queries, map[], 0, 0)
  {
    forall id ensures !AskedBefore(flats, 0, 0, id) {
    }
  }

  // ---- Third pass -----------------------------------------------------------------------

  /** Python's `list.remove`, without an effect when the element is absent. */
  function RemoveFirst(s: seq<Id>, x: Id): seq<Id> {
    if s == [] then [] else if s[0] == x then s[1..] else [s[0]] + RemoveFirst(s[1..], x)
  }

  /** What one dependency does to the node that has it. */
  function RedirectOne(n: TypedNode, d: Dependency, parents: set<Id>): TypedNode {
    if !Redirected(d, parents) then n
    else
      var deps := RemoveFirst(n.dependsOn, d.nodeId);
      n.(geometryRef := if n.HasGeometryField() then Some(UnionKey(d.nodeId)) else n.geometryRef,
         dependsOn := if UnionId(d.nodeId) in deps then deps else deps + [UnionId(d.nodeId)])
  }

  function RedirectAll(n: TypedNode, ds: seq<Dependency>, parents: set<Id>): TypedNode {
    if ds == [] then n
    else RedirectOne(RedirectAll(n, ds[..|ds| - 1], parents), ds[|ds| - 1], parents)
  }

  /** What the flat nodes with this node's id do to it together. */
  function RedirectBy(n: TypedNode, id: Id, flats: seq<FlatNode>, parents: set<Id>): TypedNode {
    if flats == [] then n
    else
      var m := RedirectBy(n, id, flats[..|flats| - 1], parents);
      var f := flats[|flats| - 1];
      if f.nodeId == id then RedirectAll(m, f.dependOn, parents) else m
  }

  ghost predicate RedirectedDict(nodes: NodeDict, after: NodeDict, flats: seq<FlatNode>, parents: set<Id>) {
    && after.order == nodes.order
    && after.byId.Keys == nodes.byId.Keys
    && forall id :: id in nodes.byId ==> after.byId[id] == RedirectBy(nodes.byId[id], id, flats, parents)
  }

  lemma {:induction false} RedirectedDictOne(nodes: NodeDict, after: NodeDict, flats: seq<FlatNode>, f: FlatNode,
                                             parents: set<Id>)
    requires RedirectedDict(nodes, after, flats, parents) && f.nodeId in after.byId
    ensures var n := RedirectAll(after.byId[f.nodeId], f.dependOn, parents);
            RedirectedDict(nodes, after.(byId := after.byId[f.nodeId := n]), flats + [f], parents)
  {
    assert (flats + [f])[..|flats|] == flats;
  }

  method RedirectEdges(flats: seq<FlatNode>, nodes: NodeDict, unions: map<Id, string>) returns (after: NodeDict)
    requires forall f :: f in flats ==> f.nodeId in nodes.byId
    requires forall p :: p in unions ==> unions[p] == UnionKey(p)
    ensures RedirectedDict(nodes, after, flats, unions.Keys)
  {
    after := nodes;
    assert flats[..0] == [];
    for i := 0 to |flats|
      invariant RedirectedDict(nodes, after, flats[..i], unions.Keys)
    {
      var f := flats[i];
      assert f in flats;
      var node := after.byId[f.nodeId];
      assert f.dependOn[..0] == [];
      for j := 0 to |f.dependOn|
        invariant node == RedirectAll(after.byId[f.nodeId], f.dependOn[..j], unions.Keys)
      {
        var d := f.dependOn[j];
        assert f.dependOn[..j + 1][..j] == f.dependOn[..j];
        if IsSpatial(d) && d.nodeId in unions {
          var unionId := UnionId(d.nodeId);
          if node.HasGeometryField() {
            node := node.(geometryRef := Some(unions[d.nodeId]));
          }
          if d.nodeId in node.dependsOn {
            node := node.(dependsOn := RemoveFirst(node.dependsOn, d.nodeId));
          } else {
            RemoveAbsent(node.dependsOn, d.nodeId);
          }
          if unionId !in node.dependsOn {
            node := node.(dependsOn := node.dependsOn + [unionId]);
          }
        }
      }
      assert f.dependOn[..|f.dependOn|] == f.dependOn;
      assert flats[..i + 1] == flats[..i] + [f];
      RedirectedDictOne(nodes, after, flats[..i], f, unions.Keys);
      after := after.(byId := after.byId[f.nodeId := node]);
    }
    assert flats[..|flats|] == flats;
  }

  lemma {:induction false} RemoveAbsent(s: seq<Id>, x: Id)
    requires x !in s
    ensures RemoveFirst(s, x) == s
  {
    if s != [] {
      RemoveAbsent(s[1..], x);
    }
  }

  // ---- The loops compute the stable rewiring ----------------------------------------------

  lemma {:induction false} RemoveFirstMiddle(a: seq<Id>, x: Id, b: seq<Id>)
    requires x !in a
    ensures RemoveFirst(a + [x] + b, x) == a + b
  {
    if a == [] {
      assert a + [x] + b == [x] + b;
      assert a + b == b;
    } else {
      RemoveFirstMiddle(a[1..], x, b);
      assert (a + [x] + b)[1..] == a[1..] + [x] + b;
      assert a + b == [a[0]] + (a[1..] + b);
    }
  }

  lemma {:induction false} RemoveFirstMultiset(s: seq<Id>, x: Id)
    requires x in s
    ensures multiset(RemoveFirst(s, x)) == multiset(s) - multiset{x}
  {
    assert s == [s[0]] + s[1..];
    if s[0] != x {
      RemoveFirstMultiset(s[1..], x);
    }
  }

  lemma {:induction false} KeptAmong(ds: seq<Dependency>, parents: set<Id>, x: Id)
    requires x in KeptIds(ds, parents)
    ensures x in DepIds(ds)
  {
    var last := |ds| - 1;
    assert DepIds(ds)[..last] == DepIds(ds[..last]);
    if x in KeptIds(ds[..last], parents) {
      KeptAmong(ds[..last], parents, x);
    } else {
      assert DepIds(ds)[last] == x;
    }
  }

  lemma {:induction false} RedirectedAmong(ds: seq<Dependency>, parents: set<Id>, x: Id)
    requires x in RedirectedIds(ds, parents)
    ensures exists i :: 0 <= i < |ds| && x == UnionId(ds[i].nodeId)
  {
    var last := |ds| - 1;
    if x in RedirectedIds(ds[..last], parents) {
      RedirectedAmong(ds[..last], parents, x);
      var i :| 0 <= i < last && x == UnionId(ds[..last][i].nodeId);
      assert ds[..last][i] == ds[i];
    } else {
      assert ds[last] == ds[last] && x == UnionId(ds[last].nodeId);
    }
  }

  /** A dependency list that names no union is not confused with the unions it is redirected to. */
  lemma {:induction false} UnionNotKept(ds: seq<Dependency>, parents: set<Id>, j: nat)
    requires ClearOf(ds, parents) && j < |ds| && ds[j].nodeId in parents
    ensures UnionId(ds[j].nodeId) !in KeptIds(ds[..j], parents) + DepIds(ds[j + 1..])
  {
    var u := UnionId(ds[j].nodeId);
    assert DepIds(ds)[..j] == DepIds(ds[..j]);
    assert DepIds(ds)[j + 1..] == DepIds(ds[j + 1..]);
    if u in KeptIds(ds[..j], parents) {
      KeptAmong(ds[..j], parents, u);
    }
  }

  /** In a list without repetitions neither a dependency nor its union comes back later. */
  lemma {:induction false} NothingComesBack(ds: seq<Dependency>, parents: set<Id>, j: nat)
    requires Distinct(DepIds(ds)) && j < |ds|
    ensures ds[j].nodeId !in KeptIds(ds[..j], parents)
    ensures UnionId(ds[j].nodeId) !in RedirectedIds(ds[..j], parents)
  {
    var x, ids := ds[j].nodeId, DepIds(ds);
    assert ids[j] == x && ids[..j] == DepIds(ds[..j]) && x !in ids[..j];
    if x in KeptIds(ds[..j], parents) {
      KeptAmong(ds[..j], parents, x);
    }
    if UnionId(x) in RedirectedIds(ds[..j], parents) {
      RedirectedAmong(ds[..j], parents, UnionId(x));
      var i :| 0 <= i < j && UnionId(x) == UnionId(ds[i].nodeId);
      UnionIdInjective(ds[i].nodeId, x);
    }
  }

  /** What the node depends on after the loop over the first `j` dependencies, in any order. */
  ghost function PartlyRewiredIds(ds: seq<Dependency>, parents: set<Id>, j: nat): multiset<Id>
    requires j <= |ds|
  {
    multiset(KeptIds(ds[..j], parents)) + multiset(DepIds(ds[j..])) + multiset(Elems(RedirectedIds(ds[..j], parents)))
  }

  lemma {:induction false} RestAfter(ds: seq<Dependency>, j: nat)
    requires j < |ds|
    ensures DepIds(ds[j..]) == [ds[j].nodeId] + DepIds(ds[j + 1..])
  {
  }

  lemma {:induction false} TakenOut(deps: seq<Id>, kept: multiset<Id>, rest: multiset<Id>, unions: multiset<Id>, x: Id)
    requires multiset(deps) == kept + (multiset{x} + rest) + unions
    ensures multiset(RemoveFirst(deps, x)) == kept + rest + unions
  {
    assert x in multiset(deps);
    RemoveFirstMultiset(deps, x);
  }

  lemma {:induction false} RedirectedStep(deps: seq<Id>, kept: multiset<Id>, rest: multiset<Id>, unions: set<Id>,
                                          x: Id, u: Id)
    requires multiset(deps) == kept + (multiset{x} + rest) + multiset(unions) && u !in kept && u !in rest
    ensures var left := RemoveFirst(deps, x);
            multiset(if u in left then left else left + [u]) == kept + rest + multiset(unions + {u})
  {
    hide RemoveFirst;
    TakenOut(deps, kept, rest, multiset(unions), x);
    var left := RemoveFirst(deps, x);
    assert u in left <==> u in multiset(left);
    if u in left {
      assert unions + {u} == unions;
    } else {
      assert multiset(unions + {u}) == multiset(unions) + multiset{u};
      assert multiset(left + [u]) == multiset(left) + multiset{u};
    }
  }

  lemma {:induction false} RewireMoreIds(n: TypedNode, ds: seq<Dependency>, parents: set<Id>, j: nat)
    requires ClearOf(ds, parents) && j < |ds|
    requires multiset(n.dependsOn) == PartlyRewiredIds(ds, parents, j)
    ensures multiset(RedirectOne(n, ds[j], parents).dependsOn) == PartlyRewiredIds(ds, parents, j + 1)
  {
    var d, kept, unions, rest := ds[j], KeptIds(ds[..j], parents), RedirectedIds(ds[..j], parents), DepIds(ds[j + 1..]);
    ListsAfter(ds, parents, j);
    hide KeptIds, RedirectedIds;
    if Redirected(d, parents) {
      UnionNotKept(ds, parents, j);
      MultisetOfRest(ds, parents, j);
      RedirectedStep(n.dependsOn, multiset(kept), multiset(rest), Elems(unions), d.nodeId, UnionId(d.nodeId));
      ElemsSnoc(unions, UnionId(d.nodeId));
      hide *;
    } else {
      KeptStep(kept, d.nodeId, rest, Elems(unions));
      RestAfter(ds, j);
      hide *;
    }
  }

  lemma {:induction false} MultisetOfRest(ds: seq<Dependency>, parents: set<Id>, j: nat)
    requires j < |ds|
    ensures PartlyRewiredIds(ds, parents, j)
         == multiset(KeptIds(ds[..j], parents)) + (multiset{ds[j].nodeId} + multiset(DepIds(ds[j + 1..])))
            + multiset(Elems(RedirectedIds(ds[..j], parents)))
  {
    hide KeptIds, RedirectedIds;
    RestAfter(ds, j);
  }

  lemma ElemsSnoc(s: seq<Id>, x: Id)
    ensures Elems(s + [x]) == Elems(s) + {x}
  {
  }

  lemma KeptStep(kept: seq<Id>, x: Id, rest: seq<Id>, unions: set<Id>)
    ensures multiset(kept) + multiset([x] + rest) + multiset(unions)
         == multiset(kept + [x]) + multiset(rest) + multiset(unions)
  {
  }

  lemma {:induction false} ListsAfter(ds: seq<Dependency>, parents: set<Id>, j: nat)
    requires j < |ds|
    ensures KeptIds(ds[..j + 1], parents)
         == KeptIds(ds[..j], parents) + if Redirected(ds[j], parents) then [] else [ds[j].nodeId]
    ensures RedirectedIds(ds[..j + 1], parents)
         == RedirectedIds(ds[..j], parents) + if Redirected(ds[j], parents) then [UnionId(ds[j].nodeId)] else []
  {
    assert ds[..j + 1][..j] == ds[..j] && ds[..j + 1][j] == ds[j];
  }

  lemma NothingRewired(ds: seq<Dependency>, parents: set<Id>)
    ensures PartlyRewiredIds(ds, parents, 0) == multiset(DepIds(ds))
  {
    assert ds[0..] == ds;
  }

  lemma {:induction false} RedirectNext(n: TypedNode, ds: seq<Dependency>, parents: set<Id>, j: nat)
    requires j < |ds|
    ensures RedirectAll(n, ds[..j + 1], parents) == RedirectOne(RedirectAll(n, ds[..j], parents), ds[j], parents)
  {
    hide RedirectOne;
    assert ds[..j + 1][..j] == ds[..j] && ds[..j + 1][j] == ds[j];
  }

  lemma RedirectNone(n: TypedNode, ds: seq<Dependency>, parents: set<Id>)
    ensures RedirectAll(n, ds[..0], parents) == n
  {
  }

  lemma {:induction false} RedirectIdsUpTo(n: TypedNode, ds: seq<Dependency>, parents: set<Id>, j: nat)
    requires ClearOf(ds, parents) && j <= |ds| && n.dependsOn == DepIds(ds)
    ensures multiset(RedirectAll(n, ds[..j], parents).dependsOn) == PartlyRewiredIds(ds, parents, j)
  {
    hide PartlyRewiredIds, ClearOf, RedirectOne, RedirectAll;
    if j == 0 {
      RedirectNone(n, ds, parents);
      NothingRewired(ds, parents);
    } else {
      RedirectIdsUpTo(n, ds, parents, j - 1);
      RedirectNext(n, ds, parents, j - 1);
      RewireMoreIds(RedirectAll(n, ds[..j - 1], parents), ds, parents, j - 1);
    }
  }

  /** Only edges and the geometry reference change, and the last redirected dependency sets the latter. */
  lemma {:induction false} RedirectRef(n: TypedNode, ds: seq<Dependency>, parents: set<Id>)
    ensures var m := RedirectAll(n, ds, parents); m == Rewired(n, ds, parents).(dependsOn := m.dependsOn)
  {
    if ds != [] {
      RedirectRef(n, ds[..|ds| - 1], parents);
    }
  }

  /** The node after the loop over the first `j` dependencies. */
  function PartlyRewired(n: TypedNode, ds: seq<Dependency>, parents: set<Id>, j: nat): TypedNode
    requires j <= |ds|
  {
    n.(dependsOn := KeptIds(ds[..j], parents) + DepIds(ds[j..]) + RedirectedIds(ds[..j], parents),
       geometryRef := if n.HasGeometryField() then RedirectedRef(ds[..j], parents, n.geometryRef) else n.geometryRef)
  }

  /** Taking `x` out of its place and appending `u` at the end. */
  lemma {:induction false} Replaced(kept: seq<Id>, x: Id, rest: seq<Id>, unions: seq<Id>, u: Id)
    requires x !in kept && u !in kept + rest && u !in unions
    ensures var left := RemoveFirst(kept + ([x] + rest) + unions, x);
            u !in left && left + [u] == kept + rest + (unions + [u])
  {
    assert kept + ([x] + rest) + unions == kept + [x] + (rest + unions);
    RemoveFirstMiddle(kept, x, rest + unions);
    assert kept + (rest + unions) + [u] == kept + rest + (unions + [u]);
    assert forall y :: y in kept + (rest + unions) ==> y in kept + rest || y in unions;
  }

  lemma Stayed(kept: seq<Id>, x: Id, rest: seq<Id>, unions: seq<Id>)
    ensures kept + ([x] + rest) + unions == (kept + [x]) + rest + (unions + [])
    ensures kept + [] == kept
  {
  }

  lemma {:induction false} RewireOneMore(n: TypedNode, ds: seq<Dependency>, parents: set<Id>, j: nat)
    requires Distinct(DepIds(ds)) && ClearOf(ds, parents) && j < |ds|
    ensures RedirectOne(PartlyRewired(n, ds, parents, j), ds[j], parents) == PartlyRewired(n, ds, parents, j + 1)
  {
    hide Distinct, ClearOf, KeptIds, RedirectedIds, RedirectedRef, RemoveFirst;
    var d := ds[j];
    var kept, rest, unions := KeptIds(ds[..j], parents), DepIds(ds[j + 1..]), RedirectedIds(ds[..j], parents);
    ListsAfter(ds, parents, j);
    RefAfter(ds, parents, j, n.geometryRef);
    RestAfter(ds, j);
    Stayed(kept, d.nodeId, rest, unions);
    if Redirected(d, parents) {
      NothingComesBack(ds, parents, j);
      UnionNotKept(ds, parents, j);
      Replaced(kept, d.nodeId, rest, unions, UnionId(d.nodeId));
    }
  }

  lemma {:induction false} RefAfter(ds: seq<Dependency>, parents: set<Id>, j: nat, before: Option<string>)
    requires j < |ds|
    ensures RedirectedRef(ds[..j + 1], parents, before) ==
            if Redirected(ds[j], parents) then Some(UnionKey(ds[j].nodeId)) else RedirectedRef(ds[..j], parents, before)
  {
    assert ds[..j + 1][..j] == ds[..j] && ds[..j + 1][j] == ds[j];
  }

  lemma {:induction false} RedirectUpTo(n: TypedNode, ds: seq<Dependency>, parents: set<Id>, j: nat)
    requires Distinct(DepIds(ds)) && ClearOf(ds, parents) && j <= |ds| && n.dependsOn == DepIds(ds)
    ensures RedirectAll(n, ds[..j], parents) == PartlyRewired(n, ds, parents, j)
  {
    hide PartlyRewired, ClearOf, RedirectOne, RedirectAll, Distinct;
    if j == 0 {
      RedirectNone(n, ds, parents);
      NotYetRewired(n, ds, parents);
    } else {
      RedirectUpTo(n, ds, parents, j - 1);
      RedirectNext(n, ds, parents, j - 1);
      RewireOneMore(n, ds, parents, j - 1);
    }
  }

  lemma NotYetRewired(n: TypedNode, ds: seq<Dependency>, parents: set<Id>)
    requires n.dependsOn == DepIds(ds)
    ensures PartlyRewired(n, ds, parents, 0) == n
  {
    assert [] + DepIds(ds[0..]) + [] == DepIds(ds);
  }

  /**
   Removing and appending in place, dependency by dependency, also when a dependency is listed twice: what is
   kept stays as often as it is kept, each union comes in once, and the last redirection sets the reference.
   */
  lemma {:induction false} RedirectAllIsRewired(n: TypedNode, ds: seq<Dependency>, parents: set<Id>)
    requires ClearOf(ds, parents) && n.dependsOn == DepIds(ds)
    ensures IsRewired(n, ds, parents, RedirectAll(n, ds, parents))
  {
    hide RedirectAll, KeptIds, RedirectedIds, RedirectedRef, ClearOf;
    assert ds[..|ds|] == ds;
    assert DepIds(ds[|ds|..]) == [];
    RedirectIdsUpTo(n, ds, parents, |ds|);
    RedirectRef(n, ds, parents);
    if Distinct(DepIds(ds)) {
      RedirectUpTo(n, ds, parents, |ds|);
      assert KeptIds(ds, parents) + [] == KeptIds(ds, parents);
    }
  }

  lemma {:induction false} RedirectByOther(n: TypedNode, id: Id, flats: seq<FlatNode>, parents: set<Id>)
    requires id !in Ids(flats)
    ensures RedirectBy(n, id, flats, parents) == n
  {
    if flats != [] {
      var before := flats[..|flats| - 1];
      assert Ids(flats)[|flats| - 1] == flats[|flats| - 1].nodeId;
      assert forall x :: x in Ids(before) ==> x in Ids(flats) by {
        assert Ids(before) == Ids(flats)[..|flats| - 1];
      }
      RedirectByOther(n, id, before, parents);
    }
  }

  lemma {:induction false} RedirectByOwn(n: TypedNode, flats: seq<FlatNode>, i: nat, parents: set<Id>)
    requires Distinct(Ids(flats)) && i < |flats|
    ensures RedirectBy(n, flats[i].nodeId, flats, parents) == RedirectAll(n, flats[i].dependOn, parents)
  {
    var last := |flats| - 1;
    var ids, before := Ids(flats), flats[..last];
    assert Ids(before) == ids[..last];
    if i == last {
      assert ids[last] !in ids[..last];
      RedirectByOther(n, flats[i].nodeId, before, parents);
    } else {
      assert ids[i] != ids[last];
      RedirectByOwn(n, before, i, parents);
    }
  }

  // ---- All three passes -------------------------------------------------------------------

  lemma {:induction false} CreatedDeps(f: FlatNode)
    requires CreateTypedNode(f).Success?
    ensures CreateTypedNode(f).value.dependsOn == DepIds(f.dependOn)
  {
  }

  /** An injected union never takes the place of a node of the plan, and no node of the plan depends on one. */
  lemma {:induction false} UnionsStayClear(flats: seq<FlatNode>, p: Id)
    requires WellNamed(flats) && p in UnionParents(flats)
    ensures UnionId(p) !in Ids(flats)
    ensures forall i :: 0 <= i < |flats| ==> UnionId(p) !in DepIds(flats[i].dependOn)
  {
  }

  lemma {:induction false} NodeExpanded(flats: seq<FlatNode>, created: NodeDict, injected: NodeDict,
                                        unions: map<Id, string>, after: NodeDict, i: nat)
    requires WellNamed(flats) && i < |flats| && unions.Keys == UnionParents(flats)
    requires Created(flats, created) && Injected(created, injected, unions)
    requires RedirectedDict(injected, after, flats, unions.Keys)
    ensures flats[i].nodeId in after.byId && CreateTypedNode(flats[i]).Success?
    ensures IsRewired(CreateTypedNode(flats[i]).value, flats[i].dependOn, unions.Keys, after.byId[flats[i].nodeId])
  {
    hide CreateTypedNode, RedirectBy, RedirectAll, Rewired, IsRewired, UnionParents;
    var f := flats[i];
    assert LastWithItsId(flats, i) by {
      forall j | i < j < |flats| ensures flats[j].nodeId != f.nodeId {
        assert Ids(flats)[i] != Ids(flats)[j];
      }
    }
    assert Ids(flats)[i] == f.nodeId;
    forall p | p in unions ensures f.nodeId != UnionId(p) && UnionId(p) !in DepIds(f.dependOn) {
      UnionsStayClear(flats, p);
    }
    var n := CreateTypedNode(f).value;
    assert injected.byId[f.nodeId] == n;
    RedirectByOwn(n, flats, i, unions.Keys);
    CreatedDeps(f);
    RedirectAllIsRewired(n, f.dependOn, unions.Keys);
  }

  lemma {:induction false} UnionExpanded(flats: seq<FlatNode>, created: NodeDict, injected: NodeDict,
                                         unions: map<Id, string>, after: NodeDict, p: Id)
    requires WellNamed(flats) && unions.Keys == UnionParents(flats) && p in unions
    requires Injected(created, injected, unions)
    requires RedirectedDict(injected, after, flats, unions.Keys)
    ensures UnionId(p) in after.byId && after.byId[UnionId(p)] == UnionNodeFor(p)
  {
    UnionsStayClear(flats, p);
    RedirectByOther(UnionNodeFor(p), UnionId(p), flats, unions.Keys);
  }

  lemma {:induction false} PassesShape(flats: seq<FlatNode>, created: NodeDict, injected: NodeDict,
                                       unions: map<Id, string>, after: NodeDict)
    requires Distinct(Ids(flats))
    requires created.order == FirstOccurrences(Ids(flats)) && created.byId.Keys == Elems(Ids(flats))
    requires Injected(created, injected, unions)
    requires RedirectedDict(injected, after, flats, unions.Keys)
    ensures after.IsDict() && NothingElse(flats, after, unions.Keys)
  {
    hide RedirectBy, UnionNodeFor, UnionKey, FirstOccurrences, UnionId, Distinct;
    FirstOccurrencesOfDistinct(Ids(flats));
    forall id ensures id in created.byId <==> id in Ids(flats) {
      assert id in created.byId.Keys <==> id in Elems(Ids(flats));
    }
  }

  lemma CreatedShape(flats: seq<FlatNode>, created: NodeDict)
    requires Created(flats, created)
    ensures created.order == FirstOccurrences(Ids(flats)) && created.byId.Keys == Elems(Ids(flats))
  {
  }

  lemma {:induction false} PassesExpand(flats: seq<FlatNode>, created: NodeDict, injected: NodeDict,
                                        unions: map<Id, string>, after: NodeDict)
    requires WellNamed(flats)
    requires Created(flats, created) && Injected(created, injected, unions)
    requires unions.Keys == UnionParents(flats)
    requires RedirectedDict(injected, after, flats, unions.Keys)
    ensures IsExpansion(flats, after)
  {
    hide Created, Injected, RedirectedDict, CreateTypedNode, RedirectBy, IsRewired, UnionParents, NothingElse;
    CreatedShape(flats, created);
    PassesShape(flats, created, injected, unions, after);
    assert NodesExpanded(flats, after, unions.Keys) by {
      forall i | 0 <= i < |flats|
        ensures flats[i].nodeId in after.byId && CreateTypedNode(flats[i]).Success?
        ensures IsRewired(CreateTypedNode(flats[i]).value, flats[i].dependOn, unions.Keys, after.byId[flats[i].nodeId])
      {
        NodeExpanded(flats, created, injected, unions, after, i);
      }
    }
    assert UnionsAdded(after, unions.Keys) by {
      forall p | p in unions
        ensures UnionId(p) in after.byId && after.byId[UnionId(p)] == UnionNodeFor(p)
      {
        UnionExpanded(flats, created, injected, unions, after, p);
      }
    }
  }

  /** `nodes` is what the three passes make of the plan, whatever its ids are. */
  ghost predicate ThreePasses(flats: seq<FlatNode>, nodes: NodeDict) {
    exists created, injected, unions :: PassedThrough(flats, created, injected, unions, nodes)
  }

  ghost predicate PassedThrough(flats: seq<FlatNode>, created: NodeDict, injected: NodeDict,
                                unions: map<Id, string>, nodes: NodeDict) {
    && Created(flats, created)
    && unions.Keys == UnionParents(flats)
    && Injected(created, injected, unions)
    && RedirectedDict(injected, nodes, flats, UnionParents(flats))
  }

  method ExpandFlatNodes(flats: seq<FlatNode>) returns (r: Result<NodeDict, ExpansionError>)
    ensures r.Failure? <==> exists i :: 0 <= i < |flats| && CreateTypedNode(flats[i]).Failure?
    ensures r.Failure? ==> exists i: nat :: FirstBad(flats, i) && r.error == CreateTypedNode(flats[i]).error
    ensures r.Failure? <==> !AllTypable(flats)
    ensures r.Failure? ==> FirstRefusal(flats, r.error)
    ensures r.Success? ==> r.value.IsDict() && ThreePasses(flats, r.value)
    ensures r.Success? && WellNamed(flats) ==> IsExpansion(flats, r.value) && IsDescribed(flats, r.value)
  {
    var queries;
    r, queries := CreateAll(flats);
    if r.Success? {
      var created := r.value;
      var injected, unions := InjectUnions(flats, created, queries);
      assert forall f :: f in flats ==> f.nodeId in injected.byId by {
        forall f | f in flats ensures f.nodeId in injected.byId {
          assert Ids(flats)[IndexOf(flats, f)] in Elems(Ids(flats));
        }
      }
      var nodes := RedirectEdges(flats, injected, unions);
      if WellNamed(flats) {
        PassesExpand(flats, created, injected, unions, nodes);
        ExpansionDescribed(flats, nodes);
      }
      assert PassedThrough(flats, created, injected, unions, nodes);
      r := Success(nodes);
    }
  }
}
