/** What expansion preserves: dependency meaning, validity, resolvable references, distinct outputs. */
module Expansion {
  import opened Collections
  import opened Graphs
  import opened Nodes
  import opened FlatPlans
  import opened Expander

  function Lookup(flats: seq<FlatNode>, id: Id): FlatNode
    requires id in Ids(flats)
  {
    flats[IndexOf(Ids(flats), id)]
  }

  /** The dependency graph of the plan as the LLM wrote it. */
  function FlatGraph(flats: seq<FlatNode>): Graph {
    Graph(Ids(flats), map id | id in Ids(flats) :: DepIds(Lookup(flats, id).dependOn))
  }

  lemma {:induction false} LookupAt(flats: seq<FlatNode>, i: nat)
    requires Distinct(Ids(flats)) && i < |flats|
    ensures flats[i].nodeId in Ids(flats) && Lookup(flats, flats[i].nodeId) == flats[i]
  {
    assert Ids(flats)[i] == flats[i].nodeId;
  }

  // ---- Edges ------------------------------------------------------------------------------

  /** The query a union node was injected for. */
  function ParentOf(x: Id): Id {
    if HasUnionPrefix(x) then Id(x.name[|"_union_"|..]) else x
  }

  lemma {:induction false} ParentOfUnion(p: Id)
    ensures ParentOf(UnionId(p)) == p
  {
    UnionIdInjective(p, p);
    assert UnionId(p).name[|"_union_"|..] == p.name;
  }

  /** The ids of the injected nodes. */
  ghost function UnionIds(flats: seq<FlatNode>): set<Id> {
    set p | p in UnionParents(flats) :: UnionId(p)
  }

  lemma {:induction false} UnionIdsIff(flats: seq<FlatNode>, x: Id)
    ensures x in UnionIds(flats) <==> x == UnionId(ParentOf(x)) && ParentOf(x) in UnionParents(flats)
  {
    if p :| p in UnionParents(flats) && x == UnionId(p) {
      ParentOfUnion(p);
    }
  }

  /** Every edge of `f` is an edge of `e`, or a detour of two edges through an injected node. */
  ghost predicate EdgesLift(f: Graph, e: Graph, injected: set<Id>) {
    forall v, u {:trigger u in f.Deps(v)} :: v !in injected && u in f.Deps(v) ==>
      u !in injected && (u in e.Deps(v) || (UnionId(u) in e.Deps(v) && e.Deps(UnionId(u)) == [u]))
  }

  /** Every edge of `e` out of an original node is an edge of `f` or starts such a detour. */
  ghost predicate EdgesCollapse(f: Graph, e: Graph, injected: set<Id>) {
    forall v, x {:trigger x in e.Deps(v)} :: v !in injected && x in e.Deps(v) ==> EdgeCollapses(f, e, injected, v, x)
  }

  ghost predicate EdgeCollapses(f: Graph, e: Graph, injected: set<Id>, v: Id, x: Id) {
    if x in injected then ParentOf(x) in f.Deps(v) && ParentOf(x) !in injected && e.Deps(x) == [ParentOf(x)]
    else x in f.Deps(v)
  }

  lemma {:induction false} WalkLifts(f: Graph, e: Graph, injected: set<Id>, u: Id, v: Id, k: nat) returns (m: nat)
    requires EdgesLift(f, e, injected) && v !in injected && Walk(f, u, v, k)
    ensures m >= k && Walk(e, u, v, m)
    decreases k
  {
    if k == 0 {
      m := 0;
    } else {
      var d :| d in f.Deps(v) && Walk(f, u, d, k - 1);
      m := WalkLifts(f, e, injected, u, d, k - 1);
      if d in e.Deps(v) {
        m := m + 1;
      } else {
        assert d in e.Deps(UnionId(d));
        assert Walk(e, u, UnionId(d), m + 1);
        m := m + 2;
      }
    }
  }

  lemma {:induction false} WalkCollapses(f: Graph, e: Graph, injected: set<Id>, u: Id, v: Id, k: nat) returns (m: nat)
    requires EdgesCollapse(f, e, injected) && u !in injected && v !in injected && Walk(e, u, v, k)
    ensures Walk(f, u, v, m) && (k > 0 ==> m > 0)
    decreases k
  {
    if k == 0 {
      m := 0;
    } else {
      var x :| x in e.Deps(v) && Walk(e, u, x, k - 1);
      if x in injected {
        assert k - 1 > 0;
        var d :| d in e.Deps(x) && Walk(e, u, d, k - 2);
        assert d == ParentOf(x);
        m := WalkCollapses(f, e, injected, u, d, k - 2);
      } else {
        m := WalkCollapses(f, e, injected, u, x, k - 1);
      }
      m := m + 1;
    }
  }

  /** The dependencies of a plan node before and after expansion. */
  lemma {:induction false} NodeEdges(flats: seq<FlatNode>, nodes: NodeDict, i: nat)
    requires WellNamed(flats) && IsExpansion(flats, nodes) && i < |flats|
    ensures FlatGraph(flats).Deps(flats[i].nodeId) == DepIds(flats[i].dependOn)
    ensures multiset(DependencyGraph(nodes).Deps(flats[i].nodeId))
         == multiset(KeptIds(flats[i].dependOn, UnionParents(flats)))
            + multiset(Elems(RedirectedIds(flats[i].dependOn, UnionParents(flats))))
  {
    hide KeptIds, RedirectedIds, CreateTypedNode, UnionParents, Rewired;
    LookupAt(flats, i);
    assert IsRewired(CreateTypedNode(flats[i]).value, flats[i].dependOn, UnionParents(flats),
                     nodes.byId[flats[i].nodeId]);
  }

  lemma {:induction false} NodeEdgeIff(flats: seq<FlatNode>, nodes: NodeDict, i: nat, x: Id)
    requires WellNamed(flats) && IsExpansion(flats, nodes) && i < |flats|
    ensures x in DependencyGraph(nodes).Deps(flats[i].nodeId) <==>
            || (exists j: nat :: KeptAt(flats[i].dependOn, UnionParents(flats), j, x))
            || (exists j: nat :: RedirectedAt(flats[i].dependOn, UnionParents(flats), j, x))
  {
    hide IsExpansion, WellNamed, KeptAt, RedirectedAt, KeptIds, RedirectedIds, DependencyGraph, UnionParents;
    var deps := DependencyGraph(nodes).Deps(flats[i].nodeId);
    NodeEdges(flats, nodes, i);
    KeptIff(flats[i].dependOn, UnionParents(flats), x);
    RedirectedIff(flats[i].dependOn, UnionParents(flats), x);
    assert x in deps <==> x in multiset(deps);
  }

  lemma {:induction false} UnionEdges(flats: seq<FlatNode>, nodes: NodeDict, p: Id)
    requires IsExpansion(flats, nodes) && p in UnionParents(flats)
    ensures UnionId(p) in DependencyGraph(nodes).deps && DependencyGraph(nodes).Deps(UnionId(p)) == [p]
  {
  }

  /** A name that is neither in the plan nor injected has no edges on either side. */
  lemma {:induction false} NoEdges(flats: seq<FlatNode>, nodes: NodeDict, v: Id)
    requires IsExpansion(flats, nodes) && v !in Ids(flats) && v !in UnionIds(flats)
    ensures FlatGraph(flats).Deps(v) == [] && DependencyGraph(nodes).Deps(v) == []
    ensures v !in DependencyGraph(nodes).deps
  {
  }

  /** What the plan mentions is not injected. */
  lemma {:induction false} MentionedNotInjected(flats: seq<FlatNode>, x: Id)
    requires WellNamed(flats) && Mentions(flats, x)
    ensures x !in UnionIds(flats)
  {
    hide Mentions;
  }

  lemma {:induction false} DepMentioned(flats: seq<FlatNode>, i: nat, j: nat)
    requires i < |flats| && j < |flats[i].dependOn|
    ensures Mentions(flats, flats[i].dependOn[j].nodeId)
    ensures flats[i].dependOn[j].nodeId in DepIds(flats[i].dependOn)
  {
    assert DepIds(flats[i].dependOn)[j] == flats[i].dependOn[j].nodeId;
  }

  lemma {:induction false} PlanEdgeLifts(flats: seq<FlatNode>, nodes: NodeDict, i: nat, j: nat)
    requires WellNamed(flats) && IsExpansion(flats, nodes) && i < |flats| && j < |flats[i].dependOn|
    ensures var u, e := flats[i].dependOn[j].nodeId, DependencyGraph(nodes);
            && u !in UnionIds(flats)
            && (u in e.Deps(flats[i].nodeId)
                || (UnionId(u) in e.Deps(flats[i].nodeId) && e.Deps(UnionId(u)) == [u]))
  {
    hide IsExpansion, WellNamed, UnionParents, Mentions, UnionIds, DependencyGraph;
    var d := flats[i].dependOn[j];
    DepMentioned(flats, i, j);
    MentionedNotInjected(flats, d.nodeId);
    if Redirected(d, UnionParents(flats)) {
      assert RedirectedAt(flats[i].dependOn, UnionParents(flats), j, UnionId(d.nodeId));
      NodeEdgeIff(flats, nodes, i, UnionId(d.nodeId));
      UnionEdges(flats, nodes, d.nodeId);
    } else {
      assert KeptAt(flats[i].dependOn, UnionParents(flats), j, d.nodeId);
      NodeEdgeIff(flats, nodes, i, d.nodeId);
    }
  }

  lemma {:induction false} ExpansionLifts(flats: seq<FlatNode>, nodes: NodeDict)
    requires WellNamed(flats) && IsExpansion(flats, nodes)
    ensures EdgesLift(FlatGraph(flats), DependencyGraph(nodes), UnionIds(flats))
  {
    hide IsExpansion, WellNamed, UnionParents, UnionIds, DependencyGraph, FlatGraph;
    var f, e := FlatGraph(flats), DependencyGraph(nodes);
    forall v, u | v !in UnionIds(flats) && u in f.Deps(v)
      ensures u !in UnionIds(flats) && (u in e.Deps(v) || (UnionId(u) in e.Deps(v) && e.Deps(UnionId(u)) == [u]))
    {
      if v !in Ids(flats) {
        NoEdges(flats, nodes, v);
      } else {
        var i := IndexOf(Ids(flats), v);
        NodeEdges(flats, nodes, i);
        PlanEdgeLifts(flats, nodes, i, IndexOf(DepIds(flats[i].dependOn), u));
      }
    }
  }

  lemma {:induction false} PlanEdgeCollapses(flats: seq<FlatNode>, nodes: NodeDict, i: nat, x: Id)
    requires WellNamed(flats) && IsExpansion(flats, nodes) && i < |flats|
    requires x in DependencyGraph(nodes).Deps(flats[i].nodeId)
    ensures if x in UnionIds(flats)
            then ParentOf(x) in DepIds(flats[i].dependOn) && ParentOf(x) !in UnionIds(flats)
                 && DependencyGraph(nodes).Deps(x) == [ParentOf(x)]
            else x in DepIds(flats[i].dependOn)
  {
    hide IsExpansion, WellNamed, UnionParents, Mentions, UnionIds, DependencyGraph;
    var ds, parents := flats[i].dependOn, UnionParents(flats);
    NodeEdgeIff(flats, nodes, i, x);
    if j: nat :| KeptAt(ds, parents, j, x) {
      DepMentioned(flats, i, j);
      MentionedNotInjected(flats, x);
    } else {
      var j: nat :| RedirectedAt(ds, parents, j, x);
      DepMentioned(flats, i, j);
      MentionedNotInjected(flats, ds[j].nodeId);
      ParentOfUnion(ds[j].nodeId);
      UnionIdsIff(flats, x);
      UnionEdges(flats, nodes, ds[j].nodeId);
    }
  }

  lemma {:induction false} ExpansionCollapses(flats: seq<FlatNode>, nodes: NodeDict)
    requires WellNamed(flats) && IsExpansion(flats, nodes)
    ensures EdgesCollapse(FlatGraph(flats), DependencyGraph(nodes), UnionIds(flats))
  {
    hide IsExpansion, WellNamed, UnionParents, UnionIds, DependencyGraph, FlatGraph;
    var f, e := FlatGraph(flats), DependencyGraph(nodes);
    forall v, x | v !in UnionIds(flats) && x in e.Deps(v)
      ensures EdgeCollapses(f, e, UnionIds(flats), v, x)
    {
      if v !in Ids(flats) {
        NoEdges(flats, nodes, v);
      } else {
        var i := IndexOf(Ids(flats), v);
        NodeEdges(flats, nodes, i);
        PlanEdgeCollapses(flats, nodes, i, x);
      }
    }
  }

  /** Between nodes of the plan, "transitively depends on" means the same before and after expansion. */
  lemma {:induction false} DependencyPreserved(flats: seq<FlatNode>, nodes: NodeDict, u: Id, v: Id)
    requires WellNamed(flats) && IsExpansion(flats, nodes)
    requires u !in UnionIds(flats) && v !in UnionIds(flats)
    ensures DependsOn(DependencyGraph(nodes), v, u) <==> DependsOn(FlatGraph(flats), v, u)
  {
    hide IsExpansion, WellNamed, EdgesLift, EdgesCollapse, UnionIds, FlatGraph, DependencyGraph;
    var f, e := FlatGraph(flats), DependencyGraph(nodes);
    ExpansionLifts(flats, nodes);
    ExpansionCollapses(flats, nodes);
    if DependsOn(f, v, u) {
      var k: nat :| k > 0 && Walk(f, u, v, k);
      var m := WalkLifts(f, e, UnionIds(flats), u, v, k);
    }
    if DependsOn(e, v, u) {
      var k: nat :| k > 0 && Walk(e, u, v, k);
      var m := WalkCollapses(f, e, UnionIds(flats), u, v, k);
    }
  }

  // ---- Validity ---------------------------------------------------------------------------

  lemma {:induction false} ExpandedIsDict(flats: seq<FlatNode>, nodes: NodeDict)
    requires IsExpansion(flats, nodes)
    ensures DependencyGraph(nodes).IsDict()
    ensures DependencyGraph(nodes).order == [] <==> flats == []
  {
    assert Ids(flats) <= nodes.order;
    if flats == [] {
      assert UnionParents(flats) == {};
      assert nodes.byId.Keys == {};
      DistinctCard(nodes.order);
    }
  }

  /** A node of the expanded graph is a node of the plan or an injected union. */
  lemma {:induction false} NodeCases(flats: seq<FlatNode>, nodes: NodeDict, v: Id)
    requires WellNamed(flats) && IsExpansion(flats, nodes) && v in nodes.byId
    ensures if v in UnionIds(flats) then v == UnionId(ParentOf(v)) && ParentOf(v) in UnionParents(flats)
            else v in Ids(flats)
  {
    UnionIdsIff(flats, v);
  }

  lemma {:induction false} PlanNodeNotInjected(flats: seq<FlatNode>, v: Id)
    requires WellNamed(flats) && v in Ids(flats)
    ensures v !in UnionIds(flats)
  {
    MentionedNotInjected(flats, v);
  }

  lemma {:induction false} ClosedPreserved(flats: seq<FlatNode>, nodes: NodeDict)
    requires WellNamed(flats) && IsExpansion(flats, nodes)
    ensures DependencyGraph(nodes).Closed() <==> FlatGraph(flats).Closed()
  {
    hide IsExpansion, WellNamed, EdgesLift, EdgesCollapse, UnionIds;
    var f, e := FlatGraph(flats), DependencyGraph(nodes);
    ExpansionLifts(flats, nodes);
    ExpansionCollapses(flats, nodes);
    if f.Closed() {
      forall v, x | v in e.deps && x in e.deps[v]
        ensures x in e.deps
      {
        ExpandedEdgeEnds(flats, nodes, v, x);
      }
    }
    if e.Closed() {
      forall v, u | v in f.deps && u in f.deps[v]
        ensures u in f.deps
      {
        FlatEdgeEnds(flats, nodes, v, u);
      }
    }
  }

  lemma UnionParentInPlan(flats: seq<FlatNode>, nodes: NodeDict, p: Id)
    requires IsExpansion(flats, nodes) && p in UnionParents(flats)
    ensures p in Ids(flats) && p in nodes.byId
  {
  }

  lemma PlanInExpansion(flats: seq<FlatNode>, nodes: NodeDict, v: Id)
    requires IsExpansion(flats, nodes) && v in Ids(flats)
    ensures v in nodes.byId
  {
  }

  lemma {:induction false} ExpandedEdgeEnds(flats: seq<FlatNode>, nodes: NodeDict, v: Id, x: Id)
    requires WellNamed(flats) && IsExpansion(flats, nodes)
    requires EdgesCollapse(FlatGraph(flats), DependencyGraph(nodes), UnionIds(flats)) && FlatGraph(flats).Closed()
    requires v in nodes.byId && x in DependencyGraph(nodes).Deps(v)
    ensures x in nodes.byId
  {
    hide IsExpansion, WellNamed, UnionParents, UnionIds;
    NodeCases(flats, nodes, v);
    if v in UnionIds(flats) {
      UnionEdges(flats, nodes, ParentOf(v));
      assert x == ParentOf(v);
      UnionParentInPlan(flats, nodes, x);
    } else if x in UnionIds(flats) {
      assert DependencyGraph(nodes).Deps(x) == [ParentOf(x)];
      assert x in DependencyGraph(nodes).deps;
    } else {
      assert x in FlatGraph(flats).Deps(v);
      assert x in FlatGraph(flats).deps;
      PlanInExpansion(flats, nodes, x);
    }
  }

  lemma {:induction false} FlatEdgeEnds(flats: seq<FlatNode>, nodes: NodeDict, v: Id, u: Id)
    requires WellNamed(flats) && IsExpansion(flats, nodes)
    requires EdgesLift(FlatGraph(flats), DependencyGraph(nodes), UnionIds(flats)) && DependencyGraph(nodes).Closed()
    requires v in Ids(flats) && u in FlatGraph(flats).Deps(v)
    ensures u in Ids(flats)
  {
    hide IsExpansion, WellNamed, UnionParents, UnionIds, FlatGraph;
    var e := DependencyGraph(nodes);
    PlanInExpansion(flats, nodes, v);
    PlanNodeNotInjected(flats, v);
    assert u !in UnionIds(flats);
    if u !in e.Deps(v) {
      assert UnionId(u) in e.deps;
      assert u in e.deps[UnionId(u)];
    }
    assert u in e.deps;
    NodeCases(flats, nodes, u);
  }

  /** No node lists the same dependency twice, other than by spatial joins with a query that gets a union. */
  ghost predicate KeptOnce(flats: seq<FlatNode>) {
    forall i :: 0 <= i < |flats| ==> Distinct(KeptIds(flats[i].dependOn, UnionParents(flats)))
  }

  lemma {:induction false} DistinctByMultiset(s: seq<Id>)
    ensures Distinct(s) <==> multiset(s) == multiset(Elems(s))
  {
    if s != [] {
      var rest := s[1..];
      assert s == [s[0]] + rest;
      assert Elems(s) == {s[0]} + Elems(rest);
      DistinctByMultiset(rest);
      if s[0] in rest {
        assert Elems(s) == Elems(rest);
        assert multiset(s)[s[0]] > multiset(Elems(s))[s[0]];
      } else {
        assert multiset(Elems(rest)) == multiset(Elems(s)) - multiset{s[0]};
        assert multiset(rest) == multiset(s) - multiset{s[0]};
        assert multiset(s) == multiset{s[0]} + multiset(rest);
        assert multiset(Elems(s)) == multiset{s[0]} + multiset(Elems(rest));
        DistinctTail(s);
      }
    }
  }

  lemma {:induction false} DistinctTail(s: seq<Id>)
    requires s != [] && s[0] !in s[1..]
    ensures Distinct(s) <==> Distinct(s[1..])
  {
    if Distinct(s[1..]) {
      DistinctConcat([s[0]], s[1..]);
      assert s == [s[0]] + s[1..];
    }
  }

  /** Adding different elements once each does not create a repetition, nor hide one. */
  lemma {:induction false} DistinctSum(s: seq<Id>, a: seq<Id>, more: set<Id>)
    requires multiset(s) == multiset(a) + multiset(more) && Elems(a) !! more
    ensures Distinct(s) <==> Distinct(a)
  {
    DistinctByMultiset(s);
    DistinctByMultiset(a);
    forall x ensures x in s <==> x in a || x in more {
      assert x in s <==> x in multiset(s);
      assert x in a <==> x in multiset(a);
    }
    assert Elems(s) == Elems(a) + more;
    assert multiset(Elems(a) + more) == multiset(Elems(a)) + multiset(more);
    assert multiset(a) == multiset(s) - multiset(more);
    assert multiset(Elems(a)) == multiset(Elems(s)) - multiset(more);
  }

  lemma {:induction false} NodeDuplicateFree(flats: seq<FlatNode>, nodes: NodeDict, i: nat)
    requires WellNamed(flats) && IsExpansion(flats, nodes) && i < |flats|
    ensures Distinct(DependencyGraph(nodes).Deps(flats[i].nodeId))
       <==> Distinct(KeptIds(flats[i].dependOn, UnionParents(flats)))
  {
    hide IsExpansion, WellNamed, KeptIds, RedirectedIds, UnionParents, UnionIds, DependencyGraph, Distinct;
    var ds, parents := flats[i].dependOn, UnionParents(flats);
    NodeEdges(flats, nodes, i);
    forall x | x in KeptIds(ds, parents) ensures x !in RedirectedIds(ds, parents) {
      KeptIff(ds, parents, x);
      RedirectedIff(ds, parents, x);
      var j: nat :| KeptAt(ds, parents, j, x);
      DepMentioned(flats, i, j);
      MentionedNotInjected(flats, x);
      if m: nat :| RedirectedAt(ds, parents, m, x) {
        UnionInjected(flats, ds[m].nodeId);
      }
    }
    DistinctSum(DependencyGraph(nodes).Deps(flats[i].nodeId), KeptIds(ds, parents), Elems(RedirectedIds(ds, parents)));
  }

  lemma UnionInjected(flats: seq<FlatNode>, p: Id)
    requires p in UnionParents(flats)
    ensures UnionId(p) in UnionIds(flats)
  {
  }

  /** The expanded graph repeats a dependency exactly where the plan does after redirection. */
  lemma {:induction false} DuplicateFreeIff(flats: seq<FlatNode>, nodes: NodeDict)
    requires WellNamed(flats) && IsExpansion(flats, nodes)
    ensures DependencyGraph(nodes).DuplicateFree() <==> KeptOnce(flats)
  {
    hide IsExpansion, WellNamed, KeptIds, UnionParents, UnionIds, Distinct;
    var e := DependencyGraph(nodes);
    if KeptOnce(flats) {
      forall v | v in e.deps ensures Distinct(e.deps[v]) {
        NodeCases(flats, nodes, v);
        if v in UnionIds(flats) {
          UnionEdges(flats, nodes, ParentOf(v));
          OneIsDistinct(ParentOf(v));
        } else {
          NodeDuplicateFree(flats, nodes, IndexOf(Ids(flats), v));
        }
      }
    }
    if e.DuplicateFree() {
      forall i | 0 <= i < |flats| ensures Distinct(KeptIds(flats[i].dependOn, UnionParents(flats))) {
        assert Ids(flats)[i] == flats[i].nodeId;
        PlanInExpansion(flats, nodes, flats[i].nodeId);
        NodeDuplicateFree(flats, nodes, i);
      }
    }
  }

  lemma OneIsDistinct(x: Id)
    ensures Distinct([x])
  {
  }

  lemma {:induction false} AcyclicPreserved(flats: seq<FlatNode>, nodes: NodeDict)
    requires WellNamed(flats) && IsExpansion(flats, nodes)
    ensures Acyclic(DependencyGraph(nodes)) <==> Acyclic(FlatGraph(flats))
  {
    hide IsExpansion, WellNamed, UnionParents, UnionIds, DependsOn;
    var f, e := FlatGraph(flats), DependencyGraph(nodes);
    if Acyclic(e) {
      forall v | v in f.deps ensures !DependsOn(f, v, v) {
        PlanInExpansion(flats, nodes, v);
        PlanNodeNotInjected(flats, v);
        DependencyPreserved(flats, nodes, v, v);
      }
    }
    if Acyclic(f) {
      forall v | v in e.deps ensures !DependsOn(e, v, v) {
        NodeCases(flats, nodes, v);
        if v in UnionIds(flats) {
          UnionNotOnCycle(flats, nodes, ParentOf(v));
        } else {
          DependencyPreserved(flats, nodes, v, v);
        }
      }
    }
  }

  /** A cycle through a union node would be a cycle through its parent. */
  lemma {:induction false} UnionNotOnCycle(flats: seq<FlatNode>, nodes: NodeDict, p: Id)
    requires WellNamed(flats) && IsExpansion(flats, nodes)
    requires Acyclic(FlatGraph(flats)) && p in UnionParents(flats)
    ensures !DependsOn(DependencyGraph(nodes), UnionId(p), UnionId(p))
  {
    hide IsExpansion, WellNamed, UnionIds, UnionParents;
    var e, x := DependencyGraph(nodes), UnionId(p);
    UnionEdges(flats, nodes, p);
    UnionParentInPlan(flats, nodes, p);
    PlanNodeNotInjected(flats, p);
    DependencyPreserved(flats, nodes, p, p);
    forall k: nat | k > 0 ensures !Walk(e, x, x, k) {
      if Walk(e, x, x, k) {
        var d :| d in e.Deps(x) && Walk(e, x, d, k - 1);
        assert d == p && Walk(e, p, p, 0);
        assert Walk(e, p, x, 1);
        WalkConcat(e, p, x, p, 1, k - 1);
        assert false;
      }
    }
  }

  /**
   The expanded graph validates exactly when the plan is non-empty, closed and acyclic, and no node lists a
   dependency twice that stays as it is.
   */
  lemma {:induction false} ExpansionValidIff(flats: seq<FlatNode>, nodes: NodeDict)
    requires WellNamed(flats) && IsExpansion(flats, nodes)
    ensures Valid(DependencyGraph(nodes)) <==>
            flats != [] && FlatGraph(flats).Closed() && KeptOnce(flats) && Acyclic(FlatGraph(flats))
  {
    hide IsExpansion, WellNamed, KeptOnce, Acyclic;
    ExpandedIsDict(flats, nodes);
    ClosedPreserved(flats, nodes);
    DuplicateFreeIff(flats, nodes);
    AcyclicPreserved(flats, nodes);
  }

  // ---- Counting the unions ----------------------------------------------------------------

  lemma {:induction false} UnionIdsCard(parents: set<Id>)
    ensures |set p | p in parents :: UnionId(p)| == |parents|
  {
    if parents != {} {
      var q :| q in parents;
      var rest := parents - {q};
      UnionIdsCard(rest);
      var some, all := (set p | p in rest :: UnionId(p)), (set p | p in parents :: UnionId(p));
      forall p | p in rest ensures UnionId(p) != UnionId(q) { UnionIdInjective(p, q); }
      assert UnionId(q) !in some;
      assert all == some + {UnionId(q)};
    }
  }

  /** Exactly one node is added per query that some node joins with spatially. */
  lemma {:induction false} OneUnionPerParent(flats: seq<FlatNode>, nodes: NodeDict)
    requires WellNamed(flats) && IsExpansion(flats, nodes)
    ensures |nodes.byId| == |flats| + |UnionParents(flats)|
  {
    hide NodesExpanded, UnionsAdded, IsUnionParent, Mentions;
    var parents := UnionParents(flats);
    var unions := set p | p in parents :: UnionId(p);
    UnionIdsCard(parents);
    DistinctCard(Ids(flats));
    forall p | p in parents ensures UnionId(p) !in Ids(flats) { UnionsStayClear(flats, p); }
    assert Elems(Ids(flats)) !! unions;
    assert nodes.byId.Keys == Elems(Ids(flats)) + unions;
    assert |nodes.byId| == |nodes.byId.Keys|;
  }

  // ---- References and outputs -------------------------------------------------------------

  /** A reference names the output of a node that `n` depends on. */
  ghost predicate Resolves(nodes: NodeDict, n: TypedNode, ref: Option<string>) {
    ref.Some? ==> exists d :: d in n.dependsOn && d in nodes.byId && nodes.byId[d].output == ref.value
  }

  ghost predicate RefsResolved(nodes: NodeDict) {
    forall id :: id in nodes.byId ==>
      && Resolves(nodes, nodes.byId[id], nodes.byId[id].geometryRef)
      && Resolves(nodes, nodes.byId[id], nodes.byId[id].featuresRef)
  }

  lemma CreatedOutput(f: FlatNode)
    requires CreateTypedNode(f).Success?
    ensures CreateTypedNode(f).value.nodeId == f.nodeId
    ensures CreateTypedNode(f).value.output == ArtifactKey(f.nodeId)
    ensures CreateTypedNode(f).value.retry == Some(DEFAULT_RETRY)
  {
  }

  /** Expansion changes a created node's edges and geometry reference and nothing else. */
  lemma {:induction false} PlanNode(flats: seq<FlatNode>, nodes: NodeDict, i: nat)
    requires IsExpansion(flats, nodes) && i < |flats|
    ensures flats[i].nodeId in nodes.byId && CreateTypedNode(flats[i]).Success?
    ensures var n, first := nodes.byId[flats[i].nodeId], CreateTypedNode(flats[i]).value;
            && n.nodeId == flats[i].nodeId && n.output == ArtifactKey(flats[i].nodeId) && n.retry == Some(DEFAULT_RETRY)
            && n == first.(dependsOn := n.dependsOn, geometryRef := n.geometryRef)
            && n.geometryRef == (if n.HasGeometryField()
                                 then RedirectedRef(flats[i].dependOn, UnionParents(flats), first.geometryRef)
                                 else first.geometryRef)
  {
    hide CreateTypedNode, UnionParents, KeptIds, RedirectedIds, RedirectedRef, NothingElse, UnionsAdded;
    assert IsRewired(CreateTypedNode(flats[i]).value, flats[i].dependOn, UnionParents(flats),
                     nodes.byId[flats[i].nodeId]);
    CreatedOutput(flats[i]);
  }

  lemma UnionNode(flats: seq<FlatNode>, nodes: NodeDict, p: Id)
    requires IsExpansion(flats, nodes) && p in UnionParents(flats)
    ensures UnionId(p) in nodes.byId && nodes.byId[UnionId(p)] == UnionNodeFor(p)
  {
  }

  lemma {:induction false} OutputOf(flats: seq<FlatNode>, nodes: NodeDict, v: Id)
    requires WellNamed(flats) && IsExpansion(flats, nodes) && v in nodes.byId
    ensures nodes.byId[v].nodeId == v
    ensures nodes.byId[v].output == if v in UnionIds(flats) then UnionKey(ParentOf(v)) else ArtifactKey(v)
  {
    hide IsExpansion, WellNamed, UnionIds, UnionParents, CreateTypedNode;
    NodeCases(flats, nodes, v);
    if v in UnionIds(flats) {
      UnionNode(flats, nodes, ParentOf(v));
    } else {
      PlanNode(flats, nodes, IndexOf(Ids(flats), v));
    }
  }

  /** No two nodes of an expanded graph write the same artifact key. */
  lemma {:induction false} OutputsDistinct(flats: seq<FlatNode>, nodes: NodeDict, u: Id, v: Id)
    requires WellNamed(flats) && IsExpansion(flats, nodes)
    requires u in nodes.byId && v in nodes.byId && u != v
    ensures nodes.byId[u].output != nodes.byId[v].output
  {
    hide IsExpansion, WellNamed, UnionIds, UnionParents, ArtifactKey, UnionKey;
    OutputOf(flats, nodes, u);
    OutputOf(flats, nodes, v);
    NodeCases(flats, nodes, u);
    NodeCases(flats, nodes, v);
    KeysInjective(u, v);
    KeysInjective(u, ParentOf(v));
    KeysInjective(v, ParentOf(u));
    KeysInjective(ParentOf(u), ParentOf(v));
  }

  /**
   After redirection the geometry reference is the union of a redirected dependency, or the first dependency's
   artifact.
   */
  lemma {:induction false} RefCases(ds: seq<Dependency>, parents: set<Id>, before: Option<string>)
    ensures var r := RedirectedRef(ds, parents, before);
            || (r == before && forall i :: 0 <= i < |ds| ==> !Redirected(ds[i], parents))
            || exists i :: 0 <= i < |ds| && Redirected(ds[i], parents) && r == Some(UnionKey(ds[i].nodeId))
  {
    if ds != [] {
      var last := |ds| - 1;
      if Redirected(ds[last], parents) {
      } else {
        RefCases(ds[..last], parents, before);
        if i :| 0 <= i < last && Redirected(ds[..last][i], parents)
                && RedirectedRef(ds, parents, before) == Some(UnionKey(ds[..last][i].nodeId)) {
          assert ds[..last][i] == ds[i];
        }
      }
    }
  }

  lemma {:induction false} FirstRef(f: FlatNode)
    requires CreateTypedNode(f).Success?
    ensures var n := CreateTypedNode(f).value;
            && n.featuresRef == None
            && (n.geometryRef.Some? ==> n.HasGeometryField() && f.dependOn != []
                                        && n.geometryRef.value == ArtifactKey(f.dependOn[0].nodeId))
  {
  }

  /** The union a dependency was redirected to provides the key the reference now names. */
  lemma {:induction false} RedirectedRefResolves(flats: seq<FlatNode>, nodes: NodeDict, i: nat, j: nat)
    requires WellNamed(flats) && IsExpansion(flats, nodes) && i < |flats| && j < |flats[i].dependOn|
    requires Redirected(flats[i].dependOn[j], UnionParents(flats)) && flats[i].nodeId in nodes.byId
    ensures Resolves(nodes, nodes.byId[flats[i].nodeId], Some(UnionKey(flats[i].dependOn[j].nodeId)))
  {
    hide IsExpansion, WellNamed, UnionParents;
    var p := flats[i].dependOn[j].nodeId;
    assert RedirectedAt(flats[i].dependOn, UnionParents(flats), j, UnionId(p));
    NodeEdgeIff(flats, nodes, i, UnionId(p));
    UnionNode(flats, nodes, p);
    assert UnionId(p) in nodes.byId[flats[i].nodeId].dependsOn;
  }

  lemma {:induction false} DirectRefResolves(flats: seq<FlatNode>, nodes: NodeDict, i: nat)
    requires WellNamed(flats) && IsExpansion(flats, nodes) && FlatGraph(flats).Closed() && i < |flats|
    requires flats[i].dependOn != [] && !Redirected(flats[i].dependOn[0], UnionParents(flats))
    requires flats[i].nodeId in nodes.byId
    ensures Resolves(nodes, nodes.byId[flats[i].nodeId], Some(ArtifactKey(flats[i].dependOn[0].nodeId)))
  {
    hide IsExpansion, WellNamed, UnionParents, UnionIds;
    var d := flats[i].dependOn[0].nodeId;
    assert KeptAt(flats[i].dependOn, UnionParents(flats), 0, d);
    NodeEdgeIff(flats, nodes, i, d);
    assert d in nodes.byId[flats[i].nodeId].dependsOn;
    DependencyInPlan(flats, i, 0);
    PlanInExpansion(flats, nodes, d);
    PlanNodeNotInjected(flats, d);
    OutputOf(flats, nodes, d);
  }

  lemma {:induction false} DependencyInPlan(flats: seq<FlatNode>, i: nat, j: nat)
    requires WellNamed(flats) && FlatGraph(flats).Closed() && i < |flats| && j < |flats[i].dependOn|
    ensures flats[i].dependOn[j].nodeId in Ids(flats)
  {
    LookupAt(flats, i);
    assert FlatGraph(flats).deps[flats[i].nodeId] == DepIds(flats[i].dependOn);
    assert DepIds(flats[i].dependOn)[j] in FlatGraph(flats).deps;
  }

  lemma {:induction false} NodeRefResolves(flats: seq<FlatNode>, nodes: NodeDict, i: nat)
    requires WellNamed(flats) && IsExpansion(flats, nodes) && FlatGraph(flats).Closed() && i < |flats|
    requires flats[i].nodeId in nodes.byId
    ensures var n := nodes.byId[flats[i].nodeId]; Resolves(nodes, n, n.geometryRef) && n.featuresRef == None
  {
    hide IsExpansion, WellNamed, UnionParents, CreateTypedNode, FlatGraph, Resolves, RedirectedRef;
    var ds, parents, n := flats[i].dependOn, UnionParents(flats), nodes.byId[flats[i].nodeId];
    PlanNode(flats, nodes, i);
    FirstRef(flats[i]);
    if n.geometryRef.Some? {
      RefCases(ds, parents, CreateTypedNode(flats[i]).value.geometryRef);
      if j :| 0 <= j < |ds| && Redirected(ds[j], parents) && n.geometryRef == Some(UnionKey(ds[j].nodeId)) {
        RedirectedRefResolves(flats, nodes, i, j);
      } else {
        DirectRefResolves(flats, nodes, i);
      }
    } else {
      NoneResolves(nodes, n);
    }
  }

  lemma NoneResolves(nodes: NodeDict, n: TypedNode)
    ensures Resolves(nodes, n, None)
  {
  }

  lemma {:induction false} UnionRefResolves(flats: seq<FlatNode>, nodes: NodeDict, p: Id)
    requires WellNamed(flats) && IsExpansion(flats, nodes) && p in UnionParents(flats)
    ensures UnionId(p) in nodes.byId
    ensures var n := nodes.byId[UnionId(p)]; n.geometryRef == None && Resolves(nodes, n, n.featuresRef)
  {
    hide IsExpansion, WellNamed, UnionIds, UnionParents;
    UnionNode(flats, nodes, p);
    UnionParentInPlan(flats, nodes, p);
    PlanNodeNotInjected(flats, p);
    OutputOf(flats, nodes, p);
    assert p in UnionNodeFor(p).dependsOn;
  }

  /** In the expansion of a closed plan no reference dangles. */
  lemma {:induction false} NoDanglingRefs(flats: seq<FlatNode>, nodes: NodeDict)
    requires WellNamed(flats) && IsExpansion(flats, nodes) && FlatGraph(flats).Closed()
    ensures RefsResolved(nodes)
  {
    hide IsExpansion, WellNamed, UnionIds, UnionParents, FlatGraph, Resolves;
    forall id | id in nodes.byId
      ensures Resolves(nodes, nodes.byId[id], nodes.byId[id].geometryRef)
      ensures Resolves(nodes, nodes.byId[id], nodes.byId[id].featuresRef)
    {
      NodeCases(flats, nodes, id);
      NoneResolves(nodes, nodes.byId[id]);
      if id in UnionIds(flats) {
        UnionRefResolves(flats, nodes, ParentOf(id));
      } else {
        NodeRefResolves(flats, nodes, IndexOf(Ids(flats), id));
      }
    }
  }
}
