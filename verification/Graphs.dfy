/**
 Dependency graphs: what "depends on" and "longest dependency chain" mean, independently of
 any algorithm that computes them.
 */
module Graphs {
  import opened Collections

  datatype Id = Id(name: string)

  /** A dictionary of nodes: its iteration order, and each node's dependency list. */
  datatype Graph = Graph(order: seq<Id>, deps: map<Id, seq<Id>>) {
    function Nodes(): set<Id> {
      deps.Keys
    }

    function Deps(n: Id): seq<Id> {
      if n in deps then deps[n] else []
    }

    /** The iteration order of a dictionary lists every key once. */
    predicate IsDict() {
      Distinct(order) && Elems(order) == deps.Keys
    }

    predicate Closed() {
      forall n, d :: n in deps && d in deps[n] ==> d in deps
    }

    predicate DuplicateFree() {
      forall n :: n in deps ==> Distinct(deps[n])
    }
  }

  /** `v` is reached from `u` by following exactly `k` dependency edges backwards from `v`. */
  ghost predicate Walk(g: Graph, u: Id, v: Id, k: nat)
    decreases k
  {
    if k == 0 then u == v else exists d :: d in g.Deps(v) && Walk(g, u, d, k - 1)
  }

  /** `v` transitively depends on `u`. */
  ghost predicate DependsOn(g: Graph, v: Id, u: Id) {
    exists k: nat :: k > 0 && Walk(g, u, v, k)
  }

  ghost predicate Acyclic(g: Graph) {
    forall n :: n in g.deps ==> !DependsOn(g, n, n)
  }

  ghost predicate Valid(g: Graph) {
    g.IsDict() && g.order != [] && g.Closed() && g.DuplicateFree() && Acyclic(g)
  }

  lemma {:induction false} WalkConcat(g: Graph, u: Id, v: Id, w: Id, j: nat, k: nat)
    requires Walk(g, u, v, j) && Walk(g, v, w, k)
    ensures Walk(g, u, w, j + k)
    decreases k
  {
    if k > 0 {
      var d :| d in g.Deps(w) && Walk(g, v, d, k - 1);
      WalkConcat(g, u, v, d, j, k - 1);
    }
  }

  /** A walk that ends in a closed graph starts in it. */
  lemma {:induction false} WalkStaysInside(g: Graph, u: Id, v: Id, k: nat)
    requires g.Closed() && v in g.deps && Walk(g, u, v, k)
    ensures u in g.deps
    decreases k
  {
    if k > 0 {
      var d :| d in g.Deps(v) && Walk(g, u, d, k - 1);
      WalkStaysInside(g, u, d, k - 1);
    }
  }

  // ---- Cycles ---------------------------------------------------------------------------

  /** Each entry of `p` depends directly on the next one. */
  ghost predicate Descends(g: Graph, p: seq<Id>) {
    forall i :: 0 <= i < |p| - 1 ==> p[i + 1] in g.Deps(p[i])
  }

  lemma {:induction false} DescentIsWalk(g: Graph, p: seq<Id>, i: nat, j: nat)
    requires Descends(g, p) && i <= j < |p|
    ensures Walk(g, p[j], p[i], j - i)
    decreases j - i
  {
    if i < j {
      DescentIsWalk(g, p, i + 1, j);
      assert p[i + 1] in g.Deps(p[i]);
    }
  }

  ghost predicate WaitsFor(g: Graph, n: Id, some: set<Id>) {
    exists d :: d in g.Deps(n) && d in some
  }

  /** A non-empty set of nodes that all depend on a member of the set. */
  ghost predicate Stuck(g: Graph, some: set<Id>) {
    && some != {}
    && some <= g.Nodes()
    && forall n {:trigger WaitsFor(g, n, some)} :: n in some ==> WaitsFor(g, n, some)
  }

  /** A descent whose last node depends on an earlier one runs in a circle. */
  lemma {:induction false} DescentCloses(g: Graph, p: seq<Id>, i: nat)
    requires Descends(g, p) && i < |p| && p[i] in g.Deps(p[|p| - 1])
    ensures DependsOn(g, p[i], p[i])
  {
    var k := |p| - 1 - i;
    DescentIsWalk(g, p, i, |p| - 1);
    assert Walk(g, p[i], p[i], 0);
    assert Walk(g, p[i], p[|p| - 1], 1);
    WalkConcat(g, p[i], p[|p| - 1], p[i], 1, k);
  }

  lemma {:induction false} DescentSnoc(g: Graph, p: seq<Id>, n: Id)
    requires Descends(g, p) && p != [] && n in g.Deps(p[|p| - 1])
    ensures Descends(g, p + [n])
  {
  }

  /** A descent inside a stuck set can be prolonged until it bites its tail. */
  lemma {:induction false} ProlongDescent(g: Graph, stuck: set<Id>, p: seq<Id>) returns (n: Id)
    requires Stuck(g, stuck)
    requires p != [] && Distinct(p) && Elems(p) <= stuck && Descends(g, p)
    ensures n in g.deps && DependsOn(g, n, n)
    decreases |stuck| - |p|
  {
    hide DependsOn, Descends;
    var last := p[|p| - 1];
    assert last in Elems(p);
    assert WaitsFor(g, last, stuck);
    n :| n in g.Deps(last) && n in stuck;
    if n in p {
      DescentCloses(g, p, IndexOf(p, n));
    } else {
      DistinctSnoc(p, n);
      DistinctCard(p + [n]);
      SubsetCard(Elems(p + [n]), stuck);
      DescentSnoc(g, p, n);
      n := ProlongDescent(g, stuck, p + [n]);
    }
  }

  lemma {:induction false} StuckSetHasCycle(g: Graph, stuck: set<Id>)
    requires Stuck(g, stuck)
    ensures !Acyclic(g)
  {
    var s :| s in stuck;
    var n := ProlongDescent(g, stuck, [s]);
  }

  // ---- Topological orders ---------------------------------------------------------------

  /** Every node of `ord` has all its dependencies earlier in `ord`. */
  ghost predicate DepsFirst(g: Graph, ord: seq<Id>) {
    forall i, d :: 0 <= i < |ord| && d in g.Deps(ord[i]) ==> d in ord[..i]
  }

  ghost predicate IsTopoOrder(g: Graph, ord: seq<Id>) {
    Distinct(ord) && Elems(ord) == g.Nodes() && DepsFirst(g, ord)
  }

  lemma {:induction false} EarlierIn(g: Graph, ord: seq<Id>, j: nat, d: Id) returns (m: nat)
    requires DepsFirst(g, ord) && j < |ord| && d in g.Deps(ord[j])
    ensures m < j && ord[m] == d
  {
    m := IndexOf(ord[..j], d);
  }

  /** In a topological order a walk of `k` edges climbs at least `k` positions. */
  lemma {:induction false} WalkClimbs(g: Graph, ord: seq<Id>, u: Id, j: nat, k: nat) returns (i: nat)
    requires DepsFirst(g, ord) && j < |ord| && Walk(g, u, ord[j], k)
    ensures i + k <= j && ord[i] == u
    decreases k
  {
    hide DepsFirst;
    if k == 0 {
      i := j;
    } else {
      var d :| d in g.Deps(ord[j]) && Walk(g, u, d, k - 1);
      var m := EarlierIn(g, ord, j, d);
      i := WalkClimbs(g, ord, u, m, k - 1);
    }
  }

  lemma {:induction false} TopoOrderIsAcyclic(g: Graph, ord: seq<Id>)
    requires IsTopoOrder(g, ord)
    ensures Acyclic(g)
  {
    forall n, k: nat | n in g.deps && k > 0
      ensures !Walk(g, n, n, k)
    {
      assert n in Elems(ord);
      var j :| 0 <= j < |ord| && ord[j] == n;
      if Walk(g, n, n, k) {
        var i := WalkClimbs(g, ord, n, j, k);
        assert false;
      }
    }
  }

  ghost predicate DepsAmong(g: Graph, n: Id, before: seq<Id>) {
    forall d :: d in g.Deps(n) ==> d in before
  }

  lemma {:induction false} DepsFirstSnoc(g: Graph, prefix: seq<Id>, n: Id)
    requires DepsFirst(g, prefix) && DepsAmong(g, n, prefix)
    ensures DepsFirst(g, prefix + [n])
  {
    var ord := prefix + [n];
    forall i, d | 0 <= i < |ord| && d in g.Deps(ord[i])
      ensures d in ord[..i]
    {
      assert ord[..i] == prefix[..i];
    }
  }

  /** Some node outside an ordered prefix has all its dependencies in the prefix. */
  lemma {:induction false} NextInOrder(g: Graph, prefix: seq<Id>) returns (n: Id)
    requires g.Closed() && Acyclic(g)
    requires !(g.Nodes() <= Elems(prefix))
    ensures n in g.deps && n !in prefix && DepsAmong(g, n, prefix)
  {
    hide Acyclic;
    var rest := g.Nodes() - Elems(prefix);
    var m :| m in g.Nodes() && m !in Elems(prefix);
    assert m in rest;
    if exists n {:trigger DepsAmong(g, n, prefix)} :: n in rest && DepsAmong(g, n, prefix) {
      n :| n in rest && DepsAmong(g, n, prefix);
    } else {
      forall n | n in rest
        ensures WaitsFor(g, n, rest)
      {
        assert !DepsAmong(g, n, prefix);
      }
      StuckSetHasCycle(g, rest);
      assert false;
    }
  }

  /** An ordered prefix of an acyclic graph can be completed. */
  lemma {:induction false} CompleteTopoOrder(g: Graph, prefix: seq<Id>) returns (ord: seq<Id>)
    requires g.Closed() && Acyclic(g)
    requires Distinct(prefix) && Elems(prefix) <= g.Nodes() && DepsFirst(g, prefix)
    ensures IsTopoOrder(g, ord) && prefix <= ord
    decreases |g.Nodes() - Elems(prefix)|
  {
    hide Acyclic, DepsFirst, Distinct, DepsAmong;
    if g.Nodes() <= Elems(prefix) {
      ord := prefix;
    } else {
      var n := NextInOrder(g, prefix);
      assert n !in Elems(prefix);
      DistinctSnoc(prefix, n);
      DepsFirstSnoc(g, prefix, n);
      hide Elems;
      assert g.Nodes() - Elems(prefix + [n]) == (g.Nodes() - Elems(prefix)) - {n};
      ord := CompleteTopoOrder(g, prefix + [n]);
      assert prefix + [n] <= ord;
    }
  }

  lemma {:induction false} SomeTopoOrder(g: Graph) returns (ord: seq<Id>)
    requires g.Closed() && Acyclic(g)
    ensures IsTopoOrder(g, ord)
  {
    assert DepsFirst(g, []) && Distinct<Id>([]);
    ord := CompleteTopoOrder(g, []);
  }

  /** The two readings of acyclicity agree: no node reaches itself iff the nodes can be ordered. */
  lemma {:induction false} AcyclicIffOrdered(g: Graph)
    requires g.Closed()
    ensures Acyclic(g) <==> exists ord :: IsTopoOrder(g, ord)
  {
    if Acyclic(g) {
      var ord := SomeTopoOrder(g);
    }
    forall ord | IsTopoOrder(g, ord)
      ensures Acyclic(g)
    {
      TopoOrderIsAcyclic(g, ord);
    }
  }

  // ---- Levels ---------------------------------------------------------------------------

  /** Some dependency chain of `k` edges ends in `n`. */
  ghost predicate Chain(g: Graph, n: Id, k: nat)
    decreases k
  {
    k == 0 || exists d :: d in g.Deps(n) && Chain(g, d, k - 1)
  }

  /** The longest dependency chain that ends in node `n` has `k` edges. */
  ghost predicate HasLevel(g: Graph, n: Id, k: nat) {
    n in g.deps && Chain(g, n, k) && !Chain(g, n, k + 1)
  }

  lemma {:induction false} ChainShorter(g: Graph, n: Id, j: nat, k: nat)
    requires j <= k && Chain(g, n, k)
    ensures Chain(g, n, j)
    decreases k
  {
    if j > 0 {
      var d :| d in g.Deps(n) && Chain(g, d, k - 1);
      ChainShorter(g, d, j - 1, k - 1);
    }
  }

  /** A chain is a walk whose first node is not named. */
  lemma {:induction false} ChainIsWalk(g: Graph, n: Id, k: nat) returns (u: Id)
    requires Chain(g, n, k)
    ensures Walk(g, u, n, k)
    decreases k
  {
    if k == 0 {
      u := n;
    } else {
      var d :| d in g.Deps(n) && Chain(g, d, k - 1);
      u := ChainIsWalk(g, d, k - 1);
    }
  }

  lemma {:induction false} WalkIsChain(g: Graph, u: Id, n: Id, k: nat)
    requires Walk(g, u, n, k)
    ensures Chain(g, n, k)
    decreases k
  {
    if k > 0 {
      var d :| d in g.Deps(n) && Walk(g, u, d, k - 1);
      WalkIsChain(g, u, d, k - 1);
    }
  }

  lemma {:induction false} ChainBound(g: Graph, ord: seq<Id>, j: nat, k: nat)
    requires DepsFirst(g, ord) && j < |ord| && Chain(g, ord[j], k)
    ensures k <= j
  {
    var u := ChainIsWalk(g, ord[j], k);
    var _ := WalkClimbs(g, ord, u, j, k);
  }

  lemma {:induction false} LevelUnique(g: Graph, n: Id, j: nat, k: nat)
    requires HasLevel(g, n, j) && HasLevel(g, n, k)
    ensures j == k
  {
    if j < k {
      ChainShorter(g, n, j + 1, k);
    } else if k < j {
      ChainShorter(g, n, k + 1, j);
    }
  }

  lemma {:induction false} ClimbToLevel(g: Graph, ord: seq<Id>, j: nat, k: nat) returns (m: nat)
    requires DepsFirst(g, ord) && j < |ord| && Chain(g, ord[j], k)
    ensures Chain(g, ord[j], m) && !Chain(g, ord[j], m + 1) && m <= j
    decreases j - k
  {
    ChainBound(g, ord, j, k);
    if Chain(g, ord[j], k + 1) {
      ChainBound(g, ord, j, k + 1);
      m := ClimbToLevel(g, ord, j, k + 1);
    } else {
      m := k;
    }
  }

  /** Every node of an acyclic closed graph has a level below the number of nodes. */
  lemma {:induction false} LevelExists(g: Graph, n: Id) returns (k: nat)
    requires g.Closed() && Acyclic(g) && n in g.deps
    ensures HasLevel(g, n, k) && k < |g.Nodes()|
  {
    var ord := SomeTopoOrder(g);
    DistinctCard(ord);
    assert n in Elems(ord);
    k := ClimbToLevel(g, ord, IndexOf(ord, n), 0);
  }

  /** Below a node of level `k` there is a dependency of level `k - 1`, and none of level `k` or more. */
  lemma {:induction false} LevelOfDeps(g: Graph, n: Id, k: nat)
    requires g.Closed() && HasLevel(g, n, k)
    ensures forall d :: d in g.Deps(n) ==> !Chain(g, d, k)
    ensures k > 0 ==> exists d :: d in g.Deps(n) && HasLevel(g, d, k - 1)
  {
    if k > 0 {
      var d :| d in g.Deps(n) && Chain(g, d, k - 1);
      assert HasLevel(g, d, k - 1);
    }
  }

  /** No level below an occupied one is empty. */
  lemma {:induction false} LevelsContiguous(g: Graph, n: Id, k: nat, j: nat) returns (m: Id)
    requires g.Closed() && HasLevel(g, n, k) && j <= k
    ensures HasLevel(g, m, j)
    decreases k
  {
    if j == k {
      m := n;
    } else {
      LevelOfDeps(g, n, k);
      var d :| d in g.Deps(n) && HasLevel(g, d, k - 1);
      m := LevelsContiguous(g, d, k - 1, j);
    }
  }

  /** Depending on a node means sitting on a strictly higher level. */
  lemma {:induction false} WalkRaisesLevel(g: Graph, u: Id, v: Id, k: nat, i: nat, j: nat)
    requires Walk(g, u, v, k) && HasLevel(g, u, i) && HasLevel(g, v, j)
    ensures i + k <= j
  {
    var s := ChainIsWalk(g, u, i);
    WalkConcat(g, s, u, v, i, k);
    WalkIsChain(g, s, v, i + k);
    if j < i + k {
      ChainShorter(g, v, j + 1, i + k);
    }
  }
}
