/** Validation and topological levelling of an execution graph. */
module ExecutionGraph {
  import opened Collections
  import opened Graphs
  import opened Ordering

  datatype Verdict =
    | Accepted
    | NoNodes
    | MissingDependency(node: Id, dep: Id)
    | DependencyCycle

  // ---- In-degrees -----------------------------------------------------------------------

  /**
   What the in-degree counter of `n` holds once the nodes in `done` have been taken off: it starts
   at the length of the dependency list and drops once per different dependency.
   */
  ghost function Remaining(g: Graph, n: Id, done: set<Id>): int {
    |g.Deps(n)| - |Elems(g.Deps(n)) * done|
  }

  /** The counter runs out exactly when the list has no repetition and all of it is done. */
  lemma {:induction false} RemainingZero(g: Graph, n: Id, done: set<Id>)
    ensures Remaining(g, n, done) >= 0
    ensures Remaining(g, n, done) == 0 <==> Distinct(g.Deps(n)) && Elems(g.Deps(n)) <= done
  {
    var ds := Elems(g.Deps(n));
    DistinctCard(g.Deps(n));
    SubsetCard(ds * done, ds);
    if ds <= done {
      assert ds * done == ds;
    }
  }

  lemma {:induction false} RemainingStep(g: Graph, n: Id, done: set<Id>, d: Id)
    requires d !in done
    ensures Remaining(g, n, done + {d}) == Remaining(g, n, done) - (if d in g.Deps(n) then 1 else 0)
  {
    var ds := Elems(g.Deps(n));
    if d in g.Deps(n) {
      assert ds * (done + {d}) == (ds * done) + {d};
    } else {
      assert ds * (done + {d}) == ds * done;
    }
  }

  ghost predicate Counts(g: Graph, inDegree: map<Id, int>, done: set<Id>) {
    && inDegree.Keys == g.Nodes()
    && forall n :: n in g.deps ==> inDegree[n] == Remaining(g, n, done)
  }

  /** The nodes whose counter runs out between `before` and `after`. */
  ghost predicate Freed(g: Graph, ready: seq<Id>, before: set<Id>, after: set<Id>) {
    && Distinct(ready)
    && forall n :: n in ready <==>
                   n in g.deps && Remaining(g, n, before) != 0 && Remaining(g, n, after) == 0
  }

  /** The in-degree table and the nodes that start at 0; the order of the latter does not affect any contract below. */
  method InDegrees(g: Graph) returns (inDegree: map<Id, int>, roots: seq<Id>)
    requires g.IsDict()
    ensures Counts(g, inDegree, {})
    ensures Distinct(roots) && forall n :: n in roots <==> n in g.deps && g.deps[n] == []
  {
    inDegree := map n | n in g.deps :: |g.deps[n]|;
    roots := [];
    forall n ensures |Elems(g.Deps(n)) * {}| == 0 {
      assert Elems(g.Deps(n)) * {} == {};
    }
    for i := 0 to |g.order|
      invariant Distinct(roots)
      invariant forall n :: n in roots <==> n in g.order[..i] && n in g.deps && g.deps[n] == []
    {
      var n := g.order[i];
      assert n in Elems(g.order);
      assert g.order[..i + 1] == g.order[..i] + [n];
      if inDegree[n] == 0 {
        roots := roots + [n];
      }
    }
    assert forall n :: n in g.order <==> n in Elems(g.order);
    assert g.order[..|g.order|] == g.order;
  }

  /** The state of the inner loop after it has looked at the first `i` nodes of the dictionary. */
  ghost predicate Partway(g: Graph, inDegree: map<Id, int>, ready: seq<Id>, i: nat, done: set<Id>, after: set<Id>)
    requires g.IsDict() && i <= |g.order|
  {
    && inDegree.Keys == g.Nodes()
    && Distinct(ready)
    && (forall n :: n in ready ==> n in g.deps)
    && forall j {:trigger g.order[j]} :: 0 <= j < |g.order| ==>
      && g.order[j] in inDegree
      && inDegree[g.order[j]] == Remaining(g, g.order[j], if j < i then after else done)
      && (g.order[j] in ready <==>
          (j < i && Remaining(g, g.order[j], done) != 0 && Remaining(g, g.order[j], after) == 0))
  }

  lemma {:induction false} PartwayEnds(g: Graph, inDegree: map<Id, int>, ready: seq<Id>, done: set<Id>, after: set<Id>)
    requires g.IsDict() && Partway(g, inDegree, ready, |g.order|, done, after)
    ensures Counts(g, inDegree, after) && Freed(g, ready, done, after)
  {
    forall n | n in g.deps
      ensures exists j :: 0 <= j < |g.order| && g.order[j] == n
    {
      assert n in Elems(g.order);
    }
  }

  lemma {:induction false} PartwayStarts(g: Graph, inDegree: map<Id, int>, done: set<Id>, after: set<Id>)
    requires g.IsDict() && Counts(g, inDegree, done)
    ensures Partway(g, inDegree, [], 0, done, after)
  {
    forall j | 0 <= j < |g.order|
      ensures g.order[j] in g.deps
    {
      assert g.order[j] in Elems(g.order);
    }
  }

  /** The in-degrees after the loop has looked at `n`. */
  function Decremented(g: Graph, inDegree: map<Id, int>, current: Id, n: Id): map<Id, int>
    requires n in inDegree
  {
    if current in g.Deps(n) then inDegree[n := inDegree[n] - 1] else inDegree
  }

  /** Taking `current` off changes the counter of a node by one if the node depends on it, and frees it at 0. */
  lemma {:induction false} CounterDrops(g: Graph, n: Id, done: set<Id>, current: Id)
    requires current !in done
    ensures var before, after := Remaining(g, n, done), Remaining(g, n, done + {current});
            && after == before - (if current in g.Deps(n) then 1 else 0)
            && (before != 0 && after == 0 <==> current in g.Deps(n) && after == 0)
  {
    hide Remaining;
    RemainingStep(g, n, done, current);
    RemainingZero(g, n, done + {current});
  }

  lemma {:induction false} PartwayStep(g: Graph, inDegree: map<Id, int>, ready: seq<Id>, i: nat, done: set<Id>,
                                       current: Id)
    requires g.IsDict() && current !in done && i < |g.order|
    requires Partway(g, inDegree, ready, i, done, done + {current})
    ensures g.order[i] in inDegree
    ensures var n, after := g.order[i], Decremented(g, inDegree, current, g.order[i]);
            n in after && Partway(g, after, if current in g.Deps(n) && after[n] == 0 then ready + [n] else ready,
                                  i + 1, done, done + {current})
  {
    hide Remaining;
    var n := g.order[i];
    assert n in g.deps && n !in ready by { assert g.order[i] in Elems(g.order); }
    CounterDrops(g, n, done, current);
    var after := Decremented(g, inDegree, current, n);
    var more := if current in g.Deps(n) && after[n] == 0 then ready + [n] else ready;
    assert Distinct(more) by { DistinctSnoc(ready, n); }
    forall j | 0 <= j < |g.order| && j != i
      ensures g.order[j] != n
    {
    }
    assert forall m :: m in more <==> m in ready || (m == n && current in g.Deps(n) && after[n] == 0);
    hide Distinct;
  }

  /** The inner loop of both algorithms: take one node off and collect what it frees, in dictionary order. */
  method Release(g: Graph, current: Id, inDegree: map<Id, int>, ghost done: set<Id>)
    returns (after: map<Id, int>, ready: seq<Id>)
    requires g.IsDict() && current !in done && Counts(g, inDegree, done)
    ensures Counts(g, after, done + {current})
    ensures Freed(g, ready, done, done + {current})
  {
    hide Partway, Counts, Freed, Remaining;
    after := inDegree;
    ready := [];
    PartwayStarts(g, inDegree, done, done + {current});
    for i := 0 to |g.order|
      invariant Partway(g, after, ready, i, done, done + {current})
    {
      var n := g.order[i];
      PartwayStep(g, after, ready, i, done, current);
      if current in g.Deps(n) {
        after := after[n := after[n] - 1];
        if after[n] == 0 {
          ready := ready + [n];
        }
      }
    }
    PartwayEnds(g, after, ready, done, done + {current});
  }

  // ---- Validation -----------------------------------------------------------------------

  /** Dependency `j` of node `i` is the first one, in iteration order, that names no node. */
  ghost predicate FirstMissing(g: Graph, verdict: Verdict, i: nat, j: nat) {
    && i < |g.order| && j < |g.Deps(g.order[i])|
    && verdict == MissingDependency(g.order[i], g.Deps(g.order[i])[j])
    && verdict.dep !in g.deps
    && (forall n :: n in g.order[..i] ==> Elems(g.Deps(n)) <= g.Nodes())
    && Elems(g.Deps(g.order[i])[..j]) <= g.Nodes()
  }

  method FindMissing(g: Graph) returns (verdict: Verdict)
    requires g.IsDict()
    ensures verdict == Accepted <==> g.Closed()
    ensures verdict != Accepted ==> exists i, j :: FirstMissing(g, verdict, i, j)
  {
    for i := 0 to |g.order|
      invariant forall n :: n in g.order[..i] ==> Elems(g.Deps(n)) <= g.Nodes()
    {
      var n := g.order[i];
      assert n in Elems(g.order);
      for j := 0 to |g.deps[n]|
        invariant Elems(g.deps[n][..j]) <= g.Nodes()
      {
        if g.deps[n][j] !in g.deps {
          verdict := MissingDependency(n, g.deps[n][j]);
          assert FirstMissing(g, verdict, i, j);
          return;
        }
        assert g.deps[n][..j + 1] == g.deps[n][..j] + [g.deps[n][j]];
      }
      assert g.deps[n][..|g.deps[n]|] == g.deps[n];
      assert g.order[..i + 1] == g.order[..i] + [n];
    }
    verdict := Accepted;
    forall n, d | n in g.deps && d in g.deps[n]
      ensures d in g.deps
    {
      assert n in Elems(g.order);
      assert n in g.order[..|g.order|];
      assert d in Elems(g.Deps(n));
    }
  }

  /** Everything taken off the queue or waiting on it has run out of dependencies, and nothing else has. */
  ghost predicate KahnState(g: Graph, inDegree: map<Id, int>, queue: seq<Id>, visited: seq<Id>) {
    && Counts(g, inDegree, Elems(visited))
    && Distinct(queue + visited)
    && DepsFirst(g, visited)
    && forall n :: n in queue + visited <==> n in g.deps && inDegree[n] == 0
  }

  lemma {:induction false} KahnStart(g: Graph, inDegree: map<Id, int>, roots: seq<Id>)
    requires Counts(g, inDegree, {})
    requires Distinct(roots) && forall n :: n in roots <==> n in g.deps && g.deps[n] == []
    ensures KahnState(g, inDegree, roots, [])
  {
    assert roots + [] == roots;
    var none: seq<Id> := [];
    assert Elems(none) == {};
    forall n | n in g.deps ensures inDegree[n] == 0 <==> n in roots {
      RemainingZero(g, n, {});
      if g.deps[n] != [] { assert g.deps[n][0] in Elems(g.Deps(n)); }
    }
  }

  lemma {:induction false} KahnStep(g: Graph, inDegree: map<Id, int>, queue: seq<Id>, visited: seq<Id>,
                                    after: map<Id, int>, ready: seq<Id>)
    requires KahnState(g, inDegree, queue, visited) && queue != []
    requires Counts(g, after, Elems(visited + [queue[0]]))
    requires Freed(g, ready, Elems(visited), Elems(visited + [queue[0]]))
    ensures KahnState(g, after, queue[1..] + ready, visited + [queue[0]])
  {
    var n := queue[0];
    var old1, new1 := queue + visited, queue[1..] + ready + (visited + [n]);
    assert queue == [n] + queue[1..];
    assert n in old1;
    RemainingZero(g, n, Elems(visited));
    assert DepsAmong(g, n, visited) by {
      forall d | d in g.Deps(n) ensures d in visited { assert d in Elems(g.Deps(n)); }
    }
    DepsFirstSnoc(g, visited, n);
    forall m ensures m in new1 <==> m in old1 || m in ready {
    }
    forall m | m in g.deps ensures m in old1 || m in ready <==> after[m] == 0 {
      RemainingZero(g, m, Elems(visited));
      RemainingZero(g, m, Elems(visited + [n]));
    }
    KahnDistinct(queue, visited, ready);
  }

  lemma {:induction false} KahnDistinct(queue: seq<Id>, visited: seq<Id>, ready: seq<Id>)
    requires Distinct(queue + visited) && queue != [] && Distinct(ready)
    requires forall n :: n in ready ==> n !in queue + visited
    ensures Distinct(queue[1..] + ready + (visited + [queue[0]]))
  {
    var both := queue + visited;
    assert forall i :: 0 <= i < |queue| ==> both[i] == queue[i];
    assert forall i :: 0 <= i < |visited| ==> both[|queue| + i] == visited[i];
    assert Distinct(queue) && Distinct(visited);
    assert forall x :: x in queue ==> x !in visited;
    DistinctConcat(queue[1..], ready);
    assert queue[0] !in visited && queue[0] !in queue[1..];
    DistinctSnoc(visited, queue[0]);
    DistinctConcat(queue[1..] + ready, visited + [queue[0]]);
  }

  /** Kahn's algorithm stopped early on a closed graph: a list repeats a dependency or there is a cycle. */
  lemma {:induction false} StoppedEarly(g: Graph, inDegree: map<Id, int>, visited: seq<Id>)
    requires g.Closed() && KahnState(g, inDegree, [], visited) && !(g.Nodes() <= Elems(visited))
    ensures !(g.DuplicateFree() && Acyclic(g))
  {
    hide Acyclic, Distinct, Remaining, DepsFirst;
    assert [] + visited == visited;
    if g.DuplicateFree() {
      var rest := g.Nodes() - Elems(visited);
      var m :| m in g.Nodes() && m !in Elems(visited);
      assert m in rest;
      forall n | n in rest
        ensures WaitsFor(g, n, rest)
      {
        assert n !in visited;
        LeftWaiting(g, inDegree, visited, n);
      }
      StuckSetHasCycle(g, rest);
    }
  }

  lemma {:induction false} LeftWaiting(g: Graph, inDegree: map<Id, int>, visited: seq<Id>, n: Id)
    requires g.Closed() && g.DuplicateFree() && Counts(g, inDegree, Elems(visited))
    requires n in g.deps && inDegree[n] != 0
    ensures WaitsFor(g, n, g.Nodes() - Elems(visited))
  {
    RemainingZero(g, n, Elems(visited));
    var d :| d in Elems(g.Deps(n)) && d !in Elems(visited);
    assert d in g.deps[n];
  }

  lemma {:induction false} RanThrough(g: Graph, inDegree: map<Id, int>, visited: seq<Id>)
    requires KahnState(g, inDegree, [], visited) && g.Nodes() == Elems(visited)
    ensures g.DuplicateFree() && Acyclic(g)
  {
    assert [] + visited == visited;
    forall n | n in g.deps ensures Distinct(g.deps[n]) {
      assert n in Elems(visited);
      RemainingZero(g, n, Elems(visited));
    }
    TopoOrderIsAcyclic(g, visited);
  }

  /** The worklist loop of validation, on a closed graph. */
  method CountReachable(g: Graph) returns (count: nat)
    requires g.IsDict() && g.Closed()
    ensures count == |g.deps| <==> g.DuplicateFree() && Acyclic(g)
  {
    hide KahnState, Counts, Freed, Elems;
    var inDegree, queue := InDegrees(g);
    KahnStart(g, inDegree, queue);
    count := 0;
    ghost var visited := [];
    while queue != []
      invariant KahnState(g, inDegree, queue, visited)
      invariant count == |visited|
      decreases |g.Nodes() - Elems(visited)|
    {
      var current := queue[0];
      KahnFront(g, inDegree, queue, visited);
      var after, ready := Release(g, current, inDegree, Elems(visited));
      KahnProgress(g, visited, current);
      KahnStep(g, inDegree, queue, visited, after, ready);
      queue, inDegree, count, visited := queue[1..] + ready, after, count + 1, visited + [current];
    }
    KahnEnd(g, inDegree, visited);
  }

  lemma {:induction false} KahnProgress(g: Graph, visited: seq<Id>, n: Id)
    requires n in g.deps && n !in Elems(visited)
    ensures Elems(visited + [n]) == Elems(visited) + {n}
    ensures |g.Nodes() - Elems(visited + [n])| < |g.Nodes() - Elems(visited)|
  {
    assert Elems(visited + [n]) == Elems(visited) + {n};
    assert g.Nodes() - Elems(visited + [n]) == (g.Nodes() - Elems(visited)) - {n};
  }

  lemma {:induction false} KahnFront(g: Graph, inDegree: map<Id, int>, queue: seq<Id>, visited: seq<Id>)
    requires KahnState(g, inDegree, queue, visited) && queue != []
    ensures queue[0] in g.deps && queue[0] !in Elems(visited)
    ensures Counts(g, inDegree, Elems(visited))
  {
    var both := queue + visited;
    assert both[0] == queue[0];
    assert queue[0] in both;
    assert forall i :: 0 <= i < |visited| ==> both[|queue| + i] == visited[i];
  }

  lemma {:induction false} KahnEnd(g: Graph, inDegree: map<Id, int>, visited: seq<Id>)
    requires g.Closed() && KahnState(g, inDegree, [], visited)
    ensures |visited| == |g.deps| <==> g.DuplicateFree() && Acyclic(g)
  {
    hide Acyclic, Remaining, DepsFirst;
    assert [] + visited == visited;
    assert Elems(visited) <= g.Nodes();
    DistinctCard(visited);
    hide Distinct;
    SubsetCard(Elems(visited), g.Nodes());
    assert |g.deps| == |g.Nodes()|;
    if g.Nodes() <= Elems(visited) {
      assert g.Nodes() == Elems(visited);
      RanThrough(g, inDegree, visited);
    } else {
      StoppedEarly(g, inDegree, visited);
    }
  }

  method Validate(g: Graph) returns (verdict: Verdict)
    requires g.IsDict()
    ensures verdict == Accepted <==> Valid(g)
    ensures verdict == NoNodes <==> g.order == []
    ensures verdict.MissingDependency? <==> g.order != [] && !g.Closed()
    ensures verdict.MissingDependency? ==> exists i, j :: FirstMissing(g, verdict, i, j)
    ensures verdict == DependencyCycle <==> g.order != [] && g.Closed() && !(g.DuplicateFree() && Acyclic(g))
  {
    if g.order == [] {
      return NoNodes;
    }
    verdict := FindMissing(g);
    if verdict == Accepted {
      var count := CountReachable(g);
      if count != |g.deps| {
        verdict := DependencyCycle;
      }
    }
  }

  // ---- Levels ---------------------------------------------------------------------------

  ghost predicate IsLevel(g: Graph, level: seq<Id>, k: nat) {
    Distinct(level) && forall n :: n in level <==> HasLevel(g, n, k)
  }

  /** Level `k` lists, in sorted order, exactly the nodes whose longest dependency chain has `k` edges. */
  ghost predicate IsLevelling(g: Graph, levels: seq<seq<Id>>) {
    && (forall k :: 0 <= k < |levels| ==> levels[k] != [] && IsSorted(levels[k]) && IsLevel(g, levels[k], k))
    && (forall n :: n in g.deps ==> exists k :: 0 <= k < |levels| && n in levels[k])
  }

  /** The nodes on the levels before level `k`. */
  ghost function Below(g: Graph, k: nat): set<Id> {
    set n | n in g.deps && !Chain(g, n, k)
  }

  lemma {:induction false} BelowStep(g: Graph, level: seq<Id>, k: nat)
    requires IsLevel(g, level, k)
    ensures Below(g, k) + Elems(level) == Below(g, k + 1)
    ensures Below(g, k) !! Elems(level)
    ensures Distinct(level)
  {
    forall n | n in g.deps
      ensures n in Below(g, k + 1) <==> n in Below(g, k) || n in level
    {
      if Chain(g, n, k + 1) {
        ChainShorter(g, n, k, k + 1);
      }
      assert n in level <==> HasLevel(g, n, k);
    }
  }

  /** Running out of dependencies between levels `k` and `k + 1` is what level `k + 1` means. */
  lemma {:induction false} FreedIsNextLevel(g: Graph, next: seq<Id>, k: nat)
    requires g.Closed() && g.DuplicateFree()
    requires Freed(g, next, Below(g, k), Below(g, k + 1))
    ensures IsLevel(g, next, k + 1)
  {
    forall n
      ensures n in next <==> HasLevel(g, n, k + 1)
    {
      if n in g.deps {
        RemainingZero(g, n, Below(g, k));
        RemainingZero(g, n, Below(g, k + 1));
        DepsBelow(g, n, k);
        DepsBelow(g, n, k + 1);
      }
    }
  }

  lemma {:induction false} DepsBelow(g: Graph, n: Id, k: nat)
    requires g.Closed() && n in g.deps
    ensures Elems(g.Deps(n)) <= Below(g, k) <==> !Chain(g, n, k + 1)
  {
    if Elems(g.Deps(n)) <= Below(g, k) {
      forall d | d in g.Deps(n) ensures !Chain(g, d, k) {
        assert d in Elems(g.Deps(n));
      }
    } else {
      var d :| d in Elems(g.Deps(n)) && d !in Below(g, k);
      assert d in g.Deps(n);
      assert Chain(g, d, k);
    }
  }

  lemma {:induction false} FirstLevel(g: Graph, roots: seq<Id>)
    requires Distinct(roots) && forall n :: n in roots <==> n in g.deps && g.deps[n] == []
    ensures IsLevel(g, roots, 0)
    ensures Below(g, 0) == {}
  {
    forall n | n in g.deps ensures Chain(g, n, 1) <==> g.deps[n] != [] {
      if g.deps[n] != [] {
        assert g.deps[n][0] in g.Deps(n) && Chain(g, g.deps[n][0], 0);
      }
    }
  }

  /** The middle loop: take a whole level off. */
  method ReleaseLevel(g: Graph, level: seq<Id>, inDegree: map<Id, int>, ghost done: set<Id>)
    returns (after: map<Id, int>, next: seq<Id>)
    requires g.IsDict() && Counts(g, inDegree, done)
    requires Distinct(level) && Elems(level) !! done
    ensures Counts(g, after, done + Elems(level))
    ensures Freed(g, next, done, done + Elems(level))
  {
    after, next := inDegree, [];
    assert done + Elems(level[..0]) == done;
    for i := 0 to |level|
      invariant Counts(g, after, done + Elems(level[..i]))
      invariant Freed(g, next, done, done + Elems(level[..i]))
    {
      ghost var sofar := done + Elems(level[..i]);
      assert level[i] !in level[..i] && level[i] in Elems(level);
      var ready: seq<Id>;
      after, ready := Release(g, level[i], after, sofar);
      assert level[..i + 1] == level[..i] + [level[i]];
      ElemsConcat(level[..i], [level[i]]);
      assert sofar + {level[i]} == done + Elems(level[..i + 1]);
      FreedConcat(g, next, ready, done, sofar, sofar + {level[i]});
      next := next + ready;
    }
    assert level[..|level|] == level;
  }

  lemma {:induction false} FreedConcat(g: Graph, a: seq<Id>, b: seq<Id>, s: set<Id>, t: set<Id>, u: set<Id>)
    requires s <= t <= u && Freed(g, a, s, t) && Freed(g, b, t, u)
    ensures Freed(g, a + b, s, u)
  {
    forall n | n in g.deps
      ensures n in a + b <==> Remaining(g, n, s) != 0 && Remaining(g, n, u) == 0
    {
      RemainingZero(g, n, s);
      RemainingZero(g, n, t);
      RemainingZero(g, n, u);
    }
    DistinctConcat(a, b);
  }

  /** The levels found so far are right. */
  ghost predicate LevelsSoFar(g: Graph, levels: seq<seq<Id>>) {
    forall k :: 0 <= k < |levels| ==> levels[k] != [] && IsSorted(levels[k]) && IsLevel(g, levels[k], k)
  }

  method TopologicalLevels(g: Graph) returns (levels: seq<seq<Id>>)
    requires Valid(g)
    ensures IsLevelling(g, levels)
    ensures forall k, i, j :: 0 <= k < |levels| && 0 <= i < j < |levels[k]| ==>
      ByCodePoint(levels[k][i].name, levels[k][j].name)
  {
    hide Counts, Freed, LevelsSoFar, IsLevelling, IsLevel, IsTopoOrder;
    var inDegree, current := InDegrees(g);
    FirstLevel(g, current);
    levels := [];
    NoLevelsYet(g);
    ghost var ord := SomeTopoOrder(g);
    while current != []
      invariant IsLevel(g, current, |levels|)
      invariant Counts(g, inDegree, Below(g, |levels|))
      invariant LevelsSoFar(g, levels)
      decreases |ord| - |levels|
    {
      ghost var k := |levels|;
      LevelInRange(g, ord, current, k);
      SortedLevel(g, current, k);
      LevelsSnoc(g, levels, Sorted(current));
      BelowStep(g, current, k);
      levels := levels + [Sorted(current)];
      inDegree, current := ReleaseLevel(g, current, inDegree, Below(g, k));
      FreedIsNextLevel(g, current, k);
    }
    AllLevelled(g, levels);
    LevelsByCodePoint(g, levels);
  }

  lemma {:induction false} LevelsByCodePoint(g: Graph, levels: seq<seq<Id>>)
    requires IsLevelling(g, levels)
    ensures forall k, i, j :: 0 <= k < |levels| && 0 <= i < j < |levels[k]| ==>
      ByCodePoint(levels[k][i].name, levels[k][j].name)
  {
    hide IsLevel, ByCodePoint, IsSorted;
    forall k | 0 <= k < |levels|
      ensures forall i, j :: 0 <= i < j < |levels[k]| ==> ByCodePoint(levels[k][i].name, levels[k][j].name)
    {
      SortedByCodePoint(levels[k]);
    }
  }

  lemma NoLevelsYet(g: Graph)
    ensures LevelsSoFar(g, [])
  {
  }

  lemma LevelsSnoc(g: Graph, levels: seq<seq<Id>>, level: seq<Id>)
    requires LevelsSoFar(g, levels)
    requires level != [] && IsSorted(level) && IsLevel(g, level, |levels|)
    ensures LevelsSoFar(g, levels + [level])
  {
  }

  lemma {:induction false} LevelInRange(g: Graph, ord: seq<Id>, level: seq<Id>, k: nat)
    requires IsTopoOrder(g, ord) && IsLevel(g, level, k) && level != []
    ensures k < |ord|
  {
    var n := level[0];
    assert HasLevel(g, n, k);
    assert n in Elems(ord);
    ChainBound(g, ord, IndexOf(ord, n), k);
  }

  lemma {:induction false} AllLevelled(g: Graph, levels: seq<seq<Id>>)
    requires Valid(g) && LevelsSoFar(g, levels) && IsLevel(g, [], |levels|)
    ensures IsLevelling(g, levels)
  {
    forall n | n in g.deps
      ensures exists k :: 0 <= k < |levels| && n in levels[k]
    {
      var k := LevelExists(g, n);
      if k >= |levels| {
        var m := LevelsContiguous(g, n, k, |levels|);
        assert false;
      }
      assert n in levels[k];
    }
  }

  lemma {:induction false} SortedLevel(g: Graph, level: seq<Id>, k: nat)
    requires IsLevel(g, level, k) && level != []
    ensures IsLevel(g, Sorted(level), k) && Sorted(level) != []
  {
    SortedKeepsElems(level);
    assert forall n :: n in Sorted(level) <==> n in Elems(Sorted(level));
    assert forall n :: n in level <==> n in Elems(level);
    assert level[0] in Sorted(level);
  }

  // ---- What the levels are good for -----------------------------------------------------

  lemma {:induction false} LevellingShape(g: Graph, h: Graph, a: seq<seq<Id>>, b: seq<seq<Id>>)
    requires g.deps == h.deps && IsLevelling(g, a) && IsLevelling(h, b)
    ensures |a| <= |b|
  {
    if |a| > |b| {
      var n := a[|b|][0];
      assert n in a[|b|];
      assert HasLevel(g, n, |b|);
      var k :| 0 <= k < |b| && n in b[k];
      assert HasLevel(h, n, k);
      SameLevels(g, h, n, k);
      LevelUnique(g, n, k, |b|);
      assert false;
    }
  }

  lemma {:induction false} SameLevels(g: Graph, h: Graph, n: Id, k: nat)
    requires g.deps == h.deps
    ensures HasLevel(g, n, k) <==> HasLevel(h, n, k)
  {
    SameChains(g, h, n, k);
    SameChains(g, h, n, k + 1);
  }

  lemma {:induction false} SameChains(g: Graph, h: Graph, n: Id, k: nat)
    requires g.deps == h.deps
    ensures Chain(g, n, k) <==> Chain(h, n, k)
    decreases k
  {
    if k > 0 {
      forall d | d in g.Deps(n) { SameChains(g, h, d, k - 1); }
      assert g.Deps(n) == h.Deps(n);
    }
  }

  /** The levels do not depend on the order in which the dictionary lists the nodes. */
  lemma {:induction false} LevelsIgnoreDictOrder(g: Graph, h: Graph, a: seq<seq<Id>>, b: seq<seq<Id>>)
    requires g.deps == h.deps && IsLevelling(g, a) && IsLevelling(h, b)
    ensures a == b
  {
    LevellingShape(g, h, a, b);
    LevellingShape(h, g, b, a);
    forall k | 0 <= k < |a|
      ensures a[k] == b[k]
    {
      forall n ensures n in a[k] <==> n in b[k] {
        SameLevels(g, h, n, k);
      }
      SortedListingUnique(a[k], b[k]);
    }
  }

  /** Every node is on exactly one level, the one its longest dependency chain names. */
  lemma {:induction false} LevelIndex(g: Graph, levels: seq<seq<Id>>, n: Id, k: nat)
    requires IsLevelling(g, levels)
    ensures HasLevel(g, n, k) <==> k < |levels| && n in levels[k]
  {
    if HasLevel(g, n, k) {
      var j :| 0 <= j < |levels| && n in levels[j];
      LevelUnique(g, n, j, k);
    }
  }

  /** No two nodes of a level depend on each other, directly or not. */
  lemma {:induction false} LevelIsAntichain(g: Graph, levels: seq<seq<Id>>, k: nat, u: Id, v: Id)
    requires IsLevelling(g, levels) && k < |levels|
    requires u in levels[k] && v in levels[k]
    ensures !DependsOn(g, v, u)
  {
    forall j: nat | j > 0 ensures !Walk(g, u, v, j) {
      if Walk(g, u, v, j) {
        WalkRaisesLevel(g, u, v, j, k, k);
        assert false;
      }
    }
  }
}
