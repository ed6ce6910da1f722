/** The execution-flow layout: levels by a label-correcting worklist, then positions. */
module FlowLayout {
  import opened Collections
  import opened Graphs

  /** One entry of the node timings the front end receives. */
  datatype TimedNode = TimedNode(id: Id, dependsOn: seq<Id>)

  datatype Item = Item(id: Id, level: nat)

  function Ids(timings: seq<TimedNode>): (r: seq<Id>)
    ensures |r| == |timings| && forall i :: 0 <= i < |timings| ==> r[i] == timings[i].id
  {
    Mapped(timings, (t: TimedNode) => t.id)
  }

  function TimedGraph(timings: seq<TimedNode>): Graph {
    Graph(Ids(timings), map id | id in Ids(timings) :: timings[IndexOf(Ids(timings), id)].dependsOn)
  }

  lemma {:induction false} TimedDeps(timings: seq<TimedNode>, i: nat)
    requires Distinct(Ids(timings)) && i < |timings|
    ensures timings[i].id in TimedGraph(timings).deps
    ensures TimedGraph(timings).deps[timings[i].id] == timings[i].dependsOn
  {
    assert Ids(timings)[i] == timings[i].id;
    IndexOfDistinct(Ids(timings), i);
    hide Distinct, IndexOf;
  }

  lemma {:induction false} TimedIndex(timings: seq<TimedNode>, n: Id) returns (i: nat)
    requires n in TimedGraph(timings).deps
    ensures i < |timings| && timings[i].id == n
  {
    i := IndexOf(Ids(timings), n);
  }

  // ---- Chains from the roots --------------------------------------------------------------

  /** A chain of `k` dependency edges leads from a node without dependencies to `n`. */
  ghost predicate Rooted(g: Graph, n: Id, k: nat)
    decreases k
  {
    n in g.deps
    && if k == 0 then g.deps[n] == [] else exists d :: d in g.deps[n] && Rooted(g, d, k - 1)
  }

  /** The longest such chain to `n` has `k` edges. */
  ghost predicate RootLevel(g: Graph, n: Id, k: nat) {
    Rooted(g, n, k) && forall j :: j > k ==> !Rooted(g, n, j)
  }

  lemma {:induction false} RootedIsChain(g: Graph, n: Id, k: nat)
    requires Rooted(g, n, k)
    ensures Chain(g, n, k)
    decreases k
  {
    if k > 0 {
      var d :| d in g.deps[n] && Rooted(g, d, k - 1);
      RootedIsChain(g, d, k - 1);
      assert d in g.Deps(n);
    }
  }

  /** In a closed graph a node's level is reached by a chain from a root. */
  lemma {:induction false} LevelIsRooted(g: Graph, n: Id, k: nat)
    requires g.Closed() && HasLevel(g, n, k)
    ensures Rooted(g, n, k)
    decreases k
  {
    if k == 0 {
      if g.deps[n] != [] {
        assert g.deps[n][0] in g.Deps(n) && Chain(g, g.deps[n][0], 0);
        assert false;
      }
    } else {
      LevelOfDeps(g, n, k);
      var d :| d in g.Deps(n) && HasLevel(g, d, k - 1);
      LevelIsRooted(g, d, k - 1);
    }
  }

  /** Over a closed set of nodes the longest chain from a root is the longest chain. */
  lemma {:induction false} RootLevelIsLevel(g: Graph, n: Id, k: nat)
    requires g.Closed() && Acyclic(g) && n in g.deps
    ensures RootLevel(g, n, k) <==> HasLevel(g, n, k)
  {
    var m := LevelExists(g, n);
    LevelIsRooted(g, n, m);
    forall j: nat | j > m ensures !Rooted(g, n, j) {
      if Rooted(g, n, j) {
        RootedIsChain(g, n, j);
        ChainShorter(g, n, m + 1, j);
        assert false;
      }
    }
    if HasLevel(g, n, k) {
      LevelUnique(g, n, k, m);
    }
  }

  // ---- Chains that never end --------------------------------------------------------------

  /** No node that a chain from a root leads to depends on itself. */
  ghost predicate NoRootedCycle(g: Graph) {
    forall n, k: nat {:trigger Rooted(g, n, k)} :: Rooted(g, n, k) ==> !DependsOn(g, n, n)
  }

  ghost predicate Bounded(g: Graph, bound: nat) {
    forall n, k: nat :: Rooted(g, n, k) ==> k <= bound
  }

  lemma {:induction false} AcyclicNoRootedCycle(g: Graph)
    requires Acyclic(g)
    ensures NoRootedCycle(g)
  {
  }

  /** The nodes of a chain from a root, from its end down. */
  lemma {:induction false} RootedDescent(g: Graph, n: Id, k: nat) returns (p: seq<Id>)
    requires Rooted(g, n, k)
    ensures |p| == k + 1 && p[0] == n && Descends(g, p)
    ensures forall i :: 0 <= i <= k ==> Rooted(g, p[i], k - i)
    decreases k
  {
    if k == 0 {
      p := [n];
    } else {
      var d :| d in g.deps[n] && Rooted(g, d, k - 1);
      var rest := RootedDescent(g, d, k - 1);
      p := [n] + rest;
      forall i | 0 <= i < |p| - 1 ensures p[i + 1] in g.Deps(p[i]) {
        if i > 0 { assert rest[i] in g.Deps(rest[i - 1]); }
      }
      forall i | 0 <= i <= k ensures Rooted(g, p[i], k - i) {
        if i > 0 { assert p[i] == rest[i - 1] && Rooted(g, rest[i - 1], k - 1 - (i - 1)); }
      }
    }
  }

  lemma {:induction false} RepeatedNode(g: Graph, p: seq<Id>)
    requires |p| > |g.deps| && forall i :: 0 <= i < |p| ==> p[i] in g.deps
    ensures exists i, j :: 0 <= i < j < |p| && p[i] == p[j]
  {
    assert |g.Nodes()| == |g.deps|;
    DistinctCard(p);
    SubsetCard(Elems(p), g.Nodes());
  }

  /** A chain longer than the number of nodes passes a node twice. */
  lemma {:induction false} LongChainCycles(g: Graph, n: Id, k: nat)
    requires Rooted(g, n, k) && k > |g.deps|
    ensures !NoRootedCycle(g)
  {
    var p := RootedDescent(g, n, k);
    RepeatedNode(g, p);
    var i, j :| 0 <= i < j < |p| && p[i] == p[j];
    DescentIsWalk(g, p, i, j);
    assert Rooted(g, p[i], k - i) && DependsOn(g, p[i], p[i]);
  }

  lemma {:induction false} ChainsBounded(g: Graph)
    requires NoRootedCycle(g)
    ensures Bounded(g, |g.deps|)
  {
    hide NoRootedCycle;
    forall n, k: nat | Rooted(g, n, k)
      ensures k <= |g.deps|
    {
      if k > |g.deps| {
        LongChainCycles(g, n, k);
      }
    }
  }

  lemma {:induction false} WalkProlongs(g: Graph, u: Id, v: Id, k: nat, m: nat)
    requires Rooted(g, u, k) && Walk(g, u, v, m)
    ensures Rooted(g, v, k + m)
    decreases m
  {
    if m > 0 {
      var d :| d in g.Deps(v) && Walk(g, u, d, m - 1);
      WalkProlongs(g, u, d, k, m - 1);
      assert d in g.deps[v];
    }
  }

  /** Going round a cycle again and again gives chains of any length. */
  lemma {:induction false} CycleUnbounded(g: Graph, n: Id, k: nat, bound: nat) returns (j: nat)
    requires Rooted(g, n, k) && DependsOn(g, n, n)
    ensures j > bound && Rooted(g, n, j)
    decreases if k > bound then 0 else bound + 1 - k
  {
    if k > bound {
      j := k;
    } else {
      var m: nat :| m > 0 && Walk(g, n, n, m);
      WalkProlongs(g, n, n, k, m);
      j := CycleUnbounded(g, n, k + m, bound);
    }
  }

  // ---- The worklist -----------------------------------------------------------------------

  /** What is still pushed or recorded for `m` reaches level `k`. */
  ghost predicate Covered(levels: map<Id, nat>, queue: seq<Item>, m: Id, k: nat) {
    (m in levels && levels[m] >= k) || exists i :: 0 <= i < |queue| && queue[i].id == m && queue[i].level >= k
  }

  /** Recorded and queued levels come from chains, and nothing a recorded level implies is forgotten. */
  ghost predicate Working(g: Graph, levels: map<Id, nat>, queue: seq<Item>) {
    && (forall id :: id in levels ==> Rooted(g, id, levels[id]))
    && (forall i :: 0 <= i < |queue| ==> Rooted(g, queue[i].id, queue[i].level))
    && (forall r :: r in g.deps && g.deps[r] == [] ==> Covered(levels, queue, r, 0))
    && (forall d, m {:trigger d in g.deps[m]} :: d in levels && m in g.deps && d in g.deps[m] ==>
          Covered(levels, queue, m, levels[d] + 1))
  }

  /** How far the recorded levels are from the bound. */
  function Gaps(g: Graph, bound: nat, levels: map<Id, nat>): map<Id, nat> {
    map n | n in g.deps :: if n !in levels then bound + 1 else if levels[n] < bound then bound - levels[n] else 0
  }

  ghost function Measure(g: Graph, bound: nat, levels: map<Id, nat>): nat
    requires g.IsDict()
  {
    assert forall n :: n in g.order ==> n in Elems(g.order);
    SumOver(g.order, Gaps(g, bound, levels))
  }

  lemma {:induction false} MeasureDrops(g: Graph, bound: nat, levels: map<Id, nat>, id: Id, level: nat)
    requires g.IsDict() && id in g.deps && level <= bound
    requires id in levels ==> levels[id] < level
    ensures Measure(g, bound, levels[id := level]) < Measure(g, bound, levels)
  {
    assert id in Elems(g.order);
    var before, after := Gaps(g, bound, levels), Gaps(g, bound, levels[id := level]);
    forall n | n in g.order ensures n in before && n in after && after[n] <= before[n] {
      assert n in Elems(g.order);
    }
    SumOverStrict(g.order, after, before, id);
  }

  lemma {:induction false} CoveredWithoutHead(levels: map<Id, nat>, queue: seq<Item>, m: Id, k: nat)
    requires queue != [] && Covered(levels, queue, m, k)
    requires queue[0].id in levels && levels[queue[0].id] >= queue[0].level
    ensures Covered(levels, queue[1..], m, k)
  {
    if !(m in levels && levels[m] >= k) {
      var i :| 0 <= i < |queue| && queue[i].id == m && queue[i].level >= k;
      assert queue[1..][i - 1] == queue[i];
    }
  }

  /** An item that improves nothing can be dropped. */
  lemma {:induction false} DropItem(g: Graph, levels: map<Id, nat>, queue: seq<Item>)
    requires Working(g, levels, queue) && queue != []
    requires queue[0].id in levels && levels[queue[0].id] >= queue[0].level
    ensures Working(g, levels, queue[1..])
  {
    forall r | r in g.deps && g.deps[r] == [] ensures Covered(levels, queue[1..], r, 0) {
      CoveredWithoutHead(levels, queue, r, 0);
    }
    forall d, m | d in levels && m in g.deps && d in g.deps[m] ensures Covered(levels, queue[1..], m, levels[d] + 1) {
      CoveredWithoutHead(levels, queue, m, levels[d] + 1);
    }
  }

  /** The items for the dependents of `id`, in timing order. */
  ghost predicate Pushed(g: Graph, items: seq<Item>, id: Id, level: nat) {
    && (forall i :: 0 <= i < |items| ==>
          items[i].level == level + 1 && items[i].id in g.deps && id in g.deps[items[i].id])
    && (forall m :: m in g.deps && id in g.deps[m] ==> exists i :: 0 <= i < |items| && items[i].id == m)
  }

  lemma {:induction false} CoveredAfterSet(levels: map<Id, nat>, queue: seq<Item>, items: seq<Item>, m: Id, k: nat)
    requires queue != [] && Covered(levels, queue, m, k)
    requires queue[0].id in levels ==> levels[queue[0].id] < queue[0].level
    ensures Covered(levels[queue[0].id := queue[0].level], queue[1..] + items, m, k)
  {
    var set1 := levels[queue[0].id := queue[0].level];
    if !(m in set1 && set1[m] >= k) {
      var i :| 0 <= i < |queue| && queue[i].id == m && queue[i].level >= k;
      assert (queue[1..] + items)[i - 1] == queue[i];
    }
  }

  /** Recording a better level and queueing the dependents one level higher. */
  lemma {:induction false} RecordItem(g: Graph, levels: map<Id, nat>, queue: seq<Item>, items: seq<Item>)
    requires Working(g, levels, queue) && queue != []
    requires queue[0].id in levels ==> levels[queue[0].id] < queue[0].level
    requires Pushed(g, items, queue[0].id, queue[0].level)
    ensures Working(g, levels[queue[0].id := queue[0].level], queue[1..] + items)
  {
    var id, level := queue[0].id, queue[0].level;
    var set1, rest := levels[id := level], queue[1..] + items;
    forall i | 0 <= i < |rest| ensures Rooted(g, rest[i].id, rest[i].level) {
      if i < |queue| - 1 {
        assert rest[i] == queue[i + 1];
      } else {
        assert rest[i] == items[i - (|queue| - 1)];
      }
    }
    forall r | r in g.deps && g.deps[r] == [] ensures Covered(set1, rest, r, 0) {
      CoveredAfterSet(levels, queue, items, r, 0);
    }
    forall d, m | d in set1 && m in g.deps && d in g.deps[m] ensures Covered(set1, rest, m, set1[d] + 1) {
      if d == id {
        var i :| 0 <= i < |items| && items[i].id == m;
        assert rest[|queue| - 1 + i] == items[i];
      } else {
        CoveredAfterSet(levels, queue, items, m, levels[d] + 1);
      }
    }
  }

  /** With an empty queue the recorded levels dominate every chain from a root. */
  lemma {:induction false} NothingPending(g: Graph, levels: map<Id, nat>, n: Id, k: nat)
    requires Working(g, levels, []) && Rooted(g, n, k)
    ensures n in levels && levels[n] >= k
    decreases k
  {
    if k == 0 {
      assert Covered(levels, [], n, 0);
    } else {
      var d :| d in g.deps[n] && Rooted(g, d, k - 1);
      NothingPending(g, levels, d, k - 1);
      assert Covered(levels, [], n, levels[d] + 1);
    }
  }

  /** The items of the first `n` timings that depend on `id`, one level higher. */
  function DependentItems(timings: seq<TimedNode>, id: Id, level: nat, n: nat): seq<Item>
    requires n <= |timings|
  {
    if n == 0 then []
    else
      DependentItems(timings, id, level, n - 1)
      + if id in timings[n - 1].dependsOn then [Item(timings[n - 1].id, level + 1)] else []
  }

  lemma {:induction false} DependentItemsIff(timings: seq<TimedNode>, id: Id, level: nat, n: nat, item: Item)
    requires n <= |timings|
    ensures item in DependentItems(timings, id, level, n) <==>
            item.level == level + 1 && exists i :: 0 <= i < n && timings[i].id == item.id && id in timings[i].dependsOn
  {
    if n > 0 {
      DependentItemsIff(timings, id, level, n - 1, item);
    }
  }

  lemma {:induction false} DependentsPushed(timings: seq<TimedNode>, id: Id, level: nat)
    requires Distinct(Ids(timings))
    ensures Pushed(TimedGraph(timings), DependentItems(timings, id, level, |timings|), id, level)
  {
    hide DependentItems, TimedGraph;
    var g, items := TimedGraph(timings), DependentItems(timings, id, level, |timings|);
    forall j | 0 <= j < |items|
      ensures items[j].level == level + 1 && items[j].id in g.deps && id in g.deps[items[j].id]
    {
      DependentItemsIff(timings, id, level, |timings|, items[j]);
      var i :| 0 <= i < |timings| && timings[i].id == items[j].id && id in timings[i].dependsOn;
      TimedDeps(timings, i);
    }
    forall m | m in g.deps && id in g.deps[m]
      ensures exists i :: 0 <= i < |items| && items[i].id == m
    {
      var j := TimedIndex(timings, m);
      TimedDeps(timings, j);
      DependentItemsIff(timings, id, level, |timings|, Item(m, level + 1));
    }
  }

  /** The items of those of the first `n` timings that have no dependencies. */
  function RootItems(timings: seq<TimedNode>, n: nat): seq<Item>
    requires n <= |timings|
  {
    if n == 0 then []
    else RootItems(timings, n - 1) + if timings[n - 1].dependsOn == [] then [Item(timings[n - 1].id, 0)] else []
  }

  lemma {:induction false} RootItemsIff(timings: seq<TimedNode>, n: nat, item: Item)
    requires n <= |timings|
    ensures item in RootItems(timings, n) <==>
            item.level == 0 && exists i :: 0 <= i < n && timings[i].id == item.id && timings[i].dependsOn == []
  {
    if n > 0 {
      RootItemsIff(timings, n - 1, item);
    }
  }

  lemma {:induction false} RootsStart(timings: seq<TimedNode>)
    requires Distinct(Ids(timings))
    ensures Working(TimedGraph(timings), map[], RootItems(timings, |timings|))
  {
    hide RootItems, TimedGraph;
    var g, queue := TimedGraph(timings), RootItems(timings, |timings|);
    forall j | 0 <= j < |queue|
      ensures Rooted(g, queue[j].id, queue[j].level)
    {
      RootItemsIff(timings, |timings|, queue[j]);
      var i :| 0 <= i < |timings| && timings[i].id == queue[j].id && timings[i].dependsOn == [];
      TimedDeps(timings, i);
    }
    forall r | r in g.deps && g.deps[r] == []
      ensures Covered(map[], queue, r, 0)
    {
      var j := TimedIndex(timings, r);
      TimedDeps(timings, j);
      RootItemsIff(timings, |timings|, Item(r, 0));
      assert queue[IndexOf(queue, Item(r, 0))].id == r;
    }
  }

  /** The two things the loop works on. */
  datatype Work = Work(levels: map<Id, nat>, queue: seq<Item>)

  /** One turn of the loop. */
  function Turn(timings: seq<TimedNode>, w: Work): Work
    requires w.queue != []
  {
    var item := w.queue[0];
    if item.id in w.levels && w.levels[item.id] >= item.level then w.(queue := w.queue[1..])
    else
      Work(w.levels[item.id := item.level],
           w.queue[1..] + DependentItems(timings, item.id, item.level, |timings|))
  }

  /** Where the loop stands after `n` turns, or when it ended before. */
  function Turns(timings: seq<TimedNode>, n: nat): Work {
    if n == 0 then Work(map[], RootItems(timings, |timings|))
    else
      var w := Turns(timings, n - 1);
      if w.queue == [] then w else Turn(timings, w)
  }

  ghost predicate Halts(timings: seq<TimedNode>) {
    exists n: nat :: Turns(timings, n).queue == []
  }

  lemma TurnCases(timings: seq<TimedNode>, w: Work)
    requires w.queue != []
    ensures var item := w.queue[0];
            Turn(timings, w) ==
              if item.id in w.levels && w.levels[item.id] >= item.level then w.(queue := w.queue[1..])
              else Work(w.levels[item.id := item.level],
                        w.queue[1..] + DependentItems(timings, item.id, item.level, |timings|))
  {
  }

  lemma {:induction false} TurnWorks(timings: seq<TimedNode>, w: Work)
    requires Distinct(Ids(timings)) && Working(TimedGraph(timings), w.levels, w.queue) && w.queue != []
    ensures Working(TimedGraph(timings), Turn(timings, w).levels, Turn(timings, w).queue)
  {
    hide Working, Pushed, TimedGraph;
    var item := w.queue[0];
    if item.id in w.levels && w.levels[item.id] >= item.level {
      DropItem(TimedGraph(timings), w.levels, w.queue);
    } else {
      DependentsPushed(timings, item.id, item.level);
      RecordItem(TimedGraph(timings), w.levels, w.queue, DependentItems(timings, item.id, item.level, |timings|));
    }
  }

  /** A turn records a level within the bound, or takes an item off the queue. */
  lemma {:induction false} TurnProgresses(timings: seq<TimedNode>, bound: nat, w: Work)
    requires Distinct(Ids(timings)) && Working(TimedGraph(timings), w.levels, w.queue) && w.queue != []
    requires Bounded(TimedGraph(timings), bound)
    ensures TimedGraph(timings).IsDict()
    ensures var g, v := TimedGraph(timings), Turn(timings, w);
            || Measure(g, bound, v.levels) < Measure(g, bound, w.levels)
            || (v.levels == w.levels && |v.queue| < |w.queue|)
  {
    hide TimedGraph, Measure, Turn, Working, Bounded, Distinct;
    var g, item := TimedGraph(timings), w.queue[0];
    TimedIsDict(timings);
    TurnCases(timings, w);
    HeadBounded(g, bound, w);
    if !(item.id in w.levels && w.levels[item.id] >= item.level) {
      MeasureDrops(g, bound, w.levels, item.id, item.level);
    }
  }

  lemma TimedIsDict(timings: seq<TimedNode>)
    requires Distinct(Ids(timings))
    ensures TimedGraph(timings).IsDict()
  {
  }

  lemma HeadBounded(g: Graph, bound: nat, w: Work)
    requires Working(g, w.levels, w.queue) && w.queue != [] && Bounded(g, bound)
    ensures w.queue[0].id in g.deps && w.queue[0].level <= bound
  {
    assert Rooted(g, w.queue[0].id, w.queue[0].level);
  }

  lemma {:induction false} TurnsWork(timings: seq<TimedNode>, n: nat)
    requires Distinct(Ids(timings))
    ensures Working(TimedGraph(timings), Turns(timings, n).levels, Turns(timings, n).queue)
  {
    hide Working, TimedGraph, Turn;
    if n == 0 {
      RootsStart(timings);
    } else {
      TurnsWork(timings, n - 1);
      if Turns(timings, n - 1).queue != [] {
        TurnWorks(timings, Turns(timings, n - 1));
      }
    }
  }

  lemma {:induction false} RunsDry(timings: seq<TimedNode>, bound: nat, n: nat)
    requires Distinct(Ids(timings)) && TimedGraph(timings).IsDict() && Bounded(TimedGraph(timings), bound)
    ensures Halts(timings)
    decreases Measure(TimedGraph(timings), bound, Turns(timings, n).levels), |Turns(timings, n).queue|
  {
    hide Working, TimedGraph, Turn, Measure, Bounded;
    if Turns(timings, n).queue != [] {
      TurnsWork(timings, n);
      TurnProgresses(timings, bound, Turns(timings, n));
      assert Turns(timings, n + 1) == Turn(timings, Turns(timings, n));
      RunsDry(timings, bound, n + 1);
    }
  }

  /** The loop comes to an end exactly when no chain from a root leads to a node that depends on itself. */
  lemma {:induction false} HaltsIff(timings: seq<TimedNode>)
    requires Distinct(Ids(timings))
    ensures Halts(timings) <==> NoRootedCycle(TimedGraph(timings))
  {
    var g := TimedGraph(timings);
    assert g.IsDict();
    hide TimedGraph, Turns, Working, Rooted, Bounded;
    if n: nat :| Turns(timings, n).queue == [] {
      TurnsWork(timings, n);
      var levels := Turns(timings, n).levels;
      forall m, k: nat | Rooted(g, m, k) ensures !DependsOn(g, m, m) {
        if DependsOn(g, m, m) {
          NothingPending(g, levels, m, k);
          var j := CycleUnbounded(g, m, k, levels[m]);
          NothingPending(g, levels, m, j);
          assert false;
        }
      }
    }
    if NoRootedCycle(g) {
      ChainsBounded(g);
      RunsDry(timings, |g.deps|, 0);
    }
  }

  /** The inner loop: one item per timing that depends on `id`. */
  method Dependents(timings: seq<TimedNode>, id: Id, level: nat) returns (items: seq<Item>)
    ensures items == DependentItems(timings, id, level, |timings|)
  {
    items := [];
    for i := 0 to |timings|
      invariant items == DependentItems(timings, id, level, i)
    {
      if id in timings[i].dependsOn {
        items := items + [Item(timings[i].id, level + 1)];
      }
    }
  }

  method Roots(timings: seq<TimedNode>) returns (queue: seq<Item>)
    ensures queue == RootItems(timings, |timings|)
  {
    queue := [];
    for i := 0 to |timings|
      invariant queue == RootItems(timings, i)
    {
      if timings[i].dependsOn == [] {
        queue := queue + [Item(timings[i].id, 0)];
      }
    }
  }

  /** Levels of the timed nodes; `order` is the order in which the map got its keys. */
  method AssignLevels(timings: seq<TimedNode>) returns (levels: map<Id, nat>, order: seq<Id>)
    requires Distinct(Ids(timings)) && NoRootedCycle(TimedGraph(timings))
    ensures Distinct(order) && Elems(order) == levels.Keys
    ensures forall n, k: nat :: n in levels && levels[n] == k <==> RootLevel(TimedGraph(timings), n, k)
    ensures RootIds(timings) <= order
  {
    hide Working, TimedGraph, Measure, NoRootedCycle, RootLevel, Turn, DependentItems, RootItems, Elems, Distinct;
    hide RootsFirst;
    ghost var g := TimedGraph(timings);
    ghost var bound := BoundOf(timings);
    var queue := Roots(timings);
    RootsStart(timings);
    levels, order := map[], [];
    NothingTouched();
    ghost var done: nat := 0;
    RootsFirstStarts(timings);
    while queue != []
      invariant Working(g, levels, queue)
      invariant Distinct(order) && Elems(order) == levels.Keys
      invariant RootsFirst(timings, order, queue, done)
      decreases Measure(g, bound, levels), |queue|
    {
      ghost var w := Work(levels, queue);
      TurnWorks(timings, w);
      TurnProgresses(timings, bound, w);
      var id, level := queue[0].id, queue[0].level;
      TurnCases(timings, w);
      done := RootsFirstTurn(timings, order, queue, done);
      ListedInElems(order, id);
      if id in levels && levels[id] >= level {
        queue := queue[1..];
      } else {
        var items := Dependents(timings, id, level);
        order := Touch(order, id);
        levels := levels[id := level];
        queue := queue[1..] + items;
      }
    }
    LevelsFinal(g, levels);
    RootsFirstEnds(timings, order, done);
  }

  /** The nodes without dependencies, in timing order. */
  function RootIds(timings: seq<TimedNode>): (r: seq<Id>) {
    Mapped(RootItems(timings, |timings|), (item: Item) => item.id)
  }

  /** The first `done` roots have been recorded, first of all nodes, and the others head the queue. */
  ghost predicate RootsFirst(timings: seq<TimedNode>, order: seq<Id>, queue: seq<Item>, done: nat) {
    var items, ids := RootItems(timings, |timings|), RootIds(timings);
    && done <= |ids|
    && (done < |ids| ==> order == ids[..done] && items[done..] <= queue)
    && (done == |ids| ==> ids <= order)
  }

  lemma RootsFirstStarts(timings: seq<TimedNode>)
    ensures RootsFirst(timings, [], RootItems(timings, |timings|), 0)
  {
    hide RootItems;
  }

  lemma RootsFirstEnds(timings: seq<TimedNode>, order: seq<Id>, done: nat)
    requires RootsFirst(timings, order, [], done)
    ensures RootIds(timings) <= order
  {
    hide RootItems;
  }

  /** How many of the first `n` timings have no dependencies. */
  function RootsBefore(timings: seq<TimedNode>, n: nat): nat
    requires n <= |timings|
  {
    if n == 0 then 0 else RootsBefore(timings, n - 1) + if timings[n - 1].dependsOn == [] then 1 else 0
  }

  lemma {:induction false} RootItemsRanked(timings: seq<TimedNode>, n: nat)
    requires n <= |timings|
    ensures |RootItems(timings, n)| == RootsBefore(timings, n)
    ensures forall i :: 0 <= i < n && timings[i].dependsOn == [] ==>
      RootsBefore(timings, i) < RootsBefore(timings, n)
      && RootItems(timings, n)[RootsBefore(timings, i)] == Item(timings[i].id, 0)
  {
    if n > 0 {
      RootItemsRanked(timings, n - 1);
    }
  }

  /** The root of a given rank. */
  lemma {:induction false} RootRanked(timings: seq<TimedNode>, n: nat, k: nat) returns (i: nat)
    requires n <= |timings| && k < |RootItems(timings, n)|
    ensures i < n && timings[i].dependsOn == [] && RootsBefore(timings, i) == k
  {
    RootItemsRanked(timings, n - 1);
    if k < |RootItems(timings, n - 1)| {
      i := RootRanked(timings, n - 1, k);
    } else {
      i := n - 1;
    }
  }

  lemma ListedInElems(order: seq<Id>, id: Id)
    ensures id in order <==> id in Elems(order)
  {
  }

  lemma {:induction false} RootIdsDistinct(timings: seq<TimedNode>)
    requires Distinct(Ids(timings))
    ensures Distinct(RootIds(timings)) && |RootIds(timings)| == RootsBefore(timings, |timings|)
    ensures forall i :: 0 <= i < |timings| && timings[i].dependsOn == [] ==>
      RootsBefore(timings, i) < |RootIds(timings)| && RootIds(timings)[RootsBefore(timings, i)] == timings[i].id
    ensures forall x :: x in RootIds(timings) ==>
      exists i :: 0 <= i < |timings| && timings[i].dependsOn == [] && timings[i].id == x
  {
    hide RootItems, RootsBefore;
    RootItemsRanked(timings, |timings|);
    var ids := RootIds(timings);
    forall k, l | 0 <= k < l < |ids| ensures ids[k] != ids[l] {
      var i := RootRanked(timings, |timings|, k);
      var j := RootRanked(timings, |timings|, l);
      assert Ids(timings)[i] != Ids(timings)[j];
    }
    forall x | x in ids ensures exists i :: 0 <= i < |timings| && timings[i].dependsOn == [] && timings[i].id == x {
      var i := RootRanked(timings, |timings|, IndexOf(ids, x));
    }
  }

  /** One turn: a root at the head of the queue is recorded next. */
  lemma {:induction false} RootsFirstTurn(timings: seq<TimedNode>, order: seq<Id>, queue: seq<Item>, done: nat)
    returns (next: nat)
    requires Distinct(Ids(timings)) && Distinct(order) && queue != [] && RootsFirst(timings, order, queue, done)
    ensures var id := queue[0].id;
            && (id in order ==> RootsFirst(timings, order, queue[1..], next))
            && forall items: seq<Item> :: RootsFirst(timings, Touch(order, id), queue[1..] + items, next)
  {
    hide RootItems;
    var items, ids := RootItems(timings, |timings|), RootIds(timings);
    next := if done < |ids| then done + 1 else done;
    if done < |ids| {
      RootIdsDistinct(timings);
      assert items[done..][0] == queue[0] && items[done..][1..] == items[done + 1..];
      assert ids[done] == queue[0].id && ids[done] !in ids[..done];
      assert ids[..done] + [ids[done]] == ids[..done + 1];
      forall more: seq<Item> ensures items[done + 1..] <= queue[1..] + more {}
    }
  }

  lemma {:induction false} BoundOf(timings: seq<TimedNode>) returns (bound: nat)
    requires Distinct(Ids(timings)) && NoRootedCycle(TimedGraph(timings))
    ensures TimedGraph(timings).IsDict() && Bounded(TimedGraph(timings), bound)
  {
    hide NoRootedCycle;
    bound := |TimedGraph(timings).deps|;
    ChainsBounded(TimedGraph(timings));
  }

  lemma NothingTouched()
    ensures var none: seq<Id> := []; Distinct(none) && Elems(none) == {}
  {
  }

  /** Setting a key of a JavaScript map keeps the place of a known key. */
  function Touch(order: seq<Id>, id: Id): (r: seq<Id>)
    requires Distinct(order)
    ensures Distinct(r) && Elems(r) == Elems(order) + {id}
  {
    if id in order then order else
      DistinctSnoc(order, id);
      order + [id]
  }

  lemma {:induction false} LevelsFinal(g: Graph, levels: map<Id, nat>)
    requires Working(g, levels, [])
    ensures forall n, k: nat :: n in levels && levels[n] == k <==> RootLevel(g, n, k)
  {
    forall n, k: nat ensures n in levels && levels[n] == k <==> RootLevel(g, n, k) {
      if n in levels {
        assert Rooted(g, n, levels[n]);
        forall j: nat | j > levels[n] ensures !Rooted(g, n, j) {
          if Rooted(g, n, j) {
            NothingPending(g, levels, n, j);
            assert false;
          }
        }
      }
      if RootLevel(g, n, k) {
        NothingPending(g, levels, n, k);
      }
    }
  }

  // ---- Positions --------------------------------------------------------------------------

  const COLUMN := 250
  const ROW := 100

  datatype Position = Position(x: int, y: int)

  /** The ids recorded at one level, in the order of the levels map. */
  function Group(order: seq<Id>, levels: map<Id, nat>, level: nat): (r: seq<Id>)
    requires forall id :: id in order ==> id in levels
    ensures forall id :: id in r <==> id in order && levels[id] == level
  {
    if order == [] then []
    else
      var last := |order| - 1;
      assert order == order[..last] + [order[last]];
      Group(order[..last], levels, level) + if levels[order[last]] == level then [order[last]] else []
  }

  method GroupByLevel(order: seq<Id>, levels: map<Id, nat>) returns (groups: map<nat, seq<Id>>)
    requires forall id :: id in order ==> id in levels
    ensures forall l: nat :: Group(order, levels, l) == if l in groups then groups[l] else []
  {
    groups := map[];
    assert order[..0] == [];
    for i := 0 to |order|
      invariant forall l: nat :: Group(order[..i], levels, l) == if l in groups then groups[l] else []
    {
      var id := order[i];
      assert order[..i + 1][..i] == order[..i];
      forall l: nat ensures Group(order[..i + 1], levels, l)
        == Group(order[..i], levels, l) + if levels[id] == l then [id] else [] {}
      var group := if levels[id] in groups then groups[levels[id]] else [];
      groups := groups[levels[id] := group + [id]];
    }
    assert order[..|order|] == order;
  }

  /** JavaScript's `indexOf`. */
  function IndexOrMinusOne(s: seq<Id>, x: Id): int {
    if x in s then IndexOf(s, x) else -1
  }

  /** A node of level `k` sits in column `k`. */
  ghost predicate InColumn(g: Graph, timings: seq<TimedNode>, positions: seq<Position>)
    requires |positions| == |timings|
  {
    forall i, k: nat :: 0 <= i < |timings| && RootLevel(g, timings[i].id, k) ==>
      positions[i].x == 250 * k && positions[i].y >= 0
  }

  /** No two nodes that are reached from roots share a position. */
  ghost predicate Apart(g: Graph, timings: seq<TimedNode>, positions: seq<Position>)
    requires |positions| == |timings|
  {
    forall i, j :: 0 <= i < j < |timings| && Reached(g, timings[i].id) && Reached(g, timings[j].id) ==>
      positions[i] != positions[j]
  }

  /** Every reached node is in the first row of its column or right below another one. */
  ghost predicate Stacked(g: Graph, timings: seq<TimedNode>, positions: seq<Position>)
    requires |positions| == |timings|
  {
    forall i :: 0 <= i < |timings| && Reached(g, timings[i].id) ==>
      positions[i].y == 0
      || exists j :: 0 <= j < |timings| && positions[j] == Position(positions[i].x, positions[i].y - 100)
  }

  /** Where one node goes; a node without a recorded level falls back to the first column. */
  function PositionOf(levels: map<Id, nat>, groups: map<nat, seq<Id>>, id: Id): Position {
    var level := if id in levels then levels[id] else 0;
    var group := if level in groups then groups[level] else [id];
    Position(COLUMN * level, ROW * IndexOrMinusOne(group, id))
  }

  lemma {:induction false} PositionPlaced(order: seq<Id>, levels: map<Id, nat>, groups: map<nat, seq<Id>>, id: Id)
    requires forall x :: x in order ==> x in levels
    requires forall l: nat :: Group(order, levels, l) == if l in groups then groups[l] else []
    requires id in order
    ensures Placed(order, levels, id, PositionOf(levels, groups, id))
  {
    assert id in Group(order, levels, levels[id]);
  }

  /**
   One position per timing, in timing order. A node that is reached from a root sits in the column
   of its level; the others fall back to the first column.
   */
  method Layout(timings: seq<TimedNode>) returns (positions: seq<Position>)
    requires Distinct(Ids(timings)) && NoRootedCycle(TimedGraph(timings))
    ensures |positions| == |timings|
    ensures InColumn(TimedGraph(timings), timings, positions)
    ensures Apart(TimedGraph(timings), timings, positions)
    ensures Stacked(TimedGraph(timings), timings, positions)
    ensures forall i :: 0 <= i < |timings| && timings[i].dependsOn == [] ==>
      positions[i] == Position(0, 100 * RootsBefore(timings, i))
    ensures forall i :: 0 <= i < |timings| && !Reached(TimedGraph(timings), timings[i].id) ==> positions[i].x == 0
  {
    hide RootIds, RootsBefore;
    hide RootLevel, InColumn, Apart, Stacked, NoRootedCycle, Placed, PositionOf, TimedGraph, Group, Reached;
    var levels, order := AssignLevels(timings);
    assert forall id :: id in order <==> id in Elems(order);
    var groups := GroupByLevel(order, levels);
    positions := [];
    for i := 0 to |timings|
      invariant |positions| == i
      invariant forall j :: 0 <= j < i && timings[j].id in levels ==> Placed(order, levels, timings[j].id, positions[j])
      invariant forall j :: 0 <= j < i && timings[j].id !in levels ==> positions[j].x == 0
    {
      if timings[i].id in levels {
        PositionPlaced(order, levels, groups, timings[i].id);
      } else {
        PositionFallsBack(levels, groups, timings[i].id);
      }
      positions := positions + [PositionOf(levels, groups, timings[i].id)];
    }
    LayoutFacts(timings, levels, order, positions);
    LayoutStacked(timings, levels, order, positions);
    LayoutRoots(timings, levels, order, positions);
    forall n | n in levels ensures Reached(TimedGraph(timings), n) {
      RecordedIsReached(TimedGraph(timings), levels, n);
    }
  }

  lemma PositionFallsBack(levels: map<Id, nat>, groups: map<nat, seq<Id>>, id: Id)
    requires id !in levels
    ensures PositionOf(levels, groups, id).x == 0
  {
  }

  lemma RecordedIsReached(g: Graph, levels: map<Id, nat>, n: Id)
    requires forall m, k: nat :: m in levels && levels[m] == k <==> RootLevel(g, m, k)
    requires n in levels
    ensures Reached(g, n)
  {
    assert RootLevel(g, n, levels[n]);
  }

  lemma {:induction false} LayoutFacts(timings: seq<TimedNode>, levels: map<Id, nat>, order: seq<Id>,
                                       positions: seq<Position>)
    requires Distinct(Ids(timings)) && |positions| == |timings|
    requires forall x :: x in order ==> x in levels
    requires forall n, k: nat :: n in levels && levels[n] == k <==> RootLevel(TimedGraph(timings), n, k)
    requires forall j :: 0 <= j < |timings| && timings[j].id in levels ==>
      Placed(order, levels, timings[j].id, positions[j])
    ensures InColumn(TimedGraph(timings), timings, positions)
    ensures Apart(TimedGraph(timings), timings, positions)
  {
    hide RootLevel;
    var g := TimedGraph(timings);
    forall i, j | 0 <= i < j < |timings| && Reached(g, timings[i].id) && Reached(g, timings[j].id)
      ensures positions[i] != positions[j]
    {
      ReachedHasLevel(g, levels, timings[i].id);
      ReachedHasLevel(g, levels, timings[j].id);
      assert Ids(timings)[i] != Ids(timings)[j];
      PlacedApart(order, levels, timings[i].id, timings[j].id, positions[i], positions[j]);
    }
  }

  lemma {:induction false} GroupDistinct(order: seq<Id>, levels: map<Id, nat>, level: nat)
    requires Distinct(order) && forall x :: x in order ==> x in levels
    ensures Distinct(Group(order, levels, level))
  {
    if order != [] {
      var last := |order| - 1;
      assert order[last] !in order[..last];
      GroupDistinct(order[..last], levels, level);
    }
  }

  /** Above a node that is not in the first row there is another one of its level. */
  lemma {:induction false} PlacedBelow(order: seq<Id>, levels: map<Id, nat>, id: Id, p: Position) returns (u: Id)
    requires Distinct(order) && (forall x :: x in order ==> x in levels) && Placed(order, levels, id, p) && p.y != 0
    ensures u in order && levels[u] == levels[id]
    ensures forall q :: Placed(order, levels, u, q) ==> q == Position(p.x, p.y - 100)
  {
    hide Distinct;
    var group := Group(order, levels, levels[id]);
    var m := IndexOf(group, id);
    GroupDistinct(order, levels, levels[id]);
    u := group[m - 1];
    IndexOfDistinct(group, m - 1);
  }

  lemma {:induction false} LayoutStacked(timings: seq<TimedNode>, levels: map<Id, nat>, order: seq<Id>,
                                         positions: seq<Position>)
    requires Distinct(order) && |positions| == |timings|
    requires forall x :: x in order ==> x in levels
    requires forall n, k: nat :: n in levels && levels[n] == k <==> RootLevel(TimedGraph(timings), n, k)
    requires forall j :: 0 <= j < |timings| && timings[j].id in levels ==>
      Placed(order, levels, timings[j].id, positions[j])
    ensures Stacked(TimedGraph(timings), timings, positions)
  {
    hide RootLevel, Placed, TimedGraph, Distinct;
    var g := TimedGraph(timings);
    forall i | 0 <= i < |timings| && Reached(g, timings[i].id) && positions[i].y != 0
      ensures exists j :: 0 <= j < |timings| && positions[j] == Position(positions[i].x, positions[i].y - 100)
    {
      ReachedHasLevel(g, levels, timings[i].id);
      var u := PlacedBelow(order, levels, timings[i].id, positions[i]);
      assert RootLevel(g, u, levels[u]);
      RootLevelTimed(g, u, levels[u]);
      var j := TimedIndex(timings, u);
    }
  }

  lemma {:induction false} GroupSnoc(order: seq<Id>, x: Id, levels: map<Id, nat>, level: nat)
    requires (forall y :: y in order ==> y in levels) && x in levels
    ensures Group(order + [x], levels, level) == Group(order, levels, level) + if levels[x] == level then [x] else []
  {
    assert (order + [x])[..|order|] == order;
  }

  lemma {:induction false} GroupConcat(a: seq<Id>, b: seq<Id>, levels: map<Id, nat>, level: nat)
    requires (forall x :: x in a ==> x in levels) && (forall x :: x in b ==> x in levels)
    ensures Group(a + b, levels, level) == Group(a, levels, level) + Group(b, levels, level)
  {
    hide Group;
    if b == [] {
      assert a + b == a;
      NoGroup(levels, level);
    } else {
      var init, x := b[..|b| - 1], b[|b| - 1];
      assert b == init + [x] && a + b == (a + init) + [x];
      GroupConcat(a, init, levels, level);
      GroupSnoc(init, x, levels, level);
      GroupSnoc(a + init, x, levels, level);
    }
  }

  lemma NoGroup(levels: map<Id, nat>, level: nat)
    ensures Group([], levels, level) == []
  {
  }

  lemma {:induction false} GroupAll(ids: seq<Id>, levels: map<Id, nat>, level: nat)
    requires forall x :: x in ids ==> x in levels && levels[x] == level
    ensures Group(ids, levels, level) == ids
  {
    hide Group;
    if ids == [] {
      NoGroup(levels, level);
    } else {
      var init, x := ids[..|ids| - 1], ids[|ids| - 1];
      assert ids == init + [x];
      GroupAll(init, levels, level);
      GroupSnoc(init, x, levels, level);
    }
  }

  lemma {:induction false} RootHasLevelZero(timings: seq<TimedNode>, i: nat)
    requires Distinct(Ids(timings)) && i < |timings| && timings[i].dependsOn == []
    ensures RootLevel(TimedGraph(timings), timings[i].id, 0)
  {
    hide TimedGraph, Distinct;
    TimedDeps(timings, i);
  }

  /** The nodes without dependencies are drawn one below the other, in timing order. */
  lemma {:induction false} LayoutRoots(timings: seq<TimedNode>, levels: map<Id, nat>, order: seq<Id>,
                                       positions: seq<Position>)
    requires Distinct(Ids(timings)) && Distinct(order) && RootIds(timings) <= order && |positions| == |timings|
    requires forall x :: x in order ==> x in levels
    requires forall n, k: nat :: n in levels && levels[n] == k <==> RootLevel(TimedGraph(timings), n, k)
    requires forall j :: 0 <= j < |timings| && timings[j].id in levels ==>
      Placed(order, levels, timings[j].id, positions[j])
    ensures forall i :: 0 <= i < |timings| && timings[i].dependsOn == [] ==>
      positions[i] == Position(0, 100 * RootsBefore(timings, i))
  {
    hide RootLevel, TimedGraph, RootIds, RootsBefore, Group, Distinct;
    var ids := RootIds(timings);
    RootIdsDistinct(timings);
    forall x | x in ids ensures x in levels && levels[x] == 0 {
      var i :| 0 <= i < |timings| && timings[i].dependsOn == [] && timings[i].id == x;
      RootHasLevelZero(timings, i);
    }
    var rest := order[|ids|..];
    assert order == ids + rest;
    GroupConcat(ids, rest, levels, 0);
    GroupAll(ids, levels, 0);
    var group := Group(order, levels, 0);
    GroupDistinct(order, levels, 0);
    forall i | 0 <= i < |timings| && timings[i].dependsOn == []
      ensures positions[i] == Position(0, 100 * RootsBefore(timings, i))
    {
      RootHasLevelZero(timings, i);
      var r := RootsBefore(timings, i);
      assert group[r] == timings[i].id;
      IndexOfDistinct(group, r);
    }
  }

  lemma RootLevelTimed(g: Graph, n: Id, k: nat)
    requires RootLevel(g, n, k)
    ensures n in g.deps
  {
  }

  ghost predicate Reached(g: Graph, n: Id) {
    exists k: nat :: RootLevel(g, n, k)
  }

  lemma ReachedHasLevel(g: Graph, levels: map<Id, nat>, n: Id)
    requires forall m, k: nat :: m in levels && levels[m] == k <==> RootLevel(g, m, k)
    requires Reached(g, n)
    ensures n in levels
  {
  }

  ghost predicate Placed(order: seq<Id>, levels: map<Id, nat>, id: Id, p: Position)
    requires forall x :: x in order ==> x in levels
  {
    && id in order
    && p.x == COLUMN * levels[id]
    && p.y == ROW * IndexOf(Group(order, levels, levels[id]), id)
  }

  lemma {:induction false} PlacedApart(order: seq<Id>, levels: map<Id, nat>, u: Id, v: Id, p: Position, q: Position)
    requires forall x :: x in order ==> x in levels
    requires u != v && Placed(order, levels, u, p) && Placed(order, levels, v, q)
    ensures p != q
  {
    if p.x == q.x {
      var group := Group(order, levels, levels[u]);
      assert group[IndexOf(group, u)] == u && group[IndexOf(group, v)] == v;
    }
  }

  /** Over a closed set of timings every node is reached. */
  lemma {:induction false} ClosedAllReached(g: Graph, n: Id)
    requires g.Closed() && Acyclic(g) && n in g.deps
    ensures Reached(g, n)
  {
    var k := LevelExists(g, n);
    RootLevelIsLevel(g, n, k);
  }
}
