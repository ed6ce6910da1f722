/**
 When the order in which nodes run cannot matter although they share one retry budget: the exact condition on
 the graph, the retry policies and the budget.
 */
module RetryContention {
  import opened Collections
  import opened Graphs
  import opened ExecutionGraph
  import opened Nodes
  import opened Runtime
  import opened RuntimeInvariants
  import opened RuntimeTheorems
  import opened RuntimeBreaker
  import opened SequentialRun
  import Retry

  // ---- The condition ----------------------------------------------------------------------

  /** Some run can call the node's executor: the node and everything it depends on is able. */
  ghost predicate Viable(job: Job, id: Id) {
    Able(job, id) && forall u {:trigger DependsOn(job.G(), id, u)} :: DependsOn(job.G(), id, u) ==> Able(job, u)
  }

  /** The retries the policies allow to nodes that can run at all. */
  ghost function RetryCaps(job: Job): map<Id, nat> {
    map id | id in job.nodes.byId :: if Viable(job, id) then job.MaxAttempts(id) - 1 else 0
  }

  /** Two nodes that may both ask for a retry, in either order. */
  ghost predicate Contend(job: Job, x: Id, y: Id) {
    && x != y && x in job.nodes.byId && y in job.nodes.byId
    && RetryCaps(job)[x] >= 1 && RetryCaps(job)[y] >= 1
    && !DependsOn(job.G(), x, y) && !DependsOn(job.G(), y, x)
  }

  /** The retries allowed to the nodes that can be over before `x` or `y` has run, and to `x` and `y`. */
  ghost function CapsBeside(job: Job, x: Id, y: Id): map<Id, nat> {
    map id | id in job.nodes.byId ::
      if DependsOn(job.G(), id, x) || DependsOn(job.G(), id, y) then 0 else RetryCaps(job)[id]
  }

  /** No two contending nodes can be short of the budget, or there is no budget to contend for. */
  ghost predicate OrderCannotMatter(job: Job) {
    && (forall id :: id in job.nodes.order ==> id in job.nodes.byId)
    && (job.maxRetries > 0 ==>
          forall x, y {:trigger Contend(job, x, y)} :: Contend(job, x, y) ==>
            SumOver(job.nodes.order, CapsBeside(job, x, y)) <= job.maxRetries)
  }

  // ---- What a node that ran says about the ones before it ---------------------------------

  lemma {:induction false} SuccessRan(job: Job, ex: Oracle, e: Execution, u: Id)
    requires Account(job, ex, e, u) && e.results[u].ROk?
    ensures Ran(job, e, u) && Able(job, u) && u !in e.refused
  {
    hide Blocked, Input, HasExecutor;
  }

  /** Everything a node that is not blocked depends on has succeeded. */
  lemma {:induction false} AncestorSucceeds(job: Job, ex: Oracle, e: Execution, v: Id, u: Id, k: nat)
    requires Accounted(job, ex, e) && !Blocked(job, e.results, v) && k > 0 && Walk(job.G(), u, v, k)
    ensures Succeeds(e.results, u)
    decreases k
  {
    hide Account;
    var d :| d in job.G().Deps(v) && Walk(job.G(), u, d, k - 1);
    assert Succeeds(e.results, d);
    if k > 1 {
      assert Account(job, ex, e, d);
      SuccessRan(job, ex, e, d);
      AncestorSucceeds(job, ex, e, d, u, k - 1);
    }
  }

  lemma {:induction false} AncestorsSucceed(job: Job, ex: Oracle, e: Execution, v: Id, u: Id)
    requires Accounted(job, ex, e) && !Blocked(job, e.results, v) && DependsOn(job.G(), v, u)
    ensures Succeeds(e.results, u) && Account(job, ex, e, u)
  {
    hide Account;
    var k: nat :| k > 0 && Walk(job.G(), u, v, k);
    AncestorSucceeds(job, ex, e, v, u, k);
    assert u in e.results;
  }

  lemma {:induction false} RanIsViable(job: Job, ex: Oracle, e: Execution, v: Id)
    requires Accounted(job, ex, e) && v in job.nodes.byId && !Blocked(job, e.results, v) && Able(job, v)
    ensures Viable(job, v)
  {
    hide Accounted, Blocked, Able;
    forall u | DependsOn(job.G(), v, u) ensures Able(job, u) {
      AncestorsSucceed(job, ex, e, v, u);
      SuccessRan(job, ex, e, u);
    }
  }

  /** A node that wants a retry can run, and wants no more than its policy allows. */
  lemma {:induction false} WantedWithinCap(job: Job, ex: Oracle, e: Execution, v: Id)
    requires Accounted(job, ex, e) && v in job.nodes.byId
    ensures Wanted(job, ex, e, v) <= RetryCaps(job)[v]
    ensures Wanted(job, ex, e, v) > 0 ==> Ran(job, e, v)
  {
    hide Accounted, Blocked, Viable, Demand, HasExecutor, Able;
    if Wanted(job, ex, e, v) > 0 {
      var input := Input(job, e.artifacts, v);
      DemandWithinPolicy(job, ex, v, input, 1);
      RunnableIsAble(job, v);
      RanIsViable(job, ex, e, v);
    }
  }

  lemma RunnableIsAble(job: Job, v: Id)
    requires v in job.nodes.byId && HasExecutor(job, v) && job.MaxAttempts(v) >= 1
    ensures Able(job, v)
  {
  }

  /** An execution of the whole graph, accounted for and charged. */
  ghost predicate Finished(job: Job, ex: Oracle, e: Execution) {
    Accounted(job, ex, e) && Charged(job, e) && e.results.Keys == job.nodes.byId.Keys
  }

  lemma {:induction false} SpentWithinCap(job: Job, ex: Oracle, e: Execution, v: Id)
    requires Finished(job, ex, e) && v in job.nodes.byId
    ensures v in e.spent && e.spent[v] <= Wanted(job, ex, e, v) <= RetryCaps(job)[v]
    ensures e.spent[v] > 0 ==> Ran(job, e, v)
    ensures v in e.refused ==> e.spent[v] < Wanted(job, ex, e, v) && Ran(job, e, v) && e.results[v] == RFailed
  {
    hide Wanted, RetryCaps, Ran, Outcome;
    assert Account(job, ex, e, v);
    WantedWithinCap(job, ex, e, v);
  }

  // ---- Which nodes are refused decides everything -----------------------------------------

  lemma {:induction false} AgreeUpTo(job: Job, ex: Oracle, ord: seq<Id>, j: nat, e: Execution, f: Execution)
    requires Disciplined(job) && IsTopoOrder(job.G(), ord) && j <= |ord|
    requires Finished(job, ex, e) && Finished(job, ex, f)
    requires forall i :: 0 <= i < j ==> (ord[i] in e.refused <==> ord[i] in f.refused)
    ensures forall i :: 0 <= i < j ==>
      ord[i] in e.results && ord[i] in f.results && e.results[ord[i]] == f.results[ord[i]]
  {
    hide Disciplined, Charged, Account, Distinct;
    if j > 0 {
      AgreeUpTo(job, ex, ord, j - 1, e, f);
      var id := ord[j - 1];
      StartsAlike(job, ex, ord, j - 1, e, f);
      assert Account(job, ex, e, id) && Account(job, ex, f, id);
      SameAccountSameResult(job, ex, e, f, id);
    }
  }

  /** Node `j` of the order starts alike when the nodes before it came to the same. */
  lemma {:induction false} StartsAlike(job: Job, ex: Oracle, ord: seq<Id>, j: nat, e: Execution, f: Execution)
    requires Disciplined(job) && IsTopoOrder(job.G(), ord) && j < |ord|
    requires Finished(job, ex, e) && Finished(job, ex, f)
    requires forall i :: 0 <= i < j ==>
      ord[i] in e.results && ord[i] in f.results && e.results[ord[i]] == f.results[ord[i]]
    ensures ord[j] in job.nodes.byId && SameStart(job, e, f, ord[j])
  {
    hide Disciplined, Charged, Account, Distinct, SameStart;
    assert ord[j] in Elems(ord);
    forall d | d in job.G().Deps(ord[j])
      ensures d in e.results && d in f.results && e.results[d] == f.results[d]
      ensures Account(job, ex, e, d) && Account(job, ex, f, d)
    {
      assert d in ord[..j];
      assert ord[IndexOf(ord[..j], d)] == d;
    }
    AgreeingDeps(job, ex, e, f, ord[j]);
  }

  lemma {:induction false} SameAccountSameResult(job: Job, ex: Oracle, e: Execution, f: Execution, id: Id)
    requires Account(job, ex, e, id) && Account(job, ex, f, id) && SameStart(job, e, f, id)
    requires id in e.refused <==> id in f.refused
    ensures e.results[id] == f.results[id]
    ensures id !in e.refused ==> e.spent[id] == f.spent[id]
  {
    hide Outcome, Wanted, SameStart;
    SameStartSameEnd(job, ex, e, f, id);
  }

  /** Two executions in which the same nodes are refused come to the same. */
  lemma {:induction false} OutcomesUnique(job: Job, ex: Oracle, e: Execution, f: Execution)
    requires Disciplined(job) && Finished(job, ex, e) && Finished(job, ex, f) && e.refused == f.refused
    ensures e.results == f.results && e.artifacts == f.artifacts && e.used == f.used
  {
    hide OutputsDistinct, ReadsResolved, Account, IsLevelling, Acyclic, Charged, DepsFirst;
    var ord := SomeTopoOrder(job.G());
    AgreeUpTo(job, ex, ord, |ord|, e, f);
    forall id | id in e.results ensures e.results[id] == f.results[id] {
      assert id in Elems(ord);
      assert ord[IndexOf(ord, id)] == id;
    }
    assert e.results == f.results;
    SameStore(job, ex, e, f);
    SameUse(job, ex, ord, e, f);
  }

  lemma NothingFirst(g: Graph)
    ensures DepsFirst(g, [])
  {
  }

  lemma {:induction false} SameStore(job: Job, ex: Oracle, e: Execution, f: Execution)
    requires Accounted(job, ex, e) && Accounted(job, ex, f) && e.results == f.results
    ensures e.artifacts == f.artifacts
  {
    forall key ensures key in e.artifacts <==> key in f.artifacts {
      assert Produced(job, e.results, key) <==> Produced(job, f.results, key);
    }
    forall key | key in e.artifacts ensures e.artifacts[key] == f.artifacts[key] {
      assert Produced(job, e.results, key);
      var id :| id in e.results && id in job.nodes.byId && e.results[id].ROk? && job.nodes.byId[id].output == key;
      assert Account(job, ex, e, id) && Account(job, ex, f, id);
    }
  }

  lemma {:induction false} SameUse(job: Job, ex: Oracle, ord: seq<Id>, e: Execution, f: Execution)
    requires Disciplined(job) && IsTopoOrder(job.G(), ord)
    requires Finished(job, ex, e) && Finished(job, ex, f) && e.refused == f.refused && e.results == f.results
    ensures e.used == f.used
  {
    hide Disciplined, Account, IsTopoOrder;
    if e.refused == {} {
      forall id | id in job.nodes.order ensures e.spent[id] == f.spent[id] {
        assert Account(job, ex, e, id) && Account(job, ex, f, id);
        SameSpent(job, ex, ord, e, f, id);
      }
      SumOverSame(job.nodes.order, e.spent, f.spent);
    }
  }

  lemma {:induction false} SameSpent(job: Job, ex: Oracle, ord: seq<Id>, e: Execution, f: Execution, id: Id)
    requires Disciplined(job) && IsTopoOrder(job.G(), ord)
    requires Finished(job, ex, e) && Finished(job, ex, f) && e.results == f.results
    requires id in job.nodes.byId && id !in e.refused && id !in f.refused
    ensures id in e.spent && id in f.spent && e.spent[id] == f.spent[id]
  {
    hide Disciplined, Account, Charged, Distinct, DepsFirst;
    TopoNodes(job, ord);
    assert id in ord by { assert id in Elems(ord); }
    assert forall i :: 0 <= i < |ord| ==> ord[i] in e.results && ord[i] in f.results;
    StartsAlike(job, ex, ord, IndexOf(ord, id), e, f);
    assert Account(job, ex, e, id) && Account(job, ex, f, id);
    SameAccountSameResult(job, ex, e, f, id);
    AccountSpends(job, ex, e, id);
    AccountSpends(job, ex, f, id);
  }

  lemma AccountSpends(job: Job, ex: Oracle, e: Execution, id: Id)
    requires Account(job, ex, e, id)
    ensures id in e.spent
  {
  }

  // ---- No contention, no difference -------------------------------------------------------

  /** In an order, the last of the nodes in a set. */
  lemma {:induction false} LastOf(ord: seq<Id>, some: set<Id>) returns (j: nat)
    requires exists v :: v in some && v in ord
    ensures j < |ord| && ord[j] in some && forall i :: j < i < |ord| ==> ord[i] !in some
  {
    var last := |ord| - 1;
    if ord[last] in some {
      j := last;
    } else {
      var v :| v in some && v in ord;
      assert ord[IndexOf(ord, v)] == v;
      assert ord[..last][IndexOf(ord, v)] == v;
      j := LastOf(ord[..last], some);
    }
  }

  /** A node comes later in a topological order than what it depends on. */
  lemma {:induction false} DependentLater(g: Graph, ord: seq<Id>, j: nat, v: Id) returns (i: nat)
    requires IsTopoOrder(g, ord) && g.Closed() && j < |ord| && v in g.deps && DependsOn(g, v, ord[j])
    ensures j < i < |ord| && ord[i] == v
  {
    assert v in Elems(ord);
    i := IndexOf(ord, v);
    var k: nat :| k > 0 && Walk(g, ord[j], v, k);
    var m := WalkClimbs(g, ord, ord[j], i, k);
    assert m == j;
  }

  lemma {:induction false} DependsTransitively(g: Graph, w: Id, v: Id, u: Id)
    requires DependsOn(g, w, v) && DependsOn(g, v, u)
    ensures DependsOn(g, w, u)
  {
    var j: nat :| j > 0 && Walk(g, v, w, j);
    var k: nat :| k > 0 && Walk(g, u, v, k);
    WalkConcat(g, u, v, w, k, j);
  }

  /** The nodes other than `z`, and not before it, that spent a retry. */
  ghost function Rivals(job: Job, e: Execution, z: Id): set<Id> {
    set v | v in job.nodes.byId && v in e.spent && e.spent[v] > 0 && v != z && !DependsOn(job.G(), z, v)
  }

  /** A node below one that was refused has spent nothing. */
  lemma {:induction false} NothingBelowRefused(job: Job, ex: Oracle, e: Execution, z: Id, v: Id)
    requires Finished(job, ex, e) && z in e.refused && v in job.nodes.byId && DependsOn(job.G(), v, z)
    ensures v in e.spent && e.spent[v] == 0
  {
    hide Accounted, Charged, Ran, Account, Wanted, RetryCaps;
    SpentWithinCap(job, ex, e, v);
    if e.spent[v] > 0 {
      RanUnblocked(job, e, v);
      AncestorsSucceed(job, ex, e, v, z);
      SuccessRan(job, ex, e, z);
    }
  }

  lemma RanUnblocked(job: Job, e: Execution, v: Id)
    requires v in job.nodes.byId && Ran(job, e, v)
    ensures !Blocked(job, e.results, v)
  {
  }

  lemma {:induction false} RivalContends(job: Job, ex: Oracle, e: Execution, z: Id, w: Id)
    requires Disciplined(job) && Finished(job, ex, e) && z in e.refused && z in job.nodes.byId
    requires w in Rivals(job, e, z)
    ensures Contend(job, z, w)
  {
    hide Disciplined, Accounted, Charged, RetryCaps, Ran, Wanted, DependsOn;
    CapKeys(job);
    SpentWithinCap(job, ex, e, z);
    SpentWithinCap(job, ex, e, w);
    if DependsOn(job.G(), w, z) {
      NothingBelowRefused(job, ex, e, z, w);
    }
  }

  /** The refusal of `z`, with another node unrelated to it that spent a retry, takes more than the two leave. */
  lemma {:induction false} RefusalNeedsContention(job: Job, ex: Oracle, e: Execution, z: Id)
    requires Disciplined(job) && Finished(job, ex, e) && z in e.refused && z in job.nodes.byId
    requires Rivals(job, e, z) != {}
    ensures !OrderCannotMatter(job)
  {
    hide OutputsDistinct, ReadsResolved, Accounted, Charged, IsLevelling, Acyclic, RetryCaps, Ran, Wanted, DepsFirst;
    var ord := SomeTopoOrder(job.G());
    assert exists r :: r in Rivals(job, e, z) && r in Elems(ord);
    var j := LastOf(ord, Rivals(job, e, z));
    var w := ord[j];
    hide Contend, CapsBeside, IsTopoOrder, DependsOn;
    RivalContends(job, ex, e, z, w);
    forall v | v in job.nodes.order
      ensures v in e.spent && v in CapsBeside(job, z, w) && e.spent[v] <= CapsBeside(job, z, w)[v]
    {
      assert v in Elems(job.nodes.order);
      SpentBeside(job, ex, e, z, ord, j, v);
    }
    OverTheCaps(job, ex, e, z, w);
  }

  lemma {:induction false} OverTheCaps(job: Job, ex: Oracle, e: Execution, z: Id, w: Id)
    requires Disciplined(job) && Finished(job, ex, e) && z in e.refused && z in job.nodes.byId
    requires Contend(job, z, w) && w in e.spent && e.spent[w] > 0
    requires forall v :: v in job.nodes.order ==>
      v in e.spent && v in CapsBeside(job, z, w) && e.spent[v] <= CapsBeside(job, z, w)[v]
    ensures !OrderCannotMatter(job)
  {
    hide OutputsDistinct, ReadsResolved, Accounted, Charged, IsLevelling, Acyclic, DependsOn, CapsBeside, Distinct;
    ContendApart(job, z, w);
    assert z in job.nodes.order by { assert z in Elems(job.nodes.order); }
    RefusedBeside(job, ex, e, z, w);
    SumOverStrict(job.nodes.order, e.spent, CapsBeside(job, z, w), z);
    RefusedSpentAll(job, ex, e, z, w);
  }

  lemma ContendApart(job: Job, z: Id, w: Id)
    requires Contend(job, z, w)
    ensures !DependsOn(job.G(), z, w) && w in job.nodes.byId
  {
  }

  lemma CapKeys(job: Job)
    ensures RetryCaps(job).Keys == job.nodes.byId.Keys
  {
  }

  /** What was spent was spent by nodes that depend neither on `z` nor on the last rival. */
  lemma {:induction false} SpentBeside(job: Job, ex: Oracle, e: Execution, z: Id, ord: seq<Id>, j: nat, v: Id)
    requires Disciplined(job) && Finished(job, ex, e) && z in e.refused && z in job.nodes.byId
    requires IsTopoOrder(job.G(), ord) && j < |ord| && ord[j] in Rivals(job, e, z)
    requires forall i :: j < i < |ord| ==> ord[i] !in Rivals(job, e, z)
    requires v in job.nodes.byId
    ensures v in e.spent && v in CapsBeside(job, z, ord[j]) && e.spent[v] <= CapsBeside(job, z, ord[j])[v]
  {
    hide OutputsDistinct, ReadsResolved, Accounted, Charged, IsLevelling, Acyclic, RetryCaps, Ran, Wanted, DepsFirst;
    hide Distinct;
    CapKeys(job);
    SpentWithinCap(job, ex, e, v);
    if e.spent[v] > 0 {
      if DependsOn(job.G(), v, z) {
        NothingBelowRefused(job, ex, e, z, v);
      }
      if DependsOn(job.G(), v, ord[j]) {
        var i := DependentLater(job.G(), ord, j, v);
        if DependsOn(job.G(), z, v) {
          DependsTransitively(job.G(), z, v, ord[j]);
        }
      }
    }
  }

  lemma {:induction false} RefusedBeside(job: Job, ex: Oracle, e: Execution, z: Id, w: Id)
    requires Disciplined(job) && Finished(job, ex, e) && z in e.refused && z in job.nodes.byId
    requires !DependsOn(job.G(), z, w)
    ensures z in e.spent && z in CapsBeside(job, z, w) && e.spent[z] < CapsBeside(job, z, w)[z]
  {
    hide OutputsDistinct, ReadsResolved, Accounted, Charged, IsLevelling, RetryCaps, Ran, Wanted, DependsOn;
    CapKeys(job);
    SpentWithinCap(job, ex, e, z);
    assert z in job.G().deps;
  }

  lemma {:induction false} RefusedSpentAll(job: Job, ex: Oracle, e: Execution, z: Id, w: Id)
    requires job.nodes.IsDict() && Finished(job, ex, e) && z in e.refused
    requires w in job.nodes.byId && w in e.spent && e.spent[w] > 0
    ensures (forall id :: id in job.nodes.order ==> id in e.spent)
    ensures SumOver(job.nodes.order, e.spent) >= job.maxRetries && job.maxRetries > 0
  {
    hide Accounted, Distinct;
    assert w in job.nodes.order by { assert w in Elems(job.nodes.order); }
    SumOverAtLeast(job.nodes.order, e.spent, w);
  }

  /** The first node, in an order, that one execution refuses and another does not. */
  lemma {:induction false} FirstRefusalContends(job: Job, ex: Oracle, ord: seq<Id>, i: nat, e: Execution, f: Execution)
    requires Disciplined(job) && IsTopoOrder(job.G(), ord) && i < |ord|
    requires Finished(job, ex, e) && Finished(job, ex, f)
    requires forall j :: 0 <= j < i ==> (ord[j] in e.refused <==> ord[j] in f.refused)
    requires ord[i] in e.refused && ord[i] !in f.refused
    ensures !OrderCannotMatter(job)
  {
    hide Disciplined, Accounted, Charged, IsTopoOrder, OrderCannotMatter;
    TopoNodes(job, ord);
    var z := ord[i];
    if Rivals(job, e, z) == {} {
      OnlyAncestorsSpent(job, ex, ord, i, e, f);
    } else {
      RefusalNeedsContention(job, ex, e, z);
    }
  }

  /** Without rivals the execution that refused `z` spent less than the other, and so could not refuse. */
  lemma {:induction false} OnlyAncestorsSpent(job: Job, ex: Oracle, ord: seq<Id>, i: nat, e: Execution, f: Execution)
    requires Disciplined(job) && IsTopoOrder(job.G(), ord) && i < |ord|
    requires Finished(job, ex, e) && Finished(job, ex, f)
    requires forall j :: 0 <= j < i ==> (ord[j] in e.refused <==> ord[j] in f.refused)
    requires ord[i] in e.refused && ord[i] !in f.refused
    ensures Rivals(job, e, ord[i]) != {}
  {
    hide Disciplined, Finished, IsTopoOrder, DependsOn;
    var z := ord[i];
    TopoNodes(job, ord);
    AgreeUpTo(job, ex, ord, i, e, f);
    RefusedSpentLess(job, ex, ord, i, e, f);
    SpentKeys(job, ex, e);
    SpentKeys(job, ex, f);
    if Rivals(job, e, z) == {} {
      forall v | v in job.nodes.order
        ensures v in e.spent && v in f.spent && e.spent[v] <= f.spent[v]
      {
        if v != z && e.spent[v] > 0 {
          assert v in job.nodes.byId && v !in Rivals(job, e, z);
          AncestorSpentSame(job, ex, ord, i, e, f, v);
        }
      }
      SpentLessNotRefused(job, ex, e, f, z);
    }
  }

  lemma SpentKeys(job: Job, ex: Oracle, e: Execution)
    requires Finished(job, ex, e)
    ensures e.spent.Keys == job.nodes.byId.Keys && forall v :: v in job.nodes.order ==> v in e.spent
  {
  }

  /** An execution that refuses a retry has not spent less than another. */
  lemma {:induction false} SpentLessNotRefused(job: Job, ex: Oracle, e: Execution, f: Execution, z: Id)
    requires Disciplined(job) && Finished(job, ex, e) && Finished(job, ex, f) && e.refused != {}
    requires forall v :: v in job.nodes.order ==> v in e.spent && v in f.spent && e.spent[v] <= f.spent[v]
    requires z in job.nodes.byId && z in e.spent && z in f.spent
    ensures e.spent[z] >= f.spent[z]
  {
    hide Accounted, Distinct, OutputsDistinct, ReadsResolved, IsLevelling, Acyclic;
    assert z in job.nodes.order by { assert z in Elems(job.nodes.order); }
    if e.spent[z] < f.spent[z] {
      SumOverStrict(job.nodes.order, e.spent, f.spent, z);
    }
  }

  lemma {:induction false} RefusedSpentLess(job: Job, ex: Oracle, ord: seq<Id>, i: nat, e: Execution, f: Execution)
    requires Disciplined(job) && IsTopoOrder(job.G(), ord) && i < |ord|
    requires Finished(job, ex, e) && Finished(job, ex, f)
    requires forall j :: 0 <= j < i ==>
      ord[j] in e.results && ord[j] in f.results && e.results[ord[j]] == f.results[ord[j]]
    requires ord[i] in e.refused && ord[i] !in f.refused
    ensures ord[i] in job.nodes.byId && ord[i] in e.spent && ord[i] in f.spent && e.spent[ord[i]] < f.spent[ord[i]]
    ensures !Blocked(job, e.results, ord[i])
  {
    hide Disciplined, IsTopoOrder, Wanted, Outcome, SameStart, Blocked, Charged;
    var z := ord[i];
    StartsAlike(job, ex, ord, i, e, f);
    SameStartSameEnd(job, ex, e, f, z);
    assert Account(job, ex, e, z) && Account(job, ex, f, z);
    WantedWithinCap(job, ex, e, z);
  }

  lemma {:induction false} AncestorSpentSame(job: Job, ex: Oracle, ord: seq<Id>, i: nat, e: Execution, f: Execution,
                                             v: Id)
    requires Disciplined(job) && IsTopoOrder(job.G(), ord) && i < |ord| && v in job.nodes.byId
    requires Finished(job, ex, e) && Finished(job, ex, f)
    requires forall j :: 0 <= j < i ==> (ord[j] in e.refused <==> ord[j] in f.refused)
    requires forall j :: 0 <= j < i ==>
      ord[j] in e.results && ord[j] in f.results && e.results[ord[j]] == f.results[ord[j]]
    requires !Blocked(job, e.results, ord[i]) && DependsOn(job.G(), ord[i], v)
    ensures v in e.spent && v in f.spent && e.spent[v] == f.spent[v]
  {
    hide OutputsDistinct, ReadsResolved, IsLevelling, Acyclic, Distinct, Wanted, Outcome, Blocked, Charged, DepsFirst;
    AncestorsSucceed(job, ex, e, ord[i], v);
    SuccessRan(job, ex, e, v);
    TopoNodes(job, ord);
    assert v in ord by { assert v in Elems(ord); }
    var j := IndexOf(ord, v);
    EarlierThan(job.G(), ord, i, j);
    StartsAlike(job, ex, ord, j, e, f);
    assert Account(job, ex, e, v) && Account(job, ex, f, v);
    SameAccountSameResult(job, ex, e, f, v);
  }

  lemma {:induction false} EarlierThan(g: Graph, ord: seq<Id>, i: nat, j: nat)
    requires IsTopoOrder(g, ord) && i < |ord| && j < |ord| && DependsOn(g, ord[i], ord[j])
    ensures j < i
  {
    var k: nat :| k > 0 && Walk(g, ord[j], ord[i], k);
    var m := WalkClimbs(g, ord, ord[j], i, k);
    assert m == j;
  }

  /** Under the condition any two executions refuse the same nodes. */
  lemma {:induction false} RefusalsUnique(job: Job, ex: Oracle, e: Execution, f: Execution)
    requires Disciplined(job) && OrderCannotMatter(job) && Finished(job, ex, e) && Finished(job, ex, f)
    ensures e.refused == f.refused
  {
    hide OutputsDistinct, ReadsResolved, OrderCannotMatter, Charged, IsLevelling, Acyclic, DepsFirst, Account;
    var ord := SomeTopoOrder(job.G());
    RefusedAlike(job, ex, ord, |ord|, e, f);
    forall id | id in e.refused || id in f.refused ensures id in e.refused && id in f.refused {
      assert id in Elems(ord);
      assert ord[IndexOf(ord, id)] == id;
    }
  }

  lemma {:induction false} RefusedAlike(job: Job, ex: Oracle, ord: seq<Id>, j: nat, e: Execution, f: Execution)
    requires Disciplined(job) && OrderCannotMatter(job) && Finished(job, ex, e) && Finished(job, ex, f)
    requires IsTopoOrder(job.G(), ord) && j <= |ord|
    ensures forall i :: 0 <= i < j ==> (ord[i] in e.refused <==> ord[i] in f.refused)
  {
    hide Disciplined, OrderCannotMatter, Finished, IsTopoOrder;
    if j > 0 {
      RefusedAlike(job, ex, ord, j - 1, e, f);
      var z := ord[j - 1];
      if z in e.refused && z !in f.refused {
        FirstRefusalContends(job, ex, ord, j - 1, e, f);
      } else if z in f.refused && z !in e.refused {
        FirstRefusalContends(job, ex, ord, j - 1, f, e);
      }
    }
  }

  // ---- Contention makes a difference ------------------------------------------------------

  /** Every node asks for its share of retries and then returns. */
  function Demanding(d: map<Id, nat>): Oracle {
    (id, attempt, input) => if id in d && attempt <= d[id] then Retry.Transient else Retry.Returned(Artifact(""))
  }

  /** The shares stay within what the policies allow. */
  ghost predicate Shares(job: Job, d: map<Id, nat>) {
    d.Keys == job.nodes.byId.Keys && forall id :: id in d ==> d[id] <= RetryCaps(job)[id]
  }

  lemma {:induction false} DemandingAsks(job: Job, d: map<Id, nat>, id: Id, input: Option<Artifact>, attempt: nat)
    requires id in job.nodes.byId && id in d && d[id] < job.MaxAttempts(id) && 1 <= attempt <= d[id] + 1
    ensures Demand(job, Demanding(d), id, input, attempt) == d[id] + 1 - attempt
    ensures Settle(job, Demanding(d), id, input, attempt).Some?
    decreases d[id] + 1 - attempt
  {
    if attempt <= d[id] {
      DemandingAsks(job, d, id, input, attempt + 1);
    }
  }

  lemma ViableIsAble(job: Job, id: Id)
    requires Viable(job, id)
    ensures Able(job, id) && id in RetryCaps(job) && RetryCaps(job)[id] == job.MaxAttempts(id) - 1
  {
  }

  /** A viable node that is not blocked wants its share, and any other node no more than that. */
  lemma {:induction false} WantsItsShare(job: Job, d: map<Id, nat>, e: Execution, v: Id)
    requires Shares(job, d) && Accounted(job, Demanding(d), e) && v in job.nodes.byId
    ensures Wanted(job, Demanding(d), e, v) <= d[v]
    ensures Viable(job, v) && !Blocked(job, e.results, v) ==>
      Wanted(job, Demanding(d), e, v) == d[v] && Outcome(job, Demanding(d), e, v).ROk?
  {
    hide Accounted, Blocked, Viable, Demanding, Settle, Demand, Input;
    var input := Input(job, e.artifacts, v);
    if Viable(job, v) {
      ViableIsAble(job, v);
      DemandingAsks(job, d, v, input, 1);
    } else {
      WantedWithinCap(job, Demanding(d), e, v);
      NotViableCap(job, v);
    }
  }

  lemma NotViableCap(job: Job, v: Id)
    requires v in job.nodes.byId && !Viable(job, v)
    ensures RetryCaps(job)[v] == 0
  {
  }

  lemma {:induction false} DepIsViable(job: Job, v: Id, d: Id)
    requires Viable(job, v) && d in job.G().Deps(v)
    ensures Viable(job, d)
  {
    DepIsDependency(job.G(), v, d);
    forall u | DependsOn(job.G(), d, u) ensures DependsOn(job.G(), v, u) {
      DependsTransitively(job.G(), v, d, u);
    }
  }

  lemma {:induction false} DepIsDependency(g: Graph, v: Id, d: Id)
    requires d in g.Deps(v)
    ensures DependsOn(g, v, d)
  {
    assert Walk(g, d, d, 0);
    assert Walk(g, d, v, 1);
  }

  /** The shares of the listed nodes. */
  function SharesOf(d: map<Id, nat>, some: set<Id>): map<Id, nat> {
    map id | id in d :: if id in some then d[id] else 0
  }

  /** While the shares fit the budget nobody is refused. */
  lemma {:induction false} NobodyRefused(job: Job, d: map<Id, nat>, ord: seq<Id>)
    requires Disciplined(job) && Shares(job, d) && Distinct(ord) && DepsFirst(job.G(), ord)
    requires forall id :: id in ord ==> id in job.nodes.byId
    requires forall id :: id in job.nodes.order ==> id in d
    requires SumOver(job.nodes.order, SharesOf(d, Elems(ord))) <= job.maxRetries
    ensures RunAll(job, Demanding(d), ord).refused == {}
  {
    hide OutputsDistinct, ReadsResolved, IsLevelling, Acyclic, RunAll, Demanding, Distinct, DepsFirst, RetryCaps;
    RunAllAccounted(job, Demanding(d), ord);
    var e := RunAll(job, Demanding(d), ord);
    if e.refused != {} {
      var z :| z in e.refused;
      assert Account(job, Demanding(d), e, z);
      forall v | v in job.nodes.order
        ensures v in e.spent && v in SharesOf(d, Elems(ord)) && e.spent[v] <= SharesOf(d, Elems(ord))[v]
      {
        assert v in Elems(job.nodes.order);
        SpendsItsShare(job, d, e, ord, v);
      }
      assert z in job.nodes.order by { assert z in Elems(job.nodes.order); }
      WantsItsShare(job, d, e, z);
      SumOverStrict(job.nodes.order, e.spent, SharesOf(d, Elems(ord)), z);
    }
  }

  lemma {:induction false} SpendsItsShare(job: Job, d: map<Id, nat>, e: Execution, ord: seq<Id>, v: Id)
    requires Shares(job, d) && Accounted(job, Demanding(d), e) && Charged(job, e) && e.results.Keys == Elems(ord)
    requires v in job.nodes.byId
    ensures v in e.spent && v in SharesOf(d, Elems(ord)) && e.spent[v] <= SharesOf(d, Elems(ord))[v]
  {
    hide RetryCaps, Demanding, Elems, Wanted, Outcome;
    if v in e.results {
      assert Account(job, Demanding(d), e, v);
      WantsItsShare(job, d, e, v);
    }
  }

  /** Then all nodes that can run succeed. */
  lemma {:induction false} ViableSucceed(job: Job, d: map<Id, nat>, ord: seq<Id>, i: nat)
    requires Disciplined(job) && Shares(job, d) && Distinct(ord) && DepsFirst(job.G(), ord)
    requires forall id :: id in ord ==> id in job.nodes.byId
    requires RunAll(job, Demanding(d), ord).refused == {}
    requires i < |ord| && Viable(job, ord[i])
    ensures Succeeds(RunAll(job, Demanding(d), ord).results, ord[i])
    decreases i
  {
    hide Disciplined, RunAll, Demanding, Distinct, RetryCaps, Viable, Wanted, Outcome, Charged;
    RunAllAccounted(job, Demanding(d), ord);
    var e := RunAll(job, Demanding(d), ord);
    forall u | u in job.G().Deps(ord[i]) ensures Succeeds(e.results, u) {
      DepIsViable(job, ord[i], u);
      assert u in ord[..i];
      assert ord[IndexOf(ord[..i], u)] == u;
      ViableSucceed(job, d, ord, IndexOf(ord[..i], u));
    }
    assert ord[i] in Elems(ord);
    assert Account(job, Demanding(d), e, ord[i]);
    WantsItsShare(job, d, e, ord[i]);
  }

  /** And the shares have been spent. */
  lemma {:induction false} SharesSpent(job: Job, d: map<Id, nat>, ord: seq<Id>)
    requires Disciplined(job) && Shares(job, d) && Distinct(ord) && DepsFirst(job.G(), ord)
    requires forall id :: id in ord ==> id in job.nodes.byId
    requires forall id :: id in job.nodes.order ==> id in d
    requires RunAll(job, Demanding(d), ord).refused == {}
    ensures RunAll(job, Demanding(d), ord).used == SumOver(job.nodes.order, SharesOf(d, Elems(ord)))
  {
    hide OutputsDistinct, ReadsResolved, IsLevelling, Acyclic, RunAll, Demanding, DepsFirst, RetryCaps, Account;
    RunAllAccounted(job, Demanding(d), ord);
    var e := RunAll(job, Demanding(d), ord);
    forall v | v in job.nodes.order
      ensures v in e.spent && v in SharesOf(d, Elems(ord)) && e.spent[v] == SharesOf(d, Elems(ord))[v]
    {
      assert v in Elems(job.nodes.order);
      SpentShare(job, d, ord, v);
    }
    SumOverSame(job.nodes.order, e.spent, SharesOf(d, Elems(ord)));
  }

  lemma {:induction false} SpentShare(job: Job, d: map<Id, nat>, ord: seq<Id>, v: Id)
    requires Disciplined(job) && Shares(job, d) && Distinct(ord) && DepsFirst(job.G(), ord)
    requires forall id :: id in ord ==> id in job.nodes.byId
    requires RunAll(job, Demanding(d), ord).refused == {} && v in job.nodes.byId
    ensures var e := RunAll(job, Demanding(d), ord);
            v in e.spent && v in SharesOf(d, Elems(ord)) && e.spent[v] == SharesOf(d, Elems(ord))[v]
  {
    hide Disciplined, RunAll, Demanding, DepsFirst, RetryCaps, Viable, Wanted, Outcome, Distinct;
    RunAllAccounted(job, Demanding(d), ord);
    var e := RunAll(job, Demanding(d), ord);
    if v in e.results {
      assert Account(job, Demanding(d), e, v);
      WantsItsShare(job, d, e, v);
      if Viable(job, v) {
        assert v in ord by { assert v in Elems(ord); }
        ViableSucceed(job, d, ord, IndexOf(ord, v));
        SuccessRan(job, Demanding(d), e, v);
      } else {
        NotViableCap(job, v);
      }
    }
  }

  ghost predicate DepsWithin(g: Graph, some: set<Id>) {
    forall v, u :: v in some && u in g.Deps(v) ==> u in some
  }

  /** A set of nodes that contains their dependencies can be listed dependencies first. */
  lemma {:induction false} ListWithin(g: Graph, ord: seq<Id>, some: set<Id>, j: nat) returns (p: seq<Id>)
    requires Distinct(ord) && DepsFirst(g, ord) && DepsWithin(g, some) && j <= |ord|
    ensures Distinct(p) && DepsFirst(g, p) && Elems(p) == Elems(ord[..j]) * some
  {
    if j == 0 {
      p := [];
      NothingFirst(g);
    } else {
      p := ListWithin(g, ord, some, j - 1);
      PrefixReady(g, ord, j - 1);
      var n := ord[j - 1];
      if n in some {
        assert n in p <==> n in Elems(p);
        assert DepsAmong(g, n, p) by {
          forall u | u in g.Deps(n) ensures u in p { assert u in Elems(p); }
        }
        DistinctSnoc(p, n);
        DepsFirstSnoc(g, p, n);
        p := p + [n];
      }
    }
  }

  /** A node that comes last among those that share the budget does not get its share. */
  lemma {:induction false} LastIsRefused(job: Job, d: map<Id, nat>, x: Id, p: seq<Id>)
    requires Disciplined(job) && Shares(job, d) && Distinct(p) && DepsFirst(job.G(), p)
    requires forall id :: id in p ==> id in job.nodes.byId
    requires forall id :: id in job.nodes.order ==> id in d
    requires x in job.nodes.byId && d[x] >= 1 && Viable(job, x) && DepsAmong(job.G(), x, p)
    requires SumOver(job.nodes.order, SharesOf(d, Elems(p))) + d[x] == job.maxRetries + 1
    ensures var q := RunOne(job, Demanding(d), RunAll(job, Demanding(d), p), x);
            x in q.results && q.results[x] == RFailed
  {
    hide Disciplined, RunAll, RunOne, Demanding, Distinct, DepsFirst, RetryCaps, Viable, Wanted, Outcome, Blocked;
    hide Charged, Accounted, SharesOf;
    NobodyRefused(job, d, p);
    SharesSpent(job, d, p);
    RunAllAccounted(job, Demanding(d), p);
    var e := RunAll(job, Demanding(d), p);
    forall u | u in job.G().Deps(x) ensures Succeeds(e.results, u) {
      DepIsViable(job, x, u);
      ViableSucceed(job, d, p, IndexOf(p, u));
    }
    NoneBlocks(job, e, x);
    WantsItsShare(job, d, e, x);
    var r, retries, refused := RunOneRecords(job, Demanding(d), e, x);
  }

  lemma NoneBlocks(job: Job, e: Execution, x: Id)
    requires forall u :: u in job.G().Deps(x) ==> Succeeds(e.results, u)
    ensures !Blocked(job, e.results, x)
  {
  }

  /** Some order in which `x` fails for want of a retry while every other sharer gets its own. */
  lemma {:induction false} FailsWhenLast(job: Job, d: map<Id, nat>, some: set<Id>, x: Id) returns (ord: seq<Id>)
    requires Disciplined(job) && Shares(job, d) && DepsWithin(job.G(), some) && some <= job.nodes.byId.Keys
    requires x in job.nodes.byId && x !in some && d[x] >= 1 && Viable(job, x)
    requires forall u :: u in job.G().Deps(x) ==> u in some
    requires forall id :: id in job.nodes.order ==> id in d
    requires SumOver(job.nodes.order, SharesOf(d, some)) + d[x] == job.maxRetries + 1
    ensures IsTopoOrder(job.G(), ord) && forall id :: id in ord ==> id in job.nodes.byId
    ensures x in RunAll(job, Demanding(d), ord).results && RunAll(job, Demanding(d), ord).results[x] == RFailed
    ensures forall y :: y in some && Viable(job, y) ==> Succeeds(RunAll(job, Demanding(d), ord).results, y)
  {
    hide OutputsDistinct, ReadsResolved, IsLevelling, RunAll, RunOne, Demanding, RetryCaps, Viable, SharesOf, Acyclic;
    hide DepsWithin, Shares, DepsFirst, Distinct, DepsAmong;
    var p := ListSome(job.G(), some, x);
    assert forall id :: id in p <==> id in some by { assert forall id :: id in p <==> id in Elems(p); }
    LastIsRefused(job, d, x, p);
    NobodyRefused(job, d, p);
    DistinctSnoc(p, x);
    DepsFirstSnoc(job.G(), p, x);
    assert job.G().Nodes() == job.nodes.byId.Keys;
    ord := CompleteTopoOrder(job.G(), p + [x]);
    TopoNodes(job, ord);
    KeptInOrder(job, d, ord, p, x);
    forall y | y in some && Viable(job, y) ensures Succeeds(RunAll(job, Demanding(d), ord).results, y) {
      ViableSucceed(job, d, p, IndexOf(p, y));
      assert ord[..|p|] == p;
      LaterNodesKeep(job, Demanding(d), ord, |p|, y);
    }
  }

  lemma {:induction false} ListSome(g: Graph, some: set<Id>, x: Id) returns (p: seq<Id>)
    requires g.Closed() && Acyclic(g) && DepsWithin(g, some) && some <= g.Nodes()
    requires forall u :: u in g.Deps(x) ==> u in some
    ensures Distinct(p) && DepsFirst(g, p) && Elems(p) == some && DepsAmong(g, x, p)
  {
    hide Acyclic, DepsWithin;
    var all := SomeTopoOrder(g);
    p := ListWithin(g, all, some, |all|);
    assert all[..|all|] == all;
    forall u | u in g.Deps(x) ensures u in p { assert u in Elems(p); }
  }

  lemma {:induction false} KeptInOrder(job: Job, d: map<Id, nat>, ord: seq<Id>, p: seq<Id>, x: Id)
    requires Distinct(ord) && p + [x] <= ord && forall id :: id in ord ==> id in job.nodes.byId
    ensures forall id :: id in p ==> id in job.nodes.byId
    ensures x in job.nodes.byId && x in RunAll(job, Demanding(d), ord).results
    ensures var q := RunOne(job, Demanding(d), RunAll(job, Demanding(d), p), x);
            x in q.results && RunAll(job, Demanding(d), ord).results[x] == q.results[x]
  {
    hide RunOne, Demanding;
    assert forall i :: 0 <= i < |p| ==> ord[i] == p[i];
    assert ord[|p|] == x;
    assert ord[..|p| + 1] == p + [x] && (p + [x])[..|p|] == p;
    LaterNodesKeep(job, Demanding(d), ord, |p| + 1, x);
  }

  /** Shares between two bounds that sum to any number in between. */
  lemma {:induction false} SharesBetween(keys: seq<Id>, low: map<Id, nat>, high: map<Id, nat>, total: nat)
    returns (d: map<Id, nat>)
    requires Distinct(keys) && forall k :: k in keys ==> k in low && k in high && low[k] <= high[k]
    requires SumOver(keys, low) <= total <= SumOver(keys, high)
    ensures d.Keys == high.Keys && (forall k :: k in keys ==> k in d && low[k] <= d[k] <= high[k])
    ensures forall k :: k in high && k !in keys ==> d[k] == high[k]
    ensures SumOver(keys, d) == total
    decreases SumOver(keys, high) - total
  {
    if SumOver(keys, high) == total {
      d := high;
    } else {
      var k := SomeRoom(keys, low, high);
      SumOverUpdate(keys, high, k, high[k] - 1);
      d := SharesBetween(keys, low, high[k := high[k] - 1], total);
    }
  }

  lemma {:induction false} SomeRoom(keys: seq<Id>, low: map<Id, nat>, high: map<Id, nat>) returns (k: Id)
    requires forall k :: k in keys ==> k in low && k in high && low[k] <= high[k]
    requires SumOver(keys, low) < SumOver(keys, high)
    ensures k in keys && low[k] < high[k]
  {
    if low[keys[0]] < high[keys[0]] {
      k := keys[0];
    } else {
      k := SomeRoom(keys[1..], low, high);
    }
  }

  /** The nodes that can be over before `x` or `y` has run, and `x` and `y` themselves. */
  ghost function Beside(job: Job, x: Id, y: Id): set<Id> {
    set v | v in job.nodes.byId && !DependsOn(job.G(), v, x) && !DependsOn(job.G(), v, y)
  }

  /** Without `x` they still contain everything they depend on, and everything `x` depends on. */
  lemma {:induction false} BesideClosed(job: Job, x: Id, y: Id)
    requires job.WF() && Contend(job, x, y)
    ensures x in Beside(job, x, y) && y in Beside(job, x, y)
    ensures DepsWithin(job.G(), Beside(job, x, y) - {x})
    ensures forall u :: u in job.G().Deps(x) ==> u in Beside(job, x, y) - {x}
  {
    hide DependsOn, IsLevelling, RetryCaps;
    var g := job.G();
    assert x in g.deps && y in g.deps;
    forall v, u | v in Beside(job, x, y) && u in g.Deps(v)
      ensures u in Beside(job, x, y) && u != x
    {
      DepIsDependency(g, v, u);
      assert u in g.deps;
      if DependsOn(g, u, x) { DependsTransitively(g, v, u, x); }
      if DependsOn(g, u, y) { DependsTransitively(g, v, u, y); }
    }
  }

  /** Shares of one more retry than the budget allows, for the nodes beside `x` and `y`, with one each for these. */
  lemma {:induction false} ContendedShares(job: Job, x: Id, y: Id) returns (d: map<Id, nat>)
    requires job.WF() && Contend(job, x, y) && job.maxRetries > 0
    requires forall id :: id in job.nodes.order ==> id in job.nodes.byId
    requires SumOver(job.nodes.order, CapsBeside(job, x, y)) > job.maxRetries
    ensures Shares(job, d) && (forall id :: id in job.nodes.order ==> id in d)
    ensures d[x] >= 1 && d[y] >= 1 && (forall v :: v in d && v !in Beside(job, x, y) ==> d[v] == 0)
    ensures SumOver(job.nodes.order, d) == job.maxRetries + 1
  {
    hide DependsOn, IsLevelling, Acyclic, Distinct;
    var order, high := job.nodes.order, CapsBeside(job, x, y);
    BesideClosed(job, x, y);
    CapKeys(job);
    var low := OneEach(job, x, y);
    hide RetryCaps;
    forall k | k in order ensures low[k] <= high[k] {
      assert k == x || k == y || low[k] == 0;
    }
    d := SharesBetween(order, low, high, job.maxRetries + 1);
  }

  lemma {:induction false} OneEach(job: Job, x: Id, y: Id) returns (low: map<Id, nat>)
    requires job.nodes.IsDict() && x in job.nodes.byId && y in job.nodes.byId && x != y
    ensures low.Keys == job.nodes.byId.Keys && (forall k :: k in job.nodes.order <==> k in low)
    ensures forall k :: k in low ==> low[k] == if k == x || k == y then 1 else 0
    ensures SumOver(job.nodes.order, low) == 2
  {
    var order := job.nodes.order;
    forall v ensures v in order <==> v in job.nodes.byId { assert v in order <==> v in Elems(order); }
    low := map id | id in job.nodes.byId :: if id == x || id == y then 1 else 0;
    hide Distinct;
    SumOverSome(order, low, {x, y}, 1);
  }

  /** The shares of all but `x` fit the budget, and that of `x` on top of them does not. */
  lemma {:induction false} SharesBut(job: Job, d: map<Id, nat>, some: set<Id>, x: Id)
    requires job.nodes.IsDict() && d.Keys == job.nodes.byId.Keys && x in some && some <= d.Keys
    requires forall id :: id in job.nodes.order ==> id in d
    requires forall v :: v in d && v !in some ==> d[v] == 0
    ensures SumOver(job.nodes.order, SharesOf(d, some - {x})) + d[x] == SumOver(job.nodes.order, d)
  {
    hide Distinct;
    assert x in job.nodes.order by { assert x in Elems(job.nodes.order); }
    assert SharesOf(d, some - {x}) == d[x := 0];
    SumOverUpdate(job.nodes.order, d, x, 0);
  }

  /** Two contending nodes that can be short of the budget: whichever comes last fails. */
  lemma {:induction false} ContentionDecides(job: Job, x: Id, y: Id)
    returns (ex: Oracle, ord: seq<Id>, ord': seq<Id>)
    requires Disciplined(job) && Contend(job, x, y) && job.maxRetries > 0
    requires forall id :: id in job.nodes.order ==> id in job.nodes.byId
    requires SumOver(job.nodes.order, CapsBeside(job, x, y)) > job.maxRetries
    ensures IsTopoOrder(job.G(), ord) && IsTopoOrder(job.G(), ord')
    ensures (forall id :: id in ord ==> id in job.nodes.byId) && (forall id :: id in ord' ==> id in job.nodes.byId)
    ensures var r, r' := RunAll(job, ex, ord).results, RunAll(job, ex, ord').results;
            && x in r && r[x] == RFailed && Succeeds(r, y)
            && y in r' && r'[y] == RFailed && Succeeds(r', x)
  {
    hide OutputsDistinct, ReadsResolved, IsLevelling, Acyclic, RetryCaps, RunAll, Demanding, DependsOn, Viable;
    hide DepsWithin, IsTopoOrder, Shares, SharesOf, Beside;
    var d := ContendedShares(job, x, y);
    var beside := Beside(job, x, y);
    BesideClosed(job, x, y);
    ContendSwaps(job, x, y);
    BesideClosed(job, y, x);
    assert Beside(job, y, x) == beside by { BesideSwaps(job, x, y); }
    assert beside <= job.nodes.byId.Keys && d.Keys == job.nodes.byId.Keys by { BesideNodes(job, x, y, d); }
    ContenderViable(job, x);
    ContenderViable(job, y);
    SharesBut(job, d, beside, x);
    SharesBut(job, d, beside, y);
    ex := Demanding(d);
    ord := FailsWhenLast(job, d, beside - {x}, x);
    ord' := FailsWhenLast(job, d, beside - {y}, y);
  }

  lemma ContendSwaps(job: Job, x: Id, y: Id)
    requires Contend(job, x, y)
    ensures Contend(job, y, x)
  {
  }

  lemma BesideSwaps(job: Job, x: Id, y: Id)
    ensures Beside(job, y, x) == Beside(job, x, y)
  {
  }

  lemma BesideNodes(job: Job, x: Id, y: Id, d: map<Id, nat>)
    requires Shares(job, d)
    ensures Beside(job, x, y) <= job.nodes.byId.Keys && d.Keys == job.nodes.byId.Keys
  {
  }

  lemma ContenderViable(job: Job, x: Id)
    requires x in job.nodes.byId && RetryCaps(job)[x] >= 1
    ensures Viable(job, x)
  {
  }

  lemma {:induction false} SomeContention(job: Job) returns (x: Id, y: Id)
    requires job.WF() && !OrderCannotMatter(job)
    ensures (forall id :: id in job.nodes.order ==> id in job.nodes.byId)
    ensures Contend(job, x, y) && job.maxRetries > 0
    ensures SumOver(job.nodes.order, CapsBeside(job, x, y)) > job.maxRetries
  {
    hide Contend, IsLevelling, Acyclic, Distinct, RetryCaps, DependsOn;
    forall id | id in job.nodes.order ensures id in job.nodes.byId {
      assert id in Elems(job.nodes.order);
    }
    x, y :| Contend(job, x, y) && !(SumOver(job.nodes.order, CapsBeside(job, x, y)) <= job.maxRetries);
  }

  /**
   The sequential run under the shared budget comes to the same in every topological order, whatever the
   attempts come to, exactly when no two contending nodes can be short of the budget.
   */
  lemma {:induction false} SequentialIff(job: Job)
    requires Disciplined(job)
    ensures (forall ex: Oracle, ord: seq<Id>, ord': seq<Id> ::
               IsTopoOrder(job.G(), ord) && IsTopoOrder(job.G(), ord') ==> SameRuns(job, ex, ord, ord'))
            <==> OrderCannotMatter(job)
  {
    hide OutputsDistinct, ReadsResolved, OrderCannotMatter, IsLevelling, Acyclic, IsTopoOrder, SameRuns;
    if OrderCannotMatter(job) {
      forall ex: Oracle, ord: seq<Id>, ord': seq<Id> | IsTopoOrder(job.G(), ord) && IsTopoOrder(job.G(), ord')
        ensures SameRuns(job, ex, ord, ord')
      {
        OrdersAgree(job, ex, ord, ord');
      }
    } else {
      var x, y := SomeContention(job);
      var ex, ord, ord' := ContentionDecides(job, x, y);
      assert !SameRuns(job, ex, ord, ord') by { DifferentRuns(job, ex, ord, ord'); }
    }
  }

  /** The two sequential runs come to the same, in results, artifacts, refusals and retries used. */
  ghost predicate SameRuns(job: Job, ex: Oracle, ord: seq<Id>, ord': seq<Id>) {
    && (forall id :: id in ord ==> id in job.nodes.byId) && (forall id :: id in ord' ==> id in job.nodes.byId)
    && var e, f := RunAll(job, ex, ord), RunAll(job, ex, ord');
       e.results == f.results && e.artifacts == f.artifacts && e.refused == f.refused && e.used == f.used
  }

  lemma DifferentRuns(job: Job, ex: Oracle, ord: seq<Id>, ord': seq<Id>)
    requires (forall id :: id in ord ==> id in job.nodes.byId) && (forall id :: id in ord' ==> id in job.nodes.byId)
    requires RunAll(job, ex, ord).results != RunAll(job, ex, ord').results
    ensures !SameRuns(job, ex, ord, ord')
  {
  }

  lemma {:induction false} RunAllFinished(job: Job, ex: Oracle, ord: seq<Id>)
    requires Disciplined(job) && IsTopoOrder(job.G(), ord)
    ensures (forall id :: id in ord ==> id in job.nodes.byId) && Finished(job, ex, RunAll(job, ex, ord))
  {
    hide OutputsDistinct, ReadsResolved, Accounted, Charged, RunAll, IsLevelling, Acyclic;
    TopoNodes(job, ord);
    RunAllAccounted(job, ex, ord);
  }

  /** Under the condition every execution comes to what the sequential run comes to. */
  lemma {:induction false} ExecutionsAgree(job: Job, ex: Oracle, e: Execution, f: Execution)
    requires Disciplined(job) && OrderCannotMatter(job) && Finished(job, ex, e) && Finished(job, ex, f)
    ensures e.results == f.results && e.artifacts == f.artifacts && e.refused == f.refused && e.used == f.used
  {
    hide Disciplined, OrderCannotMatter, Finished;
    RefusalsUnique(job, ex, e, f);
    OutcomesUnique(job, ex, e, f);
  }

  lemma {:induction false} OrdersAgree(job: Job, ex: Oracle, ord: seq<Id>, ord': seq<Id>)
    requires Disciplined(job) && OrderCannotMatter(job) && IsTopoOrder(job.G(), ord) && IsTopoOrder(job.G(), ord')
    ensures SameRuns(job, ex, ord, ord')
  {
    hide Disciplined, OrderCannotMatter, Finished, IsTopoOrder, RunAll;
    RunAllFinished(job, ex, ord);
    RunAllFinished(job, ex, ord');
    ExecutionsAgree(job, ex, RunAll(job, ex, ord), RunAll(job, ex, ord'));
  }

  // ---- A budget for everybody -------------------------------------------------------------

  /** The budget covers every retry the policies allow to nodes that can run at all. */
  ghost predicate BudgetCannotBind(job: Job) {
    && (forall id :: id in job.nodes.order ==> id in job.nodes.byId)
    && SumOver(job.nodes.order, RetryCaps(job)) <= job.Allowance()
  }

  /** Such a budget refuses nobody. */
  lemma {:induction false} NobodyRefusedWhenCovered(job: Job, ex: Oracle, e: Execution)
    requires job.nodes.IsDict() && BudgetCannotBind(job) && Finished(job, ex, e)
    ensures e.refused == {}
  {
    hide Accounted, Distinct, RetryCaps, Wanted, Ran;
    CapKeys(job);
    if e.refused != {} {
      var z :| z in e.refused;
      RefusedInGraph(job, ex, e, z);
      forall v | v in job.nodes.order ensures v in e.spent && e.spent[v] <= RetryCaps(job)[v] {
        SpentWithinCap(job, ex, e, v);
      }
      SpentWithinCap(job, ex, e, z);
      assert z in job.nodes.order by { assert z in Elems(job.nodes.order); }
      SumOverStrict(job.nodes.order, e.spent, RetryCaps(job), z);
    }
  }

  lemma RefusedInGraph(job: Job, ex: Oracle, e: Execution, z: Id)
    requires Finished(job, ex, e) && z in e.refused
    ensures z in job.nodes.byId
  {
  }

  lemma {:induction false} UnlimitedSucceeds(job: Job, ord: seq<Id>, i: nat, e: Execution)
    requires Disciplined(job) && Finished(job, Demanding(RetryCaps(job)), e) && IsTopoOrder(job.G(), ord)
    requires forall id :: id in job.nodes.byId ==>
      id in e.results && e.results[id] == Outcome(job, Demanding(RetryCaps(job)), e, id)
    requires i < |ord| && Viable(job, ord[i])
    ensures Succeeds(e.results, ord[i]) && ord[i] in e.spent && e.spent[ord[i]] == RetryCaps(job)[ord[i]]
    decreases i
  {
    hide Disciplined, Distinct, RetryCaps, Viable, Wanted, Outcome, Charged, Demanding, Blocked;
    CapKeys(job);
    TopoNodes(job, ord);
    forall u | u in job.G().Deps(ord[i]) ensures Succeeds(e.results, u) {
      DepIsViable(job, ord[i], u);
      assert u in ord[..i];
      assert ord[IndexOf(ord[..i], u)] == u;
      UnlimitedSucceeds(job, ord, IndexOf(ord[..i], u), e);
    }
    NoneBlocks(job, e, ord[i]);
    WantsItsShare(job, RetryCaps(job), e, ord[i]);
    assert Account(job, Demanding(RetryCaps(job)), e, ord[i]);
  }

  /** If nobody notices the budget although everybody asks for all that is allowed, the budget covers it. */
  lemma {:induction false} UnlimitedSpendsAll(job: Job, e: Execution)
    requires Disciplined(job) && Finished(job, Demanding(RetryCaps(job)), e)
    requires forall id :: id in job.nodes.byId ==>
      id in e.results && e.results[id] == Outcome(job, Demanding(RetryCaps(job)), e, id)
    ensures BudgetCannotBind(job)
  {
    hide OutputsDistinct, ReadsResolved, IsLevelling, Acyclic, Viable, Outcome, Accounted, Demanding, RetryCaps;
    hide Distinct;
    CapKeys(job);
    var ord := SomeTopoOrder(job.G());
    TopoNodes(job, ord);
    forall v | v in job.nodes.order
      ensures v in job.nodes.byId && v in e.spent && RetryCaps(job)[v] <= e.spent[v]
    {
      assert v in Elems(job.nodes.order);
      if Viable(job, v) {
        assert v in ord by { assert v in Elems(ord); }
        UnlimitedSucceeds(job, ord, IndexOf(ord, v), e);
      } else {
        NotViableCap(job, v);
      }
    }
    SumOverMono(job.nodes.order, RetryCaps(job), e.spent);
  }
}
