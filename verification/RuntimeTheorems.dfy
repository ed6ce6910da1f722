/** The guarantees of a run: outcomes, budget, isolation, reads, progress. */
module RuntimeTheorems {
  import opened Collections
  import opened Graphs
  import opened ExecutionGraph
  import opened Nodes
  import opened Runtime
  import opened RuntimeInvariants
  import Breaker
  import Retry

  /** The states an execution with a fresh context can reach. */
  ghost predicate Reachable(job: Job, s: State) {
    exists breaker, clock, es :: RunsTo(job, breaker, clock, es, s)
  }

  ghost predicate RunsTo(job: Job, breaker: Option<Breaker.Breaker>, clock: real, es: seq<Event>, s: State) {
    IsRun(job, Init(job, breaker, clock), es) && After(job, Init(job, breaker, clock), es) == s
  }

  lemma {:induction false} ReachableInv(job: Job, s: State)
    requires job.WF() && Reachable(job, s)
    ensures Inv(job, s)
  {
    hide Inv;
    var breaker, clock, es :| RunsTo(job, breaker, clock, es, s);
    InitInv(job, breaker, clock);
    RunKeepsInv(job, Init(job, breaker, clock), es);
  }

  lemma {:induction false} ReachableParts(job: Job, s: State)
    requires job.WF() && Reachable(job, s)
    ensures Fits(job, s) && Ordered(job, s) && Levelled(job, s) && Booked(s) && Stored(job, s)
    ensures Budgeted(job, s) && Timed(job, s) && TimeTotals(job, s)
  {
    hide Inv;
    ReachableInv(job, s);
    InvParts(job, s);
  }

  // ---- Isolation --------------------------------------------------------------------------

  /** Nodes whose coroutines are under way together never depend on each other. */
  lemma {:induction false} ConcurrentNodesIndependent(job: Job, s: State, u: Id, v: Id)
    requires job.WF() && Reachable(job, s)
    requires u in s.status && v in s.status && s.status[u].Active() && s.status[v].Active()
    ensures !DependsOn(job.G(), v, u)
  {
    hide Fits, Ordered, Levelled, Booked, Stored, Budgeted, Timed, TimeTotals, IsLevelling;
    ReachableParts(job, s);
    ActiveLevel(job, s, u);
    ActiveLevel(job, s, v);
    LevelIsAntichain(job.G(), job.levels, s.level - 1, u, v);
  }

  lemma {:induction false} ActiveLevel(job: Job, s: State, u: Id)
    requires job.WF() && Fits(job, s) && Levelled(job, s)
    requires u in s.status && s.status[u].Active()
    ensures 0 < s.level <= |job.levels| && u in job.levels[s.level - 1]
  {
    hide StatusFits, Acyclic;
    var k := LevelExists(job.G(), u);
    LevelIndex(job.G(), job.levels, u, k);
    assert HasLevel(job.G(), u, k);
  }

  // ---- Outcomes ---------------------------------------------------------------------------

  /** Some node that `v` transitively depends on has failed. */
  ghost predicate HasFailedAncestor(job: Job, s: State, v: Id) {
    exists u :: u in s.failed && DependsOn(job.G(), v, u)
  }

  lemma {:induction false} SkippedHasFailedAncestor(job: Job, s: State, v: Id, k: nat)
    requires job.WF() && Fits(job, s) && Ordered(job, s) && Booked(s)
    requires v in s.skipped && HasLevel(job.G(), v, k)
    ensures HasFailedAncestor(job, s, v)
    decreases k
  {
    var g := job.G();
    assert BlockedBy(job, s, v);
    var d :| d in g.Deps(v) && d in s.status && (s.status[d].Failed? || s.status[d].Skipped?);
    assert Walk(g, d, d, 0);
    assert Walk(g, d, v, 1);
    if s.status[d].Skipped? {
      var j := DepIsLower(job, v, k, d);
      SkippedHasFailedAncestor(job, s, d, j);
      var u :| u in s.failed && DependsOn(g, d, u);
      var m: nat :| m > 0 && Walk(g, u, d, m);
      WalkConcat(g, u, d, v, m, 1);
    }
  }

  /** Everything a started node transitively depends on has succeeded. */
  lemma {:induction false} StartedHasSucceededAncestors(job: Job, s: State, u: Id, v: Id, k: nat)
    requires Ordered(job, s) && v in s.status && s.status[v].Started()
    requires k > 0 && Walk(job.G(), u, v, k)
    ensures u in s.status && s.status[u].Succeeded?
    decreases k
  {
    var d :| d in job.G().Deps(v) && Walk(job.G(), u, d, k - 1);
    if k > 1 {
      StartedHasSucceededAncestors(job, s, u, d, k - 1);
    }
  }

  /** A node is skipped exactly when something it depends on has failed. */
  lemma {:induction false} SkippedIff(job: Job, s: State, v: Id)
    requires job.WF() && Fits(job, s) && Ordered(job, s) && Booked(s)
    requires v in job.nodes.byId && s.status[v].Terminal()
    ensures v in s.skipped <==> HasFailedAncestor(job, s, v)
  {
    hide Ordered, StatusFits, DependsOn, Acyclic, IsLevelling;
    if v in s.skipped {
      var k := LevelExists(job.G(), v);
      SkippedHasFailedAncestor(job, s, v, k);
    } else {
      StartedHasNoFailedAncestor(job, s, v);
    }
  }

  lemma {:induction false} StartedHasNoFailedAncestor(job: Job, s: State, v: Id)
    requires Ordered(job, s) && Booked(s) && v in s.status && s.status[v].Started()
    ensures !HasFailedAncestor(job, s, v)
  {
    hide Ordered;
    forall u | u in s.failed ensures !DependsOn(job.G(), v, u) {
      if DependsOn(job.G(), v, u) {
        var m: nat :| m > 0 && Walk(job.G(), u, v, m);
        StartedHasSucceededAncestors(job, s, u, v, m);
        assert false;
      }
    }
  }

  lemma {:induction false} NodeIsOver(job: Job, s: State, v: Id)
    requires job.WF() && Fits(job, s) && Levelled(job, s) && Complete(job, s) && v in job.nodes.byId
    ensures v in s.status && s.status[v].Terminal()
  {
    hide StatusFits, Acyclic;
    var k := LevelExists(job.G(), v);
    LevelIndex(job.G(), job.levels, v, k);
  }

  /** With distinct outputs, a stored key tells which node succeeded. */
  lemma {:induction false} StoredIffSucceeded(job: Job, s: State, v: Id)
    requires Fits(job, s) && Stored(job, s) && v in job.nodes.byId
    ensures s.status[v].Succeeded? ==> job.nodes.byId[v].output in s.artifacts
    ensures OutputsDistinct(job) ==> (s.status[v].Succeeded? <==> job.nodes.byId[v].output in s.artifacts)
  {
    hide StatusFits;
    if s.status[v].Succeeded? {
      assert WrittenBy(job, s, job.nodes.byId[v].output);
    }
  }

  /** When `execute` returns, each node has exactly one outcome, and the outcomes are what the result records. */
  lemma {:induction false} OutcomePartition(job: Job, s: State, v: Id)
    requires job.WF() && Reachable(job, s) && Complete(job, s) && v in job.nodes.byId
    ensures v in s.status && s.status[v].Terminal()
    ensures s.status[v].Failed? <==> v in s.failed
    ensures s.status[v].Skipped? <==> v in s.skipped
    ensures v in s.failed <==> v in s.errors
    ensures v in s.skipped <==> HasFailedAncestor(job, s, v)
    ensures s.status[v].Succeeded? ==> job.nodes.byId[v].output in s.artifacts
    ensures OutputsDistinct(job) ==> (s.status[v].Succeeded? <==> job.nodes.byId[v].output in s.artifacts)
  {
    hide Reachable, Complete, Fits, Ordered, Levelled;
    hide Stored, Budgeted, Timed, TimeTotals, HasFailedAncestor, OutputsDistinct;
    hide Acyclic, IsLevelling;
    ReachableParts(job, s);
    NodeIsOver(job, s, v);
    SkippedIff(job, s, v);
    StoredIffSucceeded(job, s, v);
  }

  /** Every stored artifact is the output of a successful node. */
  lemma {:induction false} ArtifactsComeFromSuccesses(job: Job, s: State, key: string)
    requires job.WF() && Reachable(job, s)
    ensures key in s.artifacts <==> WrittenBy(job, s, key)
    ensures key in s.producers <==> key in s.artifacts
  {
    ReachableInv(job, s);
  }

  // ---- Budget -----------------------------------------------------------------------------

  lemma {:induction false} CallsVersusRetries(keys: seq<Id>, status: map<Id, Status>)
    requires forall id :: id in keys ==> id in status
    ensures SumOver(keys, CallWeights(status)) <= |keys| + SumOver(keys, RetryWeights(status))
  {
    if keys != [] {
      CallsVersusRetries(keys[1..], status);
      assert CallsOf(status[keys[0]]) <= 1 + RetriesOf(status[keys[0]]);
    }
  }

  /**
   At every step the retries of all nodes, with those reserved by sleeping ones, add up to what the budget
   records.
   */
  lemma {:induction false} BudgetConserved(job: Job, s: State)
    requires job.WF() && Reachable(job, s)
    ensures forall id :: id in job.nodes.order ==> id in s.status
    ensures s.used == SumOver(job.nodes.order, RetryWeights(s.status))
    ensures s.used <= if job.maxRetries < 0 then 0 else job.maxRetries
    ensures s.calls <= |job.nodes.byId| + s.used
  {
    hide Fits, Ordered, Levelled, Booked, Stored, Timed, TimeTotals, IsLevelling, Acyclic, RetryWeights, CallWeights;
    ReachableParts(job, s);
    CallsVersusRetries(job.nodes.order, s.status);
    DistinctCard(job.nodes.order);
    assert job.G().IsDict() && job.G().deps.Keys == job.nodes.byId.Keys;
    assert |job.nodes.byId| == |job.nodes.byId.Keys|;
  }

  /** In a completed run the retries in the timing records add up to the budget used. */
  lemma {:induction false} TimedRetriesAddUp(job: Job, s: State)
    requires job.WF() && Reachable(job, s) && Complete(job, s)
    ensures TimedRetries(s.timing) == s.used
  {
    ReachableInv(job, s);
    forall id | id in job.nodes.order
      ensures TimedWeights(s.status)[id] == RetryWeights(s.status)[id]
    {
      assert id in Elems(job.nodes.order);
      OutcomePartition(job, s, id);
    }
    SumOverSame(job.nodes.order, TimedWeights(s.status), RetryWeights(s.status));
  }

  lemma {:induction false} TriageKeepsErrors(job: Job, s: State, level: seq<Id>)
    ensures Triage(job, s, level).errors == s.errors && Triage(job, s, level).groups == s.groups
  {
    if level != [] {
      TriageKeepsErrors(job, s, level[..|level| - 1]);
    }
  }

  lemma {:induction false} TriageKeepsTerminal(job: Job, s: State, level: seq<Id>, id: Id)
    requires id !in level
    ensures id in s.status ==> id in Triage(job, s, level).status && Triage(job, s, level).status[id] == s.status[id]
  {
    if level != [] {
      assert id !in level[..|level| - 1];
      TriageKeepsTerminal(job, s, level[..|level| - 1], id);
    }
  }

  lemma {:induction false} EnterKeepsErrors(job: Job, s: State, e: Event)
    requires Enabled(job, s, e) && e.EnterLevel?
    ensures Step(job, s, e).errors == s.errors
  {
    hide Triage;
    var level := job.levels[s.level];
    TriageKeepsErrors(job, s.(clock := e.now, groups := if |level| > 1 then s.groups + [level] else s.groups), level);
  }

  lemma {:induction false} StepKeepsTerminal(job: Job, s: State, e: Event, id: Id)
    requires job.WF() && Inv(job, s) && Enabled(job, s, e)
    requires id in s.status && s.status[id].Terminal()
    ensures var t := Step(job, s, e); id in t.status && t.status[id] == s.status[id]
    ensures var t := Step(job, s, e); id in s.errors ==> id in t.errors && t.errors[id] == s.errors[id]
  {
    hide Inv, Step, Triage, Fits, Levelled, Booked, Ordered, Stored, Budgeted, Timed, TimeTotals;
    InvParts(job, s);
    if e.EnterLevel? {
      EnterKeepsErrors(job, s, e);
      EnterKeepsTerminal(job, s, e, id);
    } else {
      hide StatusFits, StoreMove, TimeMove, BudgetMove;
      var x, timed := StepIsMove(job, s, e);
    }
  }

  lemma {:induction false} EnterKeepsTerminal(job: Job, s: State, e: Event, id: Id)
    requires job.WF() && Fits(job, s) && Levelled(job, s) && Enabled(job, s, e) && e.EnterLevel?
    requires id in s.status && s.status[id].Terminal()
    ensures var t := Step(job, s, e); id in t.status && t.status[id] == s.status[id]
  {
    hide Fits, Levelled, Triage;
    var level := job.levels[s.level];
    LevelCanBeEntered(job, s);
    var groups := if |level| > 1 then s.groups + [level] else s.groups;
    TriageKeepsTerminal(job, s.(clock := e.now, groups := groups), level, id);
  }

  /** A node that is over stays as it ended: nothing is retried later. */
  lemma {:induction false} TerminalIsFinal(job: Job, s: State, es: seq<Event>, id: Id)
    requires job.WF() && Inv(job, s) && IsRun(job, s, es)
    requires id in s.status && s.status[id].Terminal()
    ensures var t := After(job, s, es);
            && id in t.status && t.status[id] == s.status[id]
            && (id in s.errors ==> id in t.errors && t.errors[id] == s.errors[id])
    decreases |es|
  {
    hide Inv, Step, Enabled;
    if es != [] {
      StepKeepsTerminal(job, s, es[0], id);
      StepKeepsInv(job, s, es[0]);
      TerminalIsFinal(job, Step(job, s, es[0]), es[1..], id);
    }
  }

  /**
   An attempt the breaker rejects ends the node at once and for good: no retry then or later,
   nothing taken from the budget, breaker and artifacts untouched.
   */
  lemma {:induction false} RejectedNodeFails(job: Job, s: State, e: Event, later: seq<Event>)
    requires job.WF() && Reachable(job, s) && Enabled(job, s, e)
    requires e.Wake? || (e.Start? && HasExecutor(job, e.id) && job.MaxAttempts(e.id) > 0)
    requires s.breaker.Some? && !Breaker.Admits(s.breaker.value, e.now)
    requires IsRun(job, Step(job, s, e), later)
    ensures var t := Step(job, s, e);
            && t.used == s.used && t.artifacts == s.artifacts && t.breaker == s.breaker
            && t.status == s.status[e.id := Failed(if e.Wake? then s.status[e.id].attempt else 0)]
    ensures var end := After(job, Step(job, s, e), later);
            && e.id in end.status && end.status[e.id].Failed?
            && e.id in end.errors && end.errors[e.id] == CircuitOpen
  {
    hide Inv;
    ReachableInv(job, s);
    StepKeepsInv(job, s, e);
    TerminalIsFinal(job, Step(job, s, e), later, e.id);
  }

  // ---- Errors -----------------------------------------------------------------------------

  /** The coroutine of the node begins an attempt. */
  predicate Begins(job: Job, e: Event) {
    e.Wake? || (e.Start? && e.id in job.nodes.byId && HasExecutor(job, e.id) && job.MaxAttempts(e.id) > 0)
  }

  /** What must be the case when event `e` happens for it to record `error` against its node. */
  ghost predicate Causes(job: Job, s: State, e: Event, error: NodeError)
    requires Enabled(job, s, e) && !e.EnterLevel?
  {
    var max := job.MaxAttempts(e.id);
    match error
    case NoExecutor => e.Start? && !HasExecutor(job, e.id)
    case NoAttempts => e.Start? && HasExecutor(job, e.id) && max <= 0
    case CircuitOpen => Begins(job, e) && s.breaker.Some? && !Breaker.Admits(s.breaker.value, e.now)
    case ArtifactNotFound(key) =>
      && Begins(job, e) && Admitted(s, e.now)
      && ReadKey(job.nodes.byId[e.id]) == Some(key) && key !in s.artifacts
    case TransientFailure => e.Finish? && e.result.Transient? && s.status[e.id].attempt == max
    case OtherFailure => e.Finish? && e.result.Fatal?
    case RetryBudgetExhausted =>
      e.Finish? && e.result.Transient? && s.status[e.id].attempt < max && s.used >= job.maxRetries
  }

  ghost predicate HasError(s: State, id: Id, error: NodeError) {
    id in s.errors && s.errors[id] == error
  }

  lemma {:induction false} BeginErrors(job: Job, s: State, id: Id, attempt: nat, now: real)
    requires id in job.nodes.byId && attempt > 0
    ensures BeginAttempt(job, s, id, attempt, now).errors ==
      if !Admitted(s, now) then s.errors[id := CircuitOpen]
      else
        match ReadKey(job.nodes.byId[id])
        case None => s.errors
        case Some(key) => if key in s.artifacts then s.errors else s.errors[id := ArtifactNotFound(key)]
  {
    hide ReadKey, FailNode, ReportFailure;
    var s1 := s.(calls := s.calls + 1);
    if !Admitted(s, now) {
      FailNodeErrors(job, s1, id, attempt - 1, CircuitOpen);
    } else {
      var s2 := if s.breaker.None? then s1 else s1.(breaker := Some(Breaker.OnCheck(s.breaker.value, now)));
      var key := ReadKey(job.nodes.byId[id]);
      if key.Some? && key.value !in s.artifacts {
        ReportKeepsErrors(s2, now);
        FailNodeErrors(job, ReportFailure(s2, now), id, attempt - 1, ArtifactNotFound(key.value));
      }
    }
  }

  lemma FailNodeErrors(job: Job, s: State, id: Id, retries: nat, error: NodeError)
    requires id in job.nodes.byId
    ensures FailNode(job, s, id, retries, error).errors == s.errors[id := error]
  {
  }

  lemma ReportKeepsErrors(s: State, now: real)
    ensures ReportFailure(s, now).errors == s.errors
  {
  }

  lemma {:induction false} BeginCauses(job: Job, s: State, e: Event, attempt: nat, error: NodeError)
    requires Enabled(job, s, e) && Begins(job, e) && attempt > 0 && e.id !in s.errors
    ensures HasError(BeginAttempt(job, s, e.id, attempt, e.now), e.id, error) <==> Causes(job, s, e, error)
  {
    hide ReadKey, HasExecutor, BeginAttempt;
    BeginErrors(job, s, e.id, attempt, e.now);
  }

  lemma {:induction false} FinishCauses(job: Job, s: State, e: Event, error: NodeError)
    requires Enabled(job, s, e) && e.Finish? && e.id !in s.errors
    requires s.status[e.id].attempt <= job.MaxAttempts(e.id)
    ensures HasError(FinishAttempt(job, s, e.id, e.result, e.now), e.id, error) <==> Causes(job, s, e, error)
  {
    hide ReadKey, HasExecutor, FailNode, ReportFailure;
    var heard, retries := ReportFailure(s, e.now), s.status[e.id].attempt - 1;
    ReportKeepsErrors(s, e.now);
    FailNodeErrors(job, heard, e.id, retries, OtherFailure);
    FailNodeErrors(job, heard, e.id, retries, TransientFailure);
    FailNodeErrors(job, heard, e.id, retries, RetryBudgetExhausted);
    if e.result.Returned? { SuccessKeepsErrors(job, s, e); }
    hide ReportSuccess, SucceedNode;
  }

  lemma SuccessKeepsErrors(job: Job, s: State, e: Event)
    requires Enabled(job, s, e) && e.Finish? && e.result.Returned?
    ensures var t := SucceedNode(job, ReportSuccess(s, e.now), e.id, s.status[e.id].attempt - 1, e.result.value);
            t.errors == s.errors
  {
  }

  /** An event records an error against its node exactly when that error's cause is given. */
  lemma {:induction false} StepCauses(job: Job, s: State, e: Event, error: NodeError)
    requires Fits(job, s) && Booked(s) && Enabled(job, s, e) && !e.EnterLevel?
    ensures HasError(Step(job, s, e), e.id, error) <==> Causes(job, s, e, error)
  {
    hide BeginAttempt, FinishAttempt, ReadKey, Fits, Booked, Causes;
    var s1 := s.(clock := e.now);
    ActiveFits(job, s, e.id);
    SameCauses(job, s, e, error);
    if e.Finish? {
      FinishCauses(job, s1, e, error);
    } else if Begins(job, e) {
      BeginCauses(job, s1, e, if e.Wake? then s.status[e.id].attempt + 1 else 1, error);
    } else {
      StartCauses(job, s1, e, error);
    }
  }

  lemma ActiveFits(job: Job, s: State, id: Id)
    requires Fits(job, s) && Booked(s) && id in job.nodes.byId && s.status[id].Active()
    ensures StatusFits(job, id, s.status[id]) && id !in s.errors
  {
  }

  lemma SameCauses(job: Job, s: State, e: Event, error: NodeError)
    requires Enabled(job, s, e) && !e.EnterLevel?
    ensures Enabled(job, s.(clock := e.now), e)
    ensures Causes(job, s.(clock := e.now), e, error) <==> Causes(job, s, e, error)
  {
  }

  lemma {:induction false} StartCauses(job: Job, s: State, e: Event, error: NodeError)
    requires Enabled(job, s, e) && e.Start? && !Begins(job, e) && e.id !in s.errors
    ensures HasError(StartNode(job, s, e.id, e.now), e.id, error) <==> Causes(job, s, e, error)
  {
    hide ReadKey, BeginAttempt;
  }

  /** Event `i` of the run records `error` against `id`, and its cause is given at that moment. */
  ghost predicate CausedAt(job: Job, s: State, es: seq<Event>, i: nat, id: Id, error: NodeError) {
    && i < |es| && IsRun(job, s, es[..i])
    && var t := After(job, s, es[..i]);
       Enabled(job, t, es[i]) && !es[i].EnterLevel? && es[i].id == id && Causes(job, t, es[i], error)
  }

  lemma {:induction false} CausedFirst(job: Job, s: State, es: seq<Event>, id: Id, error: NodeError)
    requires es != [] && Enabled(job, s, es[0])
    ensures CausedAt(job, s, es, 0, id, error) <==>
            !es[0].EnterLevel? && es[0].id == id && Causes(job, s, es[0], error)
  {
    hide Causes, Enabled;
  }

  lemma {:induction false} CausedLater(job: Job, s: State, es: seq<Event>, i: nat, id: Id, error: NodeError)
    requires es != [] && Enabled(job, s, es[0])
    ensures CausedAt(job, s, es, i + 1, id, error) <==> CausedAt(job, Step(job, s, es[0]), es[1..], i, id, error)
  {
    hide Causes, Enabled, Step;
    if i + 1 < |es| {
      assert es[..i + 1][0] == es[0] && es[..i + 1][1..] == es[1..][..i];
    }
  }

  /** Nothing is recorded any more against a node that is over. */
  lemma {:induction false} NotCausedAgain(job: Job, s: State, es: seq<Event>, i: nat, id: Id, error: NodeError)
    requires job.WF() && Inv(job, s) && id in s.status && s.status[id].Terminal()
    ensures !CausedAt(job, s, es, i, id, error)
  {
    hide Inv, Causes, Step;
    if i < |es| && IsRun(job, s, es[..i]) {
      TerminalIsFinal(job, s, es[..i], id);
    }
  }

  lemma {:induction false} ErrorIsFinal(job: Job, s: State, es: seq<Event>, id: Id, error: NodeError)
    requires job.WF() && Inv(job, s) && IsRun(job, s, es) && id in s.errors
    ensures HasError(After(job, s, es), id, error) <==> s.errors[id] == error
    ensures forall i: nat :: !CausedAt(job, s, es, i, id, error)
  {
    hide Inv, CausedAt, IsRun, After;
    InvParts(job, s);
    TerminalIsFinal(job, s, es, id);
    forall i: nat ensures !CausedAt(job, s, es, i, id, error) {
      NotCausedAgain(job, s, es, i, id, error);
    }
  }

  /** Errors appear one at a time, by the event of the node they concern. */
  lemma {:induction false} FirstErrorCaused(job: Job, s: State, es: seq<Event>, id: Id, error: NodeError)
    requires job.WF() && Inv(job, s) && es != [] && Enabled(job, s, es[0]) && id !in s.errors
    ensures HasError(Step(job, s, es[0]), id, error) <==> CausedAt(job, s, es, 0, id, error)
  {
    hide Inv, CausedAt, Causes, Step, Fits, Booked, Ordered, Levelled, Stored, Budgeted, Timed, TimeTotals;
    hide StatusMove, StoreMove, TimeMove, BudgetMove, Acyclic, IsLevelling;
    InvParts(job, s);
    CausedFirst(job, s, es, id, error);
    if es[0].EnterLevel? {
      EnterKeepsErrors(job, s, es[0]);
    } else {
      var x, timed := StepIsMove(job, s, es[0]);
      if es[0].id == id {
        StepCauses(job, s, es[0], error);
      }
    }
  }

  lemma {:induction false} RunCauses(job: Job, s: State, es: seq<Event>, id: Id, error: NodeError)
    requires job.WF() && Inv(job, s) && IsRun(job, s, es) && id !in s.errors
    ensures HasError(After(job, s, es), id, error) <==> exists i: nat :: CausedAt(job, s, es, i, id, error)
    decreases |es|
  {
    hide Inv, CausedAt, Step;
    if es == [] {
      forall i: nat ensures !CausedAt(job, s, es, i, id, error) { NoEventCauses(job, s, i, id, error); }
    } else {
      var t := Step(job, s, es[0]);
      StepKeepsInv(job, s, es[0]);
      FirstErrorCaused(job, s, es, id, error);
      forall i: nat ensures CausedAt(job, s, es, i + 1, id, error) <==> CausedAt(job, t, es[1..], i, id, error) {
        CausedLater(job, s, es, i, id, error);
      }
      if id in t.errors {
        ErrorIsFinal(job, t, es[1..], id, error);
        forall i: nat | i > 0 ensures !CausedAt(job, s, es, i, id, error) {
          assert !CausedAt(job, t, es[1..], i - 1, id, error);
          CausedLater(job, s, es, i - 1, id, error);
        }
      } else {
        RunCauses(job, t, es[1..], id, error);
        if i: nat :| CausedAt(job, s, es, i, id, error) {
          if i > 0 { CausedLater(job, s, es, i - 1, id, error); }
        }
        if i: nat :| CausedAt(job, t, es[1..], i, id, error) {
          CausedLater(job, s, es, i, id, error);
        }
      }
    }
  }

  lemma NoEventCauses(job: Job, s: State, i: nat, id: Id, error: NodeError)
    ensures !CausedAt(job, s, [], i, id, error)
  {
  }

  /** A run ends with an error recorded against a node exactly when some event of the run had that error's cause. */
  lemma {:induction false} ErrorsHaveCauses(job: Job, breaker: Option<Breaker.Breaker>, clock: real, es: seq<Event>,
                                            s: State, id: Id, error: NodeError)
    requires job.WF() && RunsTo(job, breaker, clock, es, s)
    ensures HasError(s, id, error) <==>
            exists i: nat :: CausedAt(job, Init(job, breaker, clock), es, i, id, error)
  {
    hide Inv, CausedAt;
    InitInv(job, breaker, clock);
    RunCauses(job, Init(job, breaker, clock), es, id, error);
  }

  // ---- Attempts and values ----------------------------------------------------------------

  /** How many attempts begin in the course of the events. */
  function AttemptsBegun(job: Job, es: seq<Event>): nat {
    if es == [] then 0 else (if Begins(job, es[0]) then 1 else 0) + AttemptsBegun(job, es[1..])
  }

  lemma {:induction false} BeginCalls(job: Job, s: State, id: Id, attempt: nat, now: real)
    requires id in job.nodes.byId && attempt > 0
    ensures BeginAttempt(job, s, id, attempt, now).calls == s.calls + 1
  {
    hide ReadKey, ReportFailure, FailNode, Admitted, Breaker.OnCheck;
    var s1 := s.(calls := s.calls + 1);
    var s2 := if s.breaker.None? then s1 else s1.(breaker := Some(Breaker.OnCheck(s.breaker.value, now)));
    ReportKeepsCalls(s2, now);
    FailKeepsCalls(job, s1, id, attempt - 1, CircuitOpen);
    if ReadKey(job.nodes.byId[id]).Some? {
      FailKeepsCalls(job, ReportFailure(s2, now), id, attempt - 1, ArtifactNotFound(ReadKey(job.nodes.byId[id]).value));
    }
  }

  lemma FailKeepsCalls(job: Job, s: State, id: Id, retries: nat, error: NodeError)
    requires id in job.nodes.byId
    ensures FailNode(job, s, id, retries, error).calls == s.calls
  {
  }

  lemma ReportKeepsCalls(s: State, now: real)
    ensures ReportFailure(s, now).calls == s.calls && ReportSuccess(s, now).calls == s.calls
  {
  }

  lemma {:induction false} StepCalls(job: Job, s: State, e: Event)
    requires Enabled(job, s, e)
    ensures Step(job, s, e).calls == s.calls + if Begins(job, e) then 1 else 0
  {
    hide BeginAttempt, Triage, ReportFailure, ReportSuccess;
    var s1 := s.(clock := e.now);
    ReportKeepsCalls(s1, e.now);
    match e {
      case EnterLevel(_) =>
        var level := job.levels[s.level];
        TriageKeepsCalls(job, s1.(groups := if |level| > 1 then s.groups + [level] else s.groups), level);
      case Start(id, now) => BeginCalls(job, s1, id, 1, now);
      case Wake(id, now) => BeginCalls(job, s1, id, s.status[id].attempt + 1, now);
      case Finish(_, _, _) =>
    }
  }

  lemma {:induction false} TriageKeepsCalls(job: Job, s: State, level: seq<Id>)
    ensures Triage(job, s, level).calls == s.calls
  {
    if level != [] {
      TriageKeepsCalls(job, s, level[..|level| - 1]);
    }
  }

  /** The attempts that are counted are those that the events of the run begin. */
  lemma {:induction false} CallsAreAttempts(job: Job, s: State, es: seq<Event>)
    requires IsRun(job, s, es)
    ensures After(job, s, es).calls == s.calls + AttemptsBegun(job, es)
    decreases |es|
  {
    hide Step, Enabled, Begins;
    if es != [] {
      StepCalls(job, s, es[0]);
      CallsAreAttempts(job, Step(job, s, es[0]), es[1..]);
    }
  }

  /** Event `i` of the run is the end of an attempt of the node that returned `value`. */
  ghost predicate ReturnedAt(es: seq<Event>, i: nat, id: Id, value: Artifact) {
    i < |es| && es[i].Finish? && es[i].id == id && es[i].result == Retry.Returned(value)
  }

  lemma {:induction false} StepSucceeds(job: Job, s: State, e: Event, id: Id)
    requires job.WF() && Inv(job, s) && Enabled(job, s, e)
    requires id in Step(job, s, e).status && Step(job, s, e).status[id].Succeeded?
    ensures id in s.status
    ensures s.status[id] == Step(job, s, e).status[id] || ReturnedAt([e], 0, id, Step(job, s, e).status[id].value)
  {
    hide Inv, Step, Fits, Ordered, Levelled, Booked, Stored, Budgeted, Timed, TimeTotals, CanEnter, Triaged;
    hide BookMove, StoreMove, TimeMove, BudgetMove, Acyclic, IsLevelling;
    InvParts(job, s);
    if e.EnterLevel? {
      EnterStep(job, s, e);
      EnterOnlyWakes(job, s, Step(job, s, e), job.levels[s.level]);
    } else {
      var x, timed := StepIsMove(job, s, e);
      if id == e.id {
        SucceedsByReturning(job, s, e);
      }
    }
  }

  lemma {:induction false} SucceedsByReturning(job: Job, s: State, e: Event)
    requires Enabled(job, s, e) && !e.EnterLevel?
    requires e.id in Step(job, s, e).status && Step(job, s, e).status[e.id].Succeeded?
    ensures e.Finish? && e.result == Retry.Returned(Step(job, s, e).status[e.id].value)
  {
    hide ReadKey, Admitted, ReportFailure, ReportSuccess;
  }

  /** The value of a successful node is one that an attempt of it returned. */
  lemma {:induction false} SuccessWasReturned(job: Job, s: State, es: seq<Event>, id: Id)
    requires job.WF() && Inv(job, s) && IsRun(job, s, es)
    requires id in After(job, s, es).status && After(job, s, es).status[id].Succeeded?
    requires id in s.status && !s.status[id].Succeeded?
    ensures exists i: nat :: ReturnedAt(es, i, id, After(job, s, es).status[id].value)
    decreases |es|
  {
    hide Inv, Step, Enabled;
    if es != [] {
      var t := Step(job, s, es[0]);
      StepKeepsInv(job, s, es[0]);
      StepKeepsKeys(job, s, es[0]);
      if t.status[id].Succeeded? {
        StepSucceeds(job, s, es[0], id);
        TerminalIsFinal(job, t, es[1..], id);
        assert ReturnedAt(es, 0, id, t.status[id].value);
      } else {
        SuccessWasReturned(job, t, es[1..], id);
        var i: nat :| ReturnedAt(es[1..], i, id, After(job, s, es).status[id].value);
        assert ReturnedAt(es, i + 1, id, After(job, s, es).status[id].value);
      }
    }
  }

  lemma {:induction false} StepKeepsKeys(job: Job, s: State, e: Event)
    requires job.WF() && Inv(job, s) && Enabled(job, s, e)
    ensures Step(job, s, e).status.Keys == s.status.Keys
  {
    hide Step, Enabled, Ordered, Levelled, Booked, Stored, Budgeted, Timed, TimeTotals, StatusFits;
    StepKeepsInv(job, s, e);
  }

  /** What becomes of a node whose attempt fails transiently; a node without policy may make three attempts. */
  lemma {:induction false} TransientEnd(job: Job, s: State, id: Id, now: real)
    requires Enabled(job, s, Finish(id, Retry.Transient, now))
    ensures var t, policy := Step(job, s, Finish(id, Retry.Transient, now)), job.nodes.byId[id].retry;
            var attempt, allowed := s.status[id].attempt, if policy.Some? then policy.value.maxAttempts else 3;
            && id in t.status
            && (t.status[id] == Sleeping(attempt) <==> attempt < allowed && s.used < job.maxRetries)
            && (t.status[id] != Sleeping(attempt) ==>
                  && t.status[id] == Failed(attempt - 1) && t.used == s.used
                  && HasError(t, id, if attempt >= allowed then TransientFailure else RetryBudgetExhausted))
            && (t.status[id] == Sleeping(attempt) ==> t.used == s.used + 1)
  {
    hide ReportFailure, FailNode;
    var s1 := s.(clock := now);
    var reported, retries := ReportFailure(s1, now), s.status[id].attempt - 1;
    ReportKeepsUse(s1, now);
    FailNodeOutcome(job, reported, id, retries, TransientFailure);
    FailNodeOutcome(job, reported, id, retries, RetryBudgetExhausted);
  }

  lemma FailNodeOutcome(job: Job, s: State, id: Id, retries: nat, error: NodeError)
    requires id in job.nodes.byId
    ensures var t := FailNode(job, s, id, retries, error);
            id in t.status && t.status[id] == Failed(retries) && t.used == s.used && HasError(t, id, error)
  {
  }

  lemma ReportKeepsUse(s: State, now: real)
    ensures ReportFailure(s, now).used == s.used && ReportFailure(s, now).status == s.status
  {
  }

  /** Records are only ever added at the end. */
  ghost predicate RecordsGrow(s: State, t: State) {
    s.skipped <= t.skipped && s.timing <= t.timing && s.groups <= t.groups
  }

  lemma {:induction false} TriageRecords(job: Job, s: State, level: seq<Id>)
    ensures RecordsGrow(s, Triage(job, s, level))
  {
    if level != [] {
      TriageRecords(job, s, level[..|level| - 1]);
    }
  }

  lemma {:induction false} EnterRecords(job: Job, s: State, now: real)
    requires s.level < |job.levels|
    ensures RecordsGrow(s, Enter(job, s.(clock := now)))
  {
    hide Triage;
    var level := job.levels[s.level];
    TriageRecords(job, s.(clock := now, groups := if |level| > 1 then s.groups + [level] else s.groups), level);
  }

  lemma {:induction false} MoveRecords(job: Job, s: State, e: Event)
    requires Fits(job, s) && Enabled(job, s, e) && !e.EnterLevel?
    ensures RecordsGrow(s, Step(job, s, e))
  {
    hide Step, Enabled, Fits, StatusFits, BookMove, StoreMove, BudgetMove;
    var x, timed := StepIsMove(job, s, e);
  }

  lemma {:induction false} StepRecords(job: Job, s: State, e: Event)
    requires job.WF() && Inv(job, s) && Enabled(job, s, e)
    ensures RecordsGrow(s, Step(job, s, e))
  {
    hide Inv, Enter, StartNode, BeginAttempt, FinishAttempt, RecordsGrow, Fits, Acyclic, IsLevelling;
    InvParts(job, s);
    if e.EnterLevel? {
      EnterRecords(job, s, e.now);
    } else {
      MoveRecords(job, s, e);
    }
  }

  /** In every continuation of a run, skipped nodes, timings and parallel groups are those before and then more. */
  lemma {:induction false} RunRecords(job: Job, s: State, es: seq<Event>)
    requires job.WF() && Inv(job, s) && IsRun(job, s, es)
    ensures RecordsGrow(s, After(job, s, es))
    decreases |es|
  {
    hide Inv, Step, Enabled;
    if es != [] {
      StepRecords(job, s, es[0]);
      StepKeepsInv(job, s, es[0]);
      RunRecords(job, Step(job, s, es[0]), es[1..]);
    }
  }

  // ---- Reads ------------------------------------------------------------------------------

  /** Every key an executor reads is the output of a node it depends on. */
  ghost predicate ReadsResolved(job: Job) {
    forall id :: id in job.nodes.byId && ReadKey(job.nodes.byId[id]).Some? ==>
      ReadsFrom(job, id, ReadKey(job.nodes.byId[id]).value)
  }

  ghost predicate ReadsFrom(job: Job, id: Id, key: string) {
    exists d :: d in job.G().Deps(id) && d in job.nodes.byId && job.nodes.byId[d].output == key
  }

  /** A node that is about to begin an attempt finds the artifact it reads. */
  lemma {:induction false} ReadsFind(job: Job, s: State, id: Id, key: string)
    requires ReadsResolved(job) && Fits(job, s) && Ordered(job, s) && Stored(job, s)
    requires id in job.nodes.byId && s.status[id].Active() && ReadKey(job.nodes.byId[id]) == Some(key)
    ensures key in s.artifacts
  {
    assert ReadsFrom(job, id, key);
    var d :| d in job.G().Deps(id) && d in job.nodes.byId && job.nodes.byId[d].output == key;
    assert s.status[d].Succeeded?;
    assert WrittenBy(job, s, key);
  }

  ghost predicate NoMissingArtifacts(s: State) {
    forall id :: id in s.errors ==> !s.errors[id].ArtifactNotFound?
  }

  lemma {:induction false} BeginFindsArtifact(job: Job, s: State, id: Id, attempt: nat, now: real)
    requires id in job.nodes.byId && attempt > 0 && NoMissingArtifacts(s)
    requires forall key :: ReadKey(job.nodes.byId[id]) == Some(key) ==> key in s.artifacts
    ensures NoMissingArtifacts(BeginAttempt(job, s, id, attempt, now))
  {
    hide ReadKey;
  }

  lemma {:induction false} FinishFindsArtifacts(job: Job, s: State, id: Id, result: Retry.Attempt<Artifact>, now: real)
    requires NoMissingArtifacts(s)
    requires id in job.nodes.byId && id in s.status && s.status[id].Running? && s.status[id].attempt > 0
    ensures NoMissingArtifacts(FinishAttempt(job, s, id, result, now))
  {
  }

  lemma {:induction false} EnterFindsArtifacts(job: Job, s: State)
    requires NoMissingArtifacts(s) && s.level < |job.levels|
    ensures NoMissingArtifacts(Enter(job, s))
  {
    hide Triage;
    var level := job.levels[s.level];
    TriageKeepsErrors(job, s.(groups := if |level| > 1 then s.groups + [level] else s.groups), level);
  }

  lemma {:induction false} AttemptFinds(job: Job, s: State, id: Id, attempt: nat, now: real)
    requires ReadsResolved(job) && Fits(job, s) && Ordered(job, s) && Stored(job, s) && NoMissingArtifacts(s)
    requires id in job.nodes.byId && id in s.status && s.status[id].Active() && attempt > 0
    ensures NoMissingArtifacts(BeginAttempt(job, s.(clock := now), id, attempt, now))
  {
    hide BeginAttempt, ReadKey, ReadsResolved, Ordered, Stored;
    forall key | ReadKey(job.nodes.byId[id]) == Some(key) ensures key in s.artifacts {
      ReadsFind(job, s, id, key);
    }
    BeginFindsArtifact(job, s.(clock := now), id, attempt, now);
  }

  lemma {:induction false} StepFindsArtifacts(job: Job, s: State, e: Event)
    requires job.WF() && ReadsResolved(job) && Inv(job, s) && NoMissingArtifacts(s) && Enabled(job, s, e)
    ensures NoMissingArtifacts(Step(job, s, e))
  {
    hide BeginAttempt, FinishAttempt, Enter, ReadsResolved, Inv, Fits;
    hide Ordered, Stored, Levelled, Booked, Timed, Budgeted;
    hide TimeTotals, HasExecutor, Acyclic, IsLevelling;
    var s1 := s.(clock := e.now);
    InvParts(job, s);
    match e {
      case EnterLevel(_) => EnterFindsArtifacts(job, s1);
      case Finish(id, result, now) => FinishFindsArtifacts(job, s1, id, result, now);
      case Start(id, now) => AttemptFinds(job, s, id, 1, now);
      case Wake(id, now) => AttemptFinds(job, s, id, s.status[id].attempt + 1, now);
    }
  }

  lemma {:induction false} RunFindsArtifacts(job: Job, s: State, es: seq<Event>)
    requires job.WF() && ReadsResolved(job) && Inv(job, s) && NoMissingArtifacts(s) && IsRun(job, s, es)
    ensures NoMissingArtifacts(After(job, s, es))
    decreases |es|
  {
    hide Inv, Step, ReadsResolved, NoMissingArtifacts;
    if es != [] {
      StepKeepsInv(job, s, es[0]);
      StepFindsArtifacts(job, s, es[0]);
      RunFindsArtifacts(job, Step(job, s, es[0]), es[1..]);
    }
  }

  /** In no run does an executor miss the artifact it reads. */
  lemma {:induction false} NoReadFails(job: Job, s: State)
    requires job.WF() && ReadsResolved(job) && Reachable(job, s)
    ensures NoMissingArtifacts(s)
  {
    hide Inv, ReadsResolved;
    var breaker, clock, es :| RunsTo(job, breaker, clock, es, s);
    InitInv(job, breaker, clock);
    RunFindsArtifacts(job, Init(job, breaker, clock), es);
  }

  // ---- Groups -----------------------------------------------------------------------------

  /** The levels with more than one node. */
  function ParallelLevels(levels: seq<seq<Id>>): seq<seq<Id>> {
    if levels == [] then []
    else
      var last := levels[|levels| - 1];
      ParallelLevels(levels[..|levels| - 1]) + if |last| > 1 then [last] else []
  }

  lemma {:induction false} RunKeepsGroups(job: Job, s: State, es: seq<Event>)
    requires job.WF() && Inv(job, s) && IsRun(job, s, es)
    requires s.level <= |job.levels| && s.groups == ParallelLevels(job.levels[..s.level])
    ensures var t := After(job, s, es);
            t.level <= |job.levels| && t.groups == ParallelLevels(job.levels[..t.level])
    decreases |es|
  {
    hide Inv, Triage, NodeMove;
    if es != [] {
      var e := es[0];
      var t := Step(job, s, e);
      StepKeepsInv(job, s, e);
      if e.EnterLevel? {
        var level := job.levels[s.level];
        var s1 := s.(clock := e.now, groups := if |level| > 1 then s.groups + [level] else s.groups);
        TriageKeepsErrors(job, s1, level);
        assert job.levels[..t.level][..s.level] == job.levels[..s.level];
      } else {
        MoveKeepsGroups(job, s, e);
      }
      RunKeepsGroups(job, t, es[1..]);
    }
  }

  lemma {:induction false} MoveKeepsGroups(job: Job, s: State, e: Event)
    requires Inv(job, s) && Enabled(job, s, e) && !e.EnterLevel?
    ensures Step(job, s, e).groups == s.groups && Step(job, s, e).level == s.level
  {
    hide Inv, Step;
    InvParts(job, s);
    var x, timed := StepIsMove(job, s, e);
  }

  /** The recorded groups are the entered levels with more than one node, skipped nodes included. */
  lemma {:induction false} GroupsAreParallelLevels(job: Job, s: State)
    requires job.WF() && Reachable(job, s)
    ensures s.level <= |job.levels| && s.groups == ParallelLevels(job.levels[..s.level])
  {
    hide Inv;
    var breaker, clock, es :| RunsTo(job, breaker, clock, es, s);
    InitInv(job, breaker, clock);
    RunKeepsGroups(job, Init(job, breaker, clock), es);
  }

  // ---- Progress ---------------------------------------------------------------------------

  /** How many more events the nodes can still take part in, at most. */
  ghost function TotalFuel(job: Job, s: State): nat {
    if forall id :: id in job.nodes.order ==> id in FuelWeights(job, s.status)
    then SumOver(job.nodes.order, FuelWeights(job, s.status)) else 0
  }

  lemma {:induction false} FuelDefined(job: Job, s: State)
    requires job.nodes.IsDict() && s.status.Keys == job.nodes.byId.Keys
    ensures forall id :: id in job.nodes.order ==> id in FuelWeights(job, s.status)
    ensures TotalFuel(job, s) == SumOver(job.nodes.order, FuelWeights(job, s.status))
  {
    forall id | id in job.nodes.order ensures id in FuelWeights(job, s.status) {
      assert id in Elems(job.nodes.order);
    }
  }

  lemma {:induction false} EnterStep(job: Job, s: State, e: Event)
    requires job.WF() && Fits(job, s) && Levelled(job, s) && Booked(s) && Enabled(job, s, e) && e.EnterLevel?
    ensures s.level < |job.levels| && job.levels[s.level] != []
    ensures CanEnter(job, s, job.levels[s.level]) && Entered(job, s, Step(job, s, e), job.levels[s.level])
  {
    hide Enter, Fits, Levelled, Booked, CanEnter, Entered, Acyclic;
    EnterEnters(job, s, e.now);
  }

  lemma {:induction false} MoveBurnsFuel(job: Job, s: State, t: State, id: Id, x: Status)
    requires job.nodes.IsDict() && s.status.Keys == job.nodes.byId.Keys
    requires StatusMove(job, s, t, id, x) && BudgetMove(job, s, t, id, x)
    ensures TotalFuel(job, t) < TotalFuel(job, s)
  {
    hide StatusFits, TotalFuel, Fuel, RetriesOf, CallsOf, Distinct;
    FuelDefined(job, s);
    FuelDefined(job, t);
    assert id in job.nodes.order by { assert id in Elems(job.nodes.order); }
    var w := Fuel(job.MaxAttempts(id), x);
    assert FuelWeights(job, t.status) == FuelWeights(job, s.status)[id := w];
    SumOverUpdate(job.nodes.order, FuelWeights(job, s.status), id, w);
  }

  lemma WokenFuel(max: int, before: Status, after: Status)
    requires Woken(before, after)
    ensures Fuel(max, after) <= Fuel(max, before)
    ensures before.Idle? && !after.Idle? ==> Fuel(max, after) < Fuel(max, before)
  {
  }

  lemma {:induction false} WakingBurnsFuel(job: Job, s: State, t: State, id: Id)
    requires job.nodes.IsDict() && s.status.Keys == job.nodes.byId.Keys && OnlyWakes(s, t)
    requires id in job.nodes.byId && s.status[id].Idle? && !t.status[id].Idle?
    ensures TotalFuel(job, t) < TotalFuel(job, s)
  {
    hide TotalFuel, Fuel, Woken, Distinct;
    FuelDefined(job, s);
    FuelDefined(job, t);
    assert id in job.nodes.order by { assert id in Elems(job.nodes.order); }
    forall v | v in job.nodes.order
      ensures v in FuelWeights(job, t.status) && v in FuelWeights(job, s.status)
      ensures FuelWeights(job, t.status)[v] <= FuelWeights(job, s.status)[v]
    {
      WokenFuel(job.MaxAttempts(v), s.status[v], t.status[v]);
    }
    WokenFuel(job.MaxAttempts(id), s.status[id], t.status[id]);
    SumOverStrict(job.nodes.order, FuelWeights(job, t.status), FuelWeights(job, s.status), id);
  }

  lemma {:induction false} EnterBurnsFuel(job: Job, s: State, t: State, level: seq<Id>)
    requires job.nodes.IsDict() && s.status.Keys == job.nodes.byId.Keys
    requires level != [] && CanEnter(job, s, level) && Entered(job, s, t, level)
    ensures TotalFuel(job, t) < TotalFuel(job, s)
  {
    hide BlockedBy, DepsOver, TotalFuel, OnlyWakes, Distinct;
    EnterOnlyWakes(job, s, t, level);
    assert level[0] in level;
    WakingBurnsFuel(job, s, t, level[0]);
  }

  lemma {:induction false} StepBurnsFuel(job: Job, s: State, e: Event)
    requires job.WF() && Inv(job, s) && Enabled(job, s, e)
    ensures TotalFuel(job, Step(job, s, e)) < TotalFuel(job, s)
  {
    hide Inv, Step, TotalFuel, Levelled, Booked, StatusFits, CanEnter, Entered, StatusMove, BookMove, BudgetMove;
    hide Ordered, Stored, Budgeted, Timed, TimeTotals, Acyclic;
    InvParts(job, s);
    if e.EnterLevel? {
      EnterStep(job, s, e);
      EnterBurnsFuel(job, s, Step(job, s, e), job.levels[s.level]);
    } else {
      var x, timed := StepIsMove(job, s, e);
      MoveBurnsFuel(job, s, Step(job, s, e), e.id, x);
    }
  }

  lemma {:induction false} RunBurnsFuel(job: Job, s: State, es: seq<Event>)
    requires job.WF() && Inv(job, s) && IsRun(job, s, es)
    ensures |es| + TotalFuel(job, After(job, s, es)) <= TotalFuel(job, s)
    decreases |es|
  {
    hide Inv, Step, TotalFuel;
    if es != [] {
      StepBurnsFuel(job, s, es[0]);
      StepKeepsInv(job, s, es[0]);
      RunBurnsFuel(job, Step(job, s, es[0]), es[1..]);
    }
  }

  /** How many events a node can take part in at most: entering, starting, and two per attempt. */
  function EventCaps(job: Job): map<Id, nat> {
    map id | id in job.nodes.byId :: 3 + if job.MaxAttempts(id) < 0 then 0 else 2 * job.MaxAttempts(id)
  }

  /** Every run ends: its length is bounded by the attempts the policies allow. */
  lemma {:induction false} RunsAreFinite(job: Job, breaker: Option<Breaker.Breaker>, clock: real, es: seq<Event>)
    requires job.WF() && IsRun(job, Init(job, breaker, clock), es)
    ensures forall id :: id in job.nodes.order ==> id in EventCaps(job)
    ensures |es| <= SumOver(job.nodes.order, EventCaps(job))
  {
    hide Inv, TotalFuel, Acyclic, IsLevelling;
    var s := Init(job, breaker, clock);
    InitInv(job, breaker, clock);
    RunBurnsFuel(job, s, es);
    FuelDefined(job, s);
    forall id | id in job.nodes.order
      ensures id in EventCaps(job) && FuelWeights(job, s.status)[id] == EventCaps(job)[id]
    {
      assert id in Elems(job.nodes.order);
    }
    SumOverSame(job.nodes.order, FuelWeights(job, s.status), EventCaps(job));
  }

  /** A state that is not complete has a next event; when it ends an attempt, the attempt may end in any way. */
  lemma {:induction false} NextEvent(job: Job, s: State, ends: Id -> Retry.Attempt<Artifact>) returns (e: Event)
    requires job.WF() && Inv(job, s) && !Complete(job, s)
    ensures Enabled(job, s, e) && (e.Finish? ==> e.result == ends(e.id))
  {
    hide Inv, Ordered, Booked, Stored, Budgeted, Timed, TimeTotals, HasLevel, IsLevelling, Acyclic;
    InvParts(job, s);
    assert s.level <= |job.levels|;
    if AtBarrier(s) {
      e := EnterLevel(s.clock);
    } else {
      var id :| id in s.status && s.status[id].Active();
      assert StatusFits(job, id, s.status[id]);
      match s.status[id] {
        case Ready => e := Start(id, s.clock);
        case Running(_, _) => e := Finish(id, ends(id), s.clock);
        case Sleeping(_) => e := Wake(id, s.clock);
      }
    }
  }

  /** No state that a run can reach is stuck before it is complete, however the attempts end. */
  lemma {:induction false} NeverStuck(job: Job, s: State, ends: Id -> Retry.Attempt<Artifact>) returns (e: Event)
    requires job.WF() && Reachable(job, s) && !Complete(job, s)
    ensures Enabled(job, s, e) && (e.Finish? ==> e.result == ends(e.id))
  {
    hide Inv;
    ReachableInv(job, s);
    e := NextEvent(job, s, ends);
  }
}
