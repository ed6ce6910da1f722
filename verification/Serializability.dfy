/**
 Serializability under the shared retry budget: every complete run in which the breaker rejects nobody ends
 like the sequential run in every topological order exactly when the order cannot matter.
 */
module Serializability {
  import opened Collections
  import opened Graphs
  import opened ExecutionGraph
  import opened Nodes
  import opened Runtime
  import opened RuntimeInvariants
  import opened RuntimeTheorems
  import opened RuntimeBreaker
  import opened SequentialRun
  import opened ExecutorInputs
  import opened RetryContention
  import Breaker
  import Retry

  // ---- Runs in which the attempts end as an oracle says -----------------------------------

  /** Every attempt ends the way the oracle says. */
  ghost predicate Follows(job: Job, ex: Oracle, s: State, es: seq<Event>)
    requires IsRun(job, s, es)
    decreases |es|
  {
    es == [] || (FollowsOne(ex, s, es[0]) && Follows(job, ex, Step(job, s, es[0]), es[1..]))
  }

  ghost predicate FollowsOne(ex: Oracle, s: State, e: Event) {
    e.Finish? && e.id in s.status && s.status[e.id].Running? ==>
      e.result == ex(e.id, s.status[e.id].attempt, s.status[e.id].input)
  }

  /** The node was refused a retry. */
  ghost predicate WasRefused(s: State, id: Id) {
    HasError(s, id, RetryBudgetExhausted)
  }

  /** What is left of a node's attempts, with what it has spent, comes to the same as all of them. */
  ghost predicate OnTrack(job: Job, ex: Oracle, s: State, id: Id)
    requires id in job.nodes.byId
  {
    var input := Input(job, s.artifacts, id);
    var whole, want := Settle(job, ex, id, input, 1), Demand(job, ex, id, input, 1);
    id in s.status ==>
      match s.status[id]
      case Running(attempt, got) =>
        && got == input && Settle(job, ex, id, input, attempt) == whole
        && want + 1 == attempt + Demand(job, ex, id, input, attempt)
      case Sleeping(attempt) =>
        && Settle(job, ex, id, input, attempt + 1) == whole
        && want == attempt + Demand(job, ex, id, input, attempt + 1)
      case Succeeded(retries, v) => whole == Some(v) && want == retries
      case Failed(retries) =>
        if WasRefused(s, id) then HasExecutor(job, id) && retries < want
        else HasExecutor(job, id) ==> whole == None && want == retries
      case _ => true
  }

  ghost predicate AllOnTrack(job: Job, ex: Oracle, s: State) {
    forall id {:trigger OnTrack(job, ex, s, id)} :: id in job.nodes.byId ==> OnTrack(job, ex, s, id)
  }

  lemma {:induction false} OthersOnTrack(job: Job, ex: Oracle, s: State, t: State, id: Id, x: Status, timed: bool,
                                         v: Id)
    requires OutputsDistinct(job) && ReadsResolved(job) && Fits(job, s) && Ordered(job, s)
    requires NodeMove(job, s, t, id, x, timed)
    requires v in job.nodes.byId && v != id && OnTrack(job, ex, s, v)
    ensures OnTrack(job, ex, t, v)
  {
    hide Settle, Demand, Input, OutputsDistinct, ReadsResolved, Ordered, StatusFits, HasExecutor, TimeMove, BudgetMove;
    assert t.status[v] == s.status[v];
    assert WasRefused(t, v) <==> WasRefused(s, v);
    if x.Succeeded? && s.status[v].Started() {
      InputStable(job, s, id, v, x.value);
    }
  }

  lemma {:induction false} BeginOnTrack(job: Job, ex: Oracle, s: State, id: Id, attempt: nat, now: real)
    requires ReadsResolved(job) && Fits(job, s) && Ordered(job, s) && Stored(job, s)
    requires Admitted(s, now) && id in job.nodes.byId && s.status[id].Active() && attempt > 0
    requires var input := Input(job, s.artifacts, id);
             && Settle(job, ex, id, input, attempt) == Settle(job, ex, id, input, 1)
             && Demand(job, ex, id, input, 1) + 1 == attempt + Demand(job, ex, id, input, attempt)
    ensures OnTrack(job, ex, BeginAttempt(job, s, id, attempt, now), id)
  {
    hide ReadKey, Settle, Demand, ReadsResolved, Fits, Ordered, Stored;
    if ReadKey(job.nodes.byId[id]).Some? {
      ReadsFind(job, s, id, ReadKey(job.nodes.byId[id]).value);
    }
  }

  /** One attempt settles the matter, or leaves it to the attempts after it. */
  lemma {:induction false} SettleStep(job: Job, ex: Oracle, id: Id, input: Option<Artifact>, attempt: nat)
    requires id in job.nodes.byId && attempt <= job.MaxAttempts(id)
    ensures match ex(id, attempt, input)
            case Returned(v) =>
              Settle(job, ex, id, input, attempt) == Some(v) && Demand(job, ex, id, input, attempt) == 0
            case Fatal => Settle(job, ex, id, input, attempt) == None && Demand(job, ex, id, input, attempt) == 0
            case Transient =>
              if attempt == job.MaxAttempts(id)
              then Settle(job, ex, id, input, attempt) == None && Demand(job, ex, id, input, attempt) == 0
              else Settle(job, ex, id, input, attempt) == Settle(job, ex, id, input, attempt + 1)
                   && Demand(job, ex, id, input, attempt) == 1 + Demand(job, ex, id, input, attempt + 1)
  {
  }

  lemma {:induction false} FinishOnTrack(job: Job, ex: Oracle, s: State, id: Id, result: Retry.Attempt<Artifact>,
                                         now: real)
    requires OutputsDistinct(job) && ReadsResolved(job) && Fits(job, s) && Ordered(job, s)
    requires id in job.nodes.byId && s.status[id].Running? && OnTrack(job, ex, s, id) && HasExecutor(job, id)
    requires 0 < s.status[id].attempt <= job.MaxAttempts(id)
    requires result == ex(id, s.status[id].attempt, s.status[id].input)
    ensures OnTrack(job, ex, FinishAttempt(job, s, id, result, now), id)
  {
    hide OutputsDistinct, ReadsResolved, StatusFits, Ordered, HasExecutor, Input, Settle, Demand;
    hide ReportFailure, ReportSuccess;
    var attempt, input := s.status[id].attempt, Input(job, s.artifacts, id);
    SettleStep(job, ex, id, input, attempt);
    ReportsAside(s, now);
    match result {
      case Returned(v) => InputStable(job, s, id, id, v);
      case Fatal =>
      case Transient =>
    }
  }

  /** The breaker plays no part in it. */
  lemma ReportsAside(s: State, now: real)
    ensures ReportFailure(s, now) == s.(breaker := ReportFailure(s, now).breaker)
    ensures ReportSuccess(s, now) == s.(breaker := ReportSuccess(s, now).breaker)
  {
  }

  lemma {:induction false} StartOnTrack(job: Job, ex: Oracle, s: State, id: Id, now: real)
    requires ReadsResolved(job) && Fits(job, s) && Ordered(job, s) && Stored(job, s)
    requires id in job.nodes.byId && s.status[id].Ready?
    requires HasExecutor(job, id) && job.MaxAttempts(id) > 0 ==> Admitted(s, now)
    ensures OnTrack(job, ex, StartNode(job, s, id, now), id)
  {
    hide BeginAttempt, ReadsResolved, Fits, Ordered, Stored, Input;
    if HasExecutor(job, id) && job.MaxAttempts(id) > 0 {
      BeginOnTrack(job, ex, s, id, 1, now);
    }
  }

  lemma {:induction false} OwnOnTrack(job: Job, ex: Oracle, s: State, e: Event)
    requires Disciplined(job) && Inv(job, s) && AllOnTrack(job, ex, s)
    requires Enabled(job, s, e) && !e.EnterLevel? && FollowsOne(ex, s, e) && (Begins(job, e) ==> Admitted(s, e.now))
    ensures OnTrack(job, ex, Step(job, s, e), e.id)
  {
    hide Inv, StartNode, BeginAttempt, FinishAttempt, Ordered, Stored, Budgeted, Levelled, Booked, Timed, TimeTotals;
    hide OutputsDistinct, ReadsResolved, Input, Settle, Demand, HasExecutor, AllOnTrack, Acyclic, IsLevelling;
    hide Enter, WasRefused;
    InvParts(job, s);
    TrackOf(job, ex, s, e.id);
    var s1 := s.(clock := e.now);
    ClockAside(job, s, e.now);
    assert StatusFits(job, e.id, s.status[e.id]);
    hide Fits;
    match e {
      case Start(id, now) => StartOnTrack(job, ex, s1, id, now);
      case Finish(id, result, now) => FinishOnTrack(job, ex, s1, id, result, now);
      case Wake(id, now) => BeginOnTrack(job, ex, s1, id, s.status[id].attempt + 1, now);
    }
  }

  lemma ClockAsideBlocked(job: Job, s: State, now: real, v: Id)
    ensures BlockedBy(job, s.(clock := now), v) <==> BlockedBy(job, s, v)
  {
  }

  lemma ClockAsideWritten(job: Job, s: State, now: real, key: string)
    ensures WrittenBy(job, s.(clock := now), key) <==> WrittenBy(job, s, key)
  {
  }

  lemma ClockAside(job: Job, s: State, now: real)
    requires Fits(job, s) && Ordered(job, s) && Stored(job, s) && Budgeted(job, s)
    ensures var t := s.(clock := now); Fits(job, t) && Ordered(job, t) && Stored(job, t) && Budgeted(job, t)
  {
    hide BlockedBy, WrittenBy, StatusFits, RetryWeights, CallWeights;
    forall v { ClockAsideBlocked(job, s, now, v); }
    forall key { ClockAsideWritten(job, s, now, key); }
  }

  lemma {:induction false} EnterOnTrack(job: Job, ex: Oracle, s: State, t: State, level: seq<Id>)
    requires AllOnTrack(job, ex, s) && CanEnter(job, s, level) && Entered(job, s, t, level)
    ensures AllOnTrack(job, ex, t)
  {
    hide Settle, Demand, Input, CanEnter, Triaged, HasExecutor, Woken;
    EnterOnlyWakes(job, s, t, level);
    forall id | id in job.nodes.byId
      ensures OnTrack(job, ex, t, id)
    {
      TrackOf(job, ex, s, id);
      if id in s.status {
        WokenOnTrack(job, ex, s, t, id);
      }
    }
  }

  lemma {:induction false} WokenOnTrack(job: Job, ex: Oracle, s: State, t: State, id: Id)
    requires id in job.nodes.byId && id in s.status && id in t.status && Woken(s.status[id], t.status[id])
    requires OnTrack(job, ex, s, id) && t.artifacts == s.artifacts && t.errors == s.errors
    ensures OnTrack(job, ex, t, id)
  {
    hide Settle, Demand, Input, HasExecutor;
  }

  lemma {:induction false} StepOnTrack(job: Job, ex: Oracle, s: State, e: Event)
    requires Disciplined(job) && Inv(job, s) && AllOnTrack(job, ex, s)
    requires Enabled(job, s, e) && FollowsOne(ex, s, e) && (Begins(job, e) ==> Admitted(s, e.now))
    ensures AllOnTrack(job, ex, Step(job, s, e))
  {
    hide Inv, OnTrack, NodeMove, Levelled, Fits, Ordered, Step;
    hide Stored, Booked, CanEnter, Entered, OutputsDistinct, ReadsResolved, Acyclic, Budgeted, Timed, TimeTotals;
    InvParts(job, s);
    var t := Step(job, s, e);
    if e.EnterLevel? {
      EnterStep(job, s, e);
      EnterOnTrack(job, ex, s, t, job.levels[s.level]);
    } else {
      var x, timed := StepIsMove(job, s, e);
      OwnOnTrack(job, ex, s, e);
      forall v | v in job.nodes.byId
        ensures OnTrack(job, ex, t, v)
      {
        if v != e.id {
          TrackOf(job, ex, s, v);
          OthersOnTrack(job, ex, s, t, e.id, x, timed, v);
        }
      }
    }
  }

  /** A retry has been refused only when the budget had run out. */
  ghost predicate RefusedWhenEmpty(job: Job, s: State) {
    forall id {:trigger WasRefused(s, id)} :: WasRefused(s, id) ==> s.used >= job.maxRetries
  }

  lemma {:induction false} BudgetNeverRefilled(job: Job, s: State, e: Event)
    requires Enabled(job, s, e) && !e.EnterLevel?
    ensures Step(job, s, e).used >= s.used
  {
    hide BeginAttempt;
    match e {
      case Start(id, now) => BeginUses(job, s.(clock := now), id, 1, now);
      case Wake(id, now) => BeginUses(job, s.(clock := now), id, s.status[id].attempt + 1, now);
      case Finish(_, _, _) =>
    }
  }

  lemma {:induction false} BeginUses(job: Job, s: State, id: Id, attempt: nat, now: real)
    requires id in job.nodes.byId && attempt > 0
    ensures BeginAttempt(job, s, id, attempt, now).used == s.used
  {
    hide ReadKey, Admitted, ReportFailure, FailNode, Breaker.OnCheck;
    var s1 := s.(calls := s.calls + 1);
    var s2 := if s.breaker.None? then s1 else s1.(breaker := Some(Breaker.OnCheck(s.breaker.value, now)));
    ReportsAside(s2, now);
    FailingUses(job, s1, id, attempt - 1, CircuitOpen);
    if ReadKey(job.nodes.byId[id]).Some? {
      FailingUses(job, ReportFailure(s2, now), id, attempt - 1, ArtifactNotFound(ReadKey(job.nodes.byId[id]).value));
    }
  }

  lemma FailingUses(job: Job, s: State, id: Id, retries: nat, error: NodeError)
    requires id in job.nodes.byId
    ensures FailNode(job, s, id, retries, error).used == s.used
  {
  }

  lemma {:induction false} StepRefuses(job: Job, s: State, e: Event)
    requires job.WF() && Inv(job, s) && RefusedWhenEmpty(job, s) && Enabled(job, s, e)
    ensures RefusedWhenEmpty(job, Step(job, s, e))
  {
    hide Inv, Step, Fits, Ordered, Levelled, Stored, Booked, Budgeted, Timed, TimeTotals, CanEnter, Triaged;
    InvParts(job, s);
    if e.EnterLevel? {
      EnterStep(job, s, e);
      forall id | WasRefused(Step(job, s, e), id) ensures WasRefused(s, id) {}
    } else {
      BudgetNeverRefilled(job, s, e);
      MoveRefuses(job, s, e);
    }
  }

  lemma {:induction false} MoveRefuses(job: Job, s: State, e: Event)
    requires Fits(job, s) && Booked(s) && RefusedWhenEmpty(job, s) && Enabled(job, s, e) && !e.EnterLevel?
    requires Step(job, s, e).used >= s.used
    ensures RefusedWhenEmpty(job, Step(job, s, e))
  {
    hide Step, Fits, Booked, Enabled, StatusMove, StoreMove, TimeMove, BudgetMove;
    var x, timed := StepIsMove(job, s, e);
    StepCauses(job, s, e, RetryBudgetExhausted);
    forall id | WasRefused(Step(job, s, e), id) && id != e.id ensures WasRefused(s, id) {}
  }

  lemma {:induction false} RunOnTrack(job: Job, ex: Oracle, s: State, es: seq<Event>)
    requires Disciplined(job) && Inv(job, s) && AllOnTrack(job, ex, s) && RefusedWhenEmpty(job, s)
    requires IsRun(job, s, es) && Follows(job, ex, s, es) && NobodyRejected(After(job, s, es))
    ensures AllOnTrack(job, ex, After(job, s, es)) && RefusedWhenEmpty(job, After(job, s, es))
    decreases |es|
  {
    hide Inv, AllOnTrack, RefusedWhenEmpty, Step, OutputsDistinct, ReadsResolved, NobodyRejected, Begins;
    if es != [] {
      if Begins(job, es[0]) {
        AdmittedOnTheWay(job, s, es[0], es[1..]);
      }
      StepOnTrack(job, ex, s, es[0]);
      StepRefuses(job, s, es[0]);
      StepKeepsInv(job, s, es[0]);
      RunOnTrack(job, ex, Step(job, s, es[0]), es[1..]);
    }
  }

  // ---- What a complete run amounts to -----------------------------------------------------

  function ResultOf(st: Status): NodeResult {
    match st
    case Succeeded(_, v) => ROk(v)
    case Skipped => RSkipped
    case _ => RFailed
  }

  function Results(s: State): map<Id, NodeResult> {
    map id | id in s.status :: ResultOf(s.status[id])
  }

  ghost function RefusedNodes(s: State): set<Id> {
    set id | id in s.errors && s.errors[id] == RetryBudgetExhausted
  }

  /** The run as an execution of the graph. */
  ghost function ExecutionOf(s: State): Execution {
    Execution(Results(s), s.artifacts, RetryWeights(s.status), RefusedNodes(s), s.used)
  }

  lemma {:induction false} FinalBlocked(job: Job, s: State, id: Id)
    requires Ordered(job, s) && id in s.status && s.status[id].Terminal()
    ensures Blocked(job, Results(s), id) <==> s.status[id].Skipped?
  {
    if s.status[id].Skipped? {
      assert BlockedBy(job, s, id);
      var d :| d in job.G().Deps(id) && d in s.status && (s.status[d].Failed? || s.status[d].Skipped?);
      assert !Succeeds(Results(s), d);
    } else {
      hide BlockedBy;
      forall d | d in job.G().Deps(id) ensures Succeeds(Results(s), d) {
        assert s.status[d].Succeeded?;
      }
    }
  }

  lemma {:induction false} FinalAccount(job: Job, ex: Oracle, s: State, id: Id)
    requires Fits(job, s) && Ordered(job, s) && Booked(s) && Faithful(job, s) && AllOnTrack(job, ex, s)
    requires id in job.nodes.byId && s.status[id].Terminal()
    ensures Account(job, ex, ExecutionOf(s), id)
  {
    hide Settle, Demand, Input, Ordered, Blocked, BlockedBy, AllOnTrack, HasExecutor, Faithful;
    FinalBlocked(job, s, id);
    TrackOf(job, ex, s, id);
    assert StatusFits(job, id, s.status[id]);
    RefusedOnlyFails(s, id);
    hide Fits, Booked, RefusedNodes, WasRefused;
    FinalStored(job, s, id);
  }

  lemma RefusedOnlyFails(s: State, id: Id)
    requires Booked(s) && id in s.status
    ensures id in RefusedNodes(s) <==> WasRefused(s, id)
    ensures WasRefused(s, id) ==> s.status[id].Failed?
  {
  }

  lemma FinalStored(job: Job, s: State, id: Id)
    requires Faithful(job, s) && id in job.nodes.byId && id in s.status
    ensures s.status[id].Succeeded? ==>
      && job.nodes.byId[id].output in s.artifacts
      && s.artifacts[job.nodes.byId[id].output] == s.status[id].value
  {
  }

  lemma TrackOf(job: Job, ex: Oracle, s: State, id: Id)
    requires AllOnTrack(job, ex, s) && id in job.nodes.byId
    ensures OnTrack(job, ex, s, id)
  {
  }

  lemma {:induction false} FinalProduced(job: Job, s: State, key: string)
    requires Fits(job, s)
    ensures WrittenBy(job, s, key) <==> Produced(job, Results(s), key)
  {
    if WrittenBy(job, s, key) {
      var id :| id in job.nodes.byId && id in s.status && s.status[id].Succeeded? && job.nodes.byId[id].output == key;
      assert Results(s)[id].ROk?;
    }
    if Produced(job, Results(s), key) {
      var id :| id in Results(s) && id in job.nodes.byId && Results(s)[id].ROk? && job.nodes.byId[id].output == key;
      assert s.status[id].Succeeded?;
    }
  }

  lemma StoredWritten(job: Job, s: State, key: string)
    requires Stored(job, s)
    ensures key in s.artifacts <==> WrittenBy(job, s, key)
  {
  }

  lemma {:induction false} FinalAccounted(job: Job, ex: Oracle, s: State)
    requires Fits(job, s) && Ordered(job, s) && Booked(s) && Stored(job, s) && Faithful(job, s)
    requires AllOnTrack(job, ex, s) && forall id :: id in s.status ==> s.status[id].Terminal()
    ensures Accounted(job, ex, ExecutionOf(s)) && s.status.Keys == job.nodes.byId.Keys
  {
    hide Fits, Ordered, Booked, Stored, Faithful, AllOnTrack, Account, Produced, WrittenBy;
    var e := ExecutionOf(s);
    StatusKeys(job, s);
    forall id | id in e.results ensures Account(job, ex, e, id) {
      FinalAccount(job, ex, s, id);
    }
    forall key ensures key in e.artifacts <==> Produced(job, e.results, key) {
      FinalProduced(job, s, key);
      StoredWritten(job, s, key);
    }
    FinalRefused(s);
  }

  lemma InvFaithful(job: Job, s: State)
    requires Inv(job, s) && OutputsDistinct(job)
    ensures Faithful(job, s)
  {
  }

  lemma {:induction false} FinalFinished(job: Job, ex: Oracle, s: State)
    requires job.WF() && Inv(job, s) && OutputsDistinct(job) && Complete(job, s)
    requires AllOnTrack(job, ex, s) && RefusedWhenEmpty(job, s)
    ensures Finished(job, ex, ExecutionOf(s))
  {
    hide Inv, Fits, Ordered, Levelled, Booked, Stored, Budgeted, Timed, TimeTotals, Faithful, AllOnTrack, Complete;
    hide RefusedWhenEmpty, IsLevelling, Acyclic, OutputsDistinct, Accounted, Charged;
    InvParts(job, s);
    CompleteIsTerminal(job, s);
    InvFaithful(job, s);
    FinalAccounted(job, ex, s);
    FinalCharged(job, s);
  }

  lemma FinalRefused(s: State)
    requires Booked(s)
    ensures RefusedNodes(s) <= Results(s).Keys
  {
  }

  lemma StatusKeys(job: Job, s: State)
    requires Fits(job, s)
    ensures s.status.Keys == job.nodes.byId.Keys
  {
  }

  lemma {:induction false} FinalCharged(job: Job, s: State)
    requires Fits(job, s) && Booked(s) && Budgeted(job, s) && RefusedWhenEmpty(job, s)
    ensures Charged(job, ExecutionOf(s))
  {
    hide StatusFits, RetriesOf;
    forall id | id in RefusedNodes(s) ensures s.used >= job.maxRetries {
      assert WasRefused(s, id);
    }
  }

  lemma {:induction false} CompleteIsTerminal(job: Job, s: State)
    requires job.WF() && Fits(job, s) && Levelled(job, s) && Complete(job, s)
    ensures forall id :: id in s.status ==> s.status[id].Terminal()
  {
    hide Levelled, Complete, StatusFits;
    forall id | id in s.status ensures s.status[id].Terminal() {
      NodeIsOver(job, s, id);
    }
  }

  /** A run with a fresh context in which every attempt ends as the oracle says. */
  ghost predicate OracleRun(job: Job, ex: Oracle, breaker: Option<Breaker.Breaker>, clock: real, es: seq<Event>,
                            s: State) {
    var s0 := Init(job, breaker, clock);
    IsRun(job, s0, es) && Follows(job, ex, s0, es) && After(job, s0, es) == s
  }

  /** Outcomes, artifacts, failed, skipped and refused nodes and the budget used are those of the sequential run. */
  ghost predicate EndsLike(job: Job, ex: Oracle, s: State, ord: seq<Id>) {
    && (forall id :: id in ord ==> id in job.nodes.byId)
    && var q := RunAll(job, ex, ord);
       && Results(s) == q.results
       && s.artifacts == q.artifacts
       && (forall id :: id in s.failed <==> id in q.results && q.results[id] == RFailed)
       && (forall id :: id in s.skipped <==> id in q.results && q.results[id] == RSkipped)
       && RefusedNodes(s) == q.refused
       && s.used == q.used
  }

  lemma {:induction false} InitOnTrack(job: Job, ex: Oracle, breaker: Option<Breaker.Breaker>, clock: real)
    ensures AllOnTrack(job, ex, Init(job, breaker, clock)) && RefusedWhenEmpty(job, Init(job, breaker, clock))
  {
    hide Settle, Demand, Input;
  }

  /** Every complete run is an execution that is accounted for and charged. */
  lemma {:induction false} RunFinishes(job: Job, ex: Oracle, breaker: Option<Breaker.Breaker>, clock: real,
                                       es: seq<Event>, s: State)
    requires Disciplined(job) && NobodyRejected(s)
    requires OracleRun(job, ex, breaker, clock, es, s) && Complete(job, s)
    ensures Inv(job, s) && Finished(job, ex, ExecutionOf(s))
  {
    hide Follows, IsRun, AllOnTrack, RefusedWhenEmpty, Inv, ReadsResolved, OutputsDistinct, Complete;
    hide Finished, NobodyRejected;
    var s0 := Init(job, breaker, clock);
    InitInv(job, breaker, clock);
    InitOnTrack(job, ex, breaker, clock);
    RunKeepsInv(job, s0, es);
    RunOnTrack(job, ex, s0, es);
    FinalFinished(job, ex, s);
  }

  lemma {:induction false} BooksMatchResults(s: State)
    requires Booked(s) && forall id :: id in s.status ==> s.status[id].Terminal()
    ensures forall id :: id in s.failed <==> id in Results(s) && Results(s)[id] == RFailed
    ensures forall id :: id in s.skipped <==> id in Results(s) && Results(s)[id] == RSkipped
  {
  }

  lemma {:induction false} AgreementEnds(job: Job, ex: Oracle, s: State, ord: seq<Id>)
    requires job.WF() && Fits(job, s) && Levelled(job, s) && Booked(s) && Complete(job, s)
    requires forall id :: id in ord ==> id in job.nodes.byId
    requires var e, q := ExecutionOf(s), RunAll(job, ex, ord);
             e.results == q.results && e.artifacts == q.artifacts && e.refused == q.refused && e.used == q.used
    ensures EndsLike(job, ex, s, ord)
  {
    hide Fits, Levelled, Booked, Complete, Results, RunAll, RefusedNodes, IsLevelling, Acyclic;
    CompleteIsTerminal(job, s);
    BooksMatchResults(s);
  }

  /** However the coroutines interleave, a run that rejects nobody ends like a sequential one in any order. */
  lemma {:induction false} Serializable(job: Job, ex: Oracle, breaker: Option<Breaker.Breaker>, clock: real,
                                        es: seq<Event>, s: State, ord: seq<Id>)
    requires Disciplined(job) && OrderCannotMatter(job) && NobodyRejected(s)
    requires OracleRun(job, ex, breaker, clock, es, s) && Complete(job, s)
    requires IsTopoOrder(job.G(), ord)
    ensures EndsLike(job, ex, s, ord)
  {
    hide OutputsDistinct, ReadsResolved, OrderCannotMatter, NobodyRejected, OracleRun, Complete, IsTopoOrder, EndsLike;
    hide Finished, Inv, RunAll, ExecutionOf, Fits, Levelled, Booked, Acyclic, IsLevelling;
    RunFinishes(job, ex, breaker, clock, es, s);
    InvParts(job, s);
    RunAllFinished(job, ex, ord);
    ExecutionsAgree(job, ex, ExecutionOf(s), RunAll(job, ex, ord));
    AgreementEnds(job, ex, s, ord);
  }

  /** From any state of a run there is a way on to the end on which every attempt ends as the oracle says. */
  lemma {:induction false} RunOut(job: Job, ex: Oracle, s: State) returns (es: seq<Event>)
    requires job.WF() && Inv(job, s)
    ensures IsRun(job, s, es) && Follows(job, ex, s, es) && Complete(job, After(job, s, es))
    decreases TotalFuel(job, s)
  {
    hide Inv, Step, Enabled, Complete, TotalFuel;
    if Complete(job, s) {
      es := [];
    } else {
      var e := NextEvent(job, s, id => if id in s.status && s.status[id].Running?
                                       then ex(id, s.status[id].attempt, s.status[id].input) else Retry.Fatal);
      StepBurnsFuel(job, s, e);
      StepKeepsInv(job, s, e);
      var rest := RunOut(job, ex, Step(job, s, e));
      es := [e] + rest;
      assert es[1..] == rest;
    }
  }

  lemma {:induction false} OrderInNodes(job: Job)
    requires job.WF()
    ensures forall id :: id in job.nodes.order ==> id in job.nodes.byId
  {
    forall id | id in job.nodes.order ensures id in job.nodes.byId {
      assert id in Elems(job.nodes.order);
    }
  }

  /** When the order can matter, some run does not end like the sequential run in some order. */
  lemma {:induction false} SomeOrderDiffers(job: Job)
    returns (ex: Oracle, es: seq<Event>, s: State, ord: seq<Id>)
    requires Disciplined(job) && !OrderCannotMatter(job)
    ensures NobodyRejected(s) && OracleRun(job, ex, None, 0.0, es, s) && Complete(job, s)
    ensures IsTopoOrder(job.G(), ord) && !EndsLike(job, ex, s, ord)
  {
    hide OutputsDistinct, ReadsResolved, OrderCannotMatter, Inv, Complete, IsTopoOrder, Contend, Acyclic, IsLevelling;
    hide Follows, IsRun, RunAll;
    var x, y := SomeContention(job);
    var first, second;
    ex, first, second := ContentionDecides(job, x, y);
    InitInv(job, None, 0.0);
    es := RunOut(job, ex, Init(job, None, 0.0));
    s := After(job, Init(job, None, 0.0), es);
    OrderInNodes(job);
    UntrippableRejectsNobody(job, None, 0.0, es, s);
    ord := if EndsLike(job, ex, s, first) then second else first;
  }

  /**
   Serializability: every complete run in which the breaker rejects nobody, whatever its attempts come to and
   however its coroutines interleave, ends like the sequential run under the same budget in every topological
   order, exactly when no two contending nodes can be short of the budget.
   */
  lemma {:induction false} SerialIff(job: Job)
    requires Disciplined(job)
    ensures (forall ex: Oracle, breaker: Option<Breaker.Breaker>, clock: real, es: seq<Event>, s: State, ord: seq<Id> ::
               (&& NobodyRejected(s) && IsTopoOrder(job.G(), ord)
                && OracleRun(job, ex, breaker, clock, es, s) && Complete(job, s)) ==> EndsLike(job, ex, s, ord))
            <==> OrderCannotMatter(job)
  {
    hide Disciplined, OrderCannotMatter, NobodyRejected, OracleRun, Complete, IsTopoOrder, EndsLike;
    if OrderCannotMatter(job) {
      forall ex: Oracle, breaker: Option<Breaker.Breaker>, clock: real, es: seq<Event>, s: State, ord: seq<Id> |
        NobodyRejected(s) && OracleRun(job, ex, breaker, clock, es, s) && Complete(job, s)
        && IsTopoOrder(job.G(), ord)
        ensures EndsLike(job, ex, s, ord)
      {
        Serializable(job, ex, breaker, clock, es, s, ord);
      }
    } else {
      var ex, es, s, ord := SomeOrderDiffers(job);
      assert NobodyRejected(s) && OracleRun(job, ex, None, 0.0, es, s);
    }
  }

  // ---- Runs that do not notice the budget -------------------------------------------------

  /** Every node came to what its attempts come to when every retry is granted. */
  ghost predicate EndsUnlimited(job: Job, ex: Oracle, s: State) {
    forall id :: id in job.nodes.byId ==> id in Results(s) && Results(s)[id] == Outcome(job, ex, ExecutionOf(s), id)
  }

  lemma {:induction false} UnlimitedWhenCovered(job: Job, ex: Oracle, breaker: Option<Breaker.Breaker>, clock: real,
                                                es: seq<Event>, s: State)
    requires Disciplined(job) && BudgetCannotBind(job) && NobodyRejected(s)
    requires OracleRun(job, ex, breaker, clock, es, s) && Complete(job, s)
    ensures EndsUnlimited(job, ex, s)
  {
    hide OutputsDistinct, ReadsResolved, BudgetCannotBind, NobodyRejected, OracleRun, Complete, Inv, Outcome, Charged;
    hide Acyclic, IsLevelling, Wanted;
    RunFinishes(job, ex, breaker, clock, es, s);
    NobodyRefusedWhenCovered(job, ex, ExecutionOf(s));
    forall id | id in job.nodes.byId
      ensures id in Results(s) && Results(s)[id] == Outcome(job, ex, ExecutionOf(s), id)
    {
      assert Account(job, ex, ExecutionOf(s), id);
    }
  }

  lemma {:induction false} CoveredWhenUnlimited(job: Job) returns (ex: Oracle, es: seq<Event>, s: State)
    requires Disciplined(job)
    ensures NobodyRejected(s) && OracleRun(job, ex, None, 0.0, es, s) && Complete(job, s)
    ensures EndsUnlimited(job, ex, s) ==> BudgetCannotBind(job)
  {
    hide OutputsDistinct, ReadsResolved, BudgetCannotBind, Inv, Complete, Acyclic, IsLevelling, Outcome, RetryCaps;
    hide Demanding, Accounted, Charged, Follows, IsRun;
    ex := Demanding(RetryCaps(job));
    InitInv(job, None, 0.0);
    es := RunOut(job, ex, Init(job, None, 0.0));
    s := After(job, Init(job, None, 0.0), es);
    OrderInNodes(job);
    UntrippableRejectsNobody(job, None, 0.0, es, s);
    RunFinishes(job, ex, None, 0.0, es, s);
    if EndsUnlimited(job, ex, s) {
      UnlimitedSpendsAll(job, ExecutionOf(s));
    }
  }

  /**
   Every complete run in which the breaker rejects nobody ends as it would without any budget exactly when the
   budget covers the retries of all nodes that can run.
   */
  lemma {:induction false} UnlimitedIff(job: Job)
    requires Disciplined(job)
    ensures (forall ex: Oracle, breaker: Option<Breaker.Breaker>, clock: real, es: seq<Event>, s: State ::
               (&& NobodyRejected(s) && OracleRun(job, ex, breaker, clock, es, s)
                && Complete(job, s)) ==> EndsUnlimited(job, ex, s))
            <==> BudgetCannotBind(job)
  {
    hide Disciplined, BudgetCannotBind, NobodyRejected, OracleRun, Complete, EndsUnlimited;
    if BudgetCannotBind(job) {
      forall ex: Oracle, breaker: Option<Breaker.Breaker>, clock: real, es: seq<Event>, s: State |
        NobodyRejected(s) && OracleRun(job, ex, breaker, clock, es, s) && Complete(job, s)
        ensures EndsUnlimited(job, ex, s)
      {
        UnlimitedWhenCovered(job, ex, breaker, clock, es, s);
      }
    } else {
      var ex, es, s := CoveredWhenUnlimited(job);
      assert NobodyRejected(s) && OracleRun(job, ex, None, 0.0, es, s);
    }
  }
}
