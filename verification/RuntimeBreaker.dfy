/** The circuit breaker inside a run: no call while it is open, and the breaker's own theorems carried over to runs. */
module RuntimeBreaker {
  import opened Collections
  import opened Graphs
  import opened ExecutionGraph
  import opened Nodes
  import opened Runtime
  import opened RuntimeInvariants
  import opened RuntimeTheorems
  import Breaker
  import Retry
  import Windows

  // ---- Quiet period -----------------------------------------------------------------------

  /** The breaker last opened no earlier than `since`, and is open. */
  ghost predicate OpenSince(s: State, since: real, recovery: real) {
    && s.breaker.Some? && s.breaker.value.phase == Breaker.Open && s.breaker.value.recovery == recovery
    && since <= s.breaker.value.openedAt && since <= s.clock
  }

  /** Every node that is running in `t` was running the same attempt in `s`. */
  ghost predicate NothingBegan(s: State, t: State) {
    forall id :: id in t.status && t.status[id].Running? ==> id in s.status && s.status[id] == t.status[id]
  }

  lemma {:induction false} TriageKeepsRunning(job: Job, s: State, level: seq<Id>)
    ensures NothingBegan(s, Triage(job, s, level))
    ensures Triage(job, s, level).breaker == s.breaker && Triage(job, s, level).clock == s.clock
  {
    if level != [] {
      TriageKeepsRunning(job, s, level[..|level| - 1]);
    }
  }

  lemma {:induction false} QuietBegin(job: Job, s: State, id: Id, attempt: nat, now: real)
    requires id in job.nodes.byId && attempt > 0 && !Admitted(s, now)
    ensures var t := BeginAttempt(job, s, id, attempt, now);
            NothingBegan(s, t) && t.breaker == s.breaker && t.clock == s.clock
  {
    hide ReadKey;
  }

  /** An open breaker that is told of a failure stays open, from now on. */
  lemma OpenHears(b: Breaker.Breaker, now: real)
    requires b.phase == Breaker.Open
    ensures Breaker.OnSuccess(b, now) == b
    ensures var c := Breaker.OnFailure(b, now);
            c.phase == Breaker.Open && c.recovery == b.recovery && (c.openedAt == b.openedAt || c.openedAt == now)
  {
  }

  lemma {:induction false} QuietFinish(job: Job, s: State, id: Id, result: Retry.Attempt<Artifact>, now: real)
    requires id in job.nodes.byId && id in s.status && s.status[id].Running? && s.status[id].attempt > 0
    requires s.breaker.Some?
    ensures var t := FinishAttempt(job, s, id, result, now);
            && NothingBegan(s, t) && t.clock == s.clock
            && t.breaker == Some(if result.Returned? then Breaker.OnSuccess(s.breaker.value, now)
                                 else Breaker.OnFailure(s.breaker.value, now))
  {
    hide Breaker.OnFailure, Breaker.OnSuccess;
  }

  lemma {:induction false} QuietStart(job: Job, s: State, id: Id, now: real)
    requires id in job.nodes.byId && !Admitted(s, now)
    ensures var t := StartNode(job, s, id, now);
            NothingBegan(s, t) && t.breaker == s.breaker && t.clock == s.clock
  {
    hide BeginAttempt;
    if HasExecutor(job, id) && job.MaxAttempts(id) > 0 {
      QuietBegin(job, s, id, 1, now);
    }
  }

  lemma {:induction false} QuietEnter(job: Job, s: State, now: real)
    requires s.level < |job.levels|
    ensures var t := Enter(job, s.(clock := now));
            NothingBegan(s, t) && t.breaker == s.breaker && t.clock == now
  {
    hide Triage;
    var level := job.levels[s.level];
    var s1 := s.(clock := now, groups := if |level| > 1 then s.groups + [level] else s.groups);
    TriageKeepsRunning(job, s1, level);
  }

  lemma {:induction false} QuietStep(job: Job, s: State, e: Event, since: real, recovery: real)
    requires Enabled(job, s, e) && OpenSince(s, since, recovery) && e.now < since + recovery
    ensures OpenSince(Step(job, s, e), since, recovery) && NothingBegan(s, Step(job, s, e))
    ensures Step(job, s, e).clock == e.now
  {
    hide BeginAttempt, FinishAttempt, StartNode, Enter, Breaker.OnFailure, Breaker.OnSuccess;
    var s1 := s.(clock := e.now);
    match e {
      case EnterLevel(now) => QuietEnter(job, s, now);
      case Start(id, now) => QuietStart(job, s1, id, now);
      case Finish(id, result, now) =>
        QuietFinish(job, s1, id, result, now);
        OpenHears(s.breaker.value, now);
      case Wake(id, now) => QuietBegin(job, s1, id, s.status[id].attempt + 1, now);
    }
  }

  /** While an open breaker has not recovered, no interleaving starts another executor call. */
  lemma {:induction false} QuietRun(job: Job, s: State, es: seq<Event>, since: real, recovery: real)
    requires IsRun(job, s, es) && OpenSince(s, since, recovery)
    requires forall i :: 0 <= i < |es| ==> es[i].now < since + recovery
    ensures OpenSince(After(job, s, es), since, recovery) && NothingBegan(s, After(job, s, es))
    decreases |es|
  {
    if es != [] {
      hide Step, OpenSince;
      QuietStep(job, s, es[0], since, recovery);
      QuietRun(job, Step(job, s, es[0]), es[1..], since, recovery);
    }
  }

  // ---- The breaker a run feeds ------------------------------------------------------------

  /** What an event reports to the breaker: a check per attempt, then how the attempt went. */
  function Reports(job: Job, s: State, e: Event): seq<Breaker.Event>
    requires Enabled(job, s, e) && s.breaker.Some?
  {
    match e
    case EnterLevel(_) => []
    case Start(id, now) =>
      if HasExecutor(job, id) && job.MaxAttempts(id) > 0 then AttemptReports(job, s, id, now) else []
    case Wake(id, now) => AttemptReports(job, s, id, now)
    case Finish(id, result, now) => [Breaker.Event(now, if result.Returned? then Breaker.Success else Breaker.Failure)]
  }

  /** An admitted attempt that misses its artifact fails at once. */
  function AttemptReports(job: Job, s: State, id: Id, now: real): seq<Breaker.Event>
    requires id in job.nodes.byId && s.breaker.Some?
  {
    var key := ReadKey(job.nodes.byId[id]);
    [Breaker.Event(now, Breaker.Check)]
    + if Breaker.Admits(s.breaker.value, now) && key.Some? && key.value !in s.artifacts
      then [Breaker.Event(now, Breaker.Failure)] else []
  }

  function RunReports(job: Job, s: State, es: seq<Event>): seq<Breaker.Event>
    requires IsRun(job, s, es)
    decreases |es|
  {
    if es == [] || s.breaker.None? then []
    else Reports(job, s, es[0]) + RunReports(job, Step(job, s, es[0]), es[1..])
  }

  lemma {:induction false} AttemptReportsRun(job: Job, s: State, id: Id, attempt: nat, now: real)
    requires id in job.nodes.byId && attempt > 0 && s.breaker.Some?
    ensures BeginAttempt(job, s, id, attempt, now).breaker
         == Some(Breaker.Run(s.breaker.value, AttemptReports(job, s, id, now)))
  {
    hide ReadKey;
    var b := s.breaker.value;
    var check, failure := Breaker.Event(now, Breaker.Check), Breaker.Event(now, Breaker.Failure);
    assert [check] + [] == [check];
    var both := [check] + [failure];
    assert [check][..0] == [] && |both| == 2 && both[..1] == [check] && both[1] == failure;
    assert Breaker.Run(b, [check]) == Breaker.OnCheck(b, now);
    assert Breaker.Run(b, both) == Breaker.OnFailure(Breaker.OnCheck(b, now), now) by {
      assert Breaker.Run(b, both) == Breaker.Step(Breaker.Run(b, both[..|both| - 1]), both[|both| - 1]);
    }
  }

  lemma {:induction false} StepReports(job: Job, s: State, e: Event)
    requires Enabled(job, s, e) && s.breaker.Some?
    ensures Step(job, s, e).breaker == Some(Breaker.Run(s.breaker.value, Reports(job, s, e)))
  {
    hide BeginAttempt, Triage;
    var s1 := s.(clock := e.now);
    match e {
      case EnterLevel(_) =>
        var level := job.levels[s.level];
        TriageKeepsRunning(job, s1.(groups := if |level| > 1 then s.groups + [level] else s.groups), level);
      case Start(id, now) =>
        if HasExecutor(job, id) && job.MaxAttempts(id) > 0 {
          AttemptReportsRun(job, s1, id, 1, now);
        }
      case Wake(id, now) => AttemptReportsRun(job, s1, id, s.status[id].attempt + 1, now);
      case Finish(id, result, now) =>
        var kind := if result.Returned? then Breaker.Success else Breaker.Failure;
        assert [Breaker.Event(now, kind)][..0] == [];
    }
  }

  /** The breaker of a run is the breaker on its own, fed with what the attempts report in the order they report it. */
  lemma {:induction false} BreakerOfRun(job: Job, s: State, es: seq<Event>)
    requires IsRun(job, s, es) && s.breaker.Some?
    ensures After(job, s, es).breaker == Some(Breaker.Run(s.breaker.value, RunReports(job, s, es)))
    decreases |es|
  {
    if es != [] {
      hide Step, Enabled, Reports;
      StepReports(job, s, es[0]);
      BreakerOfRun(job, Step(job, s, es[0]), es[1..]);
      Breaker.RunConcat(s.breaker.value, Reports(job, s, es[0]), RunReports(job, Step(job, s, es[0]), es[1..]));
    }
  }

  lemma {:induction false} StepClock(job: Job, s: State, e: Event)
    requires Enabled(job, s, e)
    ensures Step(job, s, e).clock == e.now
  {
    hide HasExecutor, Enter, BeginAttempt, FinishAttempt;
    var s1 := s.(clock := e.now);
    match e {
      case EnterLevel(now) => QuietEnter(job, s, now);
      case Start(id, now) => BeginClock(job, s1, id, 1, now);
      case Wake(id, now) => BeginClock(job, s1, id, s.status[id].attempt + 1, now);
      case Finish(id, result, now) => FinishClock(job, s1, id, result, now);
    }
  }

  lemma {:induction false} BeginClock(job: Job, s: State, id: Id, attempt: nat, now: real)
    requires id in job.nodes.byId && attempt > 0
    ensures BeginAttempt(job, s, id, attempt, now).clock == s.clock
  {
    hide ReadKey, FailNode, ReportFailure;
    var s1 := s.(calls := s.calls + 1);
    FailNodeClock(job, s1, id, attempt - 1, CircuitOpen);
    if s.breaker.None? || Breaker.Admits(s.breaker.value, now) {
      var s2 := if s.breaker.None? then s1 else s1.(breaker := Some(Breaker.OnCheck(s.breaker.value, now)));
      var key := ReadKey(job.nodes.byId[id]);
      if key.Some? {
        ReportKeepsClock(s2, now);
        FailNodeClock(job, ReportFailure(s2, now), id, attempt - 1, ArtifactNotFound(key.value));
      }
    }
  }

  lemma FailNodeClock(job: Job, s: State, id: Id, retries: nat, error: NodeError)
    requires id in job.nodes.byId
    ensures FailNode(job, s, id, retries, error).clock == s.clock
  {
  }

  lemma ReportKeepsClock(s: State, now: real)
    ensures ReportFailure(s, now).clock == s.clock
  {
  }

  lemma {:induction false} FinishClock(job: Job, s: State, id: Id, result: Retry.Attempt<Artifact>, now: real)
    requires id in job.nodes.byId && id in s.status && s.status[id].Running? && s.status[id].attempt > 0
    ensures FinishAttempt(job, s, id, result, now).clock == s.clock
  {
  }

  /** Reports carry the clock of their event, and none of them is a reset. */
  lemma {:induction false} ReportsNow(job: Job, s: State, e: Event)
    requires Enabled(job, s, e) && s.breaker.Some?
    ensures forall i :: 0 <= i < |Reports(job, s, e)| ==>
      Reports(job, s, e)[i].now == e.now && Reports(job, s, e)[i].kind != Breaker.Reset
  {
    hide ReadKey, HasExecutor;
  }

  /** What a run reports is timed and free of resets, which is all the breaker's theorems ask for. */
  lemma {:induction false} RunReportsTimed(job: Job, s: State, es: seq<Event>)
    requires IsRun(job, s, es) && s.breaker.Some?
    ensures Breaker.Timed(s.clock, RunReports(job, s, es)) && Breaker.NoReset(RunReports(job, s, es))
    ensures Breaker.Clock(s.clock, RunReports(job, s, es)) <= After(job, s, es).clock
    decreases |es|
  {
    if es != [] {
      hide Step, Enabled, Reports, Breaker.Timed, Breaker.Clock, Breaker.NoReset;
      var t, first := Step(job, s, es[0]), Reports(job, s, es[0]);
      assert s.clock <= es[0].now by { ClockMoves(job, s, es[0]); }
      StepClock(job, s, es[0]);
      StepReports(job, s, es[0]);
      ReportsNow(job, s, es[0]);
      RunReportsTimed(job, t, es[1..]);
      Breaker.TimedConcat(s.clock, first, t.clock, RunReports(job, t, es[1..]));
      NoResetConcat(first, RunReports(job, t, es[1..]));
    } else {
      NoReportsTimed(s.clock);
    }
  }

  lemma NoReportsTimed(clock: real)
    ensures Breaker.Timed(clock, []) && Breaker.NoReset([]) && Breaker.Clock(clock, []) == clock
  {
  }

  lemma {:induction false} NoResetConcat(xs: seq<Breaker.Event>, ys: seq<Breaker.Event>)
    requires (forall i :: 0 <= i < |xs| ==> xs[i].kind != Breaker.Reset) && Breaker.NoReset(ys)
    ensures Breaker.NoReset(xs + ys)
  {
  }

  lemma ClockMoves(job: Job, s: State, e: Event)
    requires Enabled(job, s, e)
    ensures s.clock <= e.now
  {
  }

  /** The breaker a run starts with: closed, and without failures. */
  ghost predicate StartsClosed(b: Breaker.Breaker) {
    b.threshold >= 1 && b.phase == Breaker.Closed && b.failures == []
  }

  /**
   At any time from the end of a run on, `failure_count` counts all the failures reported in the run
   since the last clear that lie in the window.
   */
  lemma {:induction false} RunWindowCount(job: Job, b: Breaker.Breaker, clock: real, es: seq<Event>, s: State,
                                          now: real)
    requires RunsTo(job, Some(b), clock, es, s) && s.clock <= now
    ensures s.breaker.Some?
    ensures Breaker.FailureCount(s.breaker.value, now) ==
            |Windows.After(Breaker.FailureLog(b, RunReports(job, Init(job, Some(b), clock), es)), now - b.window)|
  {
    var s0 := Init(job, Some(b), clock);
    BreakerOfRun(job, s0, es);
    RunReportsTimed(job, s0, es);
    Breaker.FailureCountIsExact(b, clock, RunReports(job, s0, es), now);
  }

  /** The event reports a failed attempt. */
  predicate ReportsFailure(job: Job, s: State, e: Event)
    requires Enabled(job, s, e) && s.breaker.Some?
  {
    var r := Reports(job, s, e);
    r != [] && r[|r| - 1].kind == Breaker.Failure
  }

  lemma {:induction false} ReportShape(job: Job, s: State, e: Event)
    requires Enabled(job, s, e) && s.breaker.Some?
    ensures var r := Reports(job, s, e);
            |r| <= 1 || (|r| == 2 && r[0].kind == Breaker.Check && r[1].kind == Breaker.Failure)
  {
    hide ReadKey, HasExecutor;
  }

  lemma {:induction false} ClosedRunsOne(c: Breaker.Breaker, x: Breaker.Event)
    ensures Breaker.Run(c, [x]) == Breaker.Step(c, x)
  {
    assert [x][..0] == [];
  }

  lemma NoReportRuns(c: Breaker.Breaker)
    ensures Breaker.Run(c, []) == c
  {
  }

  /**
   In a run, an event takes a closed breaker to OPEN exactly when it reports a failure that brings the
   failures of the run in the window, never trimmed, to the threshold; no event takes it to HALF_OPEN.
   */
  lemma {:induction false} RunTripsExactly(job: Job, b: Breaker.Breaker, clock: real, es: seq<Event>, s: State,
                                           e: Event)
    requires RunsTo(job, Some(b), clock, es, s) && StartsClosed(b)
    requires s.breaker.Some? && s.breaker.value.phase == Breaker.Closed && Enabled(job, s, e)
    ensures Step(job, s, e).breaker.Some? && Step(job, s, e).breaker.value.phase != Breaker.HalfOpen
    ensures Step(job, s, e).breaker.value.phase == Breaker.Open <==>
            && ReportsFailure(job, s, e)
            && |Windows.After(Breaker.FailureLog(b, RunReports(job, Init(job, Some(b), clock), es)) + [e.now],
                              e.now - b.window)| == b.threshold
  {
    hide Step, Enabled, Reports, RunReports, IsRun, Windows.After, Breaker.FailureLog, Breaker.Timed, Breaker.Step;
    var s0 := Init(job, Some(b), clock);
    var r, before := Reports(job, s, e), RunReports(job, s0, es);
    BreakerOfRun(job, s0, es);
    RunReportsTimed(job, s0, es);
    ClockMoves(job, s, e);
    StepReports(job, s, e);
    ReportsNow(job, s, e);
    ReportShape(job, s, e);
    hide Breaker.Run;
    if |r| == 0 {
      NoReportRuns(s.breaker.value);
    } else if |r| == 1 {
      assert r == [r[0]];
      ClosedRunsOne(s.breaker.value, r[0]);
      Breaker.TripsExactlyAtThreshold(b, clock, before, r[0]);
    } else if |r| == 2 {
      CheckThenFailure(b, clock, before, r);
    }
  }

  lemma {:induction false} CheckThenFailure(b: Breaker.Breaker, clock: real, before: seq<Breaker.Event>,
                                            r: seq<Breaker.Event>)
    requires StartsClosed(b) && Breaker.Timed(clock, before) && Breaker.Run(b, before).phase == Breaker.Closed
    requires |r| == 2 && r[0].kind == Breaker.Check && r[1].kind == Breaker.Failure
    requires Breaker.Clock(clock, before) <= r[0].now == r[1].now
    ensures var after := Breaker.Run(Breaker.Run(b, before), r);
            && after.phase != Breaker.HalfOpen
            && (after.phase == Breaker.Open <==>
                |Windows.After(Breaker.FailureLog(b, before) + [r[1].now], r[1].now - b.window)| == b.threshold)
  {
    hide Breaker.Timed;
    var c := Breaker.Run(b, before);
    assert r[..1] == [r[0]];
    ClosedRunsOne(c, r[0]);
    assert Breaker.Run(c, r) == Breaker.Step(Breaker.Run(c, r[..1]), r[1]);
    assert Breaker.Step(c, r[0]) == c;
    Breaker.TripsExactlyAtThreshold(b, clock, before, r[1]);
  }

  /**
   In a run, a call in flight that fails while the breaker is OPEN starts the recovery time anew exactly when
   the failures of the run in the window, never trimmed, are at the threshold.
   */
  lemma {:induction false} RunLateFailure(job: Job, b: Breaker.Breaker, clock: real, es: seq<Event>, s: State,
                                          id: Id, result: Retry.Attempt<Artifact>, now: real)
    requires RunsTo(job, Some(b), clock, es, s) && Enabled(job, s, Finish(id, result, now)) && !result.Returned?
    requires s.breaker.Some? && s.breaker.value.phase == Breaker.Open
    ensures var t := Step(job, s, Finish(id, result, now));
            && t.breaker.Some? && t.breaker.value.phase == Breaker.Open
            && t.breaker.value.openedAt ==
               (if |Windows.After(Breaker.FailureLog(b, RunReports(job, Init(job, Some(b), clock), es)) + [now],
                                  now - b.window)| >= b.threshold
                then now else s.breaker.value.openedAt)
  {
    hide Step, RunReports, IsRun, Windows.After, Breaker.FailureLog, Breaker.Timed, Breaker.Step, Breaker.Run;
    var s0 := Init(job, Some(b), clock);
    var e, report := Finish(id, result, now), Breaker.Event(now, Breaker.Failure);
    BreakerOfRun(job, s0, es);
    RunReportsTimed(job, s0, es);
    StepReports(job, s, e);
    assert Reports(job, s, e) == [report];
    ClosedRunsOne(s.breaker.value, report);
    Breaker.LateFailure(b, clock, RunReports(job, s0, es), now);
  }

  ghost predicate MissedArtifact(s: State, id: Id) {
    exists key :: HasError(s, id, ArtifactNotFound(key))
  }

  lemma {:induction false} BeginReported(job: Job, s: State, id: Id, attempt: nat, now: real)
    requires id in job.nodes.byId && attempt > 0 && s.breaker.Some? && id !in s.errors
    ensures var t, asked := BeginAttempt(job, s, id, attempt, now), Breaker.OnCheck(s.breaker.value, now);
            && t.breaker == Some(if MissedArtifact(t, id) then Breaker.OnFailure(asked, now) else asked)
            && (HasError(t, id, CircuitOpen) <==> !Breaker.Admits(s.breaker.value, now))
  {
    hide ReadKey, Breaker.OnFailure;
    var t := BeginAttempt(job, s, id, attempt, now);
    var key := ReadKey(job.nodes.byId[id]);
    if Breaker.Admits(s.breaker.value, now) && key.Some? && key.value !in s.artifacts {
      assert HasError(t, id, ArtifactNotFound(key.value));
    }
  }

  /** Every attempt asks the breaker first, and only one that is let in and misses its artifact fails at once. */
  lemma {:induction false} AttemptReported(job: Job, s: State, e: Event)
    requires Booked(s) && Enabled(job, s, e) && Begins(job, e) && s.breaker.Some?
    ensures var t, asked := Step(job, s, e), Breaker.OnCheck(s.breaker.value, e.now);
            && t.breaker == Some(if MissedArtifact(t, e.id) then Breaker.OnFailure(asked, e.now) else asked)
            && (HasError(t, e.id, CircuitOpen) <==> !Breaker.Admits(s.breaker.value, e.now))
  {
    hide BeginAttempt, MissedArtifact, HasError, Breaker.OnCheck, Breaker.OnFailure;
    assert e.id !in s.errors;
    BeginReported(job, s.(clock := e.now), e.id, if e.Wake? then s.status[e.id].attempt + 1 else 1, e.now);
  }

  /**
   A breaker that a run leaves open and that a continuation of the run closes was probed: an attempt was
   let in after the recovery time, and a success was reported after it.
   */
  lemma {:induction false} RunClosesOnlyThroughProbe(job: Job, b: Breaker.Breaker, clock: real, es: seq<Event>,
                                                     s: State,
                                                     later: seq<Event>) returns (probe: nat)
    requires RunsTo(job, Some(b), clock, es, s) && b.phase == Breaker.Closed
    requires s.breaker.Some? && s.breaker.value.phase == Breaker.Open && IsRun(job, s, later)
    requires After(job, s, later).breaker.Some? && After(job, s, later).breaker.value.phase != Breaker.Open
    ensures var r := RunReports(job, s, later);
            && probe < |r| && r[probe].kind == Breaker.Check
            && r[probe].now >= s.breaker.value.openedAt + s.breaker.value.recovery
            && (After(job, s, later).breaker.value.phase == Breaker.Closed ==>
                exists i :: probe < i < |r| && r[i].kind == Breaker.Success)
  {
    var s0 := Init(job, Some(b), clock);
    BreakerOfRun(job, s0, es);
    RunReportsTimed(job, s0, es);
    Breaker.OpenedInThePast(b, clock, RunReports(job, s0, es));
    BreakerOfRun(job, s, later);
    RunReportsTimed(job, s, later);
    assert Breaker.Timed(s.breaker.value.openedAt, RunReports(job, s, later));
    probe := Breaker.ClosesOnlyThroughProbe(s.breaker.value, RunReports(job, s, later));
  }

  // ---- A breaker that cannot trip ---------------------------------------------------------

  /** Only such nodes call their executor: the type has one and the policy allows an attempt. */
  predicate Able(job: Job, id: Id) {
    id in job.nodes.byId && HasExecutor(job, id) && job.MaxAttempts(id) >= 1
  }

  /** How many attempts of a node have ended. */
  function EndedOf(st: Status): nat {
    match st
    case Running(attempt, _) => if attempt == 0 then 0 else attempt - 1
    case Sleeping(attempt) => attempt
    case Succeeded(retries, _) => retries + 1
    case Failed(retries) => retries + 1
    case _ => 0
  }

  function EndedWeights(job: Job, status: map<Id, Status>): map<Id, nat> {
    map id | id in status :: if Able(job, id) then EndedOf(status[id]) else 0
  }

  function AttemptCaps(job: Job): map<Id, nat> {
    map id | id in job.nodes.byId :: if Able(job, id) then job.MaxAttempts(id) else 0
  }

  /** No breaker, or a closed one without failures whose threshold no run can reach: it exceeds all attempts allowed. */
  ghost predicate CannotTrip(job: Job, breaker: Option<Breaker.Breaker>) {
    && (forall id :: id in job.nodes.order ==> id in job.nodes.byId)
    && (breaker.Some? ==>
          && breaker.value.phase == Breaker.Closed && breaker.value.failures == []
          && SumOver(job.nodes.order, AttemptCaps(job)) < breaker.value.threshold)
  }

  /** A closed breaker stores at most one failure per ended attempt, and the threshold is out of reach. */
  ghost predicate Calm(job: Job, s: State) {
    && (forall id :: id in job.nodes.order ==> id in s.status && id in job.nodes.byId)
    && (s.breaker.Some? ==>
          && s.breaker.value.phase == Breaker.Closed
          && |s.breaker.value.failures| <= SumOver(job.nodes.order, EndedWeights(job, s.status))
          && SumOver(job.nodes.order, AttemptCaps(job)) < s.breaker.value.threshold)
  }

  /** What one event of a node does to a closed breaker, when `ended` says whether an attempt ends with it. */
  ghost predicate Grows(b: Breaker.Breaker, c: Breaker.Breaker, ended: nat) {
    && c.threshold == b.threshold && |c.failures| <= |b.failures| + ended
    && (|b.failures| + ended < b.threshold ==> c.phase == Breaker.Closed)
  }

  lemma {:induction false} OneReport(b: Breaker.Breaker, x: Breaker.Event)
    requires b.phase == Breaker.Closed && x.kind != Breaker.Reset
    ensures Grows(b, Breaker.Step(b, x), if x.kind == Breaker.Check then 0 else 1)
  {
    Windows.AfterShorter(b.failures, x.now - b.window, x.now - b.window);
    Windows.AfterShorter(b.failures + [x.now], x.now - b.window, x.now - b.window);
  }

  /** The attempt of the event's node ends with the event. */
  ghost predicate EndsAttempt(r: seq<Breaker.Event>) {
    r != [] && r[|r| - 1].kind != Breaker.Check
  }

  lemma {:induction false} StepStores(job: Job, s: State, e: Event)
    requires Enabled(job, s, e) && s.breaker.Some? && s.breaker.value.phase == Breaker.Closed
    ensures Step(job, s, e).breaker.Some?
    ensures Grows(s.breaker.value, Step(job, s, e).breaker.value, if EndsAttempt(Reports(job, s, e)) then 1 else 0)
  {
    hide Step, Enabled, Reports;
    var b, r := s.breaker.value, Reports(job, s, e);
    StepReports(job, s, e);
    ReportsNow(job, s, e);
    ReportShape(job, s, e);
    if |r| == 1 {
      assert r == [r[0]];
      ClosedRunsOne(b, r[0]);
      OneReport(b, r[0]);
    } else if |r| == 2 {
      assert r[..1] == [r[0]];
      ClosedRunsOne(b, r[0]);
      assert Breaker.Step(b, r[0]) == b;
      OneReport(b, r[1]);
    }
  }

  lemma {:induction false} BeginCounted(job: Job, s: State, id: Id, attempt: nat, now: real)
    requires id in job.nodes.byId && attempt > 0 && s.breaker.Some? && Breaker.Admits(s.breaker.value, now)
    ensures var t := BeginAttempt(job, s, id, attempt, now);
            && id in t.status
            && EndedOf(t.status[id]) == attempt - 1 + if EndsAttempt(AttemptReports(job, s, id, now)) then 1 else 0
  {
    hide ReadKey, ReportFailure;
    var s1 := s.(calls := s.calls + 1);
    var s2 := s1.(breaker := Some(Breaker.OnCheck(s.breaker.value, now)));
    var key := ReadKey(job.nodes.byId[id]);
    var reports := AttemptReports(job, s, id, now);
    if key.Some? && key.value !in s.artifacts {
      assert reports == [Breaker.Event(now, Breaker.Check), Breaker.Event(now, Breaker.Failure)];
      FailNodeStatus(job, ReportFailure(s2, now), id, attempt - 1, ArtifactNotFound(key.value));
      hide FailNode;
    } else {
      assert reports == [Breaker.Event(now, Breaker.Check)];
    }
  }

  lemma FailNodeStatus(job: Job, s: State, id: Id, retries: nat, error: NodeError)
    requires id in job.nodes.byId
    ensures id in FailNode(job, s, id, retries, error).status
    ensures FailNode(job, s, id, retries, error).status[id] == Failed(retries)
  {
  }

  lemma {:induction false} FinishCounted(job: Job, s: State, id: Id, result: Retry.Attempt<Artifact>, now: real)
    requires id in job.nodes.byId && id in s.status && s.status[id].Running? && s.status[id].attempt > 0
    ensures var t := FinishAttempt(job, s, id, result, now);
            id in t.status && EndedOf(t.status[id]) == s.status[id].attempt
  {
    hide ReportFailure, ReportSuccess;
  }

  /** An event that ends an attempt is counted. */
  lemma {:induction false} EndCounted(job: Job, s: State, e: Event)
    requires Fits(job, s) && Enabled(job, s, e) && !e.EnterLevel?
    requires s.breaker.Some? && s.breaker.value.phase == Breaker.Closed
    ensures e.id in Step(job, s, e).status
    ensures Able(job, e.id) ==>
      EndedOf(Step(job, s, e).status[e.id])
      == EndedOf(s.status[e.id]) + if EndsAttempt(Reports(job, s, e)) then 1 else 0
    ensures !Able(job, e.id) ==> !EndsAttempt(Reports(job, s, e))
  {
    hide ReadKey, BeginAttempt, FinishAttempt, AttemptReports;
    var s1 := s.(clock := e.now);
    assert StatusFits(job, e.id, s.status[e.id]);
    match e {
      case Start(id, now) => if Able(job, id) { BeginCounted(job, s1, id, 1, now); SameReports(job, s, s1, id, now); }
      case Wake(id, now) => BeginCounted(job, s1, id, s.status[id].attempt + 1, now); SameReports(job, s, s1, id, now);
      case Finish(id, result, now) => FinishCounted(job, s1, id, result, now);
    }
  }

  lemma SameReports(job: Job, s: State, t: State, id: Id, now: real)
    requires id in job.nodes.byId && s.breaker.Some? && t.breaker == s.breaker && t.artifacts == s.artifacts
    ensures AttemptReports(job, t, id, now) == AttemptReports(job, s, id, now)
  {
  }

  lemma {:induction false} EndedWithinCaps(job: Job, s: State)
    requires Fits(job, s) && forall id :: id in job.nodes.order ==> id in s.status && id in job.nodes.byId
    ensures SumOver(job.nodes.order, EndedWeights(job, s.status)) <= SumOver(job.nodes.order, AttemptCaps(job))
  {
    forall id | id in job.nodes.order
      ensures EndedWeights(job, s.status)[id] <= AttemptCaps(job)[id]
    {
      assert StatusFits(job, id, s.status[id]);
    }
    SumOverMono(job.nodes.order, EndedWeights(job, s.status), AttemptCaps(job));
  }

  /** A closed breaker and the count of ended attempts grow together. */
  lemma {:induction false} CalmAfter(job: Job, s: State, t: State, id: Id, x: Status, ended: nat)
    requires job.WF() && Fits(job, t) && Calm(job, s) && s.breaker.Some? && t.breaker.Some?
    requires id in s.status && id in job.nodes.byId && t.status == s.status[id := x]
    requires Grows(s.breaker.value, t.breaker.value, ended)
    requires if Able(job, id) then EndedOf(x) == EndedOf(s.status[id]) + ended else ended == 0
    ensures Calm(job, t)
  {
    hide EndedOf, Able, Fits, Acyclic, IsLevelling, EndedWeights, AttemptCaps, Distinct;
    var w := if Able(job, id) then EndedOf(x) else 0;
    assert id in job.nodes.order by { assert id in Elems(job.nodes.order); }
    EndedUpdate(job, s, t, id, x);
    forall v { EndedKeys(job, s.status, v); }
    forall v { EndedKeys(job, t.status, v); }
    SumOverUpdate(job.nodes.order, EndedWeights(job, s.status), id, w);
    EndedWithinCaps(job, t);
  }

  lemma EndedKeys(job: Job, status: map<Id, Status>, v: Id)
    ensures v in EndedWeights(job, status) <==> v in status
    ensures v in AttemptCaps(job) <==> v in job.nodes.byId
  {
  }

  lemma EndedUpdate(job: Job, s: State, t: State, id: Id, x: Status)
    requires id in s.status && t.status == s.status[id := x]
    ensures EndedWeights(job, t.status) == EndedWeights(job, s.status)[id := if Able(job, id) then EndedOf(x) else 0]
    ensures id in EndedWeights(job, s.status)
    ensures EndedWeights(job, s.status)[id] == if Able(job, id) then EndedOf(s.status[id]) else 0
  {
    hide EndedOf, Able;
  }

  lemma {:induction false} MoveCalm(job: Job, s: State, e: Event)
    requires job.WF() && Fits(job, s) && Calm(job, s) && s.breaker.Some?
    requires Enabled(job, s, e) && !e.EnterLevel? && Fits(job, Step(job, s, e))
    ensures Calm(job, Step(job, s, e))
  {
    hide Step, Fits, Calm, EndedOf, Able, Reports, EndsAttempt, Grows, NodeMove;
    assert s.breaker.value.phase == Breaker.Closed by { CalmIsClosed(job, s); }
    StepStores(job, s, e);
    EndCounted(job, s, e);
    OnlyStatus(job, s, e);
    CalmAfter(job, s, Step(job, s, e), e.id, Step(job, s, e).status[e.id],
              if EndsAttempt(Reports(job, s, e)) then 1 else 0);
  }

  lemma CalmIsClosed(job: Job, s: State)
    requires Calm(job, s) && s.breaker.Some?
    ensures s.breaker.value.phase == Breaker.Closed
  {
  }

  /** The event of a node changes no other status. */
  lemma {:induction false} OnlyStatus(job: Job, s: State, e: Event)
    requires Fits(job, s) && Enabled(job, s, e) && !e.EnterLevel?
    ensures e.id in s.status && e.id in job.nodes.byId && e.id in Step(job, s, e).status
    ensures Step(job, s, e).status == s.status[e.id := Step(job, s, e).status[e.id]]
  {
    hide Step, Fits, StatusFits, BookMove, StoreMove, TimeMove, BudgetMove;
    var x, timed := StepIsMove(job, s, e);
  }

  lemma {:induction false} EnterCalm(job: Job, s: State, t: State, level: seq<Id>)
    requires Calm(job, s) && CanEnter(job, s, level) && Entered(job, s, t, level)
    ensures Calm(job, t)
  {
    hide BlockedBy, DepsOver, Able;
    assert EndedWeights(job, t.status) == EndedWeights(job, s.status);
  }

  lemma {:induction false} StepKeepsNoBreaker(job: Job, s: State, e: Event)
    requires Enabled(job, s, e) && s.breaker.None?
    ensures Step(job, s, e).breaker.None?
  {
    hide ReadKey, HasExecutor, Triage;
    if e.EnterLevel? {
      QuietEnter(job, s, e.now);
    }
  }

  lemma {:induction false} StepCalm(job: Job, s: State, e: Event)
    requires job.WF() && Inv(job, s) && Calm(job, s) && Enabled(job, s, e)
    ensures Calm(job, Step(job, s, e))
  {
    hide Inv, Step, Fits, Ordered, Levelled, Booked, Stored, Budgeted, Timed, TimeTotals, CanEnter, Entered;
    StepKeepsInv(job, s, e);
    InvParts(job, s);
    InvParts(job, Step(job, s, e));
    if e.EnterLevel? {
      EnterStepCalm(job, s, e);
    } else if s.breaker.Some? {
      MoveCalm(job, s, e);
    } else {
      StepKeepsNoBreaker(job, s, e);
      SameNodes(job, s, Step(job, s, e));
    }
  }

  lemma SameNodes(job: Job, s: State, t: State)
    requires Fits(job, s) && Fits(job, t) && Calm(job, s) && t.breaker.None?
    ensures Calm(job, t)
  {
  }

  lemma {:induction false} EnterStepCalm(job: Job, s: State, e: Event)
    requires job.WF() && Fits(job, s) && Levelled(job, s) && Booked(s) && Calm(job, s)
    requires Enabled(job, s, e) && e.EnterLevel?
    ensures Calm(job, Step(job, s, e))
  {
    hide Enter, Fits, Levelled, Booked, CanEnter, Entered, Calm;
    EnterEnters(job, s, e.now);
    EnterCalm(job, s, Step(job, s, e), job.levels[s.level]);
  }

  lemma {:induction false} RunCalm(job: Job, s: State, es: seq<Event>)
    requires job.WF() && Inv(job, s) && Calm(job, s) && IsRun(job, s, es)
    ensures Calm(job, After(job, s, es))
    decreases |es|
  {
    hide Inv, Calm, Step;
    if es != [] {
      StepCalm(job, s, es[0]);
      StepKeepsInv(job, s, es[0]);
      RunCalm(job, Step(job, s, es[0]), es[1..]);
    }
  }

  lemma {:induction false} InitCalm(job: Job, breaker: Option<Breaker.Breaker>, clock: real)
    requires CannotTrip(job, breaker)
    ensures Calm(job, Init(job, breaker, clock))
  {
  }

  /** No attempt was turned away by the breaker. */
  ghost predicate NobodyRejected(s: State) {
    forall id {:trigger HasError(s, id, CircuitOpen)} :: !HasError(s, id, CircuitOpen)
  }

  /** A rejection is still on record at the end of the run. */
  lemma {:induction false} RejectionStays(job: Job, s: State, e: Event, later: seq<Event>)
    requires job.WF() && Inv(job, s) && Enabled(job, s, e) && Begins(job, e) && !Admitted(s, e.now)
    requires IsRun(job, Step(job, s, e), later)
    ensures HasError(After(job, Step(job, s, e), later), e.id, CircuitOpen)
  {
    hide Inv, Step, Enabled, Fits, Ordered, Levelled, Booked, Stored, Budgeted, Timed, TimeTotals, Acyclic, IsLevelling;
    InvParts(job, s);
    StepCauses(job, s, e, CircuitOpen);
    StepKeepsInv(job, s, e);
    InvParts(job, Step(job, s, e));
    ErrorIsFinal(Step(job, s, e), e.id);
    TerminalIsFinal(job, Step(job, s, e), later, e.id);
  }

  /** When nobody has been rejected at the end of a run, the breaker admitted every attempt on the way. */
  lemma {:induction false} AdmittedOnTheWay(job: Job, s: State, e: Event, later: seq<Event>)
    requires job.WF() && Inv(job, s) && Enabled(job, s, e) && Begins(job, e) && IsRun(job, Step(job, s, e), later)
    requires NobodyRejected(After(job, Step(job, s, e), later))
    ensures Admitted(s, e.now)
  {
    hide Inv, Step, Enabled, Acyclic, IsLevelling;
    if !Admitted(s, e.now) {
      RejectionStays(job, s, e, later);
    }
  }

  lemma ErrorIsFinal(s: State, id: Id)
    requires Booked(s) && id in s.errors
    ensures id in s.status && s.status[id].Terminal()
  {
  }

  lemma {:induction false} CalmStepRejectsNobody(job: Job, s: State, e: Event)
    requires job.WF() && Inv(job, s) && Calm(job, s) && NobodyRejected(s) && Enabled(job, s, e)
    ensures NobodyRejected(Step(job, s, e))
  {
    hide Inv, Step, Fits, Ordered, Levelled, Booked, Stored, Budgeted, Timed, TimeTotals, Acyclic, IsLevelling, Calm;
    InvParts(job, s);
    CalmAdmits(job, s, e.now);
    if e.EnterLevel? {
      EnterKeepsErrors(job, s, e);
      forall id ensures !HasError(Step(job, s, e), id, CircuitOpen) { assert !HasError(s, id, CircuitOpen); }
    } else {
      MoveRejectsNobody(job, s, e);
    }
  }

  lemma CalmAdmits(job: Job, s: State, now: real)
    requires Calm(job, s)
    ensures Admitted(s, now)
  {
  }

  lemma {:induction false} MoveRejectsNobody(job: Job, s: State, e: Event)
    requires Fits(job, s) && Booked(s) && NobodyRejected(s) && Admitted(s, e.now)
    requires Enabled(job, s, e) && !e.EnterLevel?
    ensures NobodyRejected(Step(job, s, e))
  {
    hide Step, Fits, Booked, Enabled, StatusMove, StoreMove, TimeMove, BudgetMove;
    var x, timed := StepIsMove(job, s, e);
    StepCauses(job, s, e, CircuitOpen);
    forall id | id != e.id ensures !HasError(Step(job, s, e), id, CircuitOpen) {
      assert !HasError(s, id, CircuitOpen);
    }
  }

  lemma {:induction false} CalmRejectsNobody(job: Job, s: State, es: seq<Event>)
    requires job.WF() && Inv(job, s) && Calm(job, s) && NobodyRejected(s) && IsRun(job, s, es)
    ensures NobodyRejected(After(job, s, es))
    decreases |es|
  {
    hide Inv, Calm, Step, NobodyRejected;
    if es != [] {
      CalmStepRejectsNobody(job, s, es[0]);
      StepCalm(job, s, es[0]);
      StepKeepsInv(job, s, es[0]);
      CalmRejectsNobody(job, Step(job, s, es[0]), es[1..]);
    }
  }

  /** Without a breaker, or with one that cannot trip, nobody is rejected in any run. */
  lemma {:induction false} UntrippableRejectsNobody(job: Job, breaker: Option<Breaker.Breaker>, clock: real,
                                                    es: seq<Event>, s: State)
    requires job.WF() && CannotTrip(job, breaker) && RunsTo(job, breaker, clock, es, s)
    ensures NobodyRejected(s)
  {
    hide Inv, Calm;
    InitInv(job, breaker, clock);
    InitCalm(job, breaker, clock);
    CalmRejectsNobody(job, Init(job, breaker, clock), es);
  }

  /**
   A breaker whose threshold exceeds the attempts the policies allow stays closed in every run, and rejects
   nothing.
   */
  lemma {:induction false} NeverTrips(job: Job, b: Breaker.Breaker, clock: real, es: seq<Event>, s: State, now: real)
    requires job.WF() && CannotTrip(job, Some(b)) && RunsTo(job, Some(b), clock, es, s)
    ensures s.breaker.Some? && s.breaker.value.phase == Breaker.Closed && Admitted(s, now)
    ensures NobodyRejected(s)
  {
    hide Inv;
    UntrippableRejectsNobody(job, Some(b), clock, es, s);
    InitInv(job, Some(b), clock);
    InitCalm(job, Some(b), clock);
    RunCalm(job, Init(job, Some(b), clock), es);
    BreakerOfRun(job, Init(job, Some(b), clock), es);
  }
}
