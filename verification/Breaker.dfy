/** The three-state circuit breaker: what one event does, and what whole runs guarantee. */
module Breaker {
  import opened Windows

  datatype Phase = Closed | Open | HalfOpen

  datatype Breaker = Breaker(
    threshold: int, recovery: real, window: real,
    phase: Phase, failures: seq<real>, openedAt: real)

  function Fresh(threshold: int, recovery: real, window: real): Breaker {
    Breaker(threshold, recovery, window, Closed, [], 0.0)
  }

  function FailureCount(b: Breaker, now: real): nat {
    |After(b.failures, now - b.window)|
  }

  predicate Admits(b: Breaker, now: real) {
    b.phase != Open || now - b.openedAt >= b.recovery
  }

  function OnCheck(b: Breaker, now: real): Breaker {
    if b.phase == Open && Admits(b, now) then b.(phase := HalfOpen) else b
  }

  function OnFailure(b: Breaker, now: real): Breaker {
    var kept := After(b.failures + [now], now - b.window);
    if b.phase == HalfOpen || |kept| >= b.threshold
    then b.(failures := kept, phase := Open, openedAt := now)
    else b.(failures := kept)
  }

  function OnSuccess(b: Breaker, now: real): Breaker {
    match b.phase
    case HalfOpen => b.(phase := Closed, failures := [])
    case Closed => b.(failures := After(b.failures, now - b.window))
    case Open => b
  }

  function OnReset(b: Breaker): Breaker {
    b.(phase := Closed, failures := [], openedAt := 0.0)
  }

  /** The breaker object; the calls in flight report through these methods in any order. */
  class CircuitBreaker {
    const threshold: int
    const recovery: real
    const window: real
    var phase: Phase
    var failures: seq<real>
    var openedAt: real

    ghost function View(): Breaker
      reads this
    {
      Breaker(threshold, recovery, window, phase, failures, openedAt)
    }

    constructor (threshold: int, recovery: real, window: real)
      ensures View() == Fresh(threshold, recovery, window)
    {
      this.threshold, this.recovery, this.window := threshold, recovery, window;
      phase, failures, openedAt := Closed, [], 0.0;
    }

    method Trim(now: real)
      modifies this
      ensures View() == old(View()).(failures := After(old(failures), now - window))
    {
      var kept := [];
      for i := 0 to |failures|
        invariant unchanged(this)
        invariant kept == After(failures[..i], now - window)
      {
        assert failures[..i + 1] == failures[..i] + [failures[i]];
        AfterSnoc(failures[..i], failures[i], now - window);
        if now - failures[i] < window {
          kept := kept + [failures[i]];
        }
      }
      assert failures[..|failures|] == failures;
      failures := kept;
    }

    /** Raises `CircuitOpenError` (here: `admitted == false`) while open and not yet recovered. */
    method CheckState(now: real) returns (admitted: bool)
      modifies this
      ensures admitted == Admits(old(View()), now)
      ensures View() == OnCheck(old(View()), now)
    {
      admitted := true;
      if phase == Open {
        if now - openedAt >= recovery {
          phase := HalfOpen;
        } else {
          admitted := false;
        }
      }
    }

    method RecordFailure(now: real)
      modifies this
      ensures View() == OnFailure(old(View()), now)
      ensures var atThreshold := |After(old(failures) + [now], now - window)| >= threshold;
              && (phase == Open <==> old(phase) != Closed || atThreshold)
              && openedAt == (if old(phase) == HalfOpen || atThreshold then now else old(openedAt))
    {
      failures := failures + [now];
      Trim(now);
      if phase == HalfOpen {
        phase, openedAt := Open, now;
      } else if |failures| >= threshold {
        phase, openedAt := Open, now;
      }
    }

    method RecordSuccess(now: real)
      modifies this
      ensures View() == OnSuccess(old(View()), now)
    {
      if phase == HalfOpen {
        phase, failures := Closed, [];
      } else if phase == Closed {
        Trim(now);
      }
    }

    method Reset()
      modifies this
      ensures View() == OnReset(old(View()))
    {
      phase, failures, openedAt := Closed, [], 0.0;
    }
  }

  // ---- Runs -----------------------------------------------------------------------------

  datatype Kind = Check | Failure | Success | Reset

  /** One critical section of the breaker's lock, with the clock it reads. */
  datatype Event = Event(now: real, kind: Kind)

  function Step(b: Breaker, e: Event): Breaker {
    match e.kind
    case Check => OnCheck(b, e.now)
    case Failure => OnFailure(b, e.now)
    case Success => OnSuccess(b, e.now)
    case Reset => OnReset(b)
  }

  function Run(b: Breaker, es: seq<Event>): Breaker {
    if es == [] then b else Step(Run(b, es[..|es| - 1]), es[|es| - 1])
  }

  /** The clock never goes back, starting from `start`. */
  ghost predicate Timed(start: real, es: seq<Event>) {
    && (forall i :: 0 <= i < |es| ==> start <= es[i].now)
    && (forall i, j :: 0 <= i < j < |es| ==> es[i].now <= es[j].now)
  }

  function Clock(start: real, es: seq<Event>): real {
    if es == [] then start else es[|es| - 1].now
  }

  /** The untrimmed failures after an event that finds the breaker in state `b`. */
  function LogAfter(b: Breaker, log: seq<real>, e: Event): seq<real> {
    match e.kind
    case Failure => log + [e.now]
    case Success => if b.phase == HalfOpen then [] else log
    case Reset => []
    case Check => log
  }

  /** Every failure reported since the failures were last cleared, never trimmed. */
  function FailureLog(b: Breaker, es: seq<Event>): seq<real> {
    if es == [] then b.failures
    else LogAfter(Run(b, es[..|es| - 1]), FailureLog(b, es[..|es| - 1]), es[|es| - 1])
  }

  ghost predicate SameLimits(b: Breaker, c: Breaker) {
    b.threshold == c.threshold && b.recovery == c.recovery && b.window == c.window
  }

  lemma {:induction false} RunKeepsLimits(b: Breaker, es: seq<Event>)
    ensures SameLimits(b, Run(b, es))
  {
    if es != [] {
      RunKeepsLimits(b, es[..|es| - 1]);
    }
  }

  lemma TimedPrefix(start: real, es: seq<Event>)
    requires es != [] && Timed(start, es)
    ensures Timed(start, es[..|es| - 1])
    ensures Clock(start, es[..|es| - 1]) <= Clock(start, es)
  {
  }

  lemma {:induction false} TimedConcat(start: real, xs: seq<Event>, mid: real, ys: seq<Event>)
    requires start <= mid && (forall i :: 0 <= i < |xs| ==> xs[i].now == mid) && Timed(mid, ys)
    ensures Timed(start, xs + ys) && Clock(start, xs + ys) <= Clock(mid, ys)
  {
    var all := xs + ys;
    forall i | 0 <= i < |all| ensures mid <= all[i].now {
      if i >= |xs| { assert all[i] == ys[i - |xs|]; }
    }
    forall i, j | 0 <= i < j < |all| ensures all[i].now <= all[j].now {
      if i >= |xs| { assert all[i] == ys[i - |xs|] && all[j] == ys[j - |xs|]; }
    }
  }

  /** A breaker that was not open to begin with never opened in the future. */
  lemma {:induction false} OpenedInThePast(b: Breaker, start: real, es: seq<Event>)
    requires b.phase != Open && Timed(start, es)
    ensures Run(b, es).phase == Open ==> Run(b, es).openedAt <= Clock(start, es)
  {
    if es != [] {
      TimedPrefix(start, es);
      OpenedInThePast(b, start, es[..|es| - 1]);
    }
  }

  /** The stored list and the full log agree on the window that ends at `now`. */
  ghost predicate Agrees(stored: seq<real>, log: seq<real>, window: real, now: real) {
    After(stored, now - window) == After(log, now - window)
  }

  lemma {:induction false} AgreesAfterFailure(stored: seq<real>, log: seq<real>, window: real, now: real)
    requires Agrees(stored, log, window, now)
    ensures Agrees(After(stored + [now], now - window), log + [now], window, now)
  {
    hide After;
    AfterSnoc(stored, now, now - window);
    AfterSnoc(log, now, now - window);
    AfterAfter(stored + [now], now - window, now - window);
  }

  lemma {:induction false} StepAgrees(b: Breaker, log: seq<real>, e: Event)
    requires Agrees(b.failures, log, b.window, e.now)
    ensures Agrees(Step(b, e).failures, LogAfter(b, log, e), b.window, e.now)
  {
    hide After;
    match e.kind {
      case Failure => AgreesAfterFailure(b.failures, log, b.window, e.now);
      case Success => AfterAfter(b.failures, e.now - b.window, e.now - b.window);
      case Check =>
      case Reset =>
    }
  }

  /** Repeated trimming loses nothing: the stored list and the full log agree on every window from now on. */
  lemma {:induction false} TrimmingLosesNothing(b: Breaker, start: real, es: seq<Event>)
    requires Timed(start, es)
    ensures Agrees(Run(b, es).failures, FailureLog(b, es), b.window, Clock(start, es))
  {
    hide After, Step, LogAfter, Timed;
    if es != [] {
      var before, last := es[..|es| - 1], es[|es| - 1];
      TimedPrefix(start, es);
      TrimmingLosesNothing(b, start, before);
      RunKeepsLimits(b, before);
      var c, log := Run(b, before), FailureLog(b, before);
      AgreeLater(c.failures, log, Clock(start, before) - b.window, last.now - b.window);
      StepAgrees(c, log, last);
    }
  }

  /** At any later time `failure_count` counts all the failures since the last clear that lie in the window. */
  lemma {:induction false} FailureCountIsExact(b: Breaker, start: real, es: seq<Event>, now: real)
    requires Timed(start, es) && Clock(start, es) <= now
    ensures FailureCount(Run(b, es), now) == |After(FailureLog(b, es), now - b.window)|
  {
    TrimmingLosesNothing(b, start, es);
    RunKeepsLimits(b, es);
    AgreeLater(Run(b, es).failures, FailureLog(b, es), Clock(start, es) - b.window, now - b.window);
  }

  /** A closed breaker stores fewer failures than the threshold. */
  lemma {:induction false} ClosedIsBelowThreshold(b: Breaker, es: seq<Event>)
    requires b.threshold >= 1 && b.phase == Closed && b.failures == []
    ensures var c := Run(b, es); c.phase == Closed ==> |c.failures| < c.threshold
  {
    if es != [] {
      var before, last := es[..|es| - 1], es[|es| - 1];
      ClosedIsBelowThreshold(b, before);
      RunKeepsLimits(b, before);
      var c := Run(b, before);
      AfterShorter(c.failures, last.now - c.window, last.now - c.window);
    }
  }

  /** A closed breaker leaves CLOSED only by a failure that brings the window to the threshold, and then to OPEN. */
  lemma {:induction false} TripsExactlyAtThreshold(b: Breaker, start: real, es: seq<Event>, e: Event)
    requires b.threshold >= 1 && b.phase == Closed && b.failures == []
    requires Timed(start, es) && Clock(start, es) <= e.now
    requires Run(b, es).phase == Closed
    ensures var after := Step(Run(b, es), e);
            && (after.phase == Open <==>
                e.kind == Failure && |After(FailureLog(b, es) + [e.now], e.now - b.window)| == b.threshold)
            && (after.phase == Open ==> after.openedAt == e.now)
            && after.phase != HalfOpen
  {
    hide After, Run, FailureLog, Timed;
    var c, log, cut := Run(b, es), FailureLog(b, es), e.now - b.window;
    ClosedIsBelowThreshold(b, es);
    RunKeepsLimits(b, es);
    TrimmingLosesNothing(b, start, es);
    AgreeLater(c.failures, log, Clock(start, es) - b.window, cut);
    AfterSnoc(c.failures, e.now, cut);
    AfterSnoc(log, e.now, cut);
    AfterShorter(c.failures, cut, cut);
  }

  ghost predicate NoReset(es: seq<Event>) {
    forall i :: 0 <= i < |es| ==> es[i].kind != Reset
  }

  /** While the recovery time has not passed, an open breaker stays open whatever is reported. */
  lemma {:induction false} StaysOpen(b: Breaker, es: seq<Event>)
    requires b.phase == Open && Timed(b.openedAt, es) && NoReset(es)
    requires Clock(b.openedAt, es) < b.openedAt + b.recovery
    ensures Run(b, es).phase == Open && Run(b, es).openedAt >= b.openedAt
  {
    if es != [] {
      var before := es[..|es| - 1];
      TimedPrefix(b.openedAt, es);
      StaysOpen(b, before);
      RunKeepsLimits(b, before);
    }
  }

  /** Quiet period: no call is admitted sooner than the recovery time after the breaker opened. */
  lemma {:induction false} QuietPeriod(b: Breaker, es: seq<Event>, now: real)
    requires b.phase == Open && Timed(b.openedAt, es) && NoReset(es)
    requires Clock(b.openedAt, es) <= now < b.openedAt + b.recovery
    ensures !Admits(Run(b, es), now)
  {
    StaysOpen(b, es);
    RunKeepsLimits(b, es);
  }

  /** An open breaker that is closed again let a probe in after the recovery time, and a success followed. */
  lemma {:induction false} ClosesOnlyThroughProbe(b: Breaker, es: seq<Event>) returns (probe: nat)
    requires b.phase == Open && Timed(b.openedAt, es) && NoReset(es)
    requires Run(b, es).phase != Open
    ensures probe < |es| && es[probe].kind == Check
    ensures Run(b, es[..probe]).phase == Open && Run(b, es[..probe + 1]).phase == HalfOpen
    ensures es[probe].now >= b.openedAt + b.recovery
    ensures Run(b, es).phase == Closed ==> exists i :: probe < i < |es| && es[i].kind == Success
  {
    hide After;
    var before, last := es[..|es| - 1], es[|es| - 1];
    TimedPrefix(b.openedAt, es);
    if Run(b, before).phase == Open {
      probe := |es| - 1;
      if last.now < b.openedAt + b.recovery {
        StaysOpen(b, es);
        assert false;
      }
      assert es[..probe + 1] == es;
    } else {
      probe := ClosesOnlyThroughProbe(b, before);
      assert before[..probe] == es[..probe] && before[..probe + 1] == es[..probe + 1];
      if Run(b, es).phase == Closed {
        if Run(b, before).phase == Closed {
          var i :| probe < i < |before| && before[i].kind == Success;
          assert es[i].kind == Success;
        } else {
          assert es[|es| - 1].kind == Success;
        }
      }
    }
  }

  lemma {:induction false} RunConcat(b: Breaker, xs: seq<Event>, ys: seq<Event>)
    ensures Run(b, xs + ys) == Run(Run(b, xs), ys)
  {
    if ys == [] {
      assert xs + ys == xs;
    } else {
      assert (xs + ys)[..|xs + ys| - 1] == xs + ys[..|ys| - 1];
      RunConcat(b, xs, ys[..|ys| - 1]);
    }
  }

  /** After a reset the breaker behaves, and counts failures, as if it had just been made. */
  lemma {:induction false} ResetForgets(b: Breaker, before: seq<Event>, now: real, later: seq<Event>)
    ensures var made := Fresh(b.threshold, b.recovery, b.window); var all := before + [Event(now, Reset)] + later;
            Run(b, all) == Run(made, later) && FailureLog(b, all) == FailureLog(made, later)
  {
    var upTo := before + [Event(now, Reset)];
    if later == [] {
      assert upTo + later == upTo && upTo[..|upTo| - 1] == before;
      RunKeepsLimits(b, before);
    } else {
      var rest := later[..|later| - 1];
      assert (upTo + later)[..|upTo + later| - 1] == upTo + rest;
      ResetForgets(b, before, now, rest);
    }
  }

  /**
   In HALF_OPEN any number of calls is let in, and the first report decides: back to OPEN from now, or
   CLOSED and cleared.
   */
  lemma {:induction false} FirstReportDecides(b: Breaker, checks: seq<Event>, e: Event)
    requires b.phase == HalfOpen && forall i :: 0 <= i < |checks| ==> checks[i].kind == Check
    requires e.kind == Failure || e.kind == Success
    ensures forall i :: 0 <= i < |checks| ==> Admits(Run(b, checks[..i]), checks[i].now)
    ensures var after := Run(b, checks + [e]);
            if e.kind == Failure then after.phase == Open && after.openedAt == e.now
            else after.phase == Closed && after.failures == []
  {
    assert (checks + [e])[..|checks|] == checks;
    StaysHalfOpen(b, checks);
    forall i | 0 <= i < |checks| ensures Admits(Run(b, checks[..i]), checks[i].now) {
      StaysHalfOpen(b, checks[..i]);
    }
  }

  lemma {:induction false} StaysHalfOpen(b: Breaker, checks: seq<Event>)
    requires b.phase == HalfOpen && forall i :: 0 <= i < |checks| ==> checks[i].kind == Check
    ensures Run(b, checks) == b
  {
    if checks != [] {
      StaysHalfOpen(b, checks[..|checks| - 1]);
    }
  }

  /** Without new failures an open breaker admits calls exactly from the recovery time on. */
  lemma {:induction false} RecoversOnTime(b: Breaker, es: seq<Event>, now: real)
    requires b.phase == Open && Timed(b.openedAt, es) && Clock(b.openedAt, es) < b.openedAt + b.recovery
    requires forall i :: 0 <= i < |es| ==> es[i].kind == Check || es[i].kind == Success
    ensures Run(b, es) == b
    ensures Admits(Run(b, es), now) <==> now >= b.openedAt + b.recovery
  {
    if es != [] {
      TimedPrefix(b.openedAt, es);
      RecoversOnTime(b, es[..|es| - 1], now);
    }
  }

  // ---- Failures reported while open -------------------------------------------------------

  /** Event `i` of the run is a failure that finds, or brings, the window to the threshold. */
  ghost predicate Extends(b: Breaker, es: seq<Event>, i: nat) {
    && i < |es| && es[i].kind == Failure
    && |After(FailureLog(b, es[..i]) + [es[i].now], es[i].now - b.window)| >= b.threshold
  }

  /**
   A failure that a call in flight reports while the breaker is OPEN starts the recovery time anew exactly when
   the failures in the window, never trimmed, are at the threshold.
   */
  lemma {:induction false} LateFailure(b: Breaker, start: real, es: seq<Event>, now: real)
    requires Timed(start, es) && Clock(start, es) <= now && Run(b, es).phase == Open
    ensures var after := Step(Run(b, es), Event(now, Failure));
            && after.phase == Open
            && after.openedAt == if |After(FailureLog(b, es) + [now], now - b.window)| >= b.threshold then now
                                 else Run(b, es).openedAt
  {
    hide After, Run, FailureLog, Timed;
    var c, log, cut := Run(b, es), FailureLog(b, es), now - b.window;
    RunKeepsLimits(b, es);
    TrimmingLosesNothing(b, start, es);
    AgreeLater(c.failures, log, Clock(start, es) - b.window, cut);
    AfterSnoc(c.failures, now, cut);
    AfterSnoc(log, now, cut);
  }

  /** `last` is the last event of the run that extends the open period, and -1 when there is none. */
  ghost predicate LastExtension(b: Breaker, es: seq<Event>, last: int) {
    && -1 <= last < |es| && (last >= 0 ==> Extends(b, es, last))
    && forall i :: last < i < |es| ==> !Extends(b, es, i)
  }

  lemma {:induction false} LastExtensionBefore(b: Breaker, es: seq<Event>, last: int)
    requires es != [] && LastExtension(b, es, last) && last != |es| - 1
    ensures LastExtension(b, es[..|es| - 1], last)
  {
    var before := es[..|es| - 1];
    forall i: nat | i < |before| ensures Extends(b, before, i) <==> Extends(b, es, i) {
      assert before[..i] == es[..i];
    }
  }

  /** While the breaker stays OPEN, calls are let in exactly from the recovery time after the last extension on. */
  lemma {:induction false} AdmitsAfterLastExtension(b: Breaker, start: real, es: seq<Event>, last: int, now: real)
    requires b.phase == Open && Timed(start, es) && LastExtension(b, es, last)
    requires forall i :: 0 <= i <= |es| ==> Run(b, es[..i]).phase == Open
    ensures var since := if last >= 0 then es[last].now else b.openedAt;
            Run(b, es).openedAt == since && (Admits(Run(b, es), now) <==> now >= since + b.recovery)
  {
    hide FailureLog, Timed, After, Step, LastExtension, Extends;
    RunKeepsLimits(b, es);
    assert es[..|es|] == es;
    if es == [] {
      NoExtension(b, last);
    } else {
      var n := |es| - 1;
      var before := es[..n];
      assert forall i :: 0 <= i <= n ==> before[..i] == es[..i];
      assert Run(b, before).phase == Open;
      TimedPrefix(start, es);
      LastEvent(b, start, es, last);
      if last != n {
        LastExtensionBefore(b, es, last);
        AdmitsAfterLastExtension(b, start, before, last, now);
      }
    }
  }

  lemma NoExtension(b: Breaker, last: int)
    requires LastExtension(b, [], last)
    ensures last == -1
  {
  }

  /** The last event moves the opening time exactly when it extends the open period. */
  lemma {:induction false} LastEvent(b: Breaker, start: real, es: seq<Event>, last: int)
    requires es != [] && Timed(start, es) && LastExtension(b, es, last)
    requires Run(b, es[..|es| - 1]).phase == Open && Run(b, es).phase == Open
    ensures -1 <= last < |es|
    ensures Run(b, es).openedAt == if last == |es| - 1 then es[last].now else Run(b, es[..|es| - 1]).openedAt
  {
    hide FailureLog, After;
    var n := |es| - 1;
    var c, e := Run(b, es[..n]), es[n];
    TimedPrefix(start, es);
    assert Run(b, es) == Step(c, e);
    assert last == n <==> Extends(b, es, n);
    hide Run, LastExtension;
    if e.kind == Failure {
      LateFailure(b, start, es[..n], e.now);
      assert e == Event(e.now, Failure);
    }
  }

  /** A success clears the failures only when it closes the breaker; otherwise the window keeps all of them. */
  lemma {:induction false} SuccessForgetsOnlyWhenClosing(b: Breaker, now: real, later: real)
    requires now <= later
    ensures var c := Step(b, Event(now, Success));
            FailureCount(c, later) == if b.phase == HalfOpen then 0 else FailureCount(b, later)
  {
    AfterAfter(b.failures, now - b.window, later - b.window);
  }
}
