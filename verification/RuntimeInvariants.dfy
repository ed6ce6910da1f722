/** What every step of every interleaving keeps, and what holds when a run is over. */
module RuntimeInvariants {
  import opened Collections
  import opened Graphs
  import opened ExecutionGraph
  import opened Nodes
  import opened Runtime
  import Retry
  import Breaker

  // ---- What a status is worth -------------------------------------------------------------

  /** Retries charged to the budget: those begun, and the one a sleeping node has recorded. */
  function RetriesOf(st: Status): nat {
    match st
    case Running(attempt, _) => if attempt == 0 then 0 else attempt - 1
    case Sleeping(attempt) => attempt
    case Succeeded(retries, _) => retries
    case Failed(retries) => retries
    case _ => 0
  }

  /** Upper bound on the attempts a node has begun. */
  function CallsOf(st: Status): nat {
    match st
    case Running(attempt, _) => attempt
    case Sleeping(attempt) => attempt
    case Succeeded(retries, _) => retries + 1
    case Failed(retries) => retries + 1
    case _ => 0
  }

  /** Upper bound on the events a node can still take part in. */
  function Fuel(max: int, st: Status): nat {
    var m := if max < 0 then 0 else max;
    match st
    case Idle => 2 * m + 3
    case Ready => 2 * m + 2
    case Running(attempt, _) => if attempt >= m then 1 else 2 * (m - attempt) + 1
    case Sleeping(attempt) => if attempt >= m then 0 else 2 * (m - attempt)
    case _ => 0
  }

  function RetryWeights(status: map<Id, Status>): map<Id, nat> {
    map id | id in status :: RetriesOf(status[id])
  }

  function CallWeights(status: map<Id, Status>): map<Id, nat> {
    map id | id in status :: CallsOf(status[id])
  }

  function TimedWeights(status: map<Id, Status>): map<Id, nat> {
    map id | id in status :: if status[id].Terminal() then RetriesOf(status[id]) else 0
  }

  function FuelWeights(job: Job, status: map<Id, Status>): map<Id, nat> {
    map id | id in status && id in job.nodes.byId :: Fuel(job.MaxAttempts(id), status[id])
  }

  function TimedRetries(timing: seq<Timing>): nat {
    if timing == [] then 0 else TimedRetries(timing[..|timing| - 1]) + timing[|timing| - 1].retries
  }

  predicate HasExecutor(job: Job, id: Id)
    requires id in job.nodes.byId
  {
    job.nodes.byId[id].nodeType in job.executors
  }

  // ---- The invariant ----------------------------------------------------------------------

  /** The attempts of a node stay within its policy. */
  ghost predicate StatusFits(job: Job, id: Id, st: Status)
    requires id in job.nodes.byId
  {
    var max := job.MaxAttempts(id);
    match st
    case Running(attempt, _) => 1 <= attempt <= max && HasExecutor(job, id)
    case Sleeping(attempt) => 1 <= attempt < max && HasExecutor(job, id)
    case Succeeded(retries, _) => retries < max && HasExecutor(job, id)
    case Failed(retries) => retries == 0 || (retries < max && HasExecutor(job, id))
    case _ => true
  }

  ghost predicate Fits(job: Job, s: State) {
    && s.status.Keys == job.nodes.byId.Keys
    && forall id :: id in job.nodes.byId ==> StatusFits(job, id, s.status[id])
  }

  /** A started node has only successful dependencies, a skipped one has one that failed or was skipped. */
  ghost predicate Ordered(job: Job, s: State) {
    && (forall v, d :: v in s.status && s.status[v].Started() && d in job.G().Deps(v) ==>
          d in s.status && s.status[d].Succeeded?)
    && (forall v :: v in s.status && s.status[v].Skipped? ==> BlockedBy(job, s, v))
  }

  ghost predicate BlockedBy(job: Job, s: State, v: Id) {
    exists d :: d in job.G().Deps(v) && d in s.status && (s.status[d].Failed? || s.status[d].Skipped?)
  }

  /** Levels below the current one are over, levels not yet entered are idle. */
  ghost predicate Levelled(job: Job, s: State) {
    && s.level <= |job.levels|
    && forall id, k: nat {:trigger HasLevel(job.G(), id, k)} :: HasLevel(job.G(), id, k) && id in s.status ==>
      (s.status[id].Idle? <==> k >= s.level) && (k + 1 < s.level ==> s.status[id].Terminal())
  }

  ghost predicate Booked(s: State) {
    && (forall id :: id in s.failed <==> id in s.status && s.status[id].Failed?)
    && (forall id :: id in s.skipped <==> id in s.status && s.status[id].Skipped?)
    && Distinct(s.skipped)
    && s.errors.Keys == s.failed
  }

  /** The store holds the outputs of the successful nodes and nothing else. */
  ghost predicate Stored(job: Job, s: State) {
    && s.producers.Keys == s.artifacts.Keys
    && (forall key :: key in s.artifacts <==> WrittenBy(job, s, key))
  }

  ghost predicate WrittenBy(job: Job, s: State, key: string) {
    exists id :: id in job.nodes.byId && id in s.status && s.status[id].Succeeded? && job.nodes.byId[id].output == key
  }

  ghost predicate OutputsDistinct(job: Job) {
    forall u, v :: u in job.nodes.byId && v in job.nodes.byId && u != v ==>
      job.nodes.byId[u].output != job.nodes.byId[v].output
  }

  /** With distinct output keys, each key holds the value of the node that writes it. */
  ghost predicate Faithful(job: Job, s: State) {
    forall id :: id in job.nodes.byId && id in s.status && s.status[id].Succeeded? ==>
      var key := job.nodes.byId[id].output;
      && key in s.artifacts && s.artifacts[key] == s.status[id].value
      && key in s.producers && s.producers[key] == id
  }

  /** Conservation of the shared budget. */
  ghost predicate Budgeted(job: Job, s: State) {
    && (forall id :: id in job.nodes.order ==> id in s.status)
    && s.used == SumOver(job.nodes.order, RetryWeights(s.status))
    && s.used <= (if job.maxRetries < 0 then 0 else job.maxRetries)
    && s.calls <= SumOver(job.nodes.order, CallWeights(s.status))
  }

  function TimedIds(timing: seq<Timing>): (r: seq<Id>)
    ensures |r| == |timing| && forall i :: 0 <= i < |timing| ==> r[i] == timing[i].nodeId
  {
    Mapped(timing, (t: Timing) => t.nodeId)
  }

  /** Exactly the finished nodes that have an executor are timed, once, with their outcome. */
  ghost predicate Timed(job: Job, s: State) {
    && Distinct(TimedIds(s.timing))
    && (forall id :: id in TimedIds(s.timing) <==>
          id in job.nodes.byId && id in s.status && HasExecutor(job, id)
          && (s.status[id].Succeeded? || s.status[id].Failed?))
    && (forall i :: 0 <= i < |s.timing| ==> TimingMatches(job, s, s.timing[i]))
  }

  ghost predicate TimingMatches(job: Job, s: State, t: Timing) {
    && t.nodeId in s.status
    && t.nodeId in job.nodes.byId && t.nodeType == job.nodes.byId[t.nodeId].nodeType
    && RetriesOf(s.status[t.nodeId]) == t.retries
    && (t.ok <==> s.status[t.nodeId].Succeeded?)
  }

  ghost predicate TimeTotals(job: Job, s: State) {
    && (forall id :: id in job.nodes.order ==> id in s.status)
    && TimedRetries(s.timing) == SumOver(job.nodes.order, TimedWeights(s.status))
  }

  ghost predicate Inv(job: Job, s: State) {
    && Fits(job, s)
    && Ordered(job, s)
    && Levelled(job, s)
    && Booked(s)
    && Stored(job, s)
    && (OutputsDistinct(job) ==> Faithful(job, s))
    && Budgeted(job, s)
    && Timed(job, s)
    && TimeTotals(job, s)
  }

  // ---- The move of a single node ----------------------------------------------------------

  /** The node goes from an active status to another one it can have. */
  ghost predicate StatusMove(job: Job, s: State, t: State, id: Id, x: Status) {
    && id in job.nodes.byId && id in s.status && s.status[id].Active()
    && x.Started() && !x.Ready?
    && StatusFits(job, id, x)
    && t.status == s.status[id := x]
    && t.level == s.level && t.skipped == s.skipped && t.groups == s.groups
  }

  /** A failure is entered in the books. */
  ghost predicate BookMove(s: State, t: State, id: Id, x: Status) {
    && t.failed == (if x.Failed? then s.failed + {id} else s.failed)
    && t.errors.Keys == (if x.Failed? then s.errors.Keys + {id} else s.errors.Keys)
    && (forall v :: v in s.errors && v != id ==> v in t.errors && t.errors[v] == s.errors[v])
  }

  /** A success is stored. */
  ghost predicate StoreMove(job: Job, s: State, t: State, id: Id, x: Status)
    requires id in job.nodes.byId
  {
    var key := job.nodes.byId[id].output;
    && t.artifacts == (if x.Succeeded? then s.artifacts[key := x.value] else s.artifacts)
    && t.producers == (if x.Succeeded? then s.producers[key := id] else s.producers)
  }

  /** The end of a node that has an executor is timed. */
  ghost predicate TimeMove(job: Job, s: State, t: State, id: Id, x: Status, timed: bool)
    requires id in job.nodes.byId
  {
    && t.timing == s.timing
       + (if timed then [Timing(id, job.nodes.byId[id].nodeType, RetriesOf(x), x.Succeeded?)] else [])
    && (timed ==> x.Terminal() && HasExecutor(job, id))
    && (!timed && x.Terminal() ==> RetriesOf(x) == 0 && !HasExecutor(job, id))
  }

  /** Retries and attempts are charged, and the node has fewer events left. */
  ghost predicate BudgetMove(job: Job, s: State, t: State, id: Id, x: Status)
    requires id in job.nodes.byId && id in s.status
  {
    && t.used + RetriesOf(s.status[id]) == s.used + RetriesOf(x)
    && (t.used <= s.used || t.used <= job.maxRetries)
    && t.calls + CallsOf(s.status[id]) <= s.calls + CallsOf(x)
    && Fuel(job.MaxAttempts(id), x) < Fuel(job.MaxAttempts(id), s.status[id])
  }

  /** Node `id` goes from an active status to `x`; everything else that changes follows from that. */
  ghost predicate NodeMove(job: Job, s: State, t: State, id: Id, x: Status, timed: bool) {
    && StatusMove(job, s, t, id, x)
    && BookMove(s, t, id, x)
    && StoreMove(job, s, t, id, x)
    && TimeMove(job, s, t, id, x, timed)
    && BudgetMove(job, s, t, id, x)
  }

  /** Only the attempt counter, the breaker and the clock differ. */
  ghost predicate SameBooks(s: State, t: State) {
    t == s.(calls := t.calls, breaker := t.breaker, clock := t.clock)
  }

  lemma {:induction false} FailIsMove(job: Job, s: State, s1: State, id: Id, retries: nat, error: NodeError)
    requires id in job.nodes.byId && id in s.status && HasExecutor(job, id) && SameBooks(s, s1)
    requires s.status[id].Active() && StatusFits(job, id, s.status[id]) && RetriesOf(s.status[id]) == retries
    requires s1.calls + CallsOf(s.status[id]) <= s.calls + retries + 1
    ensures NodeMove(job, s, FailNode(job, s1, id, retries, error), id, Failed(retries), true)
  {
  }

  lemma {:induction false} SucceedIsMove(job: Job, s: State, s1: State, id: Id, retries: nat, value: Artifact)
    requires id in job.nodes.byId && id in s.status && SameBooks(s, s1)
    requires s.status[id].Running? && StatusFits(job, id, s.status[id]) && RetriesOf(s.status[id]) == retries
    requires s1.calls == s.calls
    ensures NodeMove(job, s, SucceedNode(job, s1, id, retries, value), id, Succeeded(retries, value), true)
  {
  }

  lemma {:induction false} RunIsMove(job: Job, s: State, s1: State, id: Id, attempt: nat, input: Option<Artifact>)
    requires id in job.nodes.byId && id in s.status && HasExecutor(job, id) && SameBooks(s, s1)
    requires 1 <= attempt <= job.MaxAttempts(id)
    requires s.status[id] == if attempt == 1 then Ready else Sleeping(attempt - 1)
    requires s1.calls == s.calls + 1
    ensures var x := Running(attempt, input); NodeMove(job, s, s1.(status := s1.status[id := x]), id, x, false)
  {
  }

  lemma {:induction false} SleepIsMove(job: Job, s: State, s1: State, id: Id)
    requires id in job.nodes.byId && id in s.status && SameBooks(s, s1)
    requires s.status[id].Running? && StatusFits(job, id, s.status[id])
    requires s.status[id].attempt < job.MaxAttempts(id) && s.used < job.maxRetries && s1.calls == s.calls
    ensures var x := Sleeping(s.status[id].attempt);
            NodeMove(job, s, s1.(used := s.used + 1, status := s.status[id := x]), id, x, false)
  {
  }

  /** Beginning an attempt makes the node run, or fails it without touching the budget. */
  lemma {:induction false} BeginIsMove(job: Job, s: State, id: Id, attempt: nat, now: real)
    returns (x: Status, timed: bool)
    requires id in job.nodes.byId && id in s.status && HasExecutor(job, id)
    requires 1 <= attempt <= job.MaxAttempts(id)
    requires s.status[id] == if attempt == 1 then Ready else Sleeping(attempt - 1)
    ensures NodeMove(job, s, BeginAttempt(job, s, id, attempt, now), id, x, timed)
    ensures x.Running? || x == Failed(attempt - 1)
  {
    hide NodeMove, HasExecutor, FailNode;
    var s1 := s.(calls := s.calls + 1);
    if !Admitted(s, now) {
      FailIsMove(job, s, s1, id, attempt - 1, CircuitOpen);
      x, timed := Failed(attempt - 1), true;
    } else {
      var s2 := if s.breaker.None? then s1 else s1.(breaker := Some(Breaker.OnCheck(s.breaker.value, now)));
      match ReadKey(job.nodes.byId[id]) {
        case None =>
          RunIsMove(job, s, s2, id, attempt, None);
          x, timed := Running(attempt, None), false;
        case Some(key) =>
          if key in s2.artifacts {
            RunIsMove(job, s, s2, id, attempt, Some(s2.artifacts[key]));
            x, timed := Running(attempt, Some(s2.artifacts[key])), false;
          } else {
            FailIsMove(job, s, ReportFailure(s2, now), id, attempt - 1, ArtifactNotFound(key));
            x, timed := Failed(attempt - 1), true;
          }
      }
    }
  }

  lemma {:induction false} FinishIsMove(job: Job, s: State, id: Id, result: Retry.Attempt<Artifact>, now: real)
    returns (x: Status, timed: bool)
    requires id in job.nodes.byId && id in s.status && s.status[id].Running?
    requires StatusFits(job, id, s.status[id])
    ensures NodeMove(job, s, FinishAttempt(job, s, id, result, now), id, x, timed)
  {
    hide NodeMove, FailNode, SucceedNode;
    var attempt := s.status[id].attempt;
    match result {
      case Returned(v) =>
        SucceedIsMove(job, s, ReportSuccess(s, now), id, attempt - 1, v);
        x, timed := Succeeded(attempt - 1, v), true;
      case Fatal =>
        FailIsMove(job, s, ReportFailure(s, now), id, attempt - 1, OtherFailure);
        x, timed := Failed(attempt - 1), true;
      case Transient =>
        match Retry.AfterTransient(job.MaxAttempts(id), attempt, s.used < job.maxRetries) {
          case GiveUp =>
            FailIsMove(job, s, ReportFailure(s, now), id, attempt - 1, TransientFailure);
            x, timed := Failed(attempt - 1), true;
          case OutOfBudget =>
            FailIsMove(job, s, ReportFailure(s, now), id, attempt - 1, RetryBudgetExhausted);
            x, timed := Failed(attempt - 1), true;
          case SleepAndRetry =>
            SleepIsMove(job, s, ReportFailure(s, now), id);
            x, timed := Sleeping(attempt), false;
        }
    }
  }

  lemma {:induction false} StartFails(job: Job, s: State, id: Id, now: real) returns (x: Status, timed: bool)
    requires id in job.nodes.byId && id in s.status && s.status[id].Ready?
    requires !HasExecutor(job, id) || job.MaxAttempts(id) <= 0
    ensures NodeMove(job, s, StartNode(job, s, id, now), id, x, timed)
  {
    x, timed := Failed(0), HasExecutor(job, id);
  }

  /** The clock plays no part in a move. */
  lemma SameMove(job: Job, s: State, t: State, id: Id, x: Status, timed: bool, now: real)
    requires NodeMove(job, s.(clock := now), t, id, x, timed)
    ensures NodeMove(job, s, t, id, x, timed)
  {
  }

  lemma {:induction false} StepIsMove(job: Job, s: State, e: Event) returns (x: Status, timed: bool)
    requires Fits(job, s) && Enabled(job, s, e) && !e.EnterLevel?
    ensures NodeMove(job, s, Step(job, s, e), e.id, x, timed)
  {
    hide BeginAttempt, FinishAttempt, NodeMove;
    var s1 := s.(clock := e.now);
    match e {
      case Start(id, now) =>
        if HasExecutor(job, id) && job.MaxAttempts(id) > 0 {
          x, timed := BeginIsMove(job, s1, id, 1, now);
        } else {
          x, timed := StartFails(job, s1, id, now);
        }
      case Finish(id, result, now) =>
        x, timed := FinishIsMove(job, s1, id, result, now);
      case Wake(id, now) =>
        x, timed := BeginIsMove(job, s1, id, s.status[id].attempt + 1, now);
    }
    SameMove(job, s, Step(job, s, e), e.id, x, timed, e.now);
  }

  // ---- Node moves keep the invariant --------------------------------------------------------

  lemma {:induction false} MoveFits(job: Job, s: State, t: State, id: Id, x: Status)
    requires Fits(job, s) && StatusMove(job, s, t, id, x)
    ensures Fits(job, t)
  {
    hide StatusFits;
  }

  lemma {:induction false} MoveOrdered(job: Job, s: State, t: State, id: Id, x: Status)
    requires Ordered(job, s) && StatusMove(job, s, t, id, x)
    ensures Ordered(job, t)
  {
    hide StatusFits;
    forall v | v in t.status && t.status[v].Skipped?
      ensures BlockedBy(job, t, v)
    {
      assert BlockedBy(job, s, v);
      var d :| d in job.G().Deps(v) && d in s.status && (s.status[d].Failed? || s.status[d].Skipped?);
      assert t.status[d] == s.status[d];
    }
    hide BlockedBy;
  }

  lemma {:induction false} MoveLevelled(job: Job, s: State, t: State, id: Id, x: Status)
    requires Levelled(job, s) && StatusMove(job, s, t, id, x)
    ensures Levelled(job, t)
  {
    hide StatusFits, HasLevel;
  }

  lemma {:induction false} MoveBooked(job: Job, s: State, t: State, id: Id, x: Status)
    requires Booked(s) && StatusMove(job, s, t, id, x) && BookMove(s, t, id, x)
    ensures Booked(t)
  {
    hide StatusFits;
  }

  lemma {:induction false} MoveWrites(job: Job, s: State, t: State, id: Id, x: Status, key: string)
    requires StatusMove(job, s, t, id, x)
    ensures WrittenBy(job, t, key) <==> WrittenBy(job, s, key) || (x.Succeeded? && key == job.nodes.byId[id].output)
  {
    hide StatusFits;
    if WrittenBy(job, s, key) {
      var u :| u in job.nodes.byId && u in s.status && s.status[u].Succeeded? && job.nodes.byId[u].output == key;
      assert t.status[u] == s.status[u];
    }
    if x.Succeeded? && key == job.nodes.byId[id].output {
      assert t.status[id] == x;
    }
  }

  lemma {:induction false} MoveStored(job: Job, s: State, t: State, id: Id, x: Status)
    requires Stored(job, s) && StatusMove(job, s, t, id, x) && StoreMove(job, s, t, id, x)
    ensures Stored(job, t)
  {
    forall key ensures key in t.artifacts <==> WrittenBy(job, t, key) {
      MoveWrites(job, s, t, id, x, key);
    }
    hide StatusMove, WrittenBy;
  }

  lemma {:induction false} MoveFaithful(job: Job, s: State, t: State, id: Id, x: Status)
    requires OutputsDistinct(job) && Faithful(job, s) && StatusMove(job, s, t, id, x) && StoreMove(job, s, t, id, x)
    ensures Faithful(job, t)
  {
    hide StatusFits;
  }

  /** Changing one status changes one weight. */
  lemma {:induction false} MoveWeights(job: Job, s: State, t: State, id: Id, x: Status)
    requires StatusMove(job, s, t, id, x)
    ensures RetryWeights(t.status) == RetryWeights(s.status)[id := RetriesOf(x)]
    ensures CallWeights(t.status) == CallWeights(s.status)[id := CallsOf(x)]
    ensures TimedWeights(t.status) == TimedWeights(s.status)[id := if x.Terminal() then RetriesOf(x) else 0]
    ensures id in RetryWeights(s.status) && RetryWeights(s.status)[id] == RetriesOf(s.status[id])
    ensures id in CallWeights(s.status) && CallWeights(s.status)[id] == CallsOf(s.status[id])
    ensures id in TimedWeights(s.status) && TimedWeights(s.status)[id] == 0
  {
    hide StatusFits, RetriesOf, CallsOf;
  }

  lemma WeightKeys(status: map<Id, Status>, id: Id)
    ensures id in RetryWeights(status) <==> id in status
    ensures id in CallWeights(status) <==> id in status
    ensures id in TimedWeights(status) <==> id in status
  {
  }

  lemma {:induction false} MoveBudgeted(job: Job, s: State, t: State, id: Id, x: Status)
    requires job.nodes.IsDict() && Budgeted(job, s) && StatusMove(job, s, t, id, x) && BudgetMove(job, s, t, id, x)
    ensures Budgeted(job, t)
  {
    hide StatusFits, Fuel, RetryWeights, CallWeights, RetriesOf, CallsOf, Distinct;
    assert id in job.nodes.order by { assert id in Elems(job.nodes.order); }
    MoveWeights(job, s, t, id, x);
    forall v { WeightKeys(s.status, v); }
    SumOverUpdate(job.nodes.order, RetryWeights(s.status), id, RetriesOf(x));
    SumOverUpdate(job.nodes.order, CallWeights(s.status), id, CallsOf(x));
  }

  lemma {:induction false} MoveTimed(job: Job, s: State, t: State, id: Id, x: Status, timed: bool)
    requires Timed(job, s) && StatusMove(job, s, t, id, x) && TimeMove(job, s, t, id, x, timed)
    ensures Timed(job, t)
  {
    hide StatusFits, HasExecutor, TimedIds, Distinct, RetriesOf;
    assert id !in TimedIds(s.timing);
    MoveTimedIds(s, t, id, if timed then t.timing[|s.timing|..] else []);
    forall i | 0 <= i < |t.timing|
      ensures TimingMatches(job, t, t.timing[i])
    {
      if i < |s.timing| {
        assert TimingMatches(job, s, s.timing[i]);
        assert TimedIds(s.timing)[i] == s.timing[i].nodeId;
        assert s.timing[i].nodeId in TimedIds(s.timing);
      }
    }
    hide TimingMatches;
  }

  /** One more timing record adds its id to those timed. */
  lemma {:induction false} MoveTimedIds(s: State, t: State, id: Id, more: seq<Timing>)
    requires t.timing == s.timing + more && |more| <= 1 && (more != [] ==> more[0].nodeId == id)
    requires Distinct(TimedIds(s.timing)) && id !in TimedIds(s.timing)
    ensures Distinct(TimedIds(t.timing))
    ensures forall v :: v in TimedIds(t.timing) <==> v in TimedIds(s.timing) || (more != [] && v == id)
  {
    if more == [] {
      assert t.timing == s.timing;
    } else {
      assert TimedIds(t.timing) == TimedIds(s.timing) + [id];
      DistinctSnoc(TimedIds(s.timing), id);
    }
  }

  lemma {:induction false} MoveTotals(job: Job, s: State, t: State, id: Id, x: Status, timed: bool)
    requires job.nodes.IsDict() && TimeTotals(job, s)
    requires StatusMove(job, s, t, id, x) && TimeMove(job, s, t, id, x, timed)
    ensures TimeTotals(job, t)
  {
    hide StatusFits, HasExecutor, TimedWeights, RetriesOf, Distinct, TimedRetries;
    assert id in job.nodes.order by { assert id in Elems(job.nodes.order); }
    MoveWeights(job, s, t, id, x);
    forall v { WeightKeys(s.status, v); }
    SumOverUpdate(job.nodes.order, TimedWeights(s.status), id, if x.Terminal() then RetriesOf(x) else 0);
    if timed {
      TimedRetriesSnoc(s.timing, t.timing[|s.timing|]);
    } else {
      assert t.timing == s.timing;
    }
    hide StatusMove;
  }

  lemma {:induction false} TimedRetriesSnoc(timing: seq<Timing>, entry: Timing)
    ensures TimedRetries(timing + [entry]) == TimedRetries(timing) + entry.retries
  {
    assert (timing + [entry])[..|timing|] == timing;
  }

  lemma {:induction false} MoveKeepsInv(job: Job, s: State, t: State, id: Id, x: Status, timed: bool)
    requires job.WF() && Inv(job, s) && NodeMove(job, s, t, id, x, timed)
    ensures Inv(job, t)
  {
    hide Fits, Ordered, Levelled, Booked, Stored, Faithful, Budgeted, Timed, TimeTotals, OutputsDistinct;
    hide StatusMove, BookMove, StoreMove, TimeMove, BudgetMove, Acyclic, IsLevelling;
    MoveFits(job, s, t, id, x);
    MoveOrdered(job, s, t, id, x);
    MoveLevelled(job, s, t, id, x);
    MoveBooked(job, s, t, id, x);
    MoveStored(job, s, t, id, x);
    if OutputsDistinct(job) {
      MoveFaithful(job, s, t, id, x);
    }
    MoveBudgeted(job, s, t, id, x);
    MoveTimed(job, s, t, id, x, timed);
    MoveTotals(job, s, t, id, x, timed);
  }

  // ---- Entering a level -------------------------------------------------------------------

  /** At the barrier every dependency of a node of the next level is over. */
  ghost predicate DepsOver(job: Job, s: State, v: Id) {
    forall d :: d in job.G().Deps(v) ==> d in s.status && s.status[d].Terminal()
  }

  /** The loop over the level has treated the first `j` of its nodes. */
  ghost predicate Triaged(job: Job, s: State, t: State, level: seq<Id>) {
    && t == s.(status := t.status, skipped := t.skipped)
    && t.status.Keys == s.status.Keys
    && (forall id :: id in s.status && id !in level ==> t.status[id] == s.status[id])
    && (forall id :: id in level && id in s.status ==> t.status[id] == if BlockedBy(job, s, id) then Skipped else Ready)
    && (forall id :: id in t.skipped <==> id in s.skipped || (id in level && id in s.status && BlockedBy(job, s, id)))
    && Distinct(t.skipped)
  }

  /** The nodes of the level are idle, and everything they depend on is over and outside the level. */
  ghost predicate CanEnter(job: Job, s: State, level: seq<Id>) {
    && Distinct(level)
    && (forall id :: id in level ==> id in s.status && s.status[id].Idle? && DepsOver(job, s, id))
    && (forall id, d :: id in level && d in job.G().Deps(id) ==> d !in level)
  }

  /** The test the loop makes on its growing sets agrees with the statuses at the barrier. */
  lemma {:induction false} TriageTest(job: Job, s: State, t: State, level: seq<Id>, id: Id)
    requires Booked(s) && Triaged(job, s, t, level)
    requires id !in level && DepsOver(job, s, id)
    requires forall d :: d in job.G().Deps(id) ==> d !in level
    ensures (exists d :: d in job.G().Deps(id) && (d in t.failed || d in t.skipped)) <==> BlockedBy(job, s, id)
  {
    forall d | d in job.G().Deps(id)
      ensures (d in t.failed || d in t.skipped) <==> d in s.status && (s.status[d].Failed? || s.status[d].Skipped?)
    {
      assert d !in level;
      assert d in t.skipped <==> d in s.skipped;
    }
  }

  lemma {:induction false} TriageSorts(job: Job, s: State, level: seq<Id>)
    requires Booked(s) && CanEnter(job, s, level)
    ensures Triaged(job, s, Triage(job, s, level), level)
  {
    if level != [] {
      var last := |level| - 1;
      var before, id := level[..last], level[last];
      assert level == before + [id];
      TriageSorts(job, s, before);
      var t := Triage(job, s, before);
      assert id !in before;
      TriageTest(job, s, t, before, id);
      assert id in level && s.status[id].Idle?;
      assert id !in t.skipped;
      TriagedSnoc(job, s, t, before, id);
    }
  }

  /** One turn of the loop, once the test has been decided. */
  ghost predicate TurnOf(t: State, u: State, id: Id, blocked: bool) {
    u == t.(status := t.status[id := if blocked then Skipped else Ready],
            skipped := if blocked then t.skipped + [id] else t.skipped)
  }

  lemma {:induction false} TriagedSnoc(job: Job, s: State, t: State, level: seq<Id>, id: Id)
    requires Booked(s) && Triaged(job, s, t, level)
    requires id in s.status && s.status[id].Idle? && id !in level && id !in t.skipped
    requires (exists d :: d in job.G().Deps(id) && (d in t.failed || d in t.skipped)) <==> BlockedBy(job, s, id)
    ensures Triaged(job, s, TriageOne(job, t, id), level + [id])
  {
    var u := TriageOne(job, t, id);
    assert TurnOf(t, u, id, BlockedBy(job, s, id)) by {
      hide Triaged, Booked;
    }
    TriagedTurn(job, s, t, u, level, id);
  }

  lemma {:induction false} TriagedTurn(job: Job, s: State, t: State, u: State, level: seq<Id>, id: Id)
    requires Triaged(job, s, t, level) && id in s.status && id !in level && id !in t.skipped
    requires TurnOf(t, u, id, BlockedBy(job, s, id))
    ensures Triaged(job, s, u, level + [id])
  {
    hide BlockedBy, Distinct;
    DistinctSnoc(t.skipped, id);
  }

  lemma {:induction false} LevelCanBeEntered(job: Job, s: State)
    requires job.WF() && Fits(job, s) && Levelled(job, s) && AtBarrier(s) && s.level < |job.levels|
    ensures CanEnter(job, s, job.levels[s.level])
  {
    var g, k, level := job.G(), s.level, job.levels[s.level];
    forall id | id in level
      ensures id in s.status && s.status[id].Idle? && DepsOver(job, s, id)
    {
      assert HasLevel(g, id, k);
      forall d | d in g.Deps(id) ensures d in s.status && s.status[d].Terminal() {
        var j := DepIsLower(job, id, k, d);
      }
    }
    forall id, d | id in level && d in g.Deps(id)
      ensures d !in level
    {
      assert HasLevel(g, id, k);
      var j := DepIsLower(job, id, k, d);
      assert d in level <==> HasLevel(g, d, k);
    }
  }

  lemma {:induction false} DepIsLower(job: Job, id: Id, k: nat, d: Id) returns (j: nat)
    requires job.WF() && HasLevel(job.G(), id, k) && d in job.G().Deps(id)
    ensures d in job.nodes.byId && j < k && HasLevel(job.G(), d, j) && !HasLevel(job.G(), d, k)
  {
    var g := job.G();
    LevelOfDeps(g, id, k);
    assert d in g.deps;
    j := LevelExists(g, d);
    if k <= j {
      ChainShorter(g, d, k, j);
    }
  }

  /** The state after a level has been entered, described node by node. */
  ghost predicate Entered(job: Job, s: State, t: State, level: seq<Id>) {
    && Triaged(job, s, s.(status := t.status, skipped := t.skipped), level)
    && t == s.(status := t.status, skipped := t.skipped, level := s.level + 1, groups := t.groups, clock := t.clock)
  }

  lemma {:induction false} TriageFrame(job: Job, s: State, groups: seq<seq<Id>>, clock: real, level: seq<Id>)
    ensures Triage(job, s.(groups := groups, clock := clock), level)
         == Triage(job, s, level).(groups := groups, clock := clock)
  {
    if level != [] {
      TriageFrame(job, s, groups, clock, level[..|level| - 1]);
    }
  }

  lemma {:induction false} EnterEnters(job: Job, s: State, now: real)
    requires job.WF() && Fits(job, s) && Levelled(job, s) && Booked(s) && AtBarrier(s) && s.level < |job.levels|
    ensures CanEnter(job, s, job.levels[s.level])
    ensures Entered(job, s, Enter(job, s.(clock := now)), job.levels[s.level])
  {
    hide Fits, Levelled, CanEnter;
    var level := job.levels[s.level];
    LevelCanBeEntered(job, s);
    TriageSorts(job, s, level);
    TriageFrame(job, s, if |level| > 1 then s.groups + [level] else s.groups, now, level);
  }

  lemma {:induction false} EnterOrdered(job: Job, s: State, t: State, level: seq<Id>)
    requires Ordered(job, s) && CanEnter(job, s, level) && Entered(job, s, t, level)
    ensures Ordered(job, t)
  {
    forall v | v in t.status && t.status[v].Started() && v in level
      ensures forall d :: d in job.G().Deps(v) ==> d in t.status && t.status[d].Succeeded?
    {
      EnteredStarts(job, s, t, level, v);
    }
    forall v | v in t.status && t.status[v].Skipped?
      ensures BlockedBy(job, t, v)
    {
      EnteredSkips(job, s, t, level, v);
    }
    hide BlockedBy, DepsOver;
  }

  lemma {:induction false} EnteredStarts(job: Job, s: State, t: State, level: seq<Id>, v: Id)
    requires CanEnter(job, s, level) && Entered(job, s, t, level)
    requires v in level && v in t.status && t.status[v].Started()
    ensures forall d :: d in job.G().Deps(v) ==> d in t.status && t.status[d].Succeeded?
  {
    hide BlockedBy;
    assert DepsOver(job, s, v) && !BlockedBy(job, s, v);
    forall d | d in job.G().Deps(v) ensures d in t.status && t.status[d].Succeeded? {
      assert d !in level;
      NotBlocking(job, s, v, d);
    }
  }

  lemma NotBlocking(job: Job, s: State, v: Id, d: Id)
    requires !BlockedBy(job, s, v) && d in job.G().Deps(v) && d in s.status && s.status[d].Terminal()
    ensures s.status[d].Succeeded?
  {
  }

  lemma {:induction false} EnteredSkips(job: Job, s: State, t: State, level: seq<Id>, v: Id)
    requires Ordered(job, s) && CanEnter(job, s, level) && Entered(job, s, t, level)
    requires v in t.status && t.status[v].Skipped?
    ensures BlockedBy(job, t, v)
  {
    assert BlockedBy(job, s, v);
    hide DepsOver;
    var d :| d in job.G().Deps(v) && d in s.status && (s.status[d].Failed? || s.status[d].Skipped?);
    assert d !in level;
    assert t.status[d] == s.status[d];
  }

  lemma {:induction false} EnterLevelled(job: Job, s: State, t: State)
    requires job.WF() && Levelled(job, s) && AtBarrier(s) && s.level < |job.levels|
    requires Entered(job, s, t, job.levels[s.level])
    ensures Levelled(job, t)
  {
    hide BlockedBy;
    var g, level := job.G(), job.levels[s.level];
    forall id, k: nat | HasLevel(g, id, k) && id in t.status
      ensures (t.status[id].Idle? <==> k >= t.level) && (k + 1 < t.level ==> t.status[id].Terminal())
    {
      assert id in level <==> HasLevel(g, id, s.level);
      if id in level {
        LevelUnique(g, id, k, s.level);
      } else {
        assert k != s.level;
        assert t.status[id] == s.status[id];
      }
    }
  }

  /** Entering a level makes idle nodes ready or skipped, and leaves the others as they are. */
  ghost predicate Woken(before: Status, after: Status) {
    after == before || (before.Idle? && (after.Ready? || after.Skipped?))
  }

  ghost predicate OnlyWakes(s: State, t: State) {
    t.status.Keys == s.status.Keys && forall id :: id in s.status ==> Woken(s.status[id], t.status[id])
  }

  lemma {:induction false} EnterOnlyWakes(job: Job, s: State, t: State, level: seq<Id>)
    requires CanEnter(job, s, level) && Entered(job, s, t, level)
    ensures OnlyWakes(s, t)
  {
    hide BlockedBy, DepsOver;
    forall id | id in s.status ensures Woken(s.status[id], t.status[id]) {
      if id in level {
        assert s.status[id].Idle?;
      }
    }
  }

  lemma {:induction false} EnterFits(job: Job, s: State, t: State, level: seq<Id>)
    requires Fits(job, s) && CanEnter(job, s, level) && Entered(job, s, t, level)
    ensures Fits(job, t)
  {
    hide CanEnter, Entered, HasExecutor, StatusFits, Woken;
    EnterOnlyWakes(job, s, t, level);
    forall id | id in job.nodes.byId ensures StatusFits(job, id, t.status[id]) {
      WokenFits(job, id, s.status[id], t.status[id]);
    }
  }

  lemma WokenFits(job: Job, id: Id, before: Status, after: Status)
    requires id in job.nodes.byId && StatusFits(job, id, before) && Woken(before, after)
    ensures StatusFits(job, id, after)
  {
  }

  lemma {:induction false} EnterBooked(job: Job, s: State, t: State, level: seq<Id>)
    requires Booked(s) && CanEnter(job, s, level) && Entered(job, s, t, level)
    ensures Booked(t)
  {
    hide BlockedBy, DepsOver;
  }

  lemma {:induction false} EnterStored(job: Job, s: State, t: State, level: seq<Id>)
    requires CanEnter(job, s, level) && Entered(job, s, t, level)
    ensures Stored(job, s) ==> Stored(job, t)
    ensures Faithful(job, s) ==> Faithful(job, t)
  {
    EnterOnlyWakes(job, s, t, level);
    hide CanEnter, BlockedBy, DepsOver;
    forall id | id in s.status ensures t.status[id].Succeeded? ==> t.status[id] == s.status[id] {
      assert Woken(s.status[id], t.status[id]);
    }
    forall key ensures WrittenBy(job, t, key) <==> WrittenBy(job, s, key) {
      if WrittenBy(job, s, key) {
        var id :| id in job.nodes.byId && id in s.status && s.status[id].Succeeded? && job.nodes.byId[id].output == key;
        assert Woken(s.status[id], t.status[id]) && t.status[id].Succeeded?;
      }
    }
  }

  lemma {:induction false} EnterWeights(s: State, t: State)
    requires OnlyWakes(s, t)
    ensures RetryWeights(t.status) == RetryWeights(s.status)
    ensures CallWeights(t.status) == CallWeights(s.status)
    ensures TimedWeights(t.status) == TimedWeights(s.status)
  {
    hide RetriesOf, CallsOf, Woken;
    forall id | id in s.status
      ensures RetriesOf(t.status[id]) == RetriesOf(s.status[id]) && CallsOf(t.status[id]) == CallsOf(s.status[id])
      ensures TimedWeights(t.status)[id] == TimedWeights(s.status)[id]
    {
      WokenWeighs(s.status[id], t.status[id]);
    }
  }

  lemma WokenWeighs(before: Status, after: Status)
    requires Woken(before, after)
    ensures RetriesOf(after) == RetriesOf(before) && CallsOf(after) == CallsOf(before)
    ensures (if after.Terminal() then RetriesOf(after) else 0) == if before.Terminal() then RetriesOf(before) else 0
  {
  }

  lemma SameStatusKeys(s: State, t: State)
    requires OnlyWakes(s, t)
    ensures t.status.Keys == s.status.Keys
  {
  }

  lemma {:induction false} EnterTotals(job: Job, s: State, t: State, level: seq<Id>)
    requires Budgeted(job, s) && TimeTotals(job, s) && CanEnter(job, s, level) && Entered(job, s, t, level)
    ensures Budgeted(job, t) && TimeTotals(job, t)
  {
    EnterOnlyWakes(job, s, t, level);
    EnterWeights(s, t);
    SameStatusKeys(s, t);
    hide CanEnter, Triaged, OnlyWakes, RetryWeights, CallWeights, TimedWeights;
    forall id { WeightKeys(s.status, id); }
  }

  lemma {:induction false} EnterTimed(job: Job, s: State, t: State, level: seq<Id>)
    requires Timed(job, s) && CanEnter(job, s, level) && Entered(job, s, t, level)
    ensures Timed(job, t)
  {
    hide BlockedBy, DepsOver, HasExecutor;
    forall i | 0 <= i < |t.timing|
      ensures TimingMatches(job, t, t.timing[i])
    {
      assert TimingMatches(job, s, s.timing[i]);
      assert TimedIds(s.timing)[i] == s.timing[i].nodeId;
      assert s.timing[i].nodeId in TimedIds(s.timing);
    }
  }

  lemma {:induction false} EnterKeepsInv(job: Job, s: State, now: real)
    requires job.WF() && Inv(job, s) && AtBarrier(s) && s.level < |job.levels|
    ensures Inv(job, Enter(job, s.(clock := now)))
  {
    hide Fits, Ordered, Levelled, Booked, Stored, Faithful;
    hide Timed, CanEnter, Enter, OutputsDistinct, Budgeted, TimeTotals;
    hide Entered, Acyclic, IsLevelling;
    var t, level := Enter(job, s.(clock := now)), job.levels[s.level];
    EnterEnters(job, s, now);
    EnterFits(job, s, t, level);
    EnterBooked(job, s, t, level);
    EnterOrdered(job, s, t, level);
    EnterLevelled(job, s, t);
    EnterStored(job, s, t, level);
    EnterTimed(job, s, t, level);
    EnterTotals(job, s, t, level);
  }

  // ---- Whole runs -------------------------------------------------------------------------

  lemma {:induction false} ZeroSum(keys: seq<Id>, w: map<Id, nat>)
    requires forall id :: id in keys ==> id in w && w[id] == 0
    ensures SumOver(keys, w) == 0
  {
    if keys != [] {
      ZeroSum(keys[1..], w);
    }
  }

  lemma {:induction false} InitBudget(job: Job, breaker: Option<Breaker.Breaker>, clock: real)
    requires job.nodes.IsDict()
    ensures var s := Init(job, breaker, clock); Budgeted(job, s) && TimeTotals(job, s)
  {
    var s := Init(job, breaker, clock);
    forall id | id in job.nodes.order ensures id in s.status {
      assert id in Elems(job.nodes.order);
    }
    ZeroSum(job.nodes.order, RetryWeights(s.status));
    ZeroSum(job.nodes.order, CallWeights(s.status));
    ZeroSum(job.nodes.order, TimedWeights(s.status));
  }

  lemma {:induction false} InitInv(job: Job, breaker: Option<Breaker.Breaker>, clock: real)
    requires job.WF()
    ensures Inv(job, Init(job, breaker, clock))
  {
    hide Budgeted, TimeTotals, HasLevel;
    InitBudget(job, breaker, clock);
  }

  lemma {:induction false} StepKeepsInv(job: Job, s: State, e: Event)
    requires job.WF() && Inv(job, s) && Enabled(job, s, e)
    ensures Inv(job, Step(job, s, e))
  {
    hide Inv, NodeMove;
    assert Fits(job, s) && Levelled(job, s) by { InvParts(job, s); }
    if e.EnterLevel? {
      EnterKeepsInv(job, s, e.now);
    } else {
      var x, timed := StepIsMove(job, s, e);
      MoveKeepsInv(job, s, Step(job, s, e), e.id, x, timed);
    }
  }

  lemma InvParts(job: Job, s: State)
    requires Inv(job, s)
    ensures Fits(job, s) && Ordered(job, s) && Levelled(job, s) && Booked(s) && Stored(job, s)
    ensures Budgeted(job, s) && Timed(job, s) && TimeTotals(job, s)
  {
  }

  /** Every interleaving keeps the invariant at every step. */
  lemma {:induction false} RunKeepsInv(job: Job, s: State, es: seq<Event>)
    requires job.WF() && Inv(job, s) && IsRun(job, s, es)
    ensures Inv(job, After(job, s, es))
    decreases |es|
  {
    if es != [] {
      StepKeepsInv(job, s, es[0]);
      RunKeepsInv(job, Step(job, s, es[0]), es[1..]);
    }
  }
}
