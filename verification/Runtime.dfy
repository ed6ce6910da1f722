/**
 The graph runtime as a state machine. One event is one stretch of code between two awaits: the
 coroutines of a level run concurrently, so the events of different nodes interleave freely, and
 the next level starts only when `gather` has returned.
 */
module Runtime {
  import opened Collections
  import opened Graphs
  import opened ExecutionGraph
  import opened Nodes
  import Retry
  import Breaker

  datatype Artifact = Artifact(json: string)

  datatype NodeError =
    | NoExecutor
    | NoAttempts
    | CircuitOpen
    | ArtifactNotFound(key: string)
    | TransientFailure
    | OtherFailure
    | RetryBudgetExhausted

  /** A validated graph, its levels, the node types that have an executor, and the retry budget. */
  datatype Job = Job(nodes: NodeDict, levels: seq<seq<Id>>, executors: set<NodeType>, maxRetries: int) {
    function G(): Graph {
      DependencyGraph(nodes)
    }

    ghost predicate WF() {
      && Valid(G())
      && IsLevelling(G(), levels)
      && forall id :: id in nodes.byId ==> nodes.byId[id].nodeId == id
    }

    /** The number of retries the budget allows. */
    function Allowance(): nat {
      if maxRetries < 0 then 0 else maxRetries
    }

    function MaxAttempts(id: Id): int
      requires id in nodes.byId
    {
      match nodes.byId[id].retry
      case Some(p) => p.maxAttempts
      case None => 3
    }
  }

  /** Where a node's coroutine stands. */
  datatype Status =
    | Idle                                              // its level has not been entered
    | Ready                                             // its task exists but has not run yet
    | Running(attempt: nat, input: Option<Artifact>)    // awaiting the executor
    | Sleeping(attempt: nat)                            // backing off after that attempt
    | Succeeded(retries: nat, value: Artifact)
    | Failed(retries: nat)
    | Skipped
  {
    predicate Active() {
      Ready? || Running? || Sleeping?
    }

    predicate Terminal() {
      Succeeded? || Failed? || Skipped?
    }

    predicate Started() {
      Active() || Succeeded? || Failed?
    }
  }

  datatype Timing = Timing(nodeId: Id, nodeType: NodeType, retries: nat, ok: bool)

  datatype State = State(
    level: nat,
    status: map<Id, Status>,
    failed: set<Id>,
    skipped: seq<Id>,
    errors: map<Id, NodeError>,
    artifacts: map<string, Artifact>,
    producers: map<string, Id>,
    timing: seq<Timing>,
    groups: seq<seq<Id>>,
    used: nat,
    calls: nat,
    breaker: Option<Breaker.Breaker>,
    clock: real)

  function Init(job: Job, breaker: Option<Breaker.Breaker>, clock: real): State {
    State(0, map id | id in job.nodes.byId :: Idle, {}, [], map[], map[], map[], [], [], 0, 0, breaker, clock)
  }

  datatype Event =
    | EnterLevel(now: real)
    | Start(id: Id, now: real)
    | Finish(id: Id, result: Retry.Attempt<Artifact>, now: real)
    | Wake(id: Id, now: real)

  // ---- What the executors read and write --------------------------------------------------

  /** The artifact key an executor looks up before its tool call; counting ignores its reference. */
  function ReadKey(n: TypedNode): Option<string> {
    match n.nodeType
    case Geocode => None
    case Count => None
    case Query => if n.geometryRef.Some? && n.geometryRef.value != "" then n.geometryRef else None
    case Buffer => n.geometryRef
    case SpatialJoin => n.geometryRef
    case Proximity => n.geometryRef
    case Union => n.featuresRef
    case Summarize => n.featuresRef
  }

  // ---- One event --------------------------------------------------------------------------

  function FailNode(job: Job, s: State, id: Id, retries: nat, error: NodeError): State
    requires id in job.nodes.byId
  {
    s.(status := s.status[id := Failed(retries)],
       failed := s.failed + {id},
       errors := s.errors[id := error],
       timing := s.timing + [Timing(id, job.nodes.byId[id].nodeType, retries, false)])
  }

  /** A node type without executor fails before the timed section. */
  function FailUntimed(s: State, id: Id, error: NodeError): State {
    s.(status := s.status[id := Failed(0)], failed := s.failed + {id}, errors := s.errors[id := error])
  }

  function SucceedNode(job: Job, s: State, id: Id, retries: nat, value: Artifact): State
    requires id in job.nodes.byId
  {
    var n := job.nodes.byId[id];
    s.(status := s.status[id := Succeeded(retries, value)],
       artifacts := s.artifacts[n.output := value],
       producers := s.producers[n.output := id],
       timing := s.timing + [Timing(id, n.nodeType, retries, true)])
  }

  function ReportFailure(s: State, now: real): State {
    match s.breaker
    case None => s
    case Some(b) => s.(breaker := Some(Breaker.OnFailure(b, now)))
  }

  function ReportSuccess(s: State, now: real): State {
    match s.breaker
    case None => s
    case Some(b) => s.(breaker := Some(Breaker.OnSuccess(b, now)))
  }

  predicate Admitted(s: State, now: real) {
    s.breaker.Some? ==> Breaker.Admits(s.breaker.value, now)
  }

  /** Attempt number `attempt` begins: the breaker is asked, then the executor reads its reference. */
  function BeginAttempt(job: Job, s: State, id: Id, attempt: nat, now: real): State
    requires id in job.nodes.byId && attempt > 0
  {
    var s1 := s.(calls := s.calls + 1);
    if !Admitted(s, now) then FailNode(job, s1, id, attempt - 1, CircuitOpen)
    else
      var s2 := if s.breaker.None? then s1 else s1.(breaker := Some(Breaker.OnCheck(s.breaker.value, now)));
      match ReadKey(job.nodes.byId[id])
      case None => s2.(status := s2.status[id := Running(attempt, None)])
      case Some(key) =>
        if key in s2.artifacts then s2.(status := s2.status[id := Running(attempt, Some(s2.artifacts[key]))])
        else FailNode(job, ReportFailure(s2, now), id, attempt - 1, ArtifactNotFound(key))
  }

  function StartNode(job: Job, s: State, id: Id, now: real): State
    requires id in job.nodes.byId
  {
    if job.nodes.byId[id].nodeType !in job.executors then FailUntimed(s, id, NoExecutor)
    else if job.MaxAttempts(id) <= 0 then FailNode(job, s, id, 0, NoAttempts)
    else BeginAttempt(job, s, id, 1, now)
  }

  function FinishAttempt(job: Job, s: State, id: Id, result: Retry.Attempt<Artifact>, now: real): State
    requires id in job.nodes.byId && id in s.status && s.status[id].Running? && s.status[id].attempt > 0
  {
    var attempt := s.status[id].attempt;
    match result
    case Returned(v) => SucceedNode(job, ReportSuccess(s, now), id, attempt - 1, v)
    case Fatal => FailNode(job, ReportFailure(s, now), id, attempt - 1, OtherFailure)
    case Transient =>
      match Retry.AfterTransient(job.MaxAttempts(id), attempt, s.used < job.maxRetries)
      case GiveUp => FailNode(job, ReportFailure(s, now), id, attempt - 1, TransientFailure)
      case OutOfBudget => FailNode(job, ReportFailure(s, now), id, attempt - 1, RetryBudgetExhausted)
      case SleepAndRetry =>
        ReportFailure(s, now).(used := s.used + 1, status := s.status[id := Sleeping(attempt)])
  }

  /** One turn of the loop that sorts a level into runnable and skipped nodes. */
  function TriageOne(job: Job, s: State, id: Id): State {
    var deps := job.G().Deps(id);
    if exists d :: d in deps && (d in s.failed || d in s.skipped)
    then s.(status := s.status[id := Skipped], skipped := s.skipped + [id])
    else s.(status := s.status[id := Ready])
  }

  function Triage(job: Job, s: State, level: seq<Id>): State {
    if level == [] then s else TriageOne(job, Triage(job, s, level[..|level| - 1]), level[|level| - 1])
  }

  function Enter(job: Job, s: State): State
    requires s.level < |job.levels|
  {
    var level := job.levels[s.level];
    var s1 := s.(groups := if |level| > 1 then s.groups + [level] else s.groups);
    Triage(job, s1, level).(level := s.level + 1)
  }

  /** `gather` has returned: no coroutine of a level is still under way. */
  predicate AtBarrier(s: State) {
    forall id :: id in s.status ==> !s.status[id].Active()
  }

  predicate Enabled(job: Job, s: State, e: Event) {
    && s.clock <= e.now
    && match e
       case EnterLevel(_) => s.level < |job.levels| && AtBarrier(s)
       case Start(id, _) => id in job.nodes.byId && id in s.status && s.status[id].Ready?
       case Finish(id, _, _) =>
         id in job.nodes.byId && id in s.status && s.status[id].Running? && s.status[id].attempt > 0
       case Wake(id, _) => id in job.nodes.byId && id in s.status && s.status[id].Sleeping?
  }

  function Step(job: Job, s: State, e: Event): State
    requires Enabled(job, s, e)
  {
    var s1 := s.(clock := e.now);
    match e
    case EnterLevel(_) => Enter(job, s1)
    case Start(id, now) => StartNode(job, s1, id, now)
    case Finish(id, result, now) => FinishAttempt(job, s1, id, result, now)
    case Wake(id, now) => BeginAttempt(job, s1, id, s.status[id].attempt + 1, now)
  }

  /** `execute` has returned. */
  predicate Complete(job: Job, s: State) {
    s.level == |job.levels| && AtBarrier(s)
  }

  // ---- Runs -------------------------------------------------------------------------------

  predicate IsRun(job: Job, s: State, es: seq<Event>)
    decreases |es|
  {
    es == [] || (Enabled(job, s, es[0]) && IsRun(job, Step(job, s, es[0]), es[1..]))
  }

  function After(job: Job, s: State, es: seq<Event>): State
    requires IsRun(job, s, es)
    decreases |es|
  {
    if es == [] then s else After(job, Step(job, s, es[0]), es[1..])
  }
}
