/** What the executors are given to work on: at every moment of every run, the value of a node they depend on. */
module ExecutorInputs {
  import opened Collections
  import opened Graphs
  import opened ExecutionGraph
  import opened Nodes
  import opened Runtime
  import opened RuntimeInvariants
  import opened RuntimeTheorems
  import opened SequentialRun
  import Breaker
  import Retry

  /** A key that a started node reads is not the output of a node under way. */
  lemma {:induction false} ReadElsewhere(job: Job, s: State, u: Id, v: Id, key: string)
    requires OutputsDistinct(job) && ReadsResolved(job) && Ordered(job, s)
    requires u in job.nodes.byId && u in s.status && s.status[u].Active()
    requires v in job.nodes.byId && v in s.status && s.status[v].Started() && ReadKey(job.nodes.byId[v]) == Some(key)
    ensures key != job.nodes.byId[u].output
  {
    hide ReadKey, BlockedBy;
    assert ReadsFrom(job, v, key);
    var d :| d in job.G().Deps(v) && d in job.nodes.byId && job.nodes.byId[d].output == key;
    assert s.status[d].Succeeded?;
  }

  /** A success elsewhere does not change what a started node reads. */
  lemma {:induction false} InputStable(job: Job, s: State, u: Id, v: Id, value: Artifact)
    requires OutputsDistinct(job) && ReadsResolved(job) && Fits(job, s) && Ordered(job, s)
    requires u in job.nodes.byId && s.status[u].Active()
    requires v in job.nodes.byId && s.status[v].Started()
    ensures Input(job, s.artifacts[job.nodes.byId[u].output := value], v) == Input(job, s.artifacts, v)
  {
    hide ReadKey, OutputsDistinct, ReadsResolved, Ordered, StatusFits;
    if ReadKey(job.nodes.byId[v]).Some? {
      ReadElsewhere(job, s, u, v, ReadKey(job.nodes.byId[v]).value);
    }
  }

  /** Every node that is running has read what its reference leads to. */
  ghost predicate InputsRead(job: Job, s: State) {
    forall id {:trigger ReadsRight(job, s, id)} :: id in job.nodes.byId ==> ReadsRight(job, s, id)
  }

  ghost predicate ReadsRight(job: Job, s: State, id: Id)
    requires id in job.nodes.byId
  {
    id in s.status && s.status[id].Running? ==> s.status[id].input == Input(job, s.artifacts, id)
  }

  lemma {:induction false} BeginReads(job: Job, s: State, id: Id, attempt: nat, now: real)
    requires id in job.nodes.byId && attempt > 0
    ensures var t := BeginAttempt(job, s, id, attempt, now);
            t.artifacts == s.artifacts && ReadsRight(job, t, id)
  {
    hide ReadKey, ReportFailure, FailNode, Admitted, Breaker.OnCheck;
    var s1 := s.(calls := s.calls + 1);
    var s2 := if s.breaker.None? then s1 else s1.(breaker := Some(Breaker.OnCheck(s.breaker.value, now)));
    ReportKeepsStore(s2, now);
    FailedReads(job, s1, id, attempt - 1, CircuitOpen);
    if ReadKey(job.nodes.byId[id]).Some? {
      FailedReads(job, ReportFailure(s2, now), id, attempt - 1, ArtifactNotFound(ReadKey(job.nodes.byId[id]).value));
    }
  }

  lemma ReportKeepsStore(s: State, now: real)
    ensures ReportFailure(s, now).artifacts == s.artifacts
  {
  }

  lemma FailedReads(job: Job, s: State, id: Id, retries: nat, error: NodeError)
    requires id in job.nodes.byId
    ensures FailNode(job, s, id, retries, error).artifacts == s.artifacts
    ensures ReadsRight(job, FailNode(job, s, id, retries, error), id)
  {
  }

  lemma {:induction false} OwnReads(job: Job, s: State, e: Event)
    requires Enabled(job, s, e) && !e.EnterLevel?
    ensures ReadsRight(job, Step(job, s, e), e.id)
  {
    hide BeginAttempt, Input, HasExecutor, ReportFailure, ReportSuccess;
    var s1 := s.(clock := e.now);
    match e {
      case Start(id, now) => BeginReads(job, s1, id, 1, now);
      case Wake(id, now) => BeginReads(job, s1, id, s.status[id].attempt + 1, now);
      case Finish(_, _, _) =>
    }
  }

  lemma {:induction false} OthersRead(job: Job, s: State, t: State, id: Id, x: Status, timed: bool, v: Id)
    requires OutputsDistinct(job) && ReadsResolved(job) && Fits(job, s) && Ordered(job, s)
    requires NodeMove(job, s, t, id, x, timed) && v in job.nodes.byId && v != id && ReadsRight(job, s, v)
    ensures ReadsRight(job, t, v)
  {
    hide Input, OutputsDistinct, ReadsResolved, Ordered, StatusFits, TimeMove, BudgetMove;
    if x.Succeeded? && v in s.status && s.status[v].Started() {
      InputStable(job, s, id, v, x.value);
    }
  }

  lemma {:induction false} EnterReads(job: Job, s: State, e: Event)
    requires job.WF() && Fits(job, s) && Levelled(job, s) && Booked(s) && InputsRead(job, s)
    requires Enabled(job, s, e) && e.EnterLevel?
    ensures InputsRead(job, Step(job, s, e))
  {
    hide Step, Fits, Levelled, Booked, CanEnter, Triaged, Input, IsLevelling, Acyclic;
    var t := Step(job, s, e);
    EnterStep(job, s, e);
    EnterOnlyWakes(job, s, t, job.levels[s.level]);
    forall v | v in job.nodes.byId ensures ReadsRight(job, t, v) {
      assert ReadsRight(job, s, v);
    }
  }

  lemma {:induction false} StepReads(job: Job, s: State, e: Event)
    requires Disciplined(job) && Inv(job, s) && InputsRead(job, s) && Enabled(job, s, e)
    ensures InputsRead(job, Step(job, s, e))
  {
    hide Inv, Step, Fits, Ordered, Levelled, Booked, Stored, Budgeted, Timed, TimeTotals, NodeMove, ReadsRight;
    hide OutputsDistinct, ReadsResolved, IsLevelling, Acyclic, Enabled;
    InvParts(job, s);
    if e.EnterLevel? {
      EnterReads(job, s, e);
    } else {
      var x, timed := StepIsMove(job, s, e);
      OwnReads(job, s, e);
      forall v | v in job.nodes.byId ensures ReadsRight(job, Step(job, s, e), v) {
        if v != e.id {
          assert ReadsRight(job, s, v);
          OthersRead(job, s, Step(job, s, e), e.id, x, timed, v);
        }
      }
    }
  }

  /** At every step of every interleaving. */
  lemma {:induction false} RunReads(job: Job, s: State, es: seq<Event>)
    requires Disciplined(job) && Inv(job, s) && InputsRead(job, s) && IsRun(job, s, es)
    ensures InputsRead(job, After(job, s, es))
    decreases |es|
  {
    hide Inv, Step, InputsRead, Disciplined;
    if es != [] {
      StepReads(job, s, es[0]);
      DisciplinedWF(job);
      StepKeepsInv(job, s, es[0]);
      RunReads(job, Step(job, s, es[0]), es[1..]);
    }
  }

  lemma DisciplinedWF(job: Job)
    requires Disciplined(job)
    ensures job.WF()
  {
  }

  lemma InitReads(job: Job, breaker: Option<Breaker.Breaker>, clock: real)
    ensures InputsRead(job, Init(job, breaker, clock))
  {
  }

  /** `input` is the value that the successful node `d` has written under `key`. */
  ghost predicate IsValueOf(job: Job, s: State, d: Id, key: string, input: Option<Artifact>) {
    && d in job.nodes.byId && job.nodes.byId[d].output == key
    && d in s.status && s.status[d].Succeeded? && input == Some(s.status[d].value)
  }

  /** What a reference of a running node to the output of a dependency has led to. */
  lemma {:induction false} DependencyRead(job: Job, s: State, id: Id, d: Id)
    requires Inv(job, s) && OutputsDistinct(job) && InputsRead(job, s)
    requires id in job.nodes.byId && id in s.status && s.status[id].Running? && d in job.G().Deps(id)
    requires d in job.nodes.byId && ReadKey(job.nodes.byId[id]) == Some(job.nodes.byId[d].output)
    ensures IsValueOf(job, s, d, job.nodes.byId[d].output, s.status[id].input)
  {
    hide ReadKey, Fits, Levelled, Booked, Stored, Budgeted, Timed, TimeTotals, OutputsDistinct, BlockedBy;
    assert ReadsRight(job, s, id);
    assert d in s.status && s.status[d].Succeeded?;
  }
}
