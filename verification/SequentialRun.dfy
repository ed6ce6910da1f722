/**
 Executing the nodes one after the other under the shared retry budget, and what any execution of a graph
 amounts to: which node came to what, how many retries it spent, and which nodes were refused one.
 */
module SequentialRun {
  import opened Collections
  import opened Graphs
  import opened ExecutionGraph
  import opened Nodes
  import opened Runtime
  import opened RuntimeInvariants
  import opened RuntimeTheorems
  import opened RuntimeBreaker
  import Retry

  /** How each attempt of each executor ends, given the artifact it reads. */
  type Oracle = (Id, nat, Option<Artifact>) -> Retry.Attempt<Artifact>

  datatype NodeResult = ROk(value: Artifact) | RFailed | RSkipped

  // ---- One node at a time -----------------------------------------------------------------

  /** What the attempts from `attempt` on come to when every retry is granted: a value, or nothing. */
  function Settle(job: Job, ex: Oracle, id: Id, input: Option<Artifact>, attempt: nat): Option<Artifact>
    requires id in job.nodes.byId
    decreases job.MaxAttempts(id) - attempt
  {
    if attempt > job.MaxAttempts(id) then None
    else
      match ex(id, attempt, input)
      case Returned(v) => Some(v)
      case Fatal => None
      case Transient => if attempt == job.MaxAttempts(id) then None else Settle(job, ex, id, input, attempt + 1)
  }

  /** How many retries those attempts ask for. */
  function Demand(job: Job, ex: Oracle, id: Id, input: Option<Artifact>, attempt: nat): nat
    requires id in job.nodes.byId
    decreases job.MaxAttempts(id) - attempt
  {
    if attempt >= job.MaxAttempts(id) || !ex(id, attempt, input).Transient? then 0
    else 1 + Demand(job, ex, id, input, attempt + 1)
  }

  /** What the attempts come to under the budget. */
  datatype Trial = Trial(value: Option<Artifact>, retries: nat, refused: bool)

  /** The attempts from `attempt` on when `used` retries have been recorded on the shared budget. */
  function Try(job: Job, ex: Oracle, id: Id, input: Option<Artifact>, attempt: nat, used: nat): Trial
    requires id in job.nodes.byId
    decreases job.MaxAttempts(id) - attempt
  {
    if attempt > job.MaxAttempts(id) then Trial(None, 0, false)
    else
      match ex(id, attempt, input)
      case Returned(v) => Trial(Some(v), 0, false)
      case Fatal => Trial(None, 0, false)
      case Transient =>
        match Retry.AfterTransient(job.MaxAttempts(id), attempt, used < job.maxRetries)
        case GiveUp => Trial(None, 0, false)
        case OutOfBudget => Trial(None, 0, true)
        case SleepAndRetry =>
          var rest := Try(job, ex, id, input, attempt + 1, used + 1);
          rest.(retries := rest.retries + 1)
  }

  /** A trial is refused a retry with the budget used up, or takes all it asks for and ends as without a budget. */
  lemma {:induction false} TrialEnds(job: Job, ex: Oracle, id: Id, input: Option<Artifact>, attempt: nat, used: nat)
    requires id in job.nodes.byId
    ensures var t := Try(job, ex, id, input, attempt, used);
            var all := Demand(job, ex, id, input, attempt);
            if t.refused then t.value == None && t.retries < all && used + t.retries >= job.maxRetries
            else t.value == Settle(job, ex, id, input, attempt) && t.retries == all
    ensures var t := Try(job, ex, id, input, attempt, used); t.retries > 0 ==> used + t.retries <= job.maxRetries
    decreases job.MaxAttempts(id) - attempt
  {
    if attempt < job.MaxAttempts(id) && ex(id, attempt, input).Transient? && used < job.maxRetries {
      TrialEnds(job, ex, id, input, attempt + 1, used + 1);
    }
  }

  lemma {:induction false} DemandWithinPolicy(job: Job, ex: Oracle, id: Id, input: Option<Artifact>, attempt: nat)
    requires id in job.nodes.byId
    ensures var d := Demand(job, ex, id, input, attempt); d == 0 || attempt + d <= job.MaxAttempts(id)
    decreases job.MaxAttempts(id) - attempt
  {
    if attempt < job.MaxAttempts(id) && ex(id, attempt, input).Transient? {
      DemandWithinPolicy(job, ex, id, input, attempt + 1);
    }
  }

  function Input(job: Job, artifacts: map<string, Artifact>, id: Id): Option<Artifact>
    requires id in job.nodes.byId
  {
    match ReadKey(job.nodes.byId[id])
    case None => None
    case Some(key) => if key in artifacts then Some(artifacts[key]) else None
  }

  predicate Succeeds(results: map<Id, NodeResult>, d: Id) {
    d in results && results[d].ROk?
  }

  predicate Blocked(job: Job, results: map<Id, NodeResult>, id: Id) {
    exists d :: d in job.G().Deps(id) && !Succeeds(results, d)
  }

  // ---- All nodes in some order ------------------------------------------------------------

  /** Outcomes and artifacts so far, the retries each node has spent, and the nodes refused one. */
  datatype Execution = Execution(
    results: map<Id, NodeResult>, artifacts: map<string, Artifact>,
    spent: map<Id, nat>, refused: set<Id>, used: nat)

  function NotBegun(job: Job): Execution {
    Execution(map[], map[], map id | id in job.nodes.byId :: 0, {}, 0)
  }

  /** The execution with the result of one more node. */
  function Record(job: Job, e: Execution, id: Id, x: NodeResult, retries: nat, refused: bool): Execution
    requires id in job.nodes.byId
  {
    Execution(e.results[id := x],
              if x.ROk? then e.artifacts[job.nodes.byId[id].output := x.value] else e.artifacts,
              e.spent[id := retries],
              if refused then e.refused + {id} else e.refused,
              e.used + retries)
  }

  function RunOne(job: Job, ex: Oracle, e: Execution, id: Id): Execution
    requires id in job.nodes.byId
  {
    if Blocked(job, e.results, id) then Record(job, e, id, RSkipped, 0, false)
    else if !HasExecutor(job, id) then Record(job, e, id, RFailed, 0, false)
    else
      var t := Try(job, ex, id, Input(job, e.artifacts, id), 1, e.used);
      Record(job, e, id, if t.value.Some? then ROk(t.value.value) else RFailed, t.retries, t.refused)
  }

  /** Execute the nodes one after the other, each to its end. */
  function RunAll(job: Job, ex: Oracle, ord: seq<Id>): Execution
    requires forall id :: id in ord ==> id in job.nodes.byId
  {
    if ord == [] then NotBegun(job)
    else RunOne(job, ex, RunAll(job, ex, ord[..|ord| - 1]), ord[|ord| - 1])
  }

  // ---- What an execution amounts to -------------------------------------------------------

  /** Output keys are distinct and reads stay within the dependencies. */
  ghost predicate Disciplined(job: Job) {
    job.WF() && OutputsDistinct(job) && ReadsResolved(job)
  }

  /** The node's executor is called. */
  predicate Ran(job: Job, e: Execution, id: Id)
    requires id in job.nodes.byId
  {
    !Blocked(job, e.results, id) && HasExecutor(job, id)
  }

  /** The retries the node's attempts ask for. */
  function Wanted(job: Job, ex: Oracle, e: Execution, id: Id): nat
    requires id in job.nodes.byId
  {
    if Ran(job, e, id) then Demand(job, ex, id, Input(job, e.artifacts, id), 1) else 0
  }

  /** What the node comes to when every retry is granted. */
  function Outcome(job: Job, ex: Oracle, e: Execution, id: Id): NodeResult
    requires id in job.nodes.byId
  {
    if Blocked(job, e.results, id) then RSkipped
    else if !HasExecutor(job, id) then RFailed
    else
      match Settle(job, ex, id, Input(job, e.artifacts, id), 1)
      case Some(v) => ROk(v)
      case None => RFailed
  }

  /** A node that was refused a retry has failed short of what it wanted; any other got all of it. */
  ghost predicate Account(job: Job, ex: Oracle, e: Execution, id: Id) {
    && id in job.nodes.byId && id in e.results && id in e.spent
    && (if id in e.refused then e.results[id] == RFailed && e.spent[id] < Wanted(job, ex, e, id)
        else e.results[id] == Outcome(job, ex, e, id) && e.spent[id] == Wanted(job, ex, e, id))
    && (e.results[id].ROk? ==>
          job.nodes.byId[id].output in e.artifacts && e.artifacts[job.nodes.byId[id].output] == e.results[id].value)
  }

  ghost predicate Produced(job: Job, r: map<Id, NodeResult>, key: string) {
    exists id :: id in r && id in job.nodes.byId && r[id].ROk? && job.nodes.byId[id].output == key
  }

  /** Every outcome is accounted for by those before it, and the store holds the outputs of the successes. */
  ghost predicate Accounted(job: Job, ex: Oracle, e: Execution) {
    && (forall id {:trigger Account(job, ex, e, id)} :: id in e.results ==> Account(job, ex, e, id))
    && (forall key :: key in e.artifacts <==> Produced(job, e.results, key))
    && e.refused <= e.results.Keys
  }

  /** The budget pays for the retries spent, and has run out when one was refused. */
  ghost predicate Charged(job: Job, e: Execution) {
    && e.spent.Keys == job.nodes.byId.Keys
    && (forall id :: id in job.nodes.order ==> id in e.spent)
    && (forall id :: id in e.spent && id !in e.results ==> e.spent[id] == 0)
    && e.used == SumOver(job.nodes.order, e.spent)
    && e.used <= job.Allowance()
    && (e.refused != {} ==> e.used >= job.maxRetries)
  }

  /** The artifact a node reads when none of its dependencies blocks it. */
  lemma {:induction false} InputComesFrom(job: Job, r: map<Id, NodeResult>, id: Id, key: string) returns (d: Id)
    requires ReadsResolved(job) && id in job.nodes.byId && ReadKey(job.nodes.byId[id]) == Some(key)
    requires !Blocked(job, r, id)
    ensures d in job.G().Deps(id) && d in job.nodes.byId && job.nodes.byId[d].output == key
    ensures d in r && r[d].ROk?
  {
    assert ReadsFrom(job, id, key);
    d :| d in job.G().Deps(id) && d in job.nodes.byId && job.nodes.byId[d].output == key;
    assert Succeeds(r, d);
  }

  /** What the node finds when its turn comes. */
  ghost predicate SameStart(job: Job, e: Execution, f: Execution, v: Id)
    requires v in job.nodes.byId
  {
    && (Blocked(job, f.results, v) <==> Blocked(job, e.results, v))
    && (!Blocked(job, e.results, v) ==> Input(job, f.artifacts, v) == Input(job, e.artifacts, v))
  }

  lemma {:induction false} SameStartSameEnd(job: Job, ex: Oracle, e: Execution, f: Execution, v: Id)
    requires v in job.nodes.byId && SameStart(job, e, f, v)
    ensures Outcome(job, ex, f, v) == Outcome(job, ex, e, v) && Wanted(job, ex, f, v) == Wanted(job, ex, e, v)
    ensures Ran(job, f, v) <==> Ran(job, e, v)
  {
    hide Blocked, Input, Settle, Demand, HasExecutor;
  }

  /** Executions that agree on what a node depends on agree on how it starts. */
  lemma {:induction false} AgreeingDeps(job: Job, ex: Oracle, e: Execution, f: Execution, v: Id)
    requires Disciplined(job) && v in job.nodes.byId
    requires forall d :: d in job.G().Deps(v) ==>
      && d in e.results && d in f.results && e.results[d] == f.results[d]
      && Account(job, ex, e, d) && Account(job, ex, f, d)
    ensures SameStart(job, e, f, v)
  {
    hide ReadKey, OutputsDistinct, ReadsResolved, Outcome, Wanted;
    forall d | d in job.G().Deps(v) ensures Succeeds(e.results, d) <==> Succeeds(f.results, d) {}
    assert Blocked(job, e.results, v) <==> Blocked(job, f.results, v);
    if !Blocked(job, e.results, v) && ReadKey(job.nodes.byId[v]).Some? {
      var d := InputComesFrom(job, e.results, v, ReadKey(job.nodes.byId[v]).value);
      assert Account(job, ex, e, d) && Account(job, ex, f, d);
    }
  }

  // ---- The sequential run is accounted for ------------------------------------------------

  /** A new node changes neither what blocks a node nor what it reads, when its dependencies are all there. */
  lemma {:induction false} RecordFrame(job: Job, ex: Oracle, e: Execution, id: Id, x: NodeResult, retries: nat,
                                       refused: bool, v: Id)
    requires Disciplined(job) && Accounted(job, ex, e)
    requires id in job.nodes.byId && id !in e.results && v in job.nodes.byId
    requires forall d :: d in job.G().Deps(v) ==> d in e.results
    ensures SameStart(job, e, Record(job, e, id, x, retries, refused), v)
  {
    hide ReadKey, ReadsResolved, Account;
    var t := Record(job, e, id, x, retries, refused);
    forall d | d in job.G().Deps(v) ensures Succeeds(e.results, d) <==> Succeeds(t.results, d) {}
    assert Blocked(job, t.results, v) <==> Blocked(job, e.results, v);
    if !Blocked(job, e.results, v) && ReadKey(job.nodes.byId[v]).Some? {
      var key := ReadKey(job.nodes.byId[v]).value;
      var d := InputComesFrom(job, e.results, v, key);
      assert Produced(job, e.results, key);
      assert d != id;
    }
  }

  /** One more node leaves the accounts of the others as they were. */
  lemma {:induction false} RecordKeeps(job: Job, ex: Oracle, e: Execution, id: Id, x: NodeResult, retries: nat,
                                       refused: bool, v: Id)
    requires Disciplined(job) && Accounted(job, ex, e)
    requires id in job.nodes.byId && id !in e.results
    requires v in e.results && forall d :: d in job.G().Deps(v) ==> d in e.results
    ensures Account(job, ex, Record(job, e, id, x, retries, refused), v)
  {
    hide Outcome, Wanted, ReadsResolved, SameStart;
    assert Account(job, ex, e, v);
    RecordFrame(job, ex, e, id, x, retries, refused, v);
    SameStartSameEnd(job, ex, e, Record(job, e, id, x, retries, refused), v);
  }

  lemma {:induction false} RecordProduces(job: Job, ex: Oracle, e: Execution, id: Id, x: NodeResult, retries: nat,
                                          refused: bool, key: string)
    requires Accounted(job, ex, e) && id in job.nodes.byId && id !in e.results
    ensures var t := Record(job, e, id, x, retries, refused); key in t.artifacts <==> Produced(job, t.results, key)
  {
    hide Account;
    var t := Record(job, e, id, x, retries, refused);
    if Produced(job, e.results, key) {
      var u :| u in e.results && u in job.nodes.byId && e.results[u].ROk? && job.nodes.byId[u].output == key;
      assert u in t.results && t.results[u] == e.results[u];
    }
    assert id in t.results;
  }

  /** Whatever becomes of the node that runs next: if its own account is right, all are. */
  lemma {:induction false} RecordAccounted(job: Job, ex: Oracle, e: Execution, id: Id, x: NodeResult, retries: nat,
                                           refused: bool)
    requires Disciplined(job) && Accounted(job, ex, e)
    requires forall v, d :: v in e.results && d in job.G().Deps(v) ==> d in e.results
    requires id in job.nodes.byId && id !in e.results
    requires Account(job, ex, Record(job, e, id, x, retries, refused), id)
    ensures Accounted(job, ex, Record(job, e, id, x, retries, refused))
  {
    hide Account, Disciplined;
    var t := Record(job, e, id, x, retries, refused);
    forall v | v in t.results ensures Account(job, ex, t, v) {
      if v != id {
        RecordKeeps(job, ex, e, id, x, retries, refused, v);
      }
    }
    forall key ensures key in t.artifacts <==> Produced(job, t.results, key) {
      RecordProduces(job, ex, e, id, x, retries, refused, key);
    }
  }

  /** What the next node comes to is what its trial says. */
  lemma {:induction false} RunOneRecords(job: Job, ex: Oracle, e: Execution, id: Id)
    returns (x: NodeResult, retries: nat, refused: bool)
    requires id in job.nodes.byId
    ensures RunOne(job, ex, e, id) == Record(job, e, id, x, retries, refused)
    ensures if refused then x == RFailed && retries < Wanted(job, ex, e, id) && e.used + retries >= job.maxRetries
            else x == Outcome(job, ex, e, id) && retries == Wanted(job, ex, e, id)
    ensures retries > 0 ==> e.used + retries <= job.maxRetries
  {
    hide Record, Blocked, Input, HasExecutor, Try, Settle, Demand;
    if Blocked(job, e.results, id) {
      x, retries, refused := RSkipped, 0, false;
    } else if !HasExecutor(job, id) {
      x, retries, refused := RFailed, 0, false;
    } else {
      var input := Input(job, e.artifacts, id);
      var t := Try(job, ex, id, input, 1, e.used);
      TrialEnds(job, ex, id, input, 1, e.used);
      x, retries, refused := if t.value.Some? then ROk(t.value.value) else RFailed, t.retries, t.refused;
    }
  }

  lemma {:induction false} NewAccount(job: Job, ex: Oracle, e: Execution, id: Id, x: NodeResult, retries: nat,
                                      refused: bool)
    requires Disciplined(job) && Accounted(job, ex, e) && id in job.nodes.byId && id !in e.results
    requires forall d :: d in job.G().Deps(id) ==> d in e.results
    requires if refused then x == RFailed && retries < Wanted(job, ex, e, id)
             else x == Outcome(job, ex, e, id) && retries == Wanted(job, ex, e, id)
    ensures Account(job, ex, Record(job, e, id, x, retries, refused), id)
  {
    hide Outcome, Wanted, Disciplined, SameStart;
    RecordFrame(job, ex, e, id, x, retries, refused, id);
    SameStartSameEnd(job, ex, e, Record(job, e, id, x, retries, refused), id);
    assert id !in e.refused;
  }

  lemma {:induction false} RecordCharged(job: Job, e: Execution, id: Id, x: NodeResult, retries: nat, refused: bool)
    requires job.nodes.IsDict() && Charged(job, e) && id in job.nodes.byId && id !in e.results
    requires retries > 0 ==> e.used + retries <= job.maxRetries
    requires refused ==> e.used + retries >= job.maxRetries
    ensures Charged(job, Record(job, e, id, x, retries, refused))
  {
    hide Distinct;
    assert id in job.nodes.order by { assert id in Elems(job.nodes.order); }
    SumOverUpdate(job.nodes.order, e.spent, id, retries);
  }

  /** The sequential run of the nodes listed so far is accounted for and charged. */
  lemma {:induction false} RunAllAccounted(job: Job, ex: Oracle, ord: seq<Id>)
    requires Disciplined(job) && Distinct(ord) && DepsFirst(job.G(), ord)
    requires forall id :: id in ord ==> id in job.nodes.byId
    ensures var e := RunAll(job, ex, ord);
            e.results.Keys == Elems(ord) && Accounted(job, ex, e) && Charged(job, e)
  {
    hide Accounted, Charged, RunOne, DepsFirst, Elems, OutputsDistinct, ReadsResolved, Acyclic, IsLevelling;
    if ord == [] {
      NothingAccounted(job, ex);
    } else {
      var last := |ord| - 1;
      var before, id := ord[..last], ord[last];
      DepsFirstPrefix(job.G(), ord, last);
      RunAllAccounted(job, ex, before);
      var e := RunAll(job, ex, before);
      PrefixReady(job.G(), ord, last);
      var x, retries, refused := RunOneRecords(job, ex, e, id);
      NewAccount(job, ex, e, id, x, retries, refused);
      RecordAccounted(job, ex, e, id, x, retries, refused);
      RecordCharged(job, e, id, x, retries, refused);
      assert ord[..last + 1] == ord;
    }
  }

  lemma {:induction false} NothingAccounted(job: Job, ex: Oracle)
    requires job.nodes.IsDict()
    ensures Accounted(job, ex, NotBegun(job)) && Charged(job, NotBegun(job))
    ensures var none: seq<Id> := []; Elems(none) == {}
  {
    forall id | id in job.nodes.order ensures id in job.nodes.byId {
      assert id in Elems(job.nodes.order);
    }
    ZeroSum(job.nodes.order, NotBegun(job).spent);
  }

  lemma {:induction false} DepsFirstPrefix(g: Graph, ord: seq<Id>, j: nat)
    requires DepsFirst(g, ord) && j <= |ord|
    ensures DepsFirst(g, ord[..j])
  {
    forall i, d | 0 <= i < j && d in g.Deps(ord[..j][i])
      ensures d in ord[..j][..i]
    {
      assert d in ord[..i];
      assert ord[..j][..i] == ord[..i];
    }
  }

  lemma {:induction false} PrefixReady(g: Graph, ord: seq<Id>, j: nat)
    requires Distinct(ord) && DepsFirst(g, ord) && j < |ord|
    ensures ord[j] !in Elems(ord[..j])
    ensures forall d :: d in g.Deps(ord[j]) ==> d in Elems(ord[..j])
    ensures forall v, d :: v in Elems(ord[..j]) && d in g.Deps(v) ==> d in Elems(ord[..j])
    ensures Elems(ord[..j + 1]) == Elems(ord[..j]) + {ord[j]}
  {
    forall v, d | v in Elems(ord[..j]) && d in g.Deps(v)
      ensures d in Elems(ord[..j])
    {
      var i := IndexOf(ord[..j], v);
      assert ord[i] == v;
      assert d in ord[..i];
      var m := IndexOf(ord[..i], d);
      assert ord[..j][m] == d;
    }
    assert ord[..j + 1] == ord[..j] + [ord[j]];
    ElemsConcat(ord[..j], [ord[j]]);
  }

  /** What a node came to is not touched by the nodes after it. */
  lemma {:induction false} LaterNodesKeep(job: Job, ex: Oracle, ord: seq<Id>, j: nat, id: Id)
    requires Distinct(ord) && j <= |ord| && id in ord[..j]
    requires forall v :: v in ord ==> v in job.nodes.byId
    ensures id in RunAll(job, ex, ord[..j]).results
    ensures id in RunAll(job, ex, ord).results
    ensures RunAll(job, ex, ord).results[id] == RunAll(job, ex, ord[..j]).results[id]
    decreases |ord|
  {
    hide Blocked, Input, Try, HasExecutor;
    var last := |ord| - 1;
    if j == |ord| {
      assert ord[..j] == ord;
      RunAllKeys(job, ex, ord);
    } else {
      assert ord[..last][..j] == ord[..j];
      assert id != ord[last];
      LaterNodesKeep(job, ex, ord[..last], j, id);
    }
  }

  lemma {:induction false} RunAllKeys(job: Job, ex: Oracle, ord: seq<Id>)
    requires forall v :: v in ord ==> v in job.nodes.byId
    ensures forall v :: v in ord ==> v in RunAll(job, ex, ord).results
  {
    if ord != [] {
      RunAllKeys(job, ex, ord[..|ord| - 1]);
    }
  }

  lemma {:induction false} TopoNodes(job: Job, ord: seq<Id>)
    requires IsTopoOrder(job.G(), ord)
    ensures forall id :: id in ord ==> id in job.nodes.byId
    ensures Elems(ord) == job.nodes.byId.Keys
  {
    forall id | id in ord ensures id in job.nodes.byId {
      assert id in Elems(ord);
    }
  }
}
