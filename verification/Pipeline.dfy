/** The whole pipeline: plan to graph to run to execution-flow picture. */
module Pipeline {
  import opened Collections
  import opened Graphs
  import opened ExecutionGraph
  import opened Nodes
  import opened FlatPlans
  import opened Expander
  import opened Expansion
  import opened Runtime
  import opened RuntimeInvariants
  import opened RuntimeTheorems
  import opened RuntimeBreaker
  import opened SequentialRun
  import opened ExecutorInputs
  import opened RetryContention
  import opened Serializability
  import FlowLayout
  import Breaker

  // ---- Plan to graph ----------------------------------------------------------------------

  datatype Action = QueryAction | LocateAction | AnalyzeAction | MessageAction | OtherAction

  datatype Plan = Plan(action: Action, query: seq<FlatNode>, locate: seq<FlatNode>, analyze: seq<FlatNode>)

  datatype PlanError =
    | NotExecutable                   // message actions
    | UnsupportedOrEmpty
    | NotExpandable(error: ExpansionError)
    | NotValid(verdict: Verdict)

  /** The node list the action selects; an absent list is modelled as an empty one. */
  function Selected(plan: Plan): seq<FlatNode> {
    match plan.action
    case QueryAction => plan.query
    case LocateAction => plan.locate
    case AnalyzeAction => plan.analyze
    case _ => []
  }

  /** The plan has this list of nodes for its action; messages and unknown actions have none. */
  ghost predicate ListFor(plan: Plan, flats: seq<FlatNode>) {
    || (plan.action == QueryAction && flats == plan.query)
    || (plan.action == LocateAction && flats == plan.locate)
    || (plan.action == AnalyzeAction && flats == plan.analyze)
  }

  method ExpandPlan(plan: Plan) returns (r: Result<NodeDict, PlanError>)
    ensures r.Success? ==> Valid(DependencyGraph(r.value)) && ThreePasses(Selected(plan), r.value)
    ensures r.Success? && WellNamed(Selected(plan)) ==>
      IsExpansion(Selected(plan), r.value) && IsDescribed(Selected(plan), r.value)
    ensures ListFor(plan, Selected(plan)) <==> !plan.action.MessageAction? && !plan.action.OtherAction?
    ensures WellNamed(Selected(plan)) ==>
      (r.Success? <==>
        && Selected(plan) != []
        && AllTypable(Selected(plan))
        && FlatGraph(Selected(plan)).Closed()
        && KeptOnce(Selected(plan))
        && Acyclic(FlatGraph(Selected(plan))))
    ensures r.Failure? && r.error == NotExecutable <==> plan.action == MessageAction
    ensures r.Failure? && r.error == UnsupportedOrEmpty <==> plan.action == OtherAction || ListFor(plan, [])
    ensures r.Failure? && r.error.NotExpandable? <==> !AllTypable(Selected(plan))
    ensures r.Failure? && r.error.NotExpandable? ==> FirstRefusal(Selected(plan), r.error.error)
    ensures r.Failure? && r.error.NotValid? ==>
      exists nodes :: ThreePasses(Selected(plan), nodes) && nodes.IsDict() && !Valid(DependencyGraph(nodes))
  {
    hide CreateTypedNode, IsExpansion, WellNamed, Valid, FlatGraph, Acyclic, ThreePasses, KeptOnce, IsDescribed;
    hide IsRefused, FirstRefusal;
    var flats := Selected(plan);
    if flats == [] {
      return Failure(if plan.action == MessageAction then NotExecutable else UnsupportedOrEmpty);
    }
    var expanded := ExpandFlatNodes(flats);
    if expanded.Failure? {
      return Failure(NotExpandable(expanded.error));
    }
    var nodes := expanded.value;
    GraphIsDict(nodes);
    var verdict := Validate(DependencyGraph(nodes));
    if WellNamed(flats) {
      ExpansionValidIff(flats, nodes);
    }
    if verdict != Accepted {
      return Failure(NotValid(verdict));
    }
    r := Success(nodes);
  }

  lemma GraphIsDict(nodes: NodeDict)
    requires nodes.IsDict()
    ensures DependencyGraph(nodes).IsDict()
  {
  }

  // ---- Graph to run -----------------------------------------------------------------------

  /** A job that executes the expansion of a plan. */
  ghost predicate JobFor(flats: seq<FlatNode>, job: Job) {
    && WellNamed(flats)
    && IsExpansion(flats, job.nodes)
    && Valid(job.G())
    && IsLevelling(job.G(), job.levels)
  }

  /** The reference an executor reads is one of the node's two references. */
  lemma ReadKeyIsRef(n: TypedNode)
    ensures ReadKey(n).Some? ==> ReadKey(n) == n.geometryRef || ReadKey(n) == n.featuresRef
  {
  }

  lemma {:induction false} ExpandedReads(flats: seq<FlatNode>, job: Job)
    requires JobFor(flats, job)
    ensures ReadsResolved(job)
  {
    hide IsExpansion, IsLevelling, ReadKey;
    ExpansionValidIff(flats, job.nodes);
    NoDanglingRefs(flats, job.nodes);
    forall id | id in job.nodes.byId && ReadKey(job.nodes.byId[id]).Some?
      ensures ReadsFrom(job, id, ReadKey(job.nodes.byId[id]).value)
    {
      var n := job.nodes.byId[id];
      ReadKeyIsRef(n);
      assert Resolves(job.nodes, n, n.geometryRef) && Resolves(job.nodes, n, n.featuresRef);
      var d :| d in n.dependsOn && d in job.nodes.byId && job.nodes.byId[d].output == ReadKey(n).value;
      assert d in job.G().Deps(id);
    }
  }

  /** Expansion produces graphs with distinct outputs and reads confined to dependencies. */
  lemma {:induction false} ExpandedIsDisciplined(flats: seq<FlatNode>, job: Job)
    requires JobFor(flats, job)
    ensures Disciplined(job)
  {
    hide IsExpansion, IsLevelling, WellNamed;
    ExpandedReads(flats, job);
    forall id | id in job.nodes.byId ensures job.nodes.byId[id].nodeId == id {
      OutputOf(flats, job.nodes, id);
    }
    forall u, v | u in job.nodes.byId && v in job.nodes.byId && u != v
      ensures job.nodes.byId[u].output != job.nodes.byId[v].output
    {
      Expansion.OutputsDistinct(flats, job.nodes, u, v);
    }
  }

  /**
   What the executor of a running node has been given: tools and spatial joins the value of the dependency whose
   output is their geometry, a union the value of the query it merges, the others nothing.
   */
  ghost predicate GivenRight(job: Job, s: State, id: Id)
    requires id in job.nodes.byId
  {
    var n := job.nodes.byId[id];
    id in s.status && s.status[id].Running? ==>
      var input := s.status[id].input;
      match n.nodeType
      case Geocode => input == None
      case Query => input == None
      case Count => input == None
      case Union => exists p :: n.dependsOn == [p] && IsValueOf(job, s, p, "artifact_" + p.name, input)
      case Summarize => false
      case _ =>
        n.geometryRef.Some? && exists d :: d in n.dependsOn && IsValueOf(job, s, d, n.geometryRef.value, input)
  }

  /** Three attempts for the nodes of the plan, one for the injected unions. */
  ghost predicate AttemptsRight(job: Job, s: State, id: Id)
    requires id in job.nodes.byId
  {
    id in s.status && s.status[id].Running? ==>
      1 <= s.status[id].attempt <= if job.nodes.byId[id].nodeType == Union then 1 else 3
  }

  ghost predicate AllGivenRight(job: Job, s: State) {
    forall id :: id in job.nodes.byId ==> GivenRight(job, s, id) && AttemptsRight(job, s, id)
  }

  /** A node of an expanded plan is described by a node of the plan, or is the union of a joined query. */
  lemma {:induction false} DescribedCases(flats: seq<FlatNode>, nodes: NodeDict, id: Id)
    requires IsDescribed(flats, nodes) && id in nodes.byId
    ensures (exists f :: f in flats && Described(flats, f, nodes.byId[id])) || exists p :: IsUnionOf(p, nodes.byId[id])
  {
    hide Described, JoinedQuery;
  }

  lemma {:induction false} NodeReads(flats: seq<FlatNode>, job: Job, s: State, id: Id)
    requires JobFor(flats, job) && Inv(job, s) && RuntimeInvariants.OutputsDistinct(job) && InputsRead(job, s)
    requires id in job.nodes.byId && id in s.status && s.status[id].Running?
    requires ReadKey(job.nodes.byId[id]).Some?
    requires ReadKey(job.nodes.byId[id]) in {job.nodes.byId[id].geometryRef, job.nodes.byId[id].featuresRef}
    ensures exists d :: d in job.nodes.byId[id].dependsOn
              && IsValueOf(job, s, d, ReadKey(job.nodes.byId[id]).value, s.status[id].input)
  {
    hide IsExpansion, IsLevelling, WellNamed, ReadKey, Inv, RuntimeInvariants.OutputsDistinct, InputsRead, IsValueOf;
    var n := job.nodes.byId[id];
    ExpansionValidIff(flats, job.nodes);
    NoDanglingRefs(flats, job.nodes);
    assert Resolves(job.nodes, n, n.geometryRef) && Resolves(job.nodes, n, n.featuresRef);
    var d :| d in n.dependsOn && d in job.nodes.byId && job.nodes.byId[d].output == ReadKey(n).value;
    assert d in job.G().Deps(id);
    DependencyRead(job, s, id, d);
  }

  lemma {:induction false} RunningGiven(flats: seq<FlatNode>, job: Job, s: State, id: Id)
    requires JobFor(flats, job) && Inv(job, s) && RuntimeInvariants.OutputsDistinct(job) && InputsRead(job, s)
    requires id in job.nodes.byId
    ensures GivenRight(job, s, id) && AttemptsRight(job, s, id)
  {
    hide JobFor, Inv, RuntimeInvariants.OutputsDistinct, InputsRead, IsValueOf, Described, IsDescribed, ReadKey;
    if id in s.status && s.status[id].Running? {
      var n := job.nodes.byId[id];
      JobDescribed(flats, job);
      DescribedCases(flats, job.nodes, id);
      RunningFacts(job, s, id);
      if f :| f in flats && Described(flats, f, n) {
        DescribedReads(flats, f, n);
      } else {
        var p :| IsUnionOf(p, n);
        UnionReads(n);
      }
      if ReadKey(n).Some? {
        NodeReads(flats, job, s, id);
      }
    }
  }

  lemma UnionReads(n: TypedNode)
    requires n.nodeType == Union
    ensures ReadKey(n) == n.featuresRef
  {
  }

  lemma {:induction false} JobDescribed(flats: seq<FlatNode>, job: Job)
    requires JobFor(flats, job)
    ensures IsDescribed(flats, job.nodes)
  {
    hide WellNamed, IsExpansion, IsLevelling, Valid, IsDescribed;
    ExpansionDescribed(flats, job.nodes);
  }

  lemma {:induction false} RunningFacts(job: Job, s: State, id: Id)
    requires Inv(job, s) && InputsRead(job, s) && id in job.nodes.byId && id in s.status && s.status[id].Running?
    ensures 1 <= s.status[id].attempt <= job.MaxAttempts(id)
    ensures s.status[id].input == Input(job, s.artifacts, id)
  {
    hide Input, Ordered, Levelled, Booked, Stored, Budgeted, Timed, TimeTotals;
    assert ReadsRight(job, s, id);
    assert StatusFits(job, id, s.status[id]);
  }

  /** Which reference a node of the plan reads. */
  lemma {:induction false} DescribedReads(flats: seq<FlatNode>, f: FlatNode, n: TypedNode)
    requires Described(flats, f, n)
    ensures n.retry.Some? && n.retry.value.maxAttempts == 3
    ensures n.nodeType !in {Union, Summarize}
    ensures n.nodeType in {Geocode, Query, Count} ==> ReadKey(n) == None
    ensures n.nodeType in {Buffer, SpatialJoin, Proximity} ==> n.geometryRef.Some? && ReadKey(n) == n.geometryRef
  {
    hide RefersTo, DependsAt, JoinsSpatially;
    assert Becomes(f, n.nodeType);
  }

  /**
   In every run of every expanded plan every read of an artifact finds it, and every executor is given the value
   of the dependency it works on.
   */
  lemma {:induction false} NoDanglingReads(flats: seq<FlatNode>, job: Job, breaker: Option<Breaker.Breaker>,
                                           clock: real, es: seq<Event>)
    requires JobFor(flats, job)
    requires IsRun(job, Init(job, breaker, clock), es)
    ensures NoMissingArtifacts(After(job, Init(job, breaker, clock), es))
    ensures AllGivenRight(job, After(job, Init(job, breaker, clock), es))
  {
    hide JobFor, Disciplined, GivenRight, AttemptsRight, Inv, InputsRead, RuntimeInvariants.OutputsDistinct;
    hide ReadsResolved, IsRun;
    var s0 := Init(job, breaker, clock);
    ExpandedIsDisciplined(flats, job);
    DisciplinedParts(job);
    InitInv(job, breaker, clock);
    InitReads(job, breaker, clock);
    RunFindsArtifacts(job, s0, es);
    RunKeepsInv(job, s0, es);
    RunReads(job, s0, es);
    forall id | id in job.nodes.byId
      ensures GivenRight(job, After(job, s0, es), id) && AttemptsRight(job, After(job, s0, es), id)
    {
      RunningGiven(flats, job, After(job, s0, es), id);
    }
  }

  lemma DisciplinedParts(job: Job)
    requires Disciplined(job)
    ensures job.WF() && RuntimeInvariants.OutputsDistinct(job) && ReadsResolved(job)
  {
  }

  /** The node types that the orchestrator registers an executor for: all of them. */
  const EXECUTOR_MAP: set<NodeType> := {Geocode, Query, Buffer, Union, SpatialJoin, Proximity, Summarize, Count}

  /** Expand a plan, level its graph and hand it to the runtime: what comes out is a job the theorems apply to. */
  method PrepareJob(plan: Plan, maxRetries: int) returns (r: Result<Job, PlanError>)
    ensures r.Success? ==> Valid(r.value.G()) && IsLevelling(r.value.G(), r.value.levels)
    ensures r.Success? ==> r.value.executors == EXECUTOR_MAP && r.value.maxRetries == maxRetries
    ensures r.Success? && WellNamed(Selected(plan)) ==> JobFor(Selected(plan), r.value)
    ensures WellNamed(Selected(plan)) ==>
      (r.Success? <==>
        && Selected(plan) != []
        && AllTypable(Selected(plan))
        && FlatGraph(Selected(plan)).Closed()
        && KeptOnce(Selected(plan))
        && Acyclic(FlatGraph(Selected(plan))))
  {
    hide IsExpansion, WellNamed, Valid, FlatGraph, Acyclic, ThreePasses, KeptOnce, IsLevelling, IsRefused;
    var expanded := ExpandPlan(plan);
    if expanded.Failure? {
      return Failure(expanded.error);
    }
    var levels := TopologicalLevels(DependencyGraph(expanded.value));
    r := Success(Job(expanded.value, levels, EXECUTOR_MAP, maxRetries));
  }

  // ---- Which plans serialize --------------------------------------------------------------

  lemma {:induction false} ExpandedAble(flats: seq<FlatNode>, job: Job, id: Id)
    requires JobFor(flats, job) && job.executors == EXECUTOR_MAP && id in job.nodes.byId
    ensures Able(job, id)
  {
    hide IsExpansion, IsLevelling, WellNamed, Valid, UnionParents, UnionIds;
    NodeCases(flats, job.nodes, id);
    if id in UnionIds(flats) {
      UnionNode(flats, job.nodes, ParentOf(id));
    } else {
      PlanNode(flats, job.nodes, IndexOf(Ids(flats), id));
    }
    assert job.nodes.byId[id].nodeType in EXECUTOR_MAP;
  }

  lemma {:induction false} ExpandedViable(flats: seq<FlatNode>, job: Job, id: Id)
    requires JobFor(flats, job) && job.executors == EXECUTOR_MAP && id in job.nodes.byId
    ensures Viable(job, id)
  {
    hide IsExpansion, IsLevelling, WellNamed, Able;
    ExpandedAble(flats, job, id);
    forall u | DependsOn(job.G(), id, u) ensures Able(job, u) {
      var k: nat :| k > 0 && Walk(job.G(), u, id, k);
      WalkStaysInside(job.G(), u, id, k);
      ExpandedAble(flats, job, u);
    }
  }

  /** A node of the plan may be retried twice, and a union node not at all. */
  lemma {:induction false} ExpandedCap(flats: seq<FlatNode>, job: Job, id: Id)
    requires JobFor(flats, job) && job.executors == EXECUTOR_MAP && id in job.nodes.byId
    ensures id in RetryCaps(job) && RetryCaps(job)[id] == if id in Ids(flats) then 2 else 0
  {
    hide IsExpansion, IsLevelling, WellNamed, Valid, UnionParents, UnionIds, Viable;
    NodeCases(flats, job.nodes, id);
    if id in UnionIds(flats) {
      UnionNode(flats, job.nodes, ParentOf(id));
      if id in Ids(flats) {
        PlanNodeNotInjected(flats, id);
      }
    } else {
      PlanNode(flats, job.nodes, IndexOf(Ids(flats), id));
      ExpandedViable(flats, job, id);
    }
  }

  lemma {:induction false} ExpandedOrder(flats: seq<FlatNode>, job: Job)
    requires JobFor(flats, job)
    ensures Distinct(job.nodes.order) && Distinct(Ids(flats)) && Elems(Ids(flats)) <= Elems(job.nodes.order)
    ensures forall id :: id in job.nodes.order <==> id in job.nodes.byId
  {
    hide IsLevelling, Valid, UnionParents, NodesExpanded, UnionsAdded, Distinct, Mentions;
    forall id ensures id in job.nodes.order <==> id in job.nodes.byId {
      assert id in job.nodes.order <==> id in Elems(job.nodes.order);
    }
    assert Ids(flats) <= job.nodes.order;
  }

  lemma {:induction false} ExpandedCaps(flats: seq<FlatNode>, job: Job)
    requires JobFor(flats, job) && job.executors == EXECUTOR_MAP
    ensures forall id :: id in job.nodes.order ==> id in job.nodes.byId
    ensures SumOver(job.nodes.order, RetryCaps(job)) == 2 * |flats|
  {
    hide JobFor, Viable, RetryCaps, Distinct;
    ExpandedOrder(flats, job);
    CapKeys(job);
    DistinctCard(Ids(flats));
    forall id | id in job.nodes.order
      ensures id in RetryCaps(job) && RetryCaps(job)[id] == if id in Elems(Ids(flats)) then 2 else 0
    {
      ExpandedCap(flats, job, id);
    }
    SumOverSome(job.nodes.order, RetryCaps(job), Elems(Ids(flats)), 2);
  }

  /** Two nodes of the plan of which neither depends on the other. */
  ghost predicate Unrelated(flats: seq<FlatNode>, x: Id, y: Id) {
    && x != y && x in Ids(flats) && y in Ids(flats)
    && !DependsOn(FlatGraph(flats), x, y) && !DependsOn(FlatGraph(flats), y, x)
  }

  /** The nodes of the plan that depend on neither of two, these included. */
  ghost function PlanBeside(flats: seq<FlatNode>, x: Id, y: Id): set<Id> {
    set v | v in Ids(flats) && !DependsOn(FlatGraph(flats), v, x) && !DependsOn(FlatGraph(flats), v, y)
  }

  lemma {:induction false} PlanDependency(flats: seq<FlatNode>, job: Job, v: Id, u: Id)
    requires JobFor(flats, job) && v in Ids(flats) && u in Ids(flats)
    ensures DependsOn(job.G(), v, u) <==> DependsOn(FlatGraph(flats), v, u)
  {
    hide IsExpansion, IsLevelling, WellNamed, Valid, DependsOn, FlatGraph;
    PlanNodeNotInjected(flats, v);
    PlanNodeNotInjected(flats, u);
    DependencyPreserved(flats, job.nodes, u, v);
  }

  /** Only nodes of the plan contend for the budget, and exactly those that are unrelated in it. */
  lemma {:induction false} ContendIffUnrelated(flats: seq<FlatNode>, job: Job, x: Id, y: Id)
    requires JobFor(flats, job) && job.executors == EXECUTOR_MAP
    ensures Contend(job, x, y) <==> Unrelated(flats, x, y)
  {
    hide JobFor, RetryCaps, DependsOn, FlatGraph;
    PlanIdsExpanded(flats, job);
    CapKeys(job);
    if x in job.nodes.byId && y in job.nodes.byId {
      ExpandedCap(flats, job, x);
      ExpandedCap(flats, job, y);
      if x in Ids(flats) && y in Ids(flats) {
        PlanDependency(flats, job, x, y);
        PlanDependency(flats, job, y, x);
      }
    }
  }

  lemma {:induction false} PlanIdsExpanded(flats: seq<FlatNode>, job: Job)
    requires JobFor(flats, job)
    ensures forall id :: id in Ids(flats) ==> id in job.nodes.byId
  {
    hide IsExpansion, IsLevelling, WellNamed, Valid;
    forall id | id in Ids(flats) ensures id in job.nodes.byId {
      PlanNode(flats, job.nodes, IndexOf(Ids(flats), id));
    }
  }

  lemma {:induction false} CapBeside(flats: seq<FlatNode>, job: Job, x: Id, y: Id, id: Id)
    requires JobFor(flats, job) && job.executors == EXECUTOR_MAP && x in Ids(flats) && y in Ids(flats)
    requires id in job.nodes.byId
    ensures id in CapsBeside(job, x, y) && CapsBeside(job, x, y)[id] == if id in PlanBeside(flats, x, y) then 2 else 0
  {
    hide JobFor, RetryCaps, DependsOn, FlatGraph;
    CapKeys(job);
    ExpandedCap(flats, job, id);
    if id in Ids(flats) {
      PlanDependency(flats, job, id, x);
      PlanDependency(flats, job, id, y);
    }
  }

  lemma {:induction false} CapsBesidePlan(flats: seq<FlatNode>, job: Job, x: Id, y: Id)
    requires JobFor(flats, job) && job.executors == EXECUTOR_MAP && x in Ids(flats) && y in Ids(flats)
    ensures (forall id :: id in job.nodes.order ==> id in job.nodes.byId)
    ensures SumOver(job.nodes.order, CapsBeside(job, x, y)) == 2 * |PlanBeside(flats, x, y)|
  {
    hide JobFor, RetryCaps, DependsOn, Distinct, FlatGraph;
    ExpandedOrder(flats, job);
    var some := PlanBeside(flats, x, y);
    forall v | v in some ensures v in Elems(job.nodes.order) {
      assert v in Elems(Ids(flats));
    }
    hide PlanBeside, CapsBeside;
    forall id | id in job.nodes.order
      ensures id in CapsBeside(job, x, y) && CapsBeside(job, x, y)[id] == if id in some then 2 else 0
    {
      CapBeside(flats, job, x, y, id);
    }
    CapsBesideKeys(job, x, y);
    SumOverSome(job.nodes.order, CapsBeside(job, x, y), some, 2);
  }

  lemma CapsBesideKeys(job: Job, x: Id, y: Id)
    ensures CapsBeside(job, x, y).Keys == job.nodes.byId.Keys
  {
    CapKeys(job);
  }

  /** No two unrelated nodes of the plan can be short of the budget. */
  ghost predicate PlanOrderFree(flats: seq<FlatNode>, maxRetries: int) {
    maxRetries <= 0 || forall x, y {:trigger Unrelated(flats, x, y)} :: Unrelated(flats, x, y) ==>
      2 * |PlanBeside(flats, x, y)| <= maxRetries
  }

  lemma {:induction false} PlanContention(flats: seq<FlatNode>, job: Job)
    requires JobFor(flats, job) && job.executors == EXECUTOR_MAP
    ensures OrderCannotMatter(job) <==> PlanOrderFree(flats, job.maxRetries)
  {
    hide JobFor, RetryCaps, DependsOn, Contend, CapsBeside, PlanBeside, Distinct;
    ExpandedOrder(flats, job);
    forall x, y | Contend(job, x, y) || Unrelated(flats, x, y)
      ensures Contend(job, x, y) && Unrelated(flats, x, y)
      ensures forall id :: id in job.nodes.order ==> id in CapsBeside(job, x, y)
      ensures SumOver(job.nodes.order, CapsBeside(job, x, y)) == 2 * |PlanBeside(flats, x, y)|
    {
      ContendIffUnrelated(flats, job, x, y);
      CapsBesidePlan(flats, job, x, y);
      CapsBesideKeys(job, x, y);
    }
  }

  /** The retry budget of a configuration that does not set one. */
  const DEFAULT_BUDGET := 5

  /** Every other node of the plan depends on one of the two. */
  ghost predicate OthersDepend(flats: seq<FlatNode>, x: Id, y: Id) {
    forall v :: v in Ids(flats) && v != x && v != y ==>
      DependsOn(FlatGraph(flats), v, x) || DependsOn(FlatGraph(flats), v, y)
  }

  lemma {:induction false} OnlyTwoBeside(flats: seq<FlatNode>, x: Id, y: Id)
    requires Acyclic(FlatGraph(flats)) && Unrelated(flats, x, y)
    ensures 2 * |PlanBeside(flats, x, y)| <= DEFAULT_BUDGET <==> OthersDepend(flats, x, y)
  {
    hide DependsOn;
    var beside := PlanBeside(flats, x, y);
    assert x in beside && y in beside by { assert x in FlatGraph(flats).deps && y in FlatGraph(flats).deps; }
    hide FlatGraph, Acyclic;
    if OthersDepend(flats, x, y) {
      assert forall v :: v in beside ==> v == x || v == y;
      assert beside == {x, y};
    } else {
      var v :| v in Ids(flats) && v != x && v != y && !DependsOn(FlatGraph(flats), v, x)
               && !DependsOn(FlatGraph(flats), v, y);
      assert v in beside;
      hide *;
      ThreeOf(beside, x, y, v);
    }
  }

  lemma ThreeOf(some: set<Id>, x: Id, y: Id, z: Id)
    requires x in some && y in some && z in some && x != y && x != z && y != z
    ensures |some| >= 3
  {
    SubsetCard({x, y, z}, some);
  }

  /** With that budget: of any two unrelated nodes of the plan, every other one depends on one. */
  lemma {:induction false} DefaultBudgetSerializes(flats: seq<FlatNode>)
    requires Acyclic(FlatGraph(flats))
    ensures PlanOrderFree(flats, DEFAULT_BUDGET) <==>
      forall x, y {:trigger Unrelated(flats, x, y)} :: Unrelated(flats, x, y) ==> OthersDepend(flats, x, y)
  {
    hide FlatGraph, Acyclic, Unrelated, PlanBeside, OthersDepend;
    forall x, y | Unrelated(flats, x, y)
      ensures 2 * |PlanBeside(flats, x, y)| <= DEFAULT_BUDGET <==> OthersDepend(flats, x, y)
    {
      OnlyTwoBeside(flats, x, y);
    }
  }

  /**
   Runs of an expanded plan in which the breaker rejects nobody all end like sequential runs of it, in every
   order, exactly when the order cannot matter; with the registered executors, exactly when no two unrelated
   nodes can be short of the budget.
  */
  lemma {:induction false} ExpandedPlansSerialize(flats: seq<FlatNode>, job: Job)
    requires JobFor(flats, job)
    ensures (forall ex: Oracle, breaker: Option<Breaker.Breaker>, clock: real, es: seq<Event>, s: State, ord: seq<Id> ::
               (&& NobodyRejected(s) && IsTopoOrder(job.G(), ord)
                && OracleRun(job, ex, breaker, clock, es, s) && Complete(job, s)) ==> EndsLike(job, ex, s, ord))
            <==> OrderCannotMatter(job)
    ensures job.executors == EXECUTOR_MAP ==> (OrderCannotMatter(job) <==> PlanOrderFree(flats, job.maxRetries))
  {
    hide JobFor, NobodyRejected, OracleRun, Complete, IsTopoOrder, EndsLike, OrderCannotMatter, PlanOrderFree;
    ExpandedIsDisciplined(flats, job);
    SerialIff(job);
    if job.executors == EXECUTOR_MAP {
      PlanContention(flats, job);
    }
  }

  /**
   Runs of an expanded plan in which the breaker rejects nobody all end as they would without a budget exactly
   when the budget covers all nodes; with the registered executors, exactly when it allows two retries per node
   of the plan.
   */
  lemma {:induction false} ExpandedPlansUnlimited(flats: seq<FlatNode>, job: Job)
    requires JobFor(flats, job)
    ensures (forall ex: Oracle, breaker: Option<Breaker.Breaker>, clock: real, es: seq<Event>, s: State ::
               (&& NobodyRejected(s) && OracleRun(job, ex, breaker, clock, es, s)
                && Complete(job, s)) ==> EndsUnlimited(job, ex, s))
            <==> BudgetCannotBind(job)
    ensures job.executors == EXECUTOR_MAP ==> (BudgetCannotBind(job) <==> 2 * |flats| <= job.maxRetries)
  {
    hide JobFor, NobodyRejected, OracleRun, Complete, EndsUnlimited, RetryCaps;
    ExpandedIsDisciplined(flats, job);
    UnlimitedIff(job);
    if job.executors == EXECUTOR_MAP {
      ExpandedCaps(flats, job);
      PlanNotEmpty(flats, job);
    }
  }

  lemma {:induction false} PlanNotEmpty(flats: seq<FlatNode>, job: Job)
    requires JobFor(flats, job)
    ensures flats != []
  {
    hide IsExpansion, IsLevelling, WellNamed, Valid;
    ExpansionValidIff(flats, job.nodes);
  }

  // ---- Run to picture ---------------------------------------------------------------------

  /** The timings the front end receives: each timed node with its dependency list. */
  function Timings(job: Job, s: State): (r: seq<FlowLayout.TimedNode>)
    ensures |r| == |s.timing|
    ensures forall i :: 0 <= i < |r| ==>
      r[i] == FlowLayout.TimedNode(s.timing[i].nodeId, job.G().Deps(s.timing[i].nodeId))
  {
    seq(|s.timing|, i requires 0 <= i < |s.timing| =>
      FlowLayout.TimedNode(s.timing[i].nodeId, job.G().Deps(s.timing[i].nodeId)))
  }

  /** `t` is the part of `g` on some of its nodes. */
  ghost predicate PartOf(t: Graph, g: Graph) {
    forall n :: n in t.deps ==> n in g.deps && t.deps[n] == g.deps[n]
  }

  lemma {:induction false} PartWalk(t: Graph, g: Graph, u: Id, v: Id, k: nat)
    requires PartOf(t, g) && Walk(t, u, v, k)
    ensures Walk(g, u, v, k)
    decreases k
  {
    if k > 0 {
      var d :| d in t.Deps(v) && Walk(t, u, d, k - 1);
      PartWalk(t, g, u, d, k - 1);
      assert d in g.Deps(v);
    }
  }

  lemma {:induction false} PartChain(t: Graph, g: Graph, n: Id, k: nat)
    requires PartOf(t, g) && t.Closed() && n in t.deps
    ensures Chain(t, n, k) <==> Chain(g, n, k)
    decreases k
  {
    if k > 0 {
      assert t.Deps(n) == g.Deps(n);
      forall d | d in t.Deps(n) ensures Chain(t, d, k - 1) <==> Chain(g, d, k - 1) {
        assert d in t.deps;
        PartChain(t, g, d, k - 1);
      }
    }
  }

  /** A node of a dependency-closed part has the same level in the part and in the whole. */
  lemma {:induction false} PartLevels(t: Graph, g: Graph, n: Id, k: nat)
    requires PartOf(t, g) && t.Closed() && n in t.deps
    ensures HasLevel(t, n, k) <==> HasLevel(g, n, k)
  {
    PartChain(t, g, n, k);
    PartChain(t, g, n, k + 1);
  }

  lemma {:induction false} PartAcyclic(t: Graph, g: Graph)
    requires PartOf(t, g) && Acyclic(g)
    ensures Acyclic(t)
  {
    forall n, k: nat | n in t.deps && k > 0 ensures !Walk(t, n, n, k) {
      if Walk(t, n, n, k) {
        PartWalk(t, g, n, n, k);
        assert false;
      }
    }
  }

  lemma {:induction false} TimingIds(job: Job, s: State)
    ensures FlowLayout.Ids(Timings(job, s)) == TimedIds(s.timing)
  {
    assert |FlowLayout.Ids(Timings(job, s))| == |TimedIds(s.timing)|;
  }

  lemma {:induction false} TimedDepsOf(job: Job, s: State, n: Id)
    requires n in TimedIds(s.timing)
    ensures n in FlowLayout.TimedGraph(Timings(job, s)).deps
    ensures FlowLayout.TimedGraph(Timings(job, s)).deps[n] == job.G().Deps(n)
  {
    TimingIds(job, s);
    var i := IndexOf(FlowLayout.Ids(Timings(job, s)), n);
    assert Timings(job, s)[i].id == n;
  }

  lemma {:induction false} TimedNodeIds(job: Job, s: State, n: Id)
    ensures n in FlowLayout.TimedGraph(Timings(job, s)).deps <==> n in TimedIds(s.timing)
  {
    TimingIds(job, s);
  }

  lemma {:induction false} TimedStarted(job: Job, s: State, n: Id)
    requires Timed(job, s) && n in TimedIds(s.timing)
    ensures n in job.nodes.byId && n in s.status && s.status[n].Started()
  {
  }

  /** The dependencies of a timed node are timed. */
  lemma {:induction false} TimedDepIsTimed(job: Job, s: State, n: Id, d: Id)
    requires Fits(job, s) && Ordered(job, s) && Timed(job, s)
    requires n in TimedIds(s.timing) && d in job.G().Deps(n)
    ensures d in TimedIds(s.timing)
  {
    hide Fits, Timed;
    TimedStarted(job, s, n);
    assert d in s.status && s.status[d].Succeeded?;
    SucceededIsTimed(job, s, d);
  }

  /** The timed nodes of any reachable state are a dependency-closed part of the graph. */
  lemma {:induction false} TimedPart(job: Job, s: State)
    requires Fits(job, s) && Ordered(job, s) && Timed(job, s)
    ensures var t := FlowLayout.TimedGraph(Timings(job, s));
            Distinct(FlowLayout.Ids(Timings(job, s))) && PartOf(t, job.G()) && t.Closed()
  {
    hide Fits, Ordered;
    var t := FlowLayout.TimedGraph(Timings(job, s));
    TimingIds(job, s);
    assert Distinct(TimedIds(s.timing));
    hide Timed, FlowLayout.TimedGraph, TimedIds, Timings;
    forall n | n in t.deps ensures n in job.G().deps && t.deps[n] == job.G().deps[n] {
      TimedNodeIds(job, s, n);
      TimedStarted(job, s, n);
      TimedDepsOf(job, s, n);
    }
    forall n, d | n in t.deps && d in t.deps[n] ensures d in t.deps {
      TimedNodeIds(job, s, n);
      TimedDepsOf(job, s, n);
      TimedDepIsTimed(job, s, n, d);
      TimedNodeIds(job, s, d);
    }
  }

  lemma {:induction false} SucceededIsTimed(job: Job, s: State, d: Id)
    requires Fits(job, s) && Timed(job, s) && d in s.status && s.status[d].Succeeded?
    ensures d in TimedIds(s.timing)
  {
    assert StatusFits(job, d, s.status[d]);
  }

  /** The worklist level of a timed node is the index of its level in the runtime. */
  lemma {:induction false} PictureLevelsAgree(job: Job, s: State, n: Id, k: nat)
    requires job.WF() && Reachable(job, s) && n in TimedIds(s.timing)
    ensures FlowLayout.RootLevel(FlowLayout.TimedGraph(Timings(job, s)), n, k) <==>
            k < |job.levels| && n in job.levels[k]
  {
    hide Fits, Ordered, Levelled, Booked, Stored, Budgeted, Timed, TimeTotals, IsLevelling, Acyclic;
    ReachableParts(job, s);
    TimedPart(job, s);
    var t, g := FlowLayout.TimedGraph(Timings(job, s)), job.G();
    PartAcyclic(t, g);
    TimedDepsOf(job, s, n);
    FlowLayout.RootLevelIsLevel(t, n, k);
    PartLevels(t, g, n, k);
    LevelIndex(g, job.levels, n, k);
  }

  /** The picture of any reachable state: columns are runtime levels and no two nodes overlap. */
  method DrawRun(job: Job, s: State) returns (positions: seq<FlowLayout.Position>)
    requires job.WF() && Reachable(job, s)
    ensures |positions| == |s.timing|
    ensures forall i, k: nat :: 0 <= i < |s.timing| && k < |job.levels| && s.timing[i].nodeId in job.levels[k] ==>
      positions[i].x == 250 * k
    ensures Distinct(positions)
  {
    hide Fits, Ordered, Levelled, Booked, Stored, Budgeted, Timed, TimeTotals, IsLevelling, Acyclic, Reachable;
    ghost var t := FlowLayout.TimedGraph(Timings(job, s));
    ReachableParts(job, s);
    TimedPart(job, s);
    PartAcyclic(t, job.G());
    FlowLayout.AcyclicNoRootedCycle(t);
    positions := FlowLayout.Layout(Timings(job, s));
    forall i, k: nat | 0 <= i < |s.timing| && k < |job.levels| && s.timing[i].nodeId in job.levels[k]
      ensures positions[i].x == 250 * k
    {
      assert TimedIds(s.timing)[i] == s.timing[i].nodeId;
      PictureLevelsAgree(job, s, s.timing[i].nodeId, k);
    }
    forall i | 0 <= i < |s.timing| ensures FlowLayout.Reached(t, Timings(job, s)[i].id) {
      assert TimedIds(s.timing)[i] == s.timing[i].nodeId;
      TimedDepsOf(job, s, s.timing[i].nodeId);
      FlowLayout.ClosedAllReached(t, s.timing[i].nodeId);
    }
  }
}
