# Verified model of the ARCGIS-MCP execution pipeline

This project models, in Dafny, the part of the repository that turns a plan written by a language
model into a typed dependency graph, validates and levels that graph, runs it concurrently with
retries, a shared retry budget and a circuit breaker, and draws the finished run as a picture. Five
smaller stateful parts are modelled beside it: the layer cache of the ArcGIS server, the per-client
rate limiter, the conversation history, the plan guardrail and the tool-calling loop.

`dafny verify dfyconfig.toml` checks everything.

## How it is laid out

| file | what it holds |
|---|---|
| Collections.dfy, Ordering.dfy, Windows.dfy | sequences and sums, string order, rolling time windows |
| Graphs.dfy | walks, acyclicity, topological orders and levels, defined without any algorithm |
| ExecutionGraph.dfy | Kahn validation and level grouping as loops, proved against Graphs |
| Nodes.dfy, FlatPlans.dfy | flat and typed nodes, and what a plan expands to, field by field |
| Expander.dfy, Expansion.dfy | the three expansion passes as loops, what expansion preserves |
| Retry.dfy, Breaker.dfy | retry loop and budget, circuit breaker, as classes and methods; properties of whole breaker runs |
| Runtime.dfy | the runtime as a state machine: one event is the code between two awaits |
| RuntimeInvariants.dfy, RuntimeTheorems.dfy | what every step of every interleaving keeps, and what that gives for runs |
| RuntimeBreaker.dfy | the breaker inside a run: quiet period, what a run reports to it, when it cannot trip |
| SequentialRun.dfy | one node after the other under the shared budget, and what any execution of a graph amounts to |
| ExecutorInputs.dfy | what the executors are given to work on, in every run |
| RetryContention.dfy | the exact condition under which the order of execution cannot matter although the budget is shared |
| Serializability.dfy | the same condition for every interleaving: each ends like the sequential run in each order |
| FlowLayout.dfy, Pipeline.dfy | the front end's layout worklist; plan to graph to run to picture |
| LayerCache.dfy, RateLimiter.dfy, History.dfy, PlanGuard.dfy, ToolLoop.dfy | the smaller parts |

In the runtime model the events of different nodes interleave freely, and every attempt may end in
any way. Some of these interleavings cannot happen under asyncio (a union node, for example, never
awaits), so what is proved for all runs of the model holds for all runs of the program. Where
`Serializability.SerialIff` says that the order can matter, `RetryContention.ContentionDecides` gives two
sequential orders that come to different results when the attempts end in the same way; every run with
these attempts, those of the program included, then differs from one of them. Time is a
non-decreasing real that each event carries; reports of calls in flight may reach the breaker in
any of its states.

## Where the code and its documentation differ

The model follows the code.

- `ExecutionGraph.validate` is documented to reject empty graphs, missing dependencies and cycles. It
  also rejects, as a "cycle", a node that lists a dependency twice, because the in-degree starts at
  the list length and drops once per different dependency. `ExecutionGraph.Validate` states the exact
  condition.
- The log message of the breaker speaks of one probe in HALF_OPEN. The code lets any number of calls
  in until the first one reports; `Breaker.FirstReportDecides` states this. The trip rule counts
  failures in the window, consecutive or not.
- The comment in `_record_success` speaks of resetting the count; in CLOSED the code only trims the window.
- The expander's module text names three kinds of injected nodes; only union nodes are injected.
- `ConversationHistory` trims with `LTRIM key -MAX_ENTRIES -1`. With `MAX_ENTRIES` 0 this keeps
  everything: `History.BoundedIffNonZero` states exactly when the list is bounded.
- `BoundedLayerCache.put` raises `KeyError` on an empty cache of size below 1; `LayerCache.Store` models it.

## Model

| member | source | states |
|---|---|---|
| Graphs.AcyclicIffOrdered | mcp-mapgpt-client/core/orchestrator/graph/runtime.py:107-132 | On closed graphs "no node transitively depends on itself" and "the nodes can be listed dependencies first" are the same thing, so a ranking is a sound and complete witness of acyclicity. |
| Graphs.StuckSetHasCycle | mcp-mapgpt-client/core/orchestrator/graph/runtime.py:129-132 | A non-empty set of nodes that each wait for a member of the set contains a real cycle: the completeness half of Kahn's algorithm. |
| Graphs.LevelExists | mcp-mapgpt-client/core/orchestrator/graph/runtime.py:136-160 | Every node of a closed acyclic graph has a longest dependency chain, shorter than the number of nodes. |
| ExecutionGraph.Release | mcp-mapgpt-client/core/orchestrator/graph/runtime.py:119-127 | Taking one node off keeps every in-degree equal to the list length minus the different dependencies taken off, and collects exactly the nodes that run out now. |
| ExecutionGraph.FindMissing | mcp-mapgpt-client/core/orchestrator/graph/runtime.py:99-105 | Reports the first dependency, in iteration order, that names no node, and nothing exactly when the graph is closed. |
| ExecutionGraph.CountReachable | mcp-mapgpt-client/core/orchestrator/graph/runtime.py:107-129 | The worklist visits all nodes exactly when no list repeats a dependency and no node reaches itself. |
| ExecutionGraph.Validate | mcp-mapgpt-client/core/orchestrator/graph/runtime.py:92-132 | Accepts exactly the graphs that are non-empty, closed, free of repeated dependencies and acyclic; each other verdict has its exact condition. |
| ExecutionGraph.ReleaseLevel | mcp-mapgpt-client/core/orchestrator/graph/runtime.py:152-157 | Taking a whole level off frees exactly the nodes whose last open dependency was in it, each once. |
| ExecutionGraph.TopologicalLevels | mcp-mapgpt-client/core/orchestrator/graph/runtime.py:136-160 | Terminates; level k lists, once each and in code point order of the ids, exactly the nodes whose longest dependency chain has k edges; no level is empty and every node is on one. |
| ExecutionGraph.LevelsIgnoreDictOrder | mcp-mapgpt-client/core/orchestrator/graph/runtime.py:145-150 | Two listings of the same nodes in different dictionary orders get the same levels. |
| ExecutionGraph.LevelIsAntichain | mcp-mapgpt-client/core/orchestrator/graph/runtime.py:139-140 | No two nodes of a level depend on each other, directly or transitively. |
| Ordering.Sorted | mcp-mapgpt-client/core/orchestrator/graph/runtime.py:150 | Sorting by code point order permutes the ids and orders them. |
| Ordering.LeqByCodePoint | mcp-mapgpt-client/core/orchestrator/graph/runtime.py:150 | The comparison is that of Python strings: the smaller character at the first difference comes first, and a prefix before what it begins. |
| Ordering.SortedListingUnique | mcp-mapgpt-client/core/orchestrator/graph/runtime.py:150 | A set of ids has one sorted listing, which is why sorting makes a level deterministic. |
| Expander.CreateAll | mcp-mapgpt-client/core/orchestrator/graph/expander.py:162-164 | The first pass fails with the error of the first node that cannot be typed, or makes every node as its own fields say (type, output, reference, dependencies, policy) and registers exactly the plain queries; repeated ids keep their place and take the later node. |
| FlatPlans.RefusedIff | mcp-mapgpt-client/core/orchestrator/graph/expander.py:223-330 | A flat node is refused exactly under the conditions on its own fields (blank address, missing lon or lat, tool without layer or dependency, distance not positive, unknown join or kind), each with its error. |
| FlatPlans.ExpansionDescribed | mcp-mapgpt-client/core/orchestrator/graph/expander.py:146-203 | In the expansion of a well-named plan every node has the type its kind, join type and spatial dependencies call for, a geometry reference exactly when it works on one, to the union of its last joined query or else to its first dependency, and the dependencies of the plan with joined queries replaced by their unions; there is one union per joined query and nothing else. |
| Expander.InjectUnions | mcp-mapgpt-client/core/orchestrator/graph/expander.py:166-182 | The second pass adds a union node for exactly the queries that some node joins with spatially, and changes nothing else. |
| Expander.RedirectEdges | mcp-mapgpt-client/core/orchestrator/graph/expander.py:184-201 | The third pass does to every node what its own dependency list asks for, in place, and leaves keys and order alone. |
| Expander.RedirectAllIsRewired | mcp-mapgpt-client/core/orchestrator/graph/expander.py:190-201 | Removing and appending dependency by dependency, also with repeated dependencies: what is kept stays as often as it is kept, every union comes in once, the last redirection sets the reference; without repetitions the order is a stable partition. |
| Expander.ExpandFlatNodes | mcp-mapgpt-client/core/orchestrator/graph/expander.py:146-203 | Fails exactly when some node meets a condition of refusal, with the error of the first such node; on every other plan the result is what the three passes make of it, and on well-named ones the expansion described field by field, plan nodes first and in plan order. |
| Expansion.DependencyPreserved | mcp-mapgpt-client/core/orchestrator/graph/expander.py:166-201 | Between nodes of the plan, "transitively depends on" holds after expansion exactly when it held before. |
| Expansion.ExpansionValidIff | mcp-mapgpt-client/core/orchestrator/graph/expander.py:138-203 | The expanded graph validates exactly when the plan is non-empty, closed and acyclic and no node lists twice a dependency that is not redirected. |
| Expansion.OneUnionPerParent | mcp-mapgpt-client/core/orchestrator/graph/expander.py:171-182 | Exactly one node is added per query with a spatial-join dependent, however many dependents share it. |
| Expansion.NoDanglingRefs | mcp-mapgpt-client/core/orchestrator/graph/expander.py:185-201 | After all passes every geometry and features reference is the output key of a node listed in that node's dependencies. |
| Expansion.OutputsDistinct | mcp-mapgpt-client/core/orchestrator/graph/expander.py:173-214 | No two nodes of an expanded graph write the same artifact key. |
| Pipeline.ExpandPlan | mcp-mapgpt-client/core/orchestrator/graph/expander.py:91-138 | Expands the list that the action names; whatever is returned is a valid graph made by the three passes, each error has its exact condition, and a well-named plan expands exactly when its selected list is non-empty, no node is refused, and it is closed, acyclic and free of unredirected repetitions. |
| Retry.RetryWithBackoff | mcp-mapgpt-client/core/orchestrator/graph/resilience.py:109-169 | For any outcomes and any retries recorded by others meanwhile: at most `max_attempts` calls, only transient failures are retried, each outcome has its exact cause, the budget gains one per retry and is never pushed over its limit. |
| Retry.DelaysBounded | mcp-mapgpt-client/core/orchestrator/graph/resilience.py:152-154 | For any jitter draws the first n delays sum to at most 1.5 times the geometric sum and 1.5 times n capped delays. |
| Retry.DelayDoubles | mcp-mapgpt-client/core/orchestrator/graph/resilience.py:152-154 | Without jitter the first delay is the base, every further one twice the one before, and all are cut at the maximum. |
| Retry.JitterSpreads | mcp-mapgpt-client/core/orchestrator/graph/resilience.py:152-154 | With jitter the draw says how far the delay lies between the plain one and one and a half times that. |
| Retry.UncutTotal | mcp-mapgpt-client/core/orchestrator/graph/resilience.py:132-163 | Without jitter and cuts the delays of n retries add up to base * (2^n - 1), so the bound below is tight but for the jitter. |
| Retry.TotalSleepBounded | mcp-mapgpt-client/core/orchestrator/graph/resilience.py:132-163 | One call with n allowed attempts sleeps at most 1.5 * min(base * (2^(n-1) - 1), (n-1) * max_delay). |
| Breaker.CircuitBreaker.CheckState | mcp-mapgpt-client/core/orchestrator/graph/resilience.py:250-259 | Admits or rejects, and moves to HALF_OPEN, as the specification function says. |
| Breaker.CircuitBreaker.RecordFailure | mcp-mapgpt-client/core/orchestrator/graph/resilience.py:261-281 | The append-trim-trip sequence refines the specification function in every state; the breaker is open afterwards exactly when it was not closed or the window is at the threshold, and the recovery time starts anew in HALF_OPEN and at the threshold, also for a late failure in OPEN. |
| Breaker.CircuitBreaker.RecordSuccess | mcp-mapgpt-client/core/orchestrator/graph/resilience.py:283-295 | Closes from HALF_OPEN, trims in CLOSED, does nothing in OPEN. |
| Breaker.ResetForgets | mcp-mapgpt-client/core/orchestrator/graph/resilience.py:297-302 | Whatever happened before a reset, the breaker then behaves and counts failures as a new one would. |
| Breaker.FailureCountIsExact | mcp-mapgpt-client/core/orchestrator/graph/resilience.py:216-220 | After any run with non-decreasing time the count equals the number of all failures since the last clear that lie in the window: repeated trimming loses nothing. |
| Breaker.ClosedIsBelowThreshold | mcp-mapgpt-client/core/orchestrator/graph/resilience.py:270-281 | In every reachable CLOSED state fewer than `threshold` failures are stored. |
| Breaker.TripsExactlyAtThreshold | mcp-mapgpt-client/core/orchestrator/graph/resilience.py:261-281 | After any run, an event takes CLOSED to OPEN exactly when it is a failure that brings the untrimmed in-window count to the threshold, and never to HALF_OPEN. |
| Breaker.QuietPeriod | mcp-mapgpt-client/core/orchestrator/graph/resilience.py:250-281 | After a move to OPEN no call is admitted before the recovery time has passed, whatever calls in flight report. |
| Breaker.RecoversOnTime | mcp-mapgpt-client/core/orchestrator/graph/resilience.py:252-259 | Without new failures an open breaker admits calls exactly from the recovery time on. |
| Breaker.LateFailure | mcp-mapgpt-client/core/orchestrator/graph/resilience.py:261-281 | After any run that leaves the breaker OPEN, a failure that a call in flight reports starts the recovery time anew exactly when the untrimmed failures in the window are at the threshold. |
| Breaker.AdmitsAfterLastExtension | mcp-mapgpt-client/core/orchestrator/graph/resilience.py:250-281 | While the breaker stays OPEN, calls are admitted exactly from the recovery time after the last such failure on, or after the opening when there was none. |
| Breaker.SuccessForgetsOnlyWhenClosing | mcp-mapgpt-client/core/orchestrator/graph/resilience.py:283-295 | A success clears the failure count only when it closes the breaker; in CLOSED and OPEN every later count is what it would have been. |
| Breaker.ClosesOnlyThroughProbe | mcp-mapgpt-client/core/orchestrator/graph/resilience.py:250-295 | An open breaker that is later closed, without a reset, went through HALF_OPEN by a check after the recovery time and then saw a success. |
| Breaker.FirstReportDecides | mcp-mapgpt-client/core/orchestrator/graph/resilience.py:270-288 | In HALF_OPEN every call is admitted, and the first report reopens from now or closes and clears. |
| RuntimeInvariants.TriageSorts | mcp-mapgpt-client/core/orchestrator/graph/runtime.py:219-234 | The loop over a level, which tests sets it is growing, skips exactly the nodes with a failed or skipped dependency. |
| RuntimeInvariants.BeginIsMove | mcp-mapgpt-client/core/orchestrator/graph/runtime.py:308-323 | Beginning an attempt makes the node run, or fails it with the books, timing and budget all accounted for. |
| RuntimeInvariants.FinishIsMove | mcp-mapgpt-client/core/orchestrator/graph/runtime.py:335-361 | However an attempt ends, exactly one node changes, and artifacts, errors, timing and budget change accordingly. |
| RuntimeInvariants.StepKeepsInv | mcp-mapgpt-client/core/orchestrator/graph/runtime.py:212-244 | Every event of every interleaving keeps the whole invariant: attempt limits, dependency order, level barrier, books, store, budget and timing. |
| RuntimeTheorems.ReachableInv | mcp-mapgpt-client/core/orchestrator/graph/runtime.py:191-269 | So every state that any run from the start can reach satisfies it. |
| RuntimeTheorems.ConcurrentNodesIndependent | mcp-mapgpt-client/core/orchestrator/graph/runtime.py:239-244 | Nodes that are under way together never depend on each other. |
| RuntimeTheorems.OutcomePartition | mcp-mapgpt-client/core/orchestrator/graph/runtime.py:207-249 | When a run is complete each node has succeeded, failed or been skipped; failed are the keys of `errors`, skipped are exactly the nodes with a failed strict ancestor, and successes are exactly the nodes whose output is stored. |
| RuntimeTheorems.ArtifactsComeFromSuccesses | mcp-mapgpt-client/core/orchestrator/graph/context.py:123-145 | At every moment the stored keys are exactly the outputs of the successful nodes, with a producer each. |
| RuntimeTheorems.BudgetConserved | mcp-mapgpt-client/core/orchestrator/graph/resilience.py:143-150 | At every step of every interleaving `used` equals the retries of all nodes plus the nodes sleeping before a recorded retry, stays within `max_retries`, and attempts are at most nodes plus `used`. |
| RuntimeTheorems.CallsAreAttempts | mcp-mapgpt-client/core/orchestrator/graph/resilience.py:132-137 | The attempts counted in a run are those its events begin, so the bound above is one on executor attempts. |
| RuntimeTheorems.TimedRetriesAddUp | mcp-mapgpt-client/core/orchestrator/graph/runtime.py:246-249 | In a completed run the retries in the timing records add up to the budget used. |
| RuntimeTheorems.RejectedNodeFails | mcp-mapgpt-client/core/orchestrator/graph/resilience.py:237-259 | A rejected attempt ends its node at once and for good: no retry then or in any later state, nothing from the budget, breaker and artifacts untouched. |
| RuntimeTheorems.TerminalIsFinal | mcp-mapgpt-client/core/orchestrator/graph/runtime.py:335-361 | A node that has succeeded, failed or been skipped keeps its outcome, and its error, through every continuation of the run. |
| RuntimeTheorems.SuccessWasReturned | mcp-mapgpt-client/core/orchestrator/graph/runtime.py:335-345 | The value of a successful node is one that the end of an attempt of that node returned in the run. |
| RuntimeTheorems.TransientEnd | mcp-mapgpt-client/core/orchestrator/graph/resilience.py:137-150 | A node whose attempt fails transiently is retried exactly when its policy, or three attempts without one, and the budget allow another; else it fails with the error of the limit that was reached, the attempts first. |
| RuntimeTheorems.RunRecords | mcp-mapgpt-client/core/orchestrator/graph/runtime.py:212-244 | In every continuation of a run the lists of skipped nodes, timings and parallel groups only grow at the end. |
| RuntimeBreaker.QuietRun | mcp-mapgpt-client/core/orchestrator/graph/resilience.py:237-259 | In no interleaving does an executor call begin while an open breaker has not recovered. |
| RuntimeBreaker.BreakerOfRun | mcp-mapgpt-client/core/orchestrator/graph/runtime.py:319-323 | The breaker at the end of a run is the breaker alone fed with one check per attempt and one report per admitted attempt. |
| RuntimeBreaker.RunReportsTimed | mcp-mapgpt-client/core/orchestrator/graph/resilience.py:237-295 | What a run feeds to its breaker is in the order of time and free of resets, so the breaker theorems apply to runs. |
| RuntimeBreaker.RunWindowCount | mcp-mapgpt-client/core/orchestrator/graph/resilience.py:216-220 | After any run, and at any later time, `failure_count` is the number of all failures reported in the run since the last clear that lie in the window. |
| RuntimeBreaker.RunTripsExactly | mcp-mapgpt-client/core/orchestrator/graph/resilience.py:261-281 | In any run an event takes a closed breaker to OPEN exactly when it reports a failure that brings the untrimmed count in the window to the threshold, and never to HALF_OPEN. |
| RuntimeBreaker.RunLateFailure | mcp-mapgpt-client/core/orchestrator/graph/resilience.py:261-281 | In any run, a call in flight that fails while the breaker is OPEN starts the recovery time anew exactly when the untrimmed failures of the run in the window are at the threshold. |
| RuntimeBreaker.AttemptReported | mcp-mapgpt-client/core/orchestrator/graph/resilience.py:237-248 | Every attempt asks the breaker first; the node is rejected exactly when the breaker does not admit it, and an admitted attempt that misses its artifact is reported as a failure at once. |
| RuntimeBreaker.RunClosesOnlyThroughProbe | mcp-mapgpt-client/core/orchestrator/graph/resilience.py:250-295 | A breaker that a run opens and a continuation closes was probed after the recovery time, and a success was reported after the probe. |
| RuntimeBreaker.NeverTrips | mcp-mapgpt-client/core/orchestrator/graph/resilience.py:261-281 | A fresh breaker whose threshold exceeds the attempts the policies allow stays closed in every run, and no node is ever rejected. |
| RuntimeTheorems.ErrorsHaveCauses | mcp-mapgpt-client/core/orchestrator/graph/runtime.py:279-352 | A run ends with an error recorded against a node exactly when some event of that node had the error's cause at that moment: breaker rejecting, artifact absent, fatal end, transient end of the last attempt, transient end with attempts left and the budget used up, no executor, no attempt allowed. |
| RuntimeTheorems.NoReadFails | mcp-mapgpt-client/core/orchestrator/graph/context.py:150-168 | When reads are confined to dependencies' outputs, no `get` of any run fails. |
| RuntimeTheorems.GroupsAreParallelLevels | mcp-mapgpt-client/core/orchestrator/graph/runtime.py:213-215 | The recorded groups are the entered levels with more than one node. |
| RuntimeTheorems.RunsAreFinite | mcp-mapgpt-client/core/orchestrator/graph/runtime.py:210-244 | Every run ends: it has at most three events per node and two per attempt its policy allows. |
| RuntimeTheorems.NeverStuck | mcp-mapgpt-client/core/orchestrator/graph/runtime.py:210-244 | A reachable state that is not complete has a next event. |
| SequentialRun.TrialEnds | mcp-mapgpt-client/core/orchestrator/graph/resilience.py:132-163 | A node that runs when some retries have been used is either refused one with the budget used up, and fails short of what it asked for, or takes all it asks for and comes to what it would without a budget. |
| SequentialRun.RunAllAccounted | mcp-mapgpt-client/core/orchestrator/graph/runtime.py:212-244 | Executing the nodes one after the other under the shared budget: every outcome follows from those before it, the store holds the outputs of the successes, retries spent add up to the budget used, and a refusal means that the budget had run out. |
| RetryContention.OutcomesUnique | mcp-mapgpt-client/core/orchestrator/graph/runtime.py:219-244 | With distinct outputs and confined reads, two executions with the same ends of attempts that refuse the same nodes a retry agree on every outcome, every artifact and the budget used. |
| RetryContention.RefusalsUnique | mcp-mapgpt-client/core/orchestrator/graph/resilience.py:143-150 | Any two executions with the same ends of attempts refuse the same nodes a retry when no two contending nodes can be short of the budget. |
| RetryContention.ContentionDecides | mcp-mapgpt-client/core/orchestrator/graph/resilience.py:143-150 | If two nodes that may both ask for a retry can be short of the budget, there are ends of the attempts and two orders such that in each order one of the two fails and the other succeeds, and not the same one. |
| RetryContention.SequentialIff | mcp-mapgpt-client/core/orchestrator/graph/resilience.py:75-104 | The sequential run under the shared budget comes to the same in every topological order, whatever the attempts come to, exactly when the budget is not positive or, for any two nodes that can ask for a retry and do not depend on each other, the retries allowed to the nodes that depend on neither fit the budget. |
| Serializability.SerialIff | mcp-mapgpt-client/core/orchestrator/graph/runtime.py:212-244 | With distinct outputs and confined reads: every complete run in which the breaker rejects nobody, under every way the attempts may end and every interleaving, ends with the outcomes, artifacts, failed, skipped and refused nodes and the budget use of the sequential run under the same budget in every topological order, exactly under that condition. |
| Serializability.UnlimitedIff | mcp-mapgpt-client/core/orchestrator/graph/resilience.py:75-104 | Compared with no budget at all: every complete run in which the breaker rejects nobody ends as if every retry were granted exactly when the budget covers the retries of all nodes that can run. |
| Pipeline.PrepareJob | mcp-mapgpt-client/core/orchestrator/query_handler.py:601-635 | Expanding, validating and levelling a plan gives a job that the run theorems below apply to, exactly for the plans that expand. |
| Pipeline.ExpandedIsDisciplined | mcp-mapgpt-client/core/orchestrator/graph/expander.py:146-203 | Expanded graphs have distinct outputs and reads confined to dependencies, so the runtime theorems apply to them. |
| Pipeline.NoDanglingReads | mcp-mapgpt-client/core/orchestrator/graph/executors.py:77-186 | In every run of every expanded plan, with or without breaker, every artifact an executor looks up is there. A running buffer, spatial join or proximity node has been given the value of the successful dependency whose output is its geometry reference, a union the value of the query it merges, all others nothing; plan nodes run at most three attempts and unions one. |
| ExecutorInputs.RunReads | mcp-mapgpt-client/core/orchestrator/graph/executors.py:77-186 | At every step of every interleaving a running node holds what its reference leads to in the store at that moment: no later success changes it. |
| Pipeline.ExpandedPlansSerialize | mcp-mapgpt-client/core/orchestrator/graph/expander.py:45-54 | Serializability for every expanded plan; with the registered executors the condition reads: the budget is not positive, or for any two nodes of the plan that do not depend on each other it allows two retries for each plan node that depends on neither. |
| Pipeline.DefaultBudgetSerializes | mcp-mapgpt-client/core/orchestrator/graph/resilience.py:86-97 | With the default budget of 5 that means: of any two plan nodes that do not depend on each other, every other plan node depends on one. Chains of any length serialize; three independent nodes do not. |
| Pipeline.ExpandedPlansUnlimited | mcp-mapgpt-client/core/orchestrator/graph/expander.py:45-54 | Runs of an expanded plan in which the breaker rejects nobody end as they would without a budget exactly when it covers all nodes; with the registered executors, when it allows two retries per node of the plan. |
| FlowLayout.HaltsIff | mapgpt-webchat-ui/src/features/chat/ExecutionFlowModal.tsx:69-79 | The worklist loop comes to an end exactly when no chain from a node without dependencies leads to a node that depends on itself. |
| FlowLayout.AssignLevels | mapgpt-webchat-ui/src/features/chat/ExecutionFlowModal.tsx:57-79 | Under that condition a node gets level k exactly when its longest chain from a root has k edges. |
| FlowLayout.RootLevelIsLevel | mapgpt-webchat-ui/src/features/chat/ExecutionFlowModal.tsx:57-79 | On dependency-closed timings that is the length of the longest dependency chain. |
| FlowLayout.GroupByLevel | mapgpt-webchat-ui/src/features/chat/ExecutionFlowModal.tsx:81-87 | Each group lists the ids of its level in the insertion order of the levels map. |
| FlowLayout.Layout | mapgpt-webchat-ui/src/features/chat/ExecutionFlowModal.tsx:97-107 | Reached nodes sit at 250 times their level, stacked without gaps 100 apart, and no two of them share a position; nodes without dependencies are drawn in timing order; nodes that are not reached fall back to the first column. |
| Pipeline.PictureLevelsAgree | mapgpt-webchat-ui/src/features/chat/ExecutionFlowModal.tsx:57-79 | In any reachable state of any run the worklist level of a timed node is the index of its runtime level. |
| Pipeline.DrawRun | mcp-mapgpt-client/core/orchestrator/query_handler.py:710-723 | The picture of any reachable state puts every timed node in the column of its runtime level, without overlaps. |
| LayerCache.BoundedLayerCache.Get | mcp-arcgis-server/mcp_arcgis_server/arcgis/client.py:38-44 | Returns the cached layer and moves a hit to the most recent place. |
| LayerCache.BoundedLayerCache.Put | mcp-arcgis-server/mcp_arcgis_server/arcgis/client.py:46-55 | Refreshes, inserts, or evicts the least recent key first; raises exactly when a cache of size below 1 is empty. |
| LayerCache.BoundedLayerCache.GetFeatureLayer | mcp-arcgis-server/mcp_arcgis_server/arcgis/client.py:100-112 | Get-else-put: the cached layer on a hit, with all entries kept, the created one on a miss; either is then cached as the most recent; the `KeyError` exactly on a miss in an empty cache of size below 1. |
| LayerCache.CacheIsRecency | mcp-arcgis-server/mcp_arcgis_server/arcgis/client.py:26-60 | After any trace of gets, puts and clears the cache holds, in order, the `max_size` most recently touched keys since the last clear, each with its last put value. |
| LayerCache.RecencyOrder | mcp-arcgis-server/mcp_arcgis_server/arcgis/client.py:41-42 | "More recent" means a later last occurrence in the touch log. |
| LayerCache.SmallerCacheIncluded | mcp-arcgis-server/mcp_arcgis_server/arcgis/client.py:100-112 | Under get-else-put a smaller cache always holds the most recent part of a larger one. |
| RateLimiter.Limiter.Handle | mcp-mapgpt-client/main.py:177-191 | Prunes, decides and records as the specification functions say. |
| RateLimiter.AcceptsExactly | mcp-mapgpt-client/main.py:182-191 | A request is rejected exactly when the limit was reached by requests accepted in the preceding 60 seconds, although the stored list is pruned. |
| RateLimiter.NoWindowOverflows | mcp-mapgpt-client/main.py:177-191 | No half-open window of 60 seconds, wherever it starts, holds more accepted requests of a client than the limit. |
| History.Session.AddMessage | mcp-mapgpt-client/core/history.py:122-126 | Keeps the invariant that the stored list is the last `MAX_ENTRIES` messages of everything ever added, all of it at 0, and nothing for a negative number. |
| History.Session.GetMessages | mcp-mapgpt-client/core/history.py:191-205 | The backward walk returns, in order, the longest suffix of everything ever added within both the number of messages and the token budget. |
| History.StoredIsKept | mcp-mapgpt-client/core/history.py:17-126 | Trimming after every append keeps what one trim of the whole conversation would keep: its last `MAX_ENTRIES` messages, all of it at 0, nothing below 0. |
| History.BoundedIffNonZero | mcp-mapgpt-client/core/history.py:17-126 | The stored list stays within `MAX_ENTRIES`, or empty below 0, for every conversation exactly when that number is not 0. |
| PlanGuard.BuildTables | mcp-mapgpt-client/core/orchestrator/validation.py:42-54 | A name leads to the URL and fields of the last layer of that name, case aside; other names lead nowhere; the URLs of all layers are known. |
| PlanGuard.PlanDict.Fix | mcp-mapgpt-client/core/orchestrator/validation.py:56-106 | The in-place recursive rewrite of a tree of dictionaries equals the rewrite on values, at any depth. |
| PlanGuard.PlanDoc.Validate | mcp-mapgpt-client/core/orchestrator/validation.py:30-121 | The mutated plan is the plan as it was with every entry of the nodes that the action selects repaired: the dictionaries are rewritten in place, a second validation would change nothing, and every visited node of a known layer is corrected. |
| PlanGuard.ValidateRepairs | mcp-mapgpt-client/core/orchestrator/validation.py:56-121 | Entry by entry: of the fields of a known layer exactly those stay that are left without their alias and known, or all non-empty ones if none is known, in order and as often as listed; an absent or unknown URL gives way to the layer's own and every other stays; `tool` is renamed exactly when there is no `join_type`; at every depth, and nothing else changes. |
| PlanGuard.ValidateIdempotent | mcp-mapgpt-client/core/orchestrator/validation.py:30-121 | Validating a plan twice changes nothing more. |
| PlanGuard.ValidateCorrects | mcp-mapgpt-client/core/orchestrator/validation.py:65-121 | Afterwards every visited node of a known layer carries a known URL, and its fields are alias-free and all known or none known, made by that repair from what it had. |
| ToolLoop.CallTool | mcp-mapgpt-client/core/orchestrator/base.py:165-223 | One requested tool is invoked at most twice, the second time exactly after a transient failure; the answer is the value returned at the first attempt, or at the second after a transient failure, if it is a string or can be serialised, and an error report in all other cases. |
| ToolLoop.RunToolLoop | mcp-mapgpt-client/core/orchestrator/base.py:126-262 | For any model and tool behaviour: before every model call each appended request has been answered, per id and in order, with that answer after at most two invocations; a result has no pending calls, records the last tool, and took at most `max_iterations` rounds and one model call more; failure means the limit was reached with calls pending. |

## Left out

- ExpandFlatNodes: for plans that are not well-named the contract gives what each of the three passes does to the dictionary, and no more. Well-named means that no id is used for two nodes and that no id the plan mentions is the id of a union that will be injected; otherwise nodes overwrite each other in the dictionary, and the plan's own graph is no longer what was meant.
- DependencyPreserved, ExpansionValidIff, OneUnionPerParent, NoDanglingRefs, OutputsDistinct: for the same reason these ask for well-named plans, a condition a caller can check on the plan. Ids that merely start with `_union_` and repeated dependencies are allowed.
- CreateTypedNode: keeps only what shapes the graph (type, output, references, dependencies, retry policy); layer URL lookup, `where`, `out_fields`, units and limits are passed through unchanged by the code and are not kept.
- BeginAttempt, FinishAttempt: the executors' tool calls are arbitrary outcomes (a value, a transient error, another error); MCP, ArcGIS, HTTP and geometry merging are not part of this model.
- Step: a sleeping node may wake at any later time; the length of a sleep is bounded in Retry but not tied to the clock of the runtime.
- SerialIff: how an attempt ends is a function of the node, the attempt number and the artifact read. Runs in which the breaker rejects a node are excluded, because rejections depend on time; whether that happened can be read off the errors of the run. That it cannot happen in any run is claimed only for breakers whose threshold exceeds all attempts the policies allow (NeverTrips): with the shipped threshold of 5 and three attempts per node this covers plans of one node, so for larger plans with the breaker that the query handler always passes the theorem speaks of the runs that record no rejection. The runs that show the condition to be necessary have no breaker.
- RunsAreFinite: bounds the number of events, not their duration; task cancellation is not part of this model.
- AssignLevels, Layout: timings on which the worklist does not come to an end (FlowLayout.HaltsIff says which) have no result; every timing list the back end produces is acyclic, so they do not occur there. Timings have distinct ids.
- SmallerCacheIncluded: accesses are taken one at a time, each a get followed by its put. The code takes the lock for the get and for the put separately, so another thread can come in between; a late put into a cache of size 1 can then leave a key that a larger cache, where the get was a hit, has meanwhile dropped.
- PlanDict: a dictionary that occurs at two places of one plan is not modelled; plans are parsed from JSON, where this cannot happen.
- PlanDoc: absent and empty entries, which the code treats alike, are one case, and a single place to search for counts as a list of one. Upper-casing and alias stripping are parameters assumed idempotent.
- AddMessage, GetMessages: Redis failures, expiry and JSON encoding are not part of this model; the tokenizer is an arbitrary function.
- RunToolLoop: timing figures, logging, progress callbacks and the text of error reports are left out.
- Floating point: times and delays are reals.
- Thread and asyncio locks: the guarded sections contain no await, so each is one atomic step.
- `GraphResult.data`: it is the last node in dictionary order that did not fail, not a leaf in general, and nothing is claimed about it.
- React rendering, styling and edges of the picture; `get_turns`, `add_turn` and plan trimming of the history; the older monolithic orchestrator; authentication, retrieval and ingestion.
