# A verified model of the self-healing orchestrator

This project models how the orchestrator executes a plan of agent steps and how it heals failing
ones, layer by layer, and proves what each layer guarantees to the next. Agents, tools, validators,
custom repair strategies, planners and replanners are arbitrary outcome functions, so every result
holds for all of their behaviours.

| module | layer |
|---|---|
| Wrappers, Values, Plans | option and result types, dynamically typed values, plans and replan requests |
| DependencyGraph, PlanGraph, Dag | the dependency multigraph, which plans are accepted, and the scheduler object |
| Retry, Repair | retry policies with backoff, repair plans, strategies and the repair gate |
| StepExecution, StepLimits, StepCounts | the retry loop of one step, how often it can invoke agents, and how often it does |
| Interleaving | the goroutines of one batch as a small-step relation |
| Engine, EngineRuns, EngineOrder | the engine loop as a method on objects and as a transition function; bounds, order and termination of whole runs |
| EngineFailures | what a failed step leads to: what the replanner is told and what its answer does |
| ContextAwarePlanner, Conservation, FallbackRuns | the planner that rebuilds the rest of a plan, whole-run conservation of the template, and which steps fall back |
| DagReplans | what a replan keeps, loses and repeats of a plan with StepIDs |
| Decimals, ToolRecords, Replay | collecting, persisting and replaying tool calls |
| Metrics | the repair rate recovered from persisted step records |
| Text, Corpus, Grounding | normalised substring search, the rendering of tool outputs, and the grounding validator |
| GroundingOrder, OrderFreedom | what the iteration order of maps means for grounding |
| GroundingSoundness | what acceptance by the grounding validator guarantees |
| LogReader, LogAnalyzer, Diagnosis, Pipeline | the two log agents, what the report says of its input, the report validator and the golden path through all of them |

Where the source updates objects in place (scheduler, tracker, repair plan, planner, engine,
collector, executors, grounding validator), the model has classes and methods with loops, each proved
against a specification function or a relation; the lemmas are about those.

Things the proofs bring out about the code:

- Planning templates lose their StepIDs, dependencies and retry policies when they are copied
  (planner/context_aware.go:208-218). That is why replanning them can never produce a rejected graph,
  and also why a template's own dependencies and retry policies have no effect.
- A plan that keeps its StepIDs is another matter: replanned from step f on, it is accepted exactly
  when no step from f on depends on a step before f. For the log analysis plan, a replan after the
  second step failed is always rejected (`Conservation.LogAnalysisReplan`).
- An accepted replan of such a plan can lose steps and repeat steps, and the run still reports success
  (`DagReplans.ReplanCanLoseAStep`, `DagReplans.ReplanCanRepeatAStep`). It keeps each step exactly once
  exactly when the finished steps are those listed before the failed one
  (`DagReplans.ReplansKeepExactly`).
- The grounding corpus is rebuilt for every check, ranging over maps in a new order. Evidence quoted
  from one tool value is always grounded and stays so. Evidence that spans two entries of a map may be
  grounded in one check and not in the next: exactly the texts of at most one word are safe for all
  outputs (`GroundingOrder.StableExactly`), and exactly the outputs whose map entries commute are safe
  for all texts (`OrderFreedom.OrderFreeExactly`).
- The advanced strategy plans a replacement for a second agent failure without naming an agent, and
  the executor skips such a replacement (orchestrator/step_executor.go:234-243), so an agent failure
  is retried once and never replaced (`StepLimits.AdvancedRetriesExactly`).
- A modified input decides neither retries nor agents, and never reaches the agent
  (orchestrator/step_executor.go:133, 221-233).
- The grounding validator takes file names from tool inputs only, although its comment also names
  outputs (orchestrator/grounding_validator.go:122). So a file listed in a directory other than the
  current one counts as accessed exactly when its name contains no slash or some call was given that
  very name as its path (`Pipeline.AccessedExactly`), and that alone decides whether the report of the
  golden path is accepted (`Pipeline.RunGoldenPath`).
- When a step fails without a possible replan, the outputs of the other steps of its batch are
  dropped, although they succeeded (orchestrator/engine.go:278-356).

## Model

| member | source | states |
|---|---|---|
| DependencyGraph.TopologicalIsAcyclic | orchestrator/dag.go:81-104 | a graph whose steps can be listed with every step after all of its parents has no dependency cycle |
| DependencyGraph.StuckSetHasCycle | orchestrator/dag.go:81-104 | a non-empty set of steps that each wait for another one in the set contains a cycle, by pigeonhole on a long walk |
| DependencyGraph.LongChainHasCycle | orchestrator/dag.go:81-104 | a dependency chain with more steps than the plan has closes a cycle |
| DependencyGraph.DoneAfterIffShortChains | orchestrator/dag.go:111-128 | a step is done after k batches exactly when no dependency chain from it has more than k steps |
| DependencyGraph.BatchIsLevel | orchestrator/dag.go:111-128 | batch k holds exactly the steps whose longest dependency chain has k + 1 steps |
| DependencyGraph.AcyclicFinishes | orchestrator/dag.go:102-106 | an acyclic plan finishes in at most as many batches as it has steps |
| DependencyGraph.BatchesAreOptimal | orchestrator/dag.go:111-128 | no schedule that runs dependencies in earlier rounds runs a step earlier than its batch does |
| PlanGraph.BuildableGraphs | orchestrator/dag.go:31-106 | every accepted plan, sequential or with dependencies, has a well-formed acyclic graph |
| PlanGraph.SuffixBuildable | orchestrator/dag.go:56-104 | the suffix of an accepted plan with StepIDs is accepted if and only if no kept step depends on a dropped one |
| PlanGraph.EdgesAreDependencies | orchestrator/dag.go:68-79 | the edges of a plan with StepIDs are the dependencies it declares, as often as it declares them |
| PlanGraph.AcceptedExactly | orchestrator/dag.go:31-104 | in terms of the steps alone: a plan is accepted if and only if no step has a StepID or a dependency, or every step has a StepID of its own, every dependency names a step and dependencies go round in no circle; one dependency is enough to make every StepID required |
| Dag.KahnRemovesEdge | orchestrator/dag.go:91-101 | decrementing one child of the step taken from the queue keeps the algorithm's invariant between queue, degrees and edges still to remove |
| Dag.KahnDecides | orchestrator/dag.go:102-104 | when the queue is empty, all steps were reached if and only if the graph has no cycle |
| Dag.Kahn | orchestrator/dag.go:81-104 | the count of reached steps equals the number of steps exactly when the graph is acyclic; duplicate edges and self-edges included |
| Dag.CopyDegrees | orchestrator/dag.go:82-90 | copies the in-degrees and queues exactly the steps without edges |
| Dag.RemoveEdges | orchestrator/dag.go:92-100 | taking one step off the queue removes all its outgoing edges and queues exactly the steps this frees |
| Dag.PendingDrops | orchestrator/dag.go:122-128 | marking a step lowers the number of pending edges of another by the multiplicity of the edges between them |
| Dag.IndexIds | orchestrator/dag.go:56-66 | the index is built if and only if StepIDs are non-empty and distinct; otherwise the first offending step is reported |
| Dag.BuildStepEdges | orchestrator/dag.go:69-78 | resolves the dependencies of one step into edges, or reports the first of them that names no step |
| Dag.BuildEdges | orchestrator/dag.go:68-79 | children lists are the transpose of the dependencies as multisets and in-degrees count declared dependencies, or the first unknown dependency of the first step that has one is reported |
| Dag.BuildSequential | orchestrator/dag.go:43-54 | without StepIDs and dependencies, step i depends on exactly step i - 1 |
| Dag.NewDagScheduler | orchestrator/dag.go:25-107 | a scheduler is built if and only if the plan is acceptable (in DAG mode: usable StepIDs, named dependencies, no cycle); otherwise the error is the check that fails first |
| Dag.DagScheduler.ReadySteps | orchestrator/dag.go:111-119 | returns, by increasing index, exactly the undone steps whose dependencies are all done |
| Dag.Decrement | orchestrator/dag.go:124-127 | lowers each in-degree by the number of times its step occurs among the children |
| Dag.DagScheduler.MarkDone | orchestrator/dag.go:122-128 | marks one ready step and keeps the invariant: in-degree -1 exactly when done, otherwise the number of edges from undone parents |
| Dag.MarkedState | orchestrator/dag.go:122-128 | subtracting one per outgoing edge re-establishes the in-degree meaning for every step |
| Dag.ReadyBelowLists | orchestrator/dag.go:111-119 | the ready list is strictly increasing and contains exactly the ready steps |
| Dag.SomeStepReady | orchestrator/engine.go:231-235 | in an acyclic graph some step is ready whenever one is undone |
| Retry.RawDelayGrows | retry/policy.go:105-133 | with non-negative initial delay and multiplier at least 1, the raw delay is non-negative and non-decreasing in the attempt |
| Retry.BaseDelayGrows | retry/policy.go:105-140 | the unjittered delay is non-decreasing in the attempt and a positive MaxDelay caps it |
| Retry.JitterWithinQuarter | retry/policy.go:142-152 | for every random draw, jitter moves a delay by at most a quarter and never below zero |
| Retry.DoublingDelaysKeepOrder | retry/policy.go:120-152 | uncapped delays that double never swap order, whatever the two draws are |
| Retry.TotalWaitBounded | orchestrator/step_executor.go:87-93 | all waits of a step together are at most (attempts - 1) * 1.25 * MaxDelay |
| Retry.DelaysExactly | retry/policy.go:105-133 | nothing before the first attempt, the initial delay before the second, and then the same again, one more initial delay, or the multiple |
| Retry.JitterSpans | retry/policy.go:142-152 | the wait grows with the random draw, from three quarters of the unjittered wait through that itself towards five quarters |
| Retry.MergeLaws | retry/policy.go:73-91 | merging fills in exactly the unset fields, never jitter or retryable errors, and is associative |
| Repair.RepairPlan.HasAbort | repair/repair.go:86-93 | true exactly when some action aborts |
| Repair.RepairPlan.HasReplan | repair/repair.go:76-83 | true exactly when replanning was requested by flag or by action |
| Repair.HandleValidationFailure | repair/advanced_strategy.go:50-87 | input correction on a correctable first attempt, replan from the second on, otherwise retry |
| Repair.HandleToolFailure | repair/advanced_strategy.go:90-128 | two retries, then replacement by the ".alternative" agent if enabled, otherwise abort |
| Repair.HandleAgentFailure | repair/advanced_strategy.go:131-177 | retry, then an unnamed replacement if enabled, then replan, otherwise abort |
| Repair.CreateRepairPlan | repair/engine.go:87-118 | the actions and the replan flag of the simple, advanced or any custom strategy, filled in a fresh plan object, or the strategy's own error; the built-in strategies set the flag exactly when they plan a replan |
| Repair.Repair | repair/engine.go:46-71 | aborts, without the flag, at the attempt limit or on a failure that is not retryable, otherwise asks the strategy |
| Repair.AnswersExactly | repair/engine.go:46-118 | exactly which failures the built-in strategies abort on, retry, replace and replan, by failure type and attempt |
| StepExecution.ApplyKeepsRegistered | orchestrator/step_executor.go:221-255 | repair keeps the agent or moves to a registered one, and the modified input influences neither retry nor agent |
| StepExecution.ApplyRepairActions | orchestrator/step_executor.go:221-255 | the loop with its early returns computes what the first deciding action demands |
| StepExecution.Overlay | orchestrator/agent_runner.go:16-28 | copying one map over another in any key order is the overlay of the two |
| StepExecution.RunAgent | orchestrator/agent_runner.go:16-42 | the agent sees Vars overlaid by the request input overlaid by the step input |
| StepExecution.RepairFailure | orchestrator/step_executor.go:134-211 | what a failed invocation leads to: retry with which agent, or which error, and which record |
| StepExecution.TakeAttempt | orchestrator/step_executor.go:82-217 | one pass through the loop: gate, lookup, invocation, validation and repair, with its outcome, call and record |
| StepExecution.Unroll | orchestrator/step_executor.go:79-217 | one more pass through the loop keeps: what was gathered, extended by the rest of the loop, is the whole run |
| StepExecution.StepAttemptTracker.IncrementAttempt | orchestrator/step_executor.go:30-35 | counts the attempt of one step and leaves all others alone |
| StepExecution.ExecuteStepWithRetry | orchestrator/step_executor.go:53-218 | the loop returns the result, calls, records and attempt count of the step's run, and terminates; what that run is, from above and below, is stated by StepLimits and StepCounts |
| StepLimits.AgainMeans | orchestrator/step_executor.go:79-217 | a retry happens only below both caps, after one invocation and one failed record, and always with a registered agent |
| StepLimits.CapsCompose | orchestrator/step_executor.go:79-217 | from any attempt on, what is left of the policy limit and of the repair limit both bound the invocations |
| StepLimits.InvocationsCapped | orchestrator/step_executor.go:79-217 | a step invokes agents at most min(max(1,P), max(1,R)) times, and at most once without a repair engine |
| StepLimits.RunsAreWellShaped | orchestrator/step_executor.go:79-217 | attempts are numbered without gaps, every call sees the one effective input, and records are failures followed by at most one success, at the end exactly when the step succeeds |
| StepLimits.LookupFailsOnlyFirst | orchestrator/step_executor.go:97-130 | once the first lookup succeeded every pass invokes an agent, except a last one that reports the policy limit |
| StepLimits.SuccessIsAccepted | orchestrator/step_executor.go:132-217 | a step succeeds with an output if and only if its last invocation returned it and the validator accepted it; all earlier ones failed or were rejected |
| StepLimits.AdvancedRetry | repair/advanced_strategy.go:50-177 | the first two retries keep the agent and every later one appends ".alternative" to a registered ID |
| StepLimits.AdvancedRetriesExactly | repair/advanced_strategy.go:50-177 | exactly which failures the advanced strategy retries, for every failure type and attempt number |
| StepLimits.ReplacementChainEnds | orchestrator/step_executor.go:140-169 | however large both caps are, at most 3 + m invocations, m being the length of the registered chain of alternatives |
| StepLimits.ChainLength | repair/advanced_strategy.go:107-119 | such a chain ends, after at most as many IDs as there are registered agents |
| StepLimits.AdvancedStepsEnd | orchestrator/step_executor.go:140-169 | a step under the advanced strategy ends by itself after at most 3 + m invocations |
| StepCounts.GateExactly | orchestrator/step_executor.go:79-130 | for every strategy, an attempt invokes the agent if and only if the agent is registered and it is the first attempt or within the policy limit, written out from the step's and the engine's policy |
| StepCounts.SimpleStepExactly | orchestrator/step_executor.go:79-217 | with the simple strategy, after any number of retryable failures below min(max(1,P), max(1,R)), the first attempt that is not one decides: its accepted output, its rejection or its error is the result, after exactly that many invocations |
| StepCounts.SimpleStepExhausts | retry/policy.go:95-101 | if all attempts fail retryably, the step makes exactly min(max(1,P), max(1,R)) invocations, and which limit stopped it decides the error |
| StepCounts.AppliesExactly | orchestrator/step_executor.go:221-255 | the first repair action that is not passed over decides whether, and with which agent, the step goes on |
| StepCounts.RepairDecides | orchestrator/step_executor.go:132-211 | for every strategy, what the repair engine is told of a failed or rejected invocation, and how its answer decides turn, error, agent and record |
| Interleaving.MoverOnTrack | orchestrator/step_executor.go:19-41 | a goroutine's move keeps it on the run its step makes alone |
| Interleaving.MoveKeepsTrack | orchestrator/engine.go:244-267 | a move of one goroutine changes neither the counter nor the records and calls of any other |
| Interleaving.PlayKeepsTrack | orchestrator/engine.go:244-267 | under every schedule every goroutine stays on its own run |
| Interleaving.InterleavingIndependent | orchestrator/engine.go:244-267 | whatever the schedule, a finished goroutine left the result, records, calls and attempt count of its step run alone |
| Interleaving.MovesLeftAfter | orchestrator/engine.go:244-267 | after a schedule, the moves a goroutine has left are its total less the turns it got |
| Interleaving.FinishedExactlyWhenScheduled | orchestrator/engine.go:244-267 | a goroutine has returned exactly when it got three moves per attempt; none blocks another |
| ContextAwarePlanner.MergeMetadata | planner/context_aware.go:196-205 | additional keys override existing ones, in any iteration order |
| ContextAwarePlanner.CopySteps | planner/context_aware.go:208-218 | keeps agent, input and metadata of every step and nothing else |
| ContextAwarePlanner.ContextAwarePlanner.CreatePlan | planner/context_aware.go:37-55 | a copy of the exact template, else of some template whose name is a prefix, else one echo step |
| ContextAwarePlanner.ContextAwarePlanner.HandleValidationReplan | planner/context_aware.go:88-110 | the failed step and everything after it, tagged with the error |
| ContextAwarePlanner.ContextAwarePlanner.HandleToolReplan | planner/context_aware.go:114-139 | the same suffix, tagged, with the fallback agent at its head if one is set |
| ContextAwarePlanner.ContextAwarePlanner.HandleAgentReplan | planner/context_aware.go:143-174 | the same suffix, tagged, with the fallback agent at its head or alone when nothing remains |
| ContextAwarePlanner.ContextAwarePlanner.HandleDefaultReplan | planner/context_aware.go:177-193 | the suffix unchanged, or the failed agent alone when nothing remains |
| ContextAwarePlanner.ContextAwarePlanner.Replan | planner/context_aware.go:59-84 | an error exactly above the replan limit, otherwise the remaining steps for the failure type |
| Engine.RunBatch | orchestrator/engine.go:237-267 | fills the result slots with each ready step's run on the Vars of the loop head |
| Engine.FindFirstFailure | orchestrator/engine.go:270-276 | the first slot holding an error, or none |
| Engine.MergeAfterFailure | orchestrator/engine.go:285-298 | merges exactly the successful slots with a non-nil output, in slot order |
| Engine.MergeResult | orchestrator/engine.go:361-375 | appends one step, merges its output and marks it done |
| Engine.MergeBatch | orchestrator/engine.go:358-376 | appends every step, merges every output, marks every step done and keeps the scheduler invariant |
| Engine.AskReplanner | orchestrator/engine.go:278-337 | what becomes of the run for every answer of the replanner |
| Engine.BatchNeverEmpty | orchestrator/engine.go:231-235 | at a loop head that has not ended some step is ready: the break is dead code |
| Engine.Engine.Execute | orchestrator/engine.go:108-398 | the loop over scheduler, tracker, Vars and plan objects ends, and reports the loop head at which the transition function ends; the errors before the loop are exact |
| EngineRuns.TurnCases | orchestrator/engine.go:230-377 | a turn advances by its whole batch, starts a replanned plan with fresh counters, or fails, and nothing else |
| EngineRuns.HeadsAreWorkable | orchestrator/engine.go:230-377 | at every running loop head, after any number of replans, the plan is acceptable and done steps have done parents; replans stay within the limit |
| EngineRuns.BatchesAreProper | orchestrator/engine.go:230-265 | every batch of every run is non-empty and contains no two dependent steps |
| EngineRuns.AbsorbFolds | orchestrator/engine.go:285-298 | merging any slots keeps Vars equal to the fold of the completed outputs |
| EngineRuns.VarsAreFolded | orchestrator/engine.go:358-376 | at every loop head, also after replans, Vars is the left-to-right merge of all completed outputs |
| EngineRuns.LastOutputWins | orchestrator/engine.go:370-372 | a variable has the value that the last step to write it gave it |
| EngineRuns.UnwrittenIsAbsent | orchestrator/engine.go:370-372 | a variable no step wrote is absent |
| EngineRuns.BatchSeesOneSnapshot | orchestrator/agent_runner.go:16-28 | every attempt of every step of a batch sees that one merge, overlaid by request input and step input |
| EngineRuns.InterleavingsAgree | orchestrator/engine.go:244-276 | every schedule of a batch's goroutines leads the loop to the same next state: slots, first failure, Vars, completed steps, output |
| EngineRuns.BatchCallsCapped | orchestrator/engine.go:237-267 | the invocations of a batch are paid out of the attempt limits of its steps |
| EngineRuns.TurnWithinBudget | orchestrator/engine.go:230-377 | every turn keeps the run within its budget of plans, invocations and turns |
| EngineRuns.RunIsBounded | orchestrator/engine.go:230-377 | at most max(0, maxReplans) + 1 plans, invocations at most the sum of the attempt limits of the started plans, and turns at most the number of their steps |
| EngineFailures.FailureTurn | orchestrator/engine.go:269-357 | for every replanner and limit, what happens when a step fails: which failure counts, what is told (plan, step, agent, error, type, attempt, all completed steps of the batch included and the variables they make), and how the answer decides plan, progress, error and status |
| EngineFailures.FailureTurnOfRun | orchestrator/engine.go:269-357 | that is so at every loop head of every run |
| EngineFailures.ReplannerIsTold | orchestrator/engine.go:300-316 | a new plan is the replanner's answer to exactly the completed steps, variables and attempt number the run goes on with |
| EngineOrder.TurnDecreases | orchestrator/engine.go:230-377 | each turn lowers the pair (replans left, steps left) lexicographically or fails the run |
| EngineOrder.RunEnds | orchestrator/engine.go:230-398 | every run ends |
| EngineOrder.HeadIsLevel | orchestrator/engine.go:230-265 | until a step fails, the steps done after n turns are exactly the first n levels |
| EngineOrder.BatchesAreLevels | orchestrator/engine.go:230-265 | until a step fails, batch n consists of exactly the steps whose longest dependency chain has n + 1 steps |
| EngineOrder.BatchCountIsLeast | orchestrator/engine.go:230-265 | a run without failures needs no more batches than any schedule with dependencies in earlier rounds needs rounds |
| EngineOrder.LogIsOrdered | orchestrator/engine.go:358-376 | at every loop head the current plan's completed steps are distinct, exactly the done ones, and each after its parents |
| EngineOrder.CompletedInTopologicalOrder | orchestrator/engine.go:358-376 | a plan run to completion completed each step exactly once, in a topological order |
| EngineOrder.StartedAfterDependencies | orchestrator/engine.go:237-267 | every completed step started from the merge of outputs that include all its dependencies', and its recorded output is what its run returned |
| EngineOrder.ReportsLastOutput | orchestrator/engine.go:358-397 | a successful run reports the output of the step completed last, never one left over from a replaced plan |
| Conservation.CreatedPlansArePlain | planner/context_aware.go:37-55 | no created plan carries DAG fields, so the scheduler accepts every one |
| Conservation.CreatedExactly | planner/context_aware.go:37-55 | the created plans are exactly the copies of agent, input and metadata of the template of that name, else of one whose name begins it, else the echo step |
| Conservation.ReworkedStandsFor | planner/context_aware.go:88-193 | a reworked step keeps its input, its DAG fields, and its agent up to the fallback |
| Conservation.ContextAwareReplan | orchestrator/engine.go:300-313 | the plan after a replan is the suffix from the failed step on, reworked position by position |
| Conservation.AdvanceConserves | orchestrator/engine.go:358-376 | a batch moves one step from undone to run without changing the sequence |
| Conservation.ReplanConserves | orchestrator/engine.go:313-335 | a replan keeps the sequence of run and undone steps, and the rebuilt plan is accepted |
| Conservation.RunsConserveTheTemplate | orchestrator/engine.go:230-377 | at every loop head the steps run so far followed by the undone ones are the template, position by position, up to metadata and fallback agent; the rebuilt-plan error is unreachable |
| Conservation.SuccessRunsTheTemplate | orchestrator/engine.go:379-397 | a successful run completed every template step exactly once and in order, whatever failed on the way |
| FallbackRuns.AnswerExactly | planner/context_aware.go:88-193 | the answer to a request, step by step: only the failed step may change its agent, and does exactly if a fallback is set and the tools or the agent failed; tags apart, nothing else changes |
| FallbackRuns.RefusesExactly | planner/context_aware.go:59-62 | a request is refused if and only if it is beyond the limit |
| FallbackRuns.AnswersAlone | planner/context_aware.go:88-193 | the single step that answers a request about no plan or no step of it |
| FallbackRuns.ReplansExactly | orchestrator/engine.go:300-316 | so it is for the plan after every replan of every run |
| FallbackRuns.AgentsExactly | orchestrator/engine.go:230-377 | at every loop head, every template position runs under the fallback agent if and only if it failed there before with a tool or agent failure and was replanned, else under its own agent, with its own input, retry policy, IDs and metadata |
| FallbackRuns.SuccessNamesAgents | orchestrator/engine.go:379-397 | so a successful run names, position by position, which agent completed each template step |
| Conservation.DagReplanAccepted | planner/context_aware.go:73-193 | for plans with StepIDs the run goes on after a replan if and only if no step from the failed one on depends on an earlier one |
| Conservation.LogAnalysisReplan | planner/log_analysis.go:17-32 | the log analysis plan survives a replan if and only if its first step is the one that failed |
| DagReplans.MergedAppends | orchestrator/engine.go:285-298 | after a failure, exactly the successful slots with a non-nil output are appended, in slot order |
| DagReplans.FinishedSteps | orchestrator/engine.go:278-335 | the completed steps of a replaced plan are, each once, those done before the failing batch and those merged after it |
| DagReplans.ReplanKeepsExactly | planner/context_aware.go:88-193 | completed and new steps together are the replaced plan exactly once each if and only if the finished steps are exactly those below the failed one, and position by position if and only if they also completed in plan order |
| DagReplans.ReplansKeepExactly | orchestrator/engine.go:278-335 | that is so at every loop head of every run that replans |
| DagReplans.ReplanCanLoseAStep | planner/context_aware.go:114-139 | a concrete run that reports success although one of its two steps never ran |
| DagReplans.ReplanCanRepeatAStep | planner/context_aware.go:114-139 | a concrete run that reports success after completing one of its two steps twice |
| Decimals.DecimalInjective | orchestrator/step_executor.go:265 | different counters are written differently |
| ToolRecords.ToolCallCollector.Execute | tools/collector.go:30-42 | passes the call on and logs it exactly when it succeeded |
| ToolRecords.PersistingExecutor.Execute | tools/persisting_executor.go:48-83 | every call, failed or not, gets the next number and one record, and the caller sees the wrapped executor's answer |
| ToolRecords.RunTrace | tools/persisting_executor.go:48-83 | what a sequence of calls leaves in the recorder and in the collector |
| ToolRecords.RecordsMatchCollector | tools/persisting_executor.go:48-83 | the succeeded records of a trace are the collector log, entry by entry and in order |
| ToolRecords.CallIDsDistinct | tools/persisting_executor.go:48-83 | call IDs are unique within a step |
| ToolRecords.RecordsExactly | tools/persisting_executor.go:48-83 | every call of a trace leaves its record in order, with the encoded answer or the error text |
| Replay.ReplayExecutor.Execute | tools/replay_executor.go:56-78 | the flagged scan consumes exactly the first unconsumed match; a miss changes nothing |
| Replay.ReplayExecutor.Unconsumed | tools/replay_executor.go:82-95 | counts the entries never matched, in any order of the tools |
| Replay.NewReplayExecutor | tools/replay_executor.go:32-52 | loads the succeeded records and fails exactly when one of their outputs is corrupt |
| Replay.TakeConserves | tools/replay_executor.go:56-78 | an answered call lowers the number of unconsumed entries by one, a miss leaves everything as it is |
| Replay.LoadCounts | tools/replay_executor.go:32-52 | right after loading, the unconsumed entries are as many as the succeeded records |
| Replay.LoadSkipsFailed | tools/replay_executor.go:35-38 | failed records make no difference to what is loaded |
| Replay.TakeIsDequeue | tools/replay_executor.go:56-78 | a call pops the head of its own (tool, input) queue, touches no other queue, and misses exactly when its queue is empty |
| Replay.ReplayConserves | tools/replay_executor.go:56-95 | at any time, unconsumed entries plus answered calls equal the succeeded records |
| Replay.RecordReplayRoundTrip | tools/replay_executor.go:56-75 | replaying the succeeded calls in any order that keeps identical calls in sequence answers each with its own output and consumes everything |
| Replay.TraceReplaysItself | tools/persisting_executor.go:48-83 | end to end, a trace recorded over the collector replays to what the collector logged, up to the JSON codec |
| Metrics.PrefixInvertsRecordID | orchestrator/metrics.go:368-374 | the prefix of a step record ID is recovered for every run ID, even one containing the marker |
| Metrics.StepPrefixInjective | orchestrator/metrics.go:181-190 | prefixes of different steps, of any runs, differ |
| Metrics.RecordIDsDistinct | orchestrator/step_executor.go:265 | a record ID determines run, step and attempt |
| Metrics.AddToGroups | orchestrator/metrics.go:184-201 | after one more record, the groups say of each prefix what was persisted under it |
| Metrics.ComputeRepairRate | orchestrator/metrics.go:176-212 | counts the prefixes with a failed record, and those that also have a succeeded one, in any order of the groups |
| Metrics.BatchExtendsLog | orchestrator/step_executor.go:258-299 | a batch, under every schedule, extends the plan's log by exactly the records of its steps' runs |
| Metrics.TurnExtendsLog | orchestrator/engine.go:230-377 | every turn of the engine does so, whether or not a step fails |
| Metrics.RunsLogTheirPlans | orchestrator/engine.go:230-377 | for any schedules of the batches of one plan of a run, the logged records are, step by step, those of the steps' own runs |
| Metrics.RunRepairRate | orchestrator/metrics.go:176-212 | so for every plan of an actual run the two counts are the number of steps with a failure and of steps with a failure followed by a success |
| Metrics.SuccessEndsStep | orchestrator/step_executor.go:213-216 | nothing of a step is logged after its success |
| Metrics.RepairedMeansLater | orchestrator/metrics.go:173-175 | on a plan's log, a step with a failed and a succeeded record failed before it succeeded |
| Metrics.RepairRateIsExact | orchestrator/metrics.go:176-212 | for every interleaving of a plan's steps the two counts are the number of steps with a failure and of steps with a failure followed by a success |
| Metrics.RepairedMeansRetried | orchestrator/metrics.go:173-175 | a step counts as repaired exactly when it succeeded after more than one recorded attempt |
| Text.WordsSplit | orchestrator/grounding_validator.go:175-177 | the words of a text ending in whitespace followed by another are the words of the two |
| Text.LineIsFound | orchestrator/grounding_validator.go:168-177 | a line between line breaks is found by normalised search, whatever surrounds it |
| Text.StaysFound | orchestrator/grounding_validator.go:168-177 | what is found in a corpus ending in whitespace is still found when more is appended |
| Text.QuoteIsFound | orchestrator/grounding_validator.go:168-177 | any stretch of a text is found in it by normalised search, even one cut inside words or spaces |
| Text.SameNormalForm | orchestrator/grounding_validator.go:175-177 | texts have the same normal form if and only if they have the same words |
| Corpus.AppendRow | orchestrator/grounding_validator.go:131-134 | appends the lines of some rendering of a map: every entry once, in whatever order it yields its keys |
| Corpus.AppendValue | orchestrator/grounding_validator.go:141-164 | appends the lines of some rendering of a value: every leaf once, list elements in order, map entries in any order |
| Corpus.LeavesRendered | orchestrator/grounding_validator.go:141-164 | the chunks of every rendering are exactly the leaves, at every depth |
| Grounding.TrackFile | orchestrator/grounding_validator.go:122-129 | adds exactly the given path and its base name |
| Grounding.BuildCorpus | orchestrator/grounding_validator.go:117-138 | the corpus renders the outputs one after the other, and the files are exactly the given paths and their base names |
| Grounding.LeavesAreGrounded | orchestrator/grounding_validator.go:117-177 | every leaf at any depth of any collected output is judged grounded, under every map iteration order |
| Grounding.QuotesStayGrounded | orchestrator/grounding_validator.go:117-177 | any stretch of a leaf is grounded, also after more outputs are collected and the corpus is rebuilt in another order |
| Grounding.StringsStayGrounded | orchestrator/grounding_validator.go:117-177 | so is any stretch of any string at any depth of an output, strings in lists of strings included |
| Grounding.CorpusBegins | orchestrator/grounding_validator.go:117-138 | a corpus of more outputs begins with some corpus of the first ones |
| Grounding.StaysGroundedExactly | orchestrator/grounding_validator.go:117-177 | for given outputs, a text is grounded in every corpus rebuilt after collecting more if and only if every corpus of these outputs grounds it |
| GroundingOrder.OrderDecides | orchestrator/grounding_validator.go:131-134 | a concrete output whose two entries ground "x y" in one order and not in the other: grounding as such is neither stable under the order nor monotone |
| GroundingOrder.OneWordStaysGrounded | orchestrator/grounding_validator.go:117-177 | a text of at most one word, once grounded, stays grounded under every order and whatever else is collected |
| GroundingOrder.OrderMatters | orchestrator/grounding_validator.go:131-134 | for every text of two words or more there is an output that grounds it in one order and not in the other |
| GroundingOrder.StableExactly | orchestrator/grounding_validator.go:117-177 | exactly the texts of at most one word stay grounded for all outputs, and exactly they are judged the same under every order of all outputs |
| OrderFreedom.OneReading | orchestrator/grounding_validator.go:141-164 | if in every map the words of any two entries read the same in either order, all renderings have the same words |
| OrderFreedom.OneReadingNeedsFree | orchestrator/grounding_validator.go:141-164 | and only then |
| OrderFreedom.OrderFreeExactly | orchestrator/grounding_validator.go:117-177 | for given outputs, every text is judged the same under every order if and only if, in every map at every depth, the words of any two entries read the same in either order |
| GroundingSoundness.GroundedWords | orchestrator/grounding_validator.go:168-177 | every word of a grounded text is part of a word of some collected leaf |
| GroundingSoundness.AccessedMeans | orchestrator/grounding_validator.go:122-129 | a file counts as accessed if and only if it is the path, or the base name of the path, given to some collected call |
| GroundingSoundness.NoViolationIsBacked | orchestrator/grounding_validator.go:29-75 | if nothing is found wrong, every word of every evidence text and every evidence file rests on a collected call |
| GroundingSoundness.InventionIsCaught | orchestrator/grounding_validator.go:51-70 | an evidence row with a word no tool returned, or a file no tool was given, is always found wrong |
| Grounding.ExtractEvidenceItems | orchestrator/grounding_validator.go:85-113 | the evidence rows of either list form; other elements are skipped |
| Grounding.GroundingValidator.Validate | orchestrator/grounding_validator.go:29-75 | the violations are exactly the evidence files never accessed and the evidence texts not grounded |
| Grounding.Search | orchestrator/grounding_validator.go:168-173 | decides normalised substring search |
| LogReader.RequestExactly | agent/log_reader.go:40-51 | the directory is the one requested, and the keywords are the seven standard ones or those requested between commas, trimmed |
| LogReader.SplitExactly | agent/log_reader.go:47 | splitting undoes joining with commas, and no part holds a comma |
| LogReader.SplitIsInverse | agent/log_reader.go:47 | joining undoes splitting |
| LogReader.TrimExactly | agent/log_reader.go:48-50 | trimming takes spaces off both ends, and all of them |
| LogReader.LogFilesExactly | agent/log_reader.go:74-92 | a file is scanned if and only if a listed entry that is no directory has its name, and the name has no dot or one of the three extensions in any case |
| LogReader.FilterEntries | agent/log_reader.go:74-92 | keeps the named log, text, output and extensionless files, in order |
| LogReader.TaggedValueRows | agent/log_reader.go:136-139 | writing the keyword into the rows changes what is later read from the logged answer in the same way |
| LogReader.TagLogged | agent/log_reader.go:136-139 | writing the keyword through to the collector changes the latest log entry only |
| LogReader.Grep | agent/log_reader.go:111-140 | the matches and the count of one grep, none when it fails or counts nothing, all of them backed |
| LogReader.GrepFile | agent/log_reader.go:103-141 | the matches of one file over all keywords, all of them backed by logged calls on its path |
| LogReader.ScanFiles | agent/log_reader.go:100-150 | one finding per file with matches, in order, all backed by the collector |
| LogReader.FindingsAreExact | agent/log_reader.go:100-150 | the finding of a file shows exactly the rows its greps returned, each with its keyword, and there is one whenever a grep returned a row |
| LogReader.TotalIsSum | agent/log_reader.go:140 | if every grep answer counts its rows, the total is the number of rows in the findings, and zero only without findings |
| LogReader.Summarize | agent/log_reader.go:152-165 | the summary text names the counts and lists every finding |
| LogReader.RunWithContext | agent/log_reader.go:35-175 | fails exactly without tools or without a listing; otherwise its findings, total and summary are those of every listed log file, backed by the collector, and exact in the sense of the two rows above |
| LogReader.AllGoodGrows | agent/log_reader.go:100-150 | findings stay backed when more is collected |
| LogAnalyzer.EvidenceHasSource | agent/log_analyzer.go:58-71 | every piece of evidence comes from a match of a finding, under that finding's file |
| LogAnalyzer.CollectEvidence | agent/log_analyzer.go:58-71 | collects the matches of all findings in order |
| LogAnalyzer.CountCategories | agent/log_analyzer.go:73-90 | counts each severity class; together they are all the evidence |
| LogAnalyzer.TopPattern | agent/log_analyzer.go:106-126 | picks a pattern that occurs most often among evidence that is not a warning, and its count |
| LogAnalyzer.SortBySeverity | agent/log_analyzer.go:131-135 | a permutation ordered by decreasing severity |
| LogAnalyzer.ShowTop | agent/log_analyzer.go:131-149 | shows the most severe pieces, at most twenty |
| LogAnalyzer.SummaryText | agent/log_analyzer.go:92-104 | the summary lists the classes present, separated by commas |
| LogAnalyzer.NextSteps | agent/log_analyzer.go:159-170 | one piece of advice per class present, and always the closing one |
| LogAnalyzer.TopEvidenceIsCollected | agent/log_analyzer.go:131-149 | everything shown was collected |
| LogAnalyzer.Analyze | agent/log_analyzer.go:31-179 | the all-clear report, or the report with summary, most frequent pattern, most severe evidence, confidence and advice; always valid, and showing only collected evidence |
| LogAnalyzer.ValidateReport | orchestrator/report_validator.go:21-67 | accepts an analyzer report exactly when every required field is present, non-empty and in range, and any other step's output |
| Diagnosis.EvidenceExactly | agent/log_analyzer.go:58-71 | evidence is every match of every finding and nothing else, and as much of it as there are matches |
| Diagnosis.CountsExactly | agent/log_analyzer.go:73-90 | the three counts are the numbers of pieces whose keyword, in any case, is of that class |
| Diagnosis.PatternsExactly | agent/log_analyzer.go:106-116 | a pattern counts the pieces, warnings aside, that simplify to it |
| Diagnosis.TopEvidenceExactly | agent/log_analyzer.go:131-149 | evidence is shown panics first, then errors, then warnings, and nothing left out is more severe than anything shown; all is shown up to twenty pieces |
| Diagnosis.ConfidenceExactly | agent/log_analyzer.go:151-157 | confidence is high if and only if some piece is a panic or some pattern occurs three times, else low if and only if at most two matches were counted |
| Diagnosis.AdviceExactly | agent/log_analyzer.go:159-170 | one piece of advice for each class present, in order, and the closing one |
| Diagnosis.AllClearExactly | agent/log_analyzer.go:36-47 | the all-clear report is given if and only if there are no findings or the counted matches are none |
| Pipeline.PathNamesFileIff | orchestrator/grounding_validator.go:117-138 | the call that greps a scanned file names it if and only if the current directory is scanned or the name has no slash |
| Pipeline.AccessedExactly | orchestrator/grounding_validator.go:122-129 | a scanned file counts as accessed if and only if the current directory is scanned, its name has no slash, or some call was given that very path |
| Pipeline.BackedIsGrounded | orchestrator/grounding_validator.go:131-134 | the text of a backed match is grounded |
| Pipeline.EvidenceSupport | orchestrator/grounding_validator.go:29-75 | evidence from the reader's findings names a listed file, its text is grounded, and its file counts as accessed exactly when its name fits |
| Pipeline.NoViolationExactly | orchestrator/grounding_validator.go:29-75 | a report showing such evidence violates nothing if and only if all file names it shows fit |
| Pipeline.CheckReport | orchestrator/validator.go:17-24 | accepts exactly when the report validator accepts and no violation exists; whatever is accepted rests, word by word and file by file, on collected calls, and one invented word or file means rejection |
| Pipeline.ReadLogs | agent/log_reader.go:35-175 | the reader's findings and their total reach the analyzer through Vars, exact and all backed by the collector |
| Pipeline.WriteReport | agent/log_analyzer.go:31-179 | the report is valid, shows only evidence from the findings of its input, and is the all-clear one exactly without findings or matches |
| Pipeline.JudgeReport | orchestrator/validator.go:17-24 | both validators accept a valid report on backed findings if and only if all file names it shows fit |
| Pipeline.RunGoldenPath | orchestrator/grounding_validator.go:29-75 | from any state of the collector and for every behaviour of the tools: if the listing succeeds, the report is valid, and it is accepted if and only if all file names it shows fit, hence always when no listed name has a slash; with honest counts it is the all-clear report if and only if no grep of a listed file returned a row |

## Left out

- Engine.RunBatch: runs the goroutines of a batch one after the other; `Interleaving.InterleavingIndependent` and `EngineRuns.InterleavingsAgree` show that every other order gives the same state. One invocation together with its validation is one atomic move there.
- Interleaving.InterleavingIndependent: assumes outcomes that depend on the invocation only; the grounding validator reads tool outputs shared by concurrent steps and is not covered.
- Engine.Engine.Execute: leaves out the run repository (including its own errors), timestamps, CurrentStepIndex, MaxSteps and status fields of the run record, and cancellation; the record is not updated on the rebuilt-plan error (orchestrator/engine.go:321-327).
- Engine.Replay (orchestrator/engine.go:404-479), which swaps in the replay executor: not modelled. A replayed report can differ from the original one, since decoded numbers are no longer int and the request input is dropped.
- StepExecution.ExecuteStepWithRetry: the wrapping of the step's tools in a persisting executor and error texts beyond the ones compared are not modelled; sleeping is modelled by Retry alone.
- Repair.CreateRepairPlan: action metadata and step indices inside actions are not modelled; the input corrector's CanCorrect is an arbitrary function, and so is a custom strategy.
- Error classification (failure/classifier.go) is an arbitrary function from error text to failure type.
- Repair configuration delays (repair/config.go) are not modelled.
- Retry.BaseDelayGrows: real arithmetic for float64; rounding, overflow and NaN are not modelled.
- Values: a nil map and an empty map are the same value; strings are sequences of code points, not bytes.
- Grounding.BuildCorpus: how fmt prints values other than strings, lists of strings and collections is a parameter.
- Grounding.GroundingValidator.Validate: the text of violation messages is not modelled.
- LogReader.TagLogged: maps a tool shares between several of its answers would change in earlier log entries too; only the latest entry is tagged here.
- LogAnalyzer.Analyze: the timestamp-stripping heuristic simplifyPattern is a parameter.
- LogAnalyzer.ValidateReport: says which check failed, not in which words.
- Replay.TraceReplaysItself: JSON is an encoder with a decoder that accepts what was encoded; equality is stated on the decoded value.
- Metrics.RepairRateIsExact: the log of one plan; record IDs repeat across replans because tracker and step indices restart.
- Metrics other than the repair rate (structured output rate, evidence coverage) are not modelled.
- HTTP handlers, SQLite storage, the MCP server, the LLM client, prompts, configuration, uploads and the web UI are not modelled.
