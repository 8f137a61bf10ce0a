/** With the context-aware planner as planner and replanner, no template step is lost or repeated,
    whatever fails and however often the run is replanned. */
module Conservation {
  import opened ContextAwarePlanner
  import opened Dag
  import opened DependencyGraph
  import opened Engine
  import opened EngineOrder
  import opened EngineRuns
  import opened PlanGraph
  import opened Plans
  import opened Wrappers

  ghost predicate UsesContextAware(o: Setup, fallback: string) {
    o.replanner.Some? && forall rctx :: o.replanner.value(rctx) == ReplanAnswer(fallback, rctx)
  }

  /** No step carries DAG fields, so the plan runs one step after the other. */
  ghost predicate Plain(plan: Plan) {
    !DagMode(plan)
  }

  lemma CopiesArePlain(steps: Plan)
    ensures Plain(CopyOf(steps))
  {
  }

  /** Whatever CreatePlan returns is plain: StepIDs and dependencies of templates are dropped. */
  lemma CreatedPlansArePlain(registry: map<string, Plan>, taskID: string, plan: Plan)
    requires MayCreate(registry, taskID, plan)
    ensures Plain(plan) && Buildable(plan)
  {
    forall steps: Plan
      ensures Plain(CopyOf(steps))
    {
      CopiesArePlain(steps);
    }
    if plan == [JustAgent(ECHO_AGENT)] {
      assert !UsesDagFields(plan[0]);
    }
  }

  /** The plan has the agents, inputs and metadata of the template, step by step, and nothing else of it. */
  ghost predicate Copies(template: Plan, plan: Plan) {
    && |plan| == |template|
    && forall k :: 0 <= k < |plan| ==>
         plan[k] == PlanStep(template[k].agentID, template[k].input, template[k].metadata, None, "", [])
  }

  /** Exactly which plans are created: a copy of the template registered for the task, else of one whose
      name begins the task's, else a single echo step. */
  lemma CreatedExactly(registry: map<string, Plan>, taskID: string, plan: Plan)
    ensures MayCreate(registry, taskID, plan) <==>
      if taskID in registry then Copies(registry[taskID], plan)
      else if forall name :: name in registry ==> !(name <= taskID) then
        plan == [PlanStep("agent.echo", map[], map[], None, "", [])]
      else exists name :: name in registry && name <= taskID && Copies(registry[name], plan)
  {
    forall template: Plan
      ensures Copies(template, plan) <==> plan == CopyOf(template)
    {
    }
  }

  /** A step stands for a template step: same input, and the same agent or the fallback agent. */
  predicate StandsFor(fallback: string, template: PlanStep, step: PlanStep) {
    && step.input == template.input
    && (step.agentID == template.agentID || (fallback != "" && step.agentID == fallback))
  }

  /** The plan steps completed so far in the run, as they were when they ran. */
  ghost function StepsRun(o: Setup, plan: Plan, n: nat): seq<PlanStep> {
    if n == 0 then []
    else
      var s := Head(o, plan, n - 1);
      StepsRun(o, plan, n - 1) + if KindOf(o, s).Advances? then StepsAt(s.plan, ReadySteps(s)) else []
  }

  ghost function StepsAt(plan: Plan, indices: seq<nat>): seq<PlanStep> {
    if indices == [] then []
    else
      var last := indices[|indices| - 1];
      StepsAt(plan, indices[..|indices| - 1]) + (if last < |plan| then [plan[last]] else [])
  }

  /** Completed steps followed by the undone steps of the current plan stand for the template,
      position by position. */
  ghost predicate Conserved(fallback: string, template: Plan, run: seq<PlanStep>, s: State) {
    && Plain(s.plan)
    && s.done == Nodes(|s.done|) && |s.done| <= |s.plan|
    && |run| == |s.progress.completed|
    && (forall k :: 0 <= k < |run| ==> s.progress.completed[k].agentID == run[k].agentID)
    && var all := run + s.plan[|s.done|..];
       |all| == |template| && forall k :: 0 <= k < |all| ==> StandsFor(fallback, template[k], all[k])
  }

  /** In a plain plan the next step is the only one ready. */
  lemma PlainReady(s: State)
    requires Plain(s.plan) && s.done == Nodes(|s.done|) && |s.done| < |s.plan|
    ensures ReadySteps(s) == [|s.done|]
  {
    var g, d := GraphOf(s.plan), |s.done|;
    SequentialGraph(s.plan);
    PlainReadyBelow(g, d, |s.plan|);
  }

  ghost predicate ChainGraph(g: Graph) {
    forall k :: 0 <= k < |g| ==> g[k] == if k == 0 then [] else [k - 1]
  }

  lemma NextInChain(g: Graph, d: nat, i: nat)
    requires ChainGraph(g) && i < |g|
    ensures StartsReady(g, Nodes(d), i) <==> i == d
  {
    assert i > 0 ==> g[i] == [i - 1] && i - 1 in g[i];
  }

  lemma {:induction false} PlainReadyBelow(g: Graph, d: nat, n: nat)
    requires ChainGraph(g) && n <= |g|
    ensures ReadyBelow(g, Nodes(d), n) == if d < n then [d] else []
  {
    hide Nodes, StartsReady, ChainGraph;
    if n > 0 {
      PlainReadyBelow(g, d, n - 1);
      NextInChain(g, d, n - 1);
    }
  }

  lemma ReworkedStandsFor(fallback: string, failureType: string, error: string, offset: nat, step: PlanStep,
                          template: PlanStep)
    requires StandsFor(fallback, template, step)
    ensures StandsFor(fallback, template, Reworked(fallback, failureType, error, offset, step))
    ensures UsesDagFields(Reworked(fallback, failureType, error, offset, step)) == UsesDagFields(step)
  {
  }

  /** The index, in the current plan, of the step whose failure the engine reacts to. */
  ghost function FailedIndex(o: Setup, s: State): nat {
    var results := SlotsOf(o.world, s);
    if FirstFailure(results) < |results| then ReadySteps(s)[FirstFailure(results)] else |s.plan|
  }

  /** What the replanner makes of a plan: the failed step and everything after it, reworked. */
  lemma ContextAwareReplan(o: Setup, fallback: string, s: State) returns (failureType: string, error: string)
    requires UsesContextAware(o, fallback) && KindOf(o, s).Replans?
    ensures var f, next := FailedIndex(o, s), Next(o, s);
      && f < |s.plan| && |next.plan| == |s.plan| - f
      && forall k :: 0 <= k < |next.plan| ==> next.plan[k] == Reworked(fallback, failureType, error, k, s.plan[f + k])
  {
    TurnCases(o, s);
    ReadyInPlan(s);
    hide Next, GraphOf, SlotsOf, Absorbed, KindOf, ReadySteps, Reworked;
    var at := FirstFailure(SlotsOf(o.world, s));
    var rctx := ContextFor(o, s, at, SlotsOf(o.world, s)[at].error, Absorbed(o, s, true));
    failureType, error := rctx.failureType, rctx.failureError;
    assert o.replanner.value(rctx) == ReplanAnswer(fallback, rctx) == Some(Remaining(fallback, rctx));
    assert rctx.failedStepIndex == ReadySteps(s)[at] && ReadySteps(s)[at] in ReadySteps(s);
  }

  /** In a plain plan it is the next step that failed, and nothing is merged. */
  lemma PlainReplan(o: Setup, s: State)
    requires KindOf(o, s).Replans?
    requires Plain(s.plan) && s.done == Nodes(|s.done|) && |s.done| < |s.plan|
    ensures FailedIndex(o, s) == |s.done| && Next(o, s).progress == s.progress
  {
    PlainReady(s);
    TurnCases(o, s);
    hide Next, GraphOf, KindOf, Plain;
    var results := SlotsOf(o.world, s);
    assert |results| == 1 && results[0].Err?;
    assert AbsorbFirst(s.progress, s.plan, ReadySteps(s), results, 0, true) == s.progress;
  }

  /** The next step moves from the undone steps to the steps run. */
  lemma OneMoreRun(fallback: string, template: Plan, run: seq<PlanStep>, s: State, next: State)
    requires Conserved(fallback, template, run, s) && |s.done| < |s.plan| && next.plan == s.plan
    requires next.done == s.done + {|s.done|}
    requires |next.progress.completed| == |run| + 1 && s.progress.completed <= next.progress.completed
    requires next.progress.completed[|run|].agentID == s.plan[|s.done|].agentID
    ensures Conserved(fallback, template, run + [s.plan[|s.done|]], next)
  {
    hide DagMode, StandsFor;
    var d := |s.done|;
    MoveOver(run, s.plan, d);
    assert next.done == Nodes(d + 1);
  }

  lemma AdvanceConserves(o: Setup, fallback: string, template: Plan, run: seq<PlanStep>, s: State)
    requires Conserved(fallback, template, run, s) && KindOf(o, s).Advances? && s.status.Running?
    ensures Conserved(fallback, template, run + StepsAt(s.plan, ReadySteps(s)), Next(o, s))
  {
    hide Next, DagMode, GraphOf, ReadySteps, SlotsOf, StandsFor, KindOf;
    NotEnded(o, s);
    PlainReady(s);
    AdvanceAppends(o, s);
    OneStep(s.plan, |s.done|);
    assert |run| == |s.progress.completed|;
    hide Conserved;
    OneMoreRun(fallback, template, run, s, Next(o, s));
  }

  lemma OneStep(plan: Plan, d: nat)
    requires d < |plan|
    ensures StepsAt(plan, [d]) == [plan[d]] && Elems([d]) == {d}
  {
    assert [d][..0] == [];
  }

  lemma MoveOver<T>(a: seq<T>, b: seq<T>, d: nat)
    requires d < |b|
    ensures a + b[d..] == (a + [b[d]]) + b[d + 1..]
  {
  }

  lemma NotEnded(o: Setup, s: State)
    requires !KindOf(o, s).Stays?
    ensures s.status.Running? && |s.done| < |s.plan|
  {
  }

  /** Replacing the undone steps by steps that stand for them. */
  lemma Replaced(fallback: string, template: Plan, run: seq<PlanStep>, rest: Plan, failureType: string, error: string,
                 newPlan: Plan)
    requires Plain(rest) && |newPlan| == |rest| && |run + rest| == |template|
    requires forall k :: 0 <= k < |template| ==> StandsFor(fallback, template[k], (run + rest)[k])
    requires forall k :: 0 <= k < |newPlan| ==> newPlan[k] == Reworked(fallback, failureType, error, k, rest[k])
    ensures Plain(newPlan)
    ensures forall k :: 0 <= k < |template| ==> StandsFor(fallback, template[k], (run + newPlan)[k])
  {
    hide Reworked, StandsFor;
    forall k | 0 <= k < |rest|
      ensures StandsFor(fallback, template[|run| + k], newPlan[k]) && !UsesDagFields(newPlan[k])
    {
      assert (run + rest)[|run| + k] == rest[k];
      ReworkedStandsFor(fallback, failureType, error, k, rest[k], template[|run| + k]);
    }
    forall k | 0 <= k < |template|
      ensures StandsFor(fallback, template[k], (run + newPlan)[k])
    {
      assert k < |run| ==> (run + rest)[k] == run[k];
      assert k >= |run| ==> template[k] == template[|run| + (k - |run|)];
    }
  }

  lemma ReplanConserves(o: Setup, fallback: string, template: Plan, run: seq<PlanStep>, s: State)
    requires UsesContextAware(o, fallback)
    requires Conserved(fallback, template, run, s) && KindOf(o, s).Replans? && s.status.Running?
    ensures Conserved(fallback, template, run, Next(o, s)) && Next(o, s).status.Running?
  {
    hide Next, GraphOf, ReadySteps, SlotsOf, Reworked, StandsFor, DagMode;
    var rest := s.plan[|s.done|..];
    NotEnded(o, s);
    PlainReplan(o, s);
    var failureType, error := ContextAwareReplan(o, fallback, s);
    TurnCases(o, s);
    PlainSuffix(s.plan, |s.done|);
    Replaced(fallback, template, run, rest, failureType, error, Next(o, s).plan);
    assert Next(o, s).plan[0..] == Next(o, s).plan;
  }

  lemma PlainSuffix(plan: Plan, d: nat)
    requires Plain(plan) && d <= |plan|
    ensures Plain(plan[d..])
  {
  }

  /** Conservation over whole runs: at every loop head, after any number of failures and replans, the
      steps run so far followed by the undone steps of the current plan are the template, position
      by position, up to metadata and the fallback agent. The rebuilt plan is never rejected. */
  lemma {:induction false} RunsConserveTheTemplate(o: Setup, fallback: string, template: Plan, n: nat)
    requires UsesContextAware(o, fallback) && Plain(template)
    ensures Head(o, template, n).status.Running? ==>
      Conserved(fallback, template, StepsRun(o, template, n), Head(o, template, n))
    ensures Head(o, template, n).status != Failed(ReplanRejected)
  {
    hide Next, Conserved;
    if n == 0 {
      BeginConserves(fallback, template);
    } else {
      RunsConserveTheTemplate(o, fallback, template, n - 1);
      var s := Head(o, template, n - 1);
      hide KindOf, UsesContextAware;
      match KindOf(o, s) {
        case Stays =>
          TurnStays(o, s);
          assert StepsRun(o, template, n) == StepsRun(o, template, n - 1);
        case Advances =>
          TurnGoesOn(o, s);
          AdvanceConserves(o, fallback, template, StepsRun(o, template, n - 1), s);
        case Replans =>
          TurnGoesOn(o, s);
          ReplanConserves(o, fallback, template, StepsRun(o, template, n - 1), s);
          assert StepsRun(o, template, n) == StepsRun(o, template, n - 1);
        case Fails =>
          FailsByStep(o, s);
      }
    }
  }

  lemma BeginConserves(fallback: string, template: Plan)
    requires Plain(template)
    ensures Conserved(fallback, template, [], Begin(template))
  {
    assert [] + template[0..] == template;
  }

  lemma TurnStays(o: Setup, s: State)
    requires KindOf(o, s).Stays?
    ensures Next(o, s) == s
  {
  }

  lemma TurnGoesOn(o: Setup, s: State)
    requires KindOf(o, s).Advances? || KindOf(o, s).Replans?
    ensures s.status.Running?
    ensures KindOf(o, s).Advances? ==> Next(o, s).status.Running?
    ensures KindOf(o, s).Replans? ==> (Next(o, s).status.Running? <==> Buildable(Next(o, s).plan))
  {
  }

  lemma FailsByStep(o: Setup, s: State)
    requires KindOf(o, s).Fails?
    ensures Next(o, s).status.Failed? && Next(o, s).status.error.StepFailed?
  {
  }

  /** A run that succeeds ran every template step exactly once, in template order. */
  lemma SuccessRunsTheTemplate(o: Setup, fallback: string, template: Plan, n: nat)
    requires UsesContextAware(o, fallback) && Plain(template)
    requires Ended(Head(o, template, n)) && Head(o, template, n).status.Running?
    ensures var run, completed := StepsRun(o, template, n), Head(o, template, n).progress.completed;
      && |run| == |completed| == |template|
      && forall k :: 0 <= k < |template| ==>
           StandsFor(fallback, template[k], run[k]) && completed[k].agentID == run[k].agentID
  {
    RunsConserveTheTemplate(o, fallback, template, n);
    hide Head, StepsRun, StandsFor;
    var s, run := Head(o, template, n), StepsRun(o, template, n);
    assert run + s.plan[|s.done|..] == run;
  }

  // ----- plans with DAG fields -----

  /** Replanning a DAG plan with the context-aware replanner keeps the run going exactly when no step
      from the failed one on depends on a step before it. */
  lemma DagReplanAccepted(o: Setup, fallback: string, s: State)
    requires UsesContextAware(o, fallback) && Workable(s) && DagMode(s.plan) && KindOf(o, s).Replans?
    ensures var f := FailedIndex(o, s);
      f < |s.plan| &&
      (Next(o, s).status.Running? <==>
        forall i, dep :: f <= i < |s.plan| && dep in s.plan[i].dependsOn ==>
          exists k :: f <= k < |s.plan| && s.plan[k].stepID == dep)
  {
    hide Next, GraphOf, FailedIndex, KindOf, UsesContextAware, DagMode, Acyclic, IdsUsable, DependenciesNamed,
      DoneClosed;
    TurnGoesOn(o, s);
    var _, _ := ContextAwareReplan(o, fallback, s);
    hide Buildable;
    SuffixBuildable(s.plan, FailedIndex(o, s), Next(o, s).plan);
  }

  /** The two-step plan of the log analysis planner. */
  const LOG_ANALYSIS_PLAN: Plan := [
    PlanStep("agent.log_reader", map[], map[], None, "scan", []),
    PlanStep("agent.log_analyzer", map[], map[], None, "analyze", ["scan"])]

  /** In particular, that plan can be replanned after its first step fails, but a replan after its
      second step fails is rejected: the step still depends on the dropped "scan". */
  lemma LogAnalysisReplan(o: Setup, fallback: string, s: State)
    requires UsesContextAware(o, fallback) && Workable(s) && s.plan == LOG_ANALYSIS_PLAN && KindOf(o, s).Replans?
    ensures Next(o, s).status.Running? <==> FailedIndex(o, s) == 0
  {
    hide Next, GraphOf, KindOf, Workable, UsesContextAware, FailedIndex;
    assert UsesDagFields(s.plan[0]);
    DagReplanAccepted(o, fallback, s);
    assert s.plan[0].stepID == "scan" && s.plan[1].stepID == "analyze";
    assert "scan" in s.plan[1].dependsOn;
    assert "scan" != "analyze";
  }
}
