/** Which steps the context-aware replanner gives to the fallback agent, and what else it changes. */
module FallbackRuns {
  import opened Conservation
  import opened ContextAwarePlanner
  import opened Dag
  import opened DependencyGraph
  import opened Engine
  import opened EngineFailures
  import opened EngineOrder
  import opened EngineRuns
  import opened PlanGraph
  import opened Plans
  import opened Repair
  import opened StepExecution
  import opened Values
  import opened Wrappers

  /** The failures after which the failed step is given to the fallback agent, if one is set. */
  predicate FallsBack(fallback: string, kind: FailureType) {
    fallback != "" && (kind.ToolFailure? || kind.AgentFailure?)
  }

  const REPLAN_KEYS: set<string> := {"__replan__", "__replan_type__", "__prev_error__"}

  /** The new step keeps everything of the old one but its agent and its replan tags. */
  ghost predicate KeepsStep(was: PlanStep, step: PlanStep) {
    && step.input == was.input && step.retryPolicy == was.retryPolicy
    && step.stepID == was.stepID && step.dependsOn == was.dependsOn
    && forall key :: key !in REPLAN_KEYS ==>
         && (key in step.metadata <==> key in was.metadata)
         && (key in was.metadata ==> step.metadata[key] == was.metadata[key])
  }

  /** The tags say why the step was replanned; a failure of unknown kind leaves none. */
  ghost predicate Tagged(was: PlanStep, step: PlanStep, kind: FailureType, error: string) {
    if kind.UnknownFailure? then step.metadata == was.metadata
    else
      && "__replan__" in step.metadata && step.metadata["__replan__"] == Bool(true)
      && "__replan_type__" in step.metadata && step.metadata["__replan_type__"] == Str(FailureTypeName(kind))
      && (if kind.ValidationFailure? then
            "__prev_error__" in step.metadata && step.metadata["__prev_error__"] == Str(error)
          else
            && ("__prev_error__" in step.metadata <==> "__prev_error__" in was.metadata)
            && ("__prev_error__" in was.metadata ==> step.metadata["__prev_error__"] == was.metadata["__prev_error__"]))
  }

  /** What the answer to a request makes of the plan it is about. */
  ghost predicate AnswersFor(fallback: string, plan: Plan, f: nat, kind: FailureType, error: string, answer: Plan)
    requires f < |plan|
  {
    && |answer| == |plan| - f
    && answer[0].agentID == (if FallsBack(fallback, kind) then fallback else plan[f].agentID)
    && (forall k :: 1 <= k < |answer| ==> answer[k].agentID == plan[f + k].agentID)
    && (forall k :: 0 <= k < |answer| ==>
         KeepsStep(plan[f + k], answer[k]) && Tagged(plan[f + k], answer[k], kind, error))
  }

  /** The replanner's answer, for every request about a step of the plan. */
  lemma AnswerExactly(fallback: string, rctx: ReplanContext, kind: FailureType)
    requires rctx.originalPlan.Some? && rctx.failedStepIndex < |rctx.originalPlan.value|
    requires rctx.failureType == FailureTypeName(kind) && rctx.attempt <= rctx.maxReplans
    ensures ReplanAnswer(fallback, rctx).Some?
    ensures AnswersFor(fallback, rctx.originalPlan.value, rctx.failedStepIndex, kind, rctx.failureError,
                       ReplanAnswer(fallback, rctx).value)
  {
    hide *;
    RemainingSteps(fallback, rctx);
    AllReworked(fallback, kind, rctx.failureError, rctx.originalPlan.value, rctx.failedStepIndex,
                ReplanAnswer(fallback, rctx).value);
  }

  lemma AllReworked(fallback: string, kind: FailureType, error: string, plan: Plan, f: nat, answer: Plan)
    requires f < |plan| && |answer| == |plan| - f
    requires forall k :: 0 <= k < |answer| ==>
      answer[k] == Reworked(fallback, FailureTypeName(kind), error, k, plan[f + k])
    ensures AnswersFor(fallback, plan, f, kind, error, answer)
  {
    hide Reworked, KeepsStep, Tagged, FailureTypeName, FallsBack;
    forall k | 0 <= k < |answer|
      ensures answer[k].agentID == (if k == 0 && FallsBack(fallback, kind) then fallback else plan[f + k].agentID)
      ensures KeepsStep(plan[f + k], answer[k]) && Tagged(plan[f + k], answer[k], kind, error)
    {
      StepReworked(fallback, kind, error, k, plan[f + k]);
    }
  }

  lemma RemainingSteps(fallback: string, rctx: ReplanContext)
    requires rctx.originalPlan.Some? && rctx.failedStepIndex < |rctx.originalPlan.value|
    requires rctx.attempt <= rctx.maxReplans
    ensures var plan, f, answer := rctx.originalPlan.value, rctx.failedStepIndex, ReplanAnswer(fallback, rctx);
      && answer.Some? && |answer.value| == |plan| - f
      && forall k :: 0 <= k < |answer.value| ==>
           answer.value[k] == Reworked(fallback, rctx.failureType, rctx.failureError, k, plan[f + k])
  {
    hide Reworked;
    var rest := rctx.originalPlan.value[rctx.failedStepIndex..];
    assert forall k :: 0 <= k < |rest| ==> rest[k] == rctx.originalPlan.value[rctx.failedStepIndex + k];
  }

  lemma StepReworked(fallback: string, kind: FailureType, error: string, offset: nat, step: PlanStep)
    ensures var r := Reworked(fallback, FailureTypeName(kind), error, offset, step);
      && r.agentID == (if offset == 0 && FallsBack(fallback, kind) then fallback else step.agentID)
      && KeepsStep(step, r) && Tagged(step, r, kind, error)
  {
    NamesDiffer();
  }

  lemma NamesDiffer()
    ensures forall a: FailureType, b: FailureType :: FailureTypeName(a) == FailureTypeName(b) ==> a == b
    ensures "__replan__" != "__replan_type__" && "__replan__" != "__prev_error__"
      && "__replan_type__" != "__prev_error__"
  {
    assert |FailureTypeName(ValidationFailure)| == 18 && |FailureTypeName(ToolFailure)| == 12;
    assert |FailureTypeName(AgentFailure)| == 13 && |FailureTypeName(UnknownFailure)| == 15;
    assert |"__replan__"| == 10 && |"__replan_type__"| == 15 && |"__prev_error__"| == 14;
  }

  /** A request beyond the limit is refused, and no other. */
  lemma RefusesExactly(fallback: string, rctx: ReplanContext)
    ensures ReplanAnswer(fallback, rctx).None? <==> rctx.attempt > rctx.maxReplans
  {
  }

  /** A request about no plan, or about a step outside of it, is answered by one step: under the fallback
      agent if the agent failed and one is set, else under the echo agent or the failed one. */
  lemma AnswersAlone(fallback: string, rctx: ReplanContext, kind: FailureType)
    requires rctx.failureType == FailureTypeName(kind) && rctx.attempt <= rctx.maxReplans
    requires rctx.originalPlan.None? || rctx.failedStepIndex >= |rctx.originalPlan.value|
    ensures var instead := if rctx.originalPlan.None? then "agent.echo" else rctx.failedAgentID;
      ReplanAnswer(fallback, rctx) ==
        Some([PlanStep(if kind.AgentFailure? && fallback != "" then fallback else instead, map[], map[], None, "", [])])
  {
    NamesDiffer();
  }

  /** The failure a run replans from: its first failing step, and how its error is classified. */
  ghost predicate ReplansFrom(o: Setup, s: State, f: nat, kind: FailureType, error: string) {
    KindOf(o, s).Replans? && FirstFailing(o.world, s, f, error) && kind == o.world.classify(error)
  }

  /** In every run, the plan after a replan: only the failed step may change its agent, and it does exactly
      when a fallback is set and the failure was one of the tools or of the agent. */
  lemma ReplansExactly(o: Setup, fallback: string, plan: Plan, n: nat)
    returns (f: nat, kind: FailureType, error: string)
    requires UsesContextAware(o, fallback) && KindOf(o, Head(o, plan, n)).Replans?
    ensures ReplansFrom(o, Head(o, plan, n), f, kind, error)
    ensures AnswersFor(fallback, Head(o, plan, n).plan, f, kind, error, Head(o, plan, n + 1).plan)
  {
    var r := ReplannerIsTold(o, plan, n);
    var s, next := Head(o, plan, n), Head(o, plan, n + 1);
    hide Head, WithBatch, FirstFailing, KindOf, Remaining, AnswersFor;
    f, error := r.failedStepIndex, r.failureError;
    kind := o.world.classify(error);
    assert o.replanner.value(r) == ReplanAnswer(fallback, r);
    InPlan(o.world, s, f, error);
    AnswerExactly(fallback, r, kind);
  }

  lemma InPlan(w: World, s: State, f: nat, error: string)
    requires FirstFailing(w, s, f, error)
    ensures f < |s.plan|
  {
    hide ReadySteps, ResultOf;
  }

  // ----- whole runs -----

  /** The step at this position of the template failed here, was replanned, and was given to the fallback
      agent. */
  ghost predicate FallsBackAt(o: Setup, fallback: string, s: State, position: nat) {
    && position == |s.progress.completed|
    && exists f, kind, error :: ReplansFrom(o, s, f, kind, error) && FallsBack(fallback, kind)
  }

  ghost predicate FellBack(o: Setup, fallback: string, template: Plan, n: nat, position: nat) {
    exists m: nat :: m < n && FallsBackAt(o, fallback, Head(o, template, m), position)
  }

  /** The steps run so far and the undone steps of the current plan, against the template. */
  ghost predicate AgentsAsTold(o: Setup, fallback: string, template: Plan, n: nat, all: seq<PlanStep>) {
    && |all| == |template|
    && forall k :: 0 <= k < |all| ==>
         && KeepsStep(template[k], all[k])
         && all[k].agentID == if FellBack(o, fallback, template, n, k) then fallback else template[k].agentID
  }

  ghost function AllSteps(o: Setup, template: Plan, n: nat): seq<PlanStep> {
    StepsRun(o, template, n) + StepsLeft(Head(o, template, n))
  }

  ghost function StepsLeft(s: State): seq<PlanStep> {
    if |s.done| <= |s.plan| then s.plan[|s.done|..] else []
  }

  lemma OneTurn(o: Setup, template: Plan, n: nat)
    requires n > 0
    ensures var s := Head(o, template, n - 1);
      && Head(o, template, n) == Next(o, s)
      && StepsRun(o, template, n) ==
           StepsRun(o, template, n - 1) + if KindOf(o, s).Advances? then StepsAt(s.plan, ReadySteps(s)) else []
  {
    hide Next, KindOf, ReadySteps;
  }

  lemma FellBackStep(o: Setup, fallback: string, template: Plan, n: nat, position: nat)
    requires n > 0
    ensures FellBack(o, fallback, template, n, position) <==>
      FellBack(o, fallback, template, n - 1, position) || FallsBackAt(o, fallback, Head(o, template, n - 1), position)
  {
    hide FallsBackAt, Head;
    if m: nat :| m < n && FallsBackAt(o, fallback, Head(o, template, m), position) {
      assert m == n - 1 || m < n - 1;
    }
  }

  lemma OnlyReplansFallBack(o: Setup, fallback: string, s: State, position: nat)
    requires FallsBackAt(o, fallback, s, position)
    ensures KindOf(o, s).Replans?
  {
    hide KindOf, FirstFailing;
  }

  lemma SameAgents(o: Setup, fallback: string, template: Plan, n: nat, all: seq<PlanStep>)
    requires n > 0 && !KindOf(o, Head(o, template, n - 1)).Replans?
    requires AgentsAsTold(o, fallback, template, n - 1, all)
    ensures AgentsAsTold(o, fallback, template, n, all)
  {
    hide KindOf, Head, FellBack, KeepsStep, FallsBackAt;
    forall k | 0 <= k < |all|
      ensures FellBack(o, fallback, template, n, k) <==> FellBack(o, fallback, template, n - 1, k)
    {
      FellBackStep(o, fallback, template, n, k);
      if FallsBackAt(o, fallback, Head(o, template, n - 1), k) {
        OnlyReplansFallBack(o, fallback, Head(o, template, n - 1), k);
      }
    }
  }

  lemma KeepsFurther(a: PlanStep, b: PlanStep, c: PlanStep)
    requires KeepsStep(a, b) && KeepsStep(b, c)
    ensures KeepsStep(a, c)
  {
  }

  lemma FirstFailingIsOne(w: World, s: State, f: nat, e: string, g: nat, d: string)
    requires FirstFailing(w, s, f, e) && FirstFailing(w, s, g, d)
    ensures f == g && e == d
  {
    hide Launched, ResultOf;
  }

  /** After a replan: the failed step stands where the run had got to. */
  lemma ReplacedAgents(o: Setup, fallback: string, template: Plan, n: nat, run: seq<PlanStep>, rest: Plan, f: nat,
                       kind: FailureType, error: string, answer: Plan, plan: Plan)
    requires n > 0 && AgentsAsTold(o, fallback, template, n - 1, run + rest)
    requires |Head(o, template, n - 1).progress.completed| == |run|
    requires ReplansFrom(o, Head(o, template, n - 1), f, kind, error)
    requires f < |plan| && rest == plan[f..] && AnswersFor(fallback, plan, f, kind, error, answer)
    ensures AgentsAsTold(o, fallback, template, n, run + answer)
  {
    var before, after := run + rest, run + answer;
    hide Head, FellBack, KeepsStep, Tagged, KindOf, FirstFailing;
    forall k | 0 <= k < |after|
      ensures KeepsStep(template[k], after[k])
      ensures after[k].agentID == if FellBack(o, fallback, template, n, k) then fallback else template[k].agentID
    {
      assert k >= |run| ==> before[k] == plan[f + (k - |run|)] && after[k] == answer[k - |run|];
      assert k < |run| ==> before[k] == after[k];
      if k >= |run| {
        KeepsFurther(template[k], before[k], after[k]);
      }
      FellBackStep(o, fallback, template, n, k);
      FallsBackHere(o, fallback, Head(o, template, n - 1), k, f, kind, error);
    }
  }

  lemma FallsBackHere(o: Setup, fallback: string, s: State, position: nat, f: nat, kind: FailureType, error: string)
    requires ReplansFrom(o, s, f, kind, error)
    ensures FallsBackAt(o, fallback, s, position) <==> position == |s.progress.completed| && FallsBack(fallback, kind)
  {
    hide KindOf, FirstFailing;
    if FallsBackAt(o, fallback, s, position) {
      var g, other, d :| ReplansFrom(o, s, g, other, d) && FallsBack(fallback, other);
      FirstFailingIsOne(o.world, s, f, error, g, d);
    }
  }

  /** At every loop head of every run of a created plan, position by position: a step runs, or will run,
      under the fallback agent exactly if it failed before with a tool or agent failure and was replanned,
      and otherwise under the agent of the template. Its input, retry policy, IDs and other metadata are
      those of the template. */
  lemma {:induction false} AgentsExactly(o: Setup, fallback: string, template: Plan, n: nat)
    requires UsesContextAware(o, fallback) && Plain(template)
    ensures Head(o, template, n).status.Running? ==> AgentsAsTold(o, fallback, template, n, AllSteps(o, template, n))
  {
    hide *;
    if n == 0 {
      StartsAsTold(o, fallback, template);
    } else {
      AgentsExactly(o, fallback, template, n - 1);
      RunsConserveTheTemplate(o, fallback, template, n - 1);
      match KindOf(o, Head(o, template, n - 1)) {
        case Stays => StaysTold(o, fallback, template, n);
        case Advances => AdvanceTold(o, fallback, template, n);
        case Replans => ReplanTold(o, fallback, template, n);
        case Fails => FailsTold(o, template, n);
      }
    }
  }

  lemma FailsTold(o: Setup, template: Plan, n: nat)
    requires n > 0 && KindOf(o, Head(o, template, n - 1)).Fails?
    ensures !Head(o, template, n).status.Running?
  {
    hide *;
    OneTurn(o, template, n);
    FailsByStep(o, Head(o, template, n - 1));
  }

  lemma StaysTold(o: Setup, fallback: string, template: Plan, n: nat)
    requires n > 0 && KindOf(o, Head(o, template, n - 1)).Stays?
    requires Head(o, template, n - 1).status.Running? ==>
      AgentsAsTold(o, fallback, template, n - 1, AllSteps(o, template, n - 1))
    ensures Head(o, template, n).status.Running? ==> AgentsAsTold(o, fallback, template, n, AllSteps(o, template, n))
  {
    hide Head, StepsRun, Next, KindOf, AgentsAsTold, StepsLeft;
    OneTurn(o, template, n);
    TurnStays(o, Head(o, template, n - 1));
    assert StepsRun(o, template, n) == StepsRun(o, template, n - 1);
    if Head(o, template, n - 1).status.Running? {
      SameAgents(o, fallback, template, n, AllSteps(o, template, n - 1));
    }
  }

  lemma StartsAsTold(o: Setup, fallback: string, template: Plan)
    ensures AgentsAsTold(o, fallback, template, 0, AllSteps(o, template, 0))
  {
    assert AllSteps(o, template, 0) == template;
    assert forall k: nat :: !FellBack(o, fallback, template, 0, k);
  }

  /** A step that is done moves from the steps left to the steps run. */
  lemma OneStepLess(o: Setup, fallback: string, template: Plan, run: seq<PlanStep>, s: State)
    requires KindOf(o, s).Advances? && Conserved(fallback, template, run, s)
    ensures run + StepsAt(s.plan, ReadySteps(s)) + StepsLeft(Next(o, s)) == run + StepsLeft(s)
  {
    hide Next, KindOf, ReadySteps, StandsFor, StepsAt, SlotsOf, Plain, GraphOf;
    NotEnded(o, s);
    PlainReady(s);
    AdvanceAppends(o, s);
    var d := |s.done|;
    OneStep(s.plan, d);
    MoveOver(run, s.plan, d);
    assert Next(o, s).done == Nodes(d + 1);
  }

  lemma AdvanceTold(o: Setup, fallback: string, template: Plan, n: nat)
    requires n > 0 && KindOf(o, Head(o, template, n - 1)).Advances?
    requires Head(o, template, n - 1).status.Running? ==>
      && Conserved(fallback, template, StepsRun(o, template, n - 1), Head(o, template, n - 1))
      && AgentsAsTold(o, fallback, template, n - 1, AllSteps(o, template, n - 1))
    ensures AgentsAsTold(o, fallback, template, n, AllSteps(o, template, n))
  {
    hide Head, StepsRun, Next, KindOf, AgentsAsTold, StepsLeft, Conserved, StepsAt, ReadySteps;
    var s := Head(o, template, n - 1);
    NotEnded(o, s);
    OneTurn(o, template, n);
    OneStepLess(o, fallback, template, StepsRun(o, template, n - 1), s);
    SameAgents(o, fallback, template, n, AllSteps(o, template, n - 1));
  }

  lemma ReplanTold(o: Setup, fallback: string, template: Plan, n: nat)
    requires n > 0 && UsesContextAware(o, fallback) && KindOf(o, Head(o, template, n - 1)).Replans?
    requires Head(o, template, n - 1).status.Running? ==>
      && Conserved(fallback, template, StepsRun(o, template, n - 1), Head(o, template, n - 1))
      && AgentsAsTold(o, fallback, template, n - 1, AllSteps(o, template, n - 1))
    ensures AgentsAsTold(o, fallback, template, n, AllSteps(o, template, n))
  {
    hide *;
    var s, run := Head(o, template, n - 1), StepsRun(o, template, n - 1);
    NotEnded(o, s);
    var f, kind, error := ReplansExactly(o, fallback, template, n - 1);
    FailedIsNext(o, fallback, template, run, s, f, kind, error);
    OneTurn(o, template, n);
    NewStepsLeft(o, template, n);
    assert StepsRun(o, template, n) == run;
    AllStepsAre(o, template, n - 1);
    AllStepsAre(o, template, n);
    ReplacedAgents(o, fallback, template, n, run, StepsLeft(s), f, kind, error, Head(o, template, n).plan, s.plan);
  }

  lemma AllStepsAre(o: Setup, template: Plan, n: nat)
    ensures AllSteps(o, template, n) == StepsRun(o, template, n) + StepsLeft(Head(o, template, n))
  {
  }

  lemma NewStepsLeft(o: Setup, template: Plan, n: nat)
    requires n > 0 && KindOf(o, Head(o, template, n - 1)).Replans?
    ensures StepsLeft(Head(o, template, n)) == Head(o, template, n).plan
  {
    hide Head, Next, KindOf, Absorbed, SlotsOf, ReadySteps, Buildable, ContextFor;
    OneTurn(o, template, n);
    TurnCases(o, Head(o, template, n - 1));
  }

  lemma FailedIsNext(o: Setup, fallback: string, template: Plan, run: seq<PlanStep>, s: State, f: nat,
                     kind: FailureType, error: string)
    requires ReplansFrom(o, s, f, kind, error) && Conserved(fallback, template, run, s) && |s.done| < |s.plan|
    ensures f == |s.done| && f < |s.plan| && StepsLeft(s) == s.plan[f..] && |s.progress.completed| == |run|
  {
    hide KindOf, ReadySteps, ResultOf, StandsFor, Plain;
    PlainReady(s);
  }

  /** So a successful run completed every template step once and in order, each under the agent the
      template names unless it had fallen back. */
  lemma SuccessNamesAgents(o: Setup, fallback: string, template: Plan, n: nat)
    requires UsesContextAware(o, fallback) && Plain(template)
    requires Ended(Head(o, template, n)) && Head(o, template, n).status.Running?
    ensures var completed := Head(o, template, n).progress.completed;
      && |completed| == |template|
      && forall k :: 0 <= k < |template| ==>
           completed[k].agentID == if FellBack(o, fallback, template, n, k) then fallback else template[k].agentID
  {
    SuccessRunsTheTemplate(o, fallback, template, n);
    AgentsExactly(o, fallback, template, n);
    hide Head, StepsRun, StandsFor, FellBack, KeepsStep, StepsLeft;
    var run := StepsRun(o, template, n);
    assert forall k :: 0 <= k < |run| ==> AllSteps(o, template, n)[k] == run[k];
  }
}
