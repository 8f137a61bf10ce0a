/** Failure events, repair plans and the repair strategies (failure/, repair/). */
module Repair {
  import opened Values
  import opened Wrappers

  datatype FailureType = ValidationFailure | ToolFailure | AgentFailure | UnknownFailure

  function FailureTypeName(t: FailureType): string {
    match t
    case ValidationFailure => "validation_failure"
    case ToolFailure => "tool_failure"
    case AgentFailure => "agent_failure"
    case UnknownFailure => "unknown_failure"
  }

  datatype FailureEvent = FailureEvent(
    stepIndex: nat, agentID: string, failureType: FailureType, error: string, output: Option<Fields>, attempt: int)
  {
    predicate IsRetryable() {
      !failureType.UnknownFailure?
    }
  }

  datatype ActionType = RetryStep | ModifyInput | InsertStep | ReplaceStep | SkipStep | Replan | Abort

  /** agentID is used by ReplaceStep, modifiedInput by ModifyInput. */
  datatype RepairAction = RepairAction(actionType: ActionType, agentID: string, modifiedInput: Option<Fields>)

  function Act(actionType: ActionType): RepairAction {
    RepairAction(actionType, "", None)
  }

  predicate Aborts(actions: seq<RepairAction>) {
    exists k :: 0 <= k < |actions| && actions[k].actionType.Abort?
  }

  class RepairPlan {
    var actions: seq<RepairAction>
    var shouldReplan: bool
    var reasoning: string

    constructor ()
      ensures actions == [] && !shouldReplan && reasoning == ""
    {
      actions, shouldReplan, reasoning := [], false, "";
    }

    method AddAction(action: RepairAction)
      modifies this`actions
      ensures actions == old(actions) + [action]
      ensures old(actions) == [] ==> actions == [action]
    {
      actions := actions + [action];
    }

    method WithReasoning(text: string)
      modifies this`reasoning
      ensures reasoning == text
    {
      reasoning := text;
    }

    method HasAbort() returns (r: bool)
      ensures r == Aborts(actions)
    {
      for k := 0 to |actions|
        invariant !Aborts(actions[..k])
      {
        if actions[k].actionType.Abort? {
          return true;
        }
      }
      assert actions[..|actions|] == actions;
      r := false;
    }

    method HasReplan() returns (r: bool)
      ensures r <==> shouldReplan || Replans(actions)
    {
      for k := 0 to |actions|
        invariant forall j :: 0 <= j < k ==> !actions[j].actionType.Replan?
      {
        if actions[k].actionType.Replan? {
          return true;
        }
      }
      r := shouldReplan;
    }
  }

  predicate Replans(actions: seq<RepairAction>) {
    exists k :: 0 <= k < |actions| && actions[k].actionType.Replan?
  }

  lemma OneAction(a: RepairAction)
    ensures Replans([a]) <==> a.actionType.Replan?
  {
    assert [a][0] == a;
  }

  /** What a custom strategy fills a plan with. */
  datatype Response = Response(actions: seq<RepairAction>, shouldReplan: bool)

  const ALTERNATIVE := ".alternative"

  datatype Strategy =
    | SimpleRetry
    | Advanced(enableInputCorrection: bool, enableStepReplacement: bool, canCorrect: FailureEvent -> bool)
    | Custom(respond: FailureEvent -> Result<Response, string>)
  {
    /** The actions a strategy plans for a failure, or its own error. */
    function Actions(f: FailureEvent): Result<seq<RepairAction>, string> {
      match this
      case SimpleRetry =>
        Ok([Act(match f.failureType
                case ValidationFailure => Replan
                case ToolFailure => RetryStep
                case AgentFailure => RetryStep
                case UnknownFailure => Abort)])
      case Advanced(_, _, _) =>
        Ok([match f.failureType
            case ValidationFailure => OnValidation(f)
            case ToolFailure => OnTool(f)
            case AgentFailure => OnAgent(f)
            case UnknownFailure => Act(Abort)])
      case Custom(respond) =>
        match respond(f)
        case Ok(response) => Ok(response.actions)
        case Err(error) => Err(error)
    }

    /** The built-in strategies flag a plan for replanning exactly when they plan a replan. */
    predicate Flags(f: FailureEvent)
      requires Actions(f).Ok?
    {
      if Custom? then respond(f).value.shouldReplan else Replans(Actions(f).value)
    }

    function OnValidation(f: FailureEvent): RepairAction
      requires Advanced?
    {
      if f.attempt == 1 && enableInputCorrection && canCorrect(f) then RepairAction(ModifyInput, f.agentID, None)
      else if f.attempt >= 2 then Act(Replan)
      else Act(RetryStep)
    }

    function OnTool(f: FailureEvent): RepairAction
      requires Advanced?
    {
      if f.attempt <= 2 then Act(RetryStep)
      else if enableStepReplacement then RepairAction(ReplaceStep, f.agentID + ALTERNATIVE, None)
      else Act(Abort)
    }

    function OnAgent(f: FailureEvent): RepairAction
      requires Advanced?
    {
      if f.attempt == 1 then Act(RetryStep)
      else if f.attempt == 2 && enableStepReplacement then Act(ReplaceStep)
      else if f.attempt >= 3 then Act(Replan)
      else Act(Abort)
    }
  }

  /** Fills a plan for a validation failure (AdvancedStrategy.handleValidationFailure). */
  method HandleValidationFailure(s: Strategy, f: FailureEvent, plan: RepairPlan)
    requires s.Advanced? && plan.actions == [] && !plan.shouldReplan
    modifies plan
    ensures plan.actions == [s.OnValidation(f)]
    ensures plan.shouldReplan == s.OnValidation(f).actionType.Replan?
  {
    if f.attempt == 1 && s.enableInputCorrection && s.canCorrect(f) {
      plan.AddAction(RepairAction(ModifyInput, f.agentID, None));
      plan.WithReasoning("attempting input correction based on validation error");
      return;
    }
    if f.attempt >= 2 {
      plan.shouldReplan := true;
      plan.AddAction(Act(Replan));
      plan.WithReasoning("validation failed repeatedly, requesting replan");
      return;
    }
    plan.AddAction(Act(RetryStep));
    plan.WithReasoning("retrying after validation failure");
  }

  method HandleToolFailure(s: Strategy, f: FailureEvent, plan: RepairPlan)
    requires s.Advanced? && plan.actions == [] && !plan.shouldReplan
    modifies plan
    ensures plan.actions == [s.OnTool(f)] && !plan.shouldReplan
  {
    if f.attempt <= 2 {
      plan.AddAction(Act(RetryStep));
      plan.WithReasoning("tool failure, retrying with backoff");
      return;
    }
    if s.enableStepReplacement {
      plan.AddAction(RepairAction(ReplaceStep, f.agentID + ALTERNATIVE, None));
      plan.WithReasoning("tool failure persists, attempting step replacement");
      return;
    }
    plan.AddAction(Act(Abort));
    plan.WithReasoning("tool failure persists, no alternatives available");
  }

  method HandleAgentFailure(s: Strategy, f: FailureEvent, plan: RepairPlan)
    requires s.Advanced? && plan.actions == [] && !plan.shouldReplan
    modifies plan
    ensures plan.actions == [s.OnAgent(f)]
    ensures plan.shouldReplan == s.OnAgent(f).actionType.Replan?
  {
    if f.attempt == 1 {
      plan.AddAction(Act(RetryStep));
      plan.WithReasoning("agent failure, attempting retry");
      return;
    }
    if f.attempt == 2 && s.enableStepReplacement {
      plan.AddAction(Act(ReplaceStep));
      plan.WithReasoning("agent failure persists, attempting agent replacement");
      return;
    }
    if f.attempt >= 3 {
      plan.shouldReplan := true;
      plan.AddAction(Act(Replan));
      plan.WithReasoning("agent failure persists, requesting replan");
      return;
    }
    plan.AddAction(Act(Abort));
    plan.WithReasoning("agent failure cannot be repaired");
  }

  method CreateRepairPlan(s: Strategy, f: FailureEvent) returns (r: Result<RepairPlan, string>)
    ensures r.Ok? ==> fresh(r.value) && s.Actions(f) == Ok(r.value.actions) && r.value.shouldReplan == s.Flags(f)
    ensures r.Err? ==> s.Actions(f) == Err(r.error)
  {
    var plan := new RepairPlan();
    match s {
      case SimpleRetry =>
        match f.failureType {
          case ValidationFailure =>
            plan.shouldReplan := true;
            plan.AddAction(Act(Replan));
            plan.WithReasoning("validation failed - requesting replan");
          case ToolFailure =>
            plan.AddAction(Act(RetryStep));
            plan.WithReasoning("tool_failure - retrying step");
          case AgentFailure =>
            plan.AddAction(Act(RetryStep));
            plan.WithReasoning("agent_failure - retrying step");
          case UnknownFailure =>
            plan.AddAction(Act(Abort));
            plan.WithReasoning("unknown failure type");
        }
      case Advanced(_, _, _) =>
        match f.failureType {
          case ValidationFailure => HandleValidationFailure(s, f, plan);
          case ToolFailure => HandleToolFailure(s, f, plan);
          case AgentFailure => HandleAgentFailure(s, f, plan);
          case UnknownFailure =>
            plan.AddAction(Act(Abort));
            plan.WithReasoning("unknown failure type");
        }
      case Custom(respond) =>
        var planned := respond(f);
        if planned.Err? {
          return Err(planned.error);
        }
        plan.actions, plan.shouldReplan := planned.value.actions, planned.value.shouldReplan;
    }
    if !s.Custom? {
      OneAction(plan.actions[0]);
      assert plan.actions == [plan.actions[0]];
    }
    r := Ok(plan);
  }

  datatype RepairEngine = RepairEngine(strategy: Strategy, maxAttempts: int)
  {
    /** The gate in front of the strategy: attempts and retryability first. */
    function Actions(f: FailureEvent): Result<seq<RepairAction>, string> {
      if !(f.attempt < maxAttempts) || !f.IsRetryable() then Ok([Act(Abort)])
      else strategy.Actions(f)
    }

    predicate Flags(f: FailureEvent)
      requires Actions(f).Ok?
    {
      f.attempt < maxAttempts && f.IsRetryable() && strategy.Flags(f)
    }
  }

  method Repair(e: RepairEngine, f: FailureEvent) returns (r: Result<RepairPlan, string>)
    ensures r.Ok? ==> fresh(r.value) && e.Actions(f) == Ok(r.value.actions) && r.value.shouldReplan == e.Flags(f)
    ensures r.Err? ==> e.Actions(f) == Err(r.error)
  {
    if !(f.attempt < e.maxAttempts) {
      var plan := new RepairPlan();
      plan.AddAction(Act(Abort));
      plan.WithReasoning("exceeded max attempts");
      return Ok(plan);
    }
    if !f.IsRetryable() {
      var plan := new RepairPlan();
      plan.AddAction(Act(Abort));
      plan.WithReasoning("failure type is not retryable");
      return Ok(plan);
    }
    r := CreateRepairPlan(e.strategy, f);
  }

  predicate IsAnswer(e: RepairEngine, f: FailureEvent, kind: ActionType) {
    e.Actions(f).Ok? && |e.Actions(f).value| == 1 && e.Actions(f).value[0].actionType == kind
  }

  /** Exactly when the built-in strategies give up on a failure and when they ask for a new plan. With the
      simple one, only a validation failure asks for a plan. With the advanced one, a validation failure
      does from its second attempt on and an agent failure from its third on; before that an agent failure
      is replaced where replacing is enabled. */
  lemma AnswersExactly(e: RepairEngine, f: FailureEvent)
    requires f.attempt >= 1 && !e.strategy.Custom?
    ensures var n, kind := f.attempt, f.failureType;
      var closed := n >= e.maxAttempts || kind == UnknownFailure;
      && e.Actions(f).Ok? && e.Flags(f) == IsAnswer(e, f, Replan)
      && (e.strategy.SimpleRetry? ==>
            && (IsAnswer(e, f, Abort) <==> closed)
            && (IsAnswer(e, f, Replan) <==> !closed && kind == ValidationFailure)
            && (IsAnswer(e, f, RetryStep) <==> !closed && kind != ValidationFailure))
      && (e.strategy.Advanced? ==>
            var swaps := e.strategy.enableStepReplacement;
            && (IsAnswer(e, f, Abort) <==>
                  closed || (!swaps && ((kind == ToolFailure && n >= 3) || (kind == AgentFailure && n == 2))))
            && (IsAnswer(e, f, Replan) <==>
                  !closed && ((kind == ValidationFailure && n >= 2) || (kind == AgentFailure && n >= 3)))
            && (IsAnswer(e, f, ReplaceStep) <==>
                  !closed && swaps && ((kind == ToolFailure && n >= 3) || (kind == AgentFailure && n == 2))))
  {
    var actions := e.Actions(f).value;
    OneAction(actions[0]);
    assert actions == [actions[0]];
  }
}
