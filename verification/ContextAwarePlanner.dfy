/** The planner that rebuilds the rest of a plan after a failure (planner/context_aware.go). */
module ContextAwarePlanner {
  import opened Plans
  import opened Values
  import opened Wrappers

  const ECHO_AGENT := "agent.echo"

  function JustAgent(agentID: string): PlanStep {
    PlanStep(agentID, map[], map[], None, "", [])
  }

  /** Copying keeps agent, input and metadata only: StepIDs, dependencies and retry policies of a
      template are dropped. */
  function CopyStep(s: PlanStep): PlanStep {
    PlanStep(s.agentID, s.input, s.metadata, None, "", [])
  }

  function CopyOf(steps: Plan): Plan {
    seq(|steps|, (i: nat) requires i < |steps| => CopyStep(steps[i]))
  }

  /** The plans CreatePlan may return; which matching prefix it finds first is unspecified. */
  ghost predicate MayCreate(registry: map<string, Plan>, taskID: string, plan: Plan) {
    if taskID in registry then plan == CopyOf(registry[taskID])
    else if exists pattern :: pattern in registry && pattern <= taskID then
      exists pattern :: pattern in registry && pattern <= taskID && plan == CopyOf(registry[pattern])
    else plan == [JustAgent(ECHO_AGENT)]
  }

  const VALIDATION_TAGS: Fields := map["__replan__" := Bool(true), "__replan_type__" := Str("validation_failure")]
  const TOOL_TAGS: Fields := map["__replan__" := Bool(true), "__replan_type__" := Str("tool_failure")]
  const AGENT_TAGS: Fields := map["__replan__" := Bool(true), "__replan_type__" := Str("agent_failure")]

  /** The step that takes the place of `step`, `offset` positions after the failed one. */
  function Reworked(fallback: string, failureType: string, error: string, offset: nat, step: PlanStep): PlanStep {
    var replaced := if offset == 0 && fallback != "" then step.(agentID := fallback) else step;
    if failureType == "validation_failure" then
      step.(metadata := step.metadata + VALIDATION_TAGS["__prev_error__" := Str(error)])
    else if failureType == "tool_failure" then replaced.(metadata := step.metadata + TOOL_TAGS)
    else if failureType == "agent_failure" then replaced.(metadata := step.metadata + AGENT_TAGS)
    else step
  }

  /** The failed step and everything after it, reworked. */
  function Remaining(fallback: string, rctx: ReplanContext): Plan {
    if rctx.originalPlan.None? then
      [JustAgent(if rctx.failureType == "agent_failure" && fallback != "" then fallback else ECHO_AGENT)]
    else if rctx.failedStepIndex >= |rctx.originalPlan.value| then
      [JustAgent(if rctx.failureType == "agent_failure" && fallback != "" then fallback else rctx.failedAgentID)]
    else
      var rest := rctx.originalPlan.value[rctx.failedStepIndex..];
      seq(|rest|, (k: nat) requires k < |rest| => Reworked(fallback, rctx.failureType, rctx.failureError, k, rest[k]))
  }

  /** None stands for the error that the replan limit is exceeded. */
  function ReplanAnswer(fallback: string, rctx: ReplanContext): Option<Plan> {
    if rctx.attempt > rctx.maxReplans then None else Some(Remaining(fallback, rctx))
  }

  method MergeMetadata(existing: Fields, additional: Fields) returns (merged: Fields)
    ensures merged == existing + additional
  {
    merged := map[];
    var rest := existing.Keys;
    while rest != {}
      invariant rest <= existing.Keys
      invariant merged == map k | k in existing && k !in rest :: existing[k]
    {
      var k :| k in rest;
      merged := merged[k := existing[k]];
      rest := rest - {k};
    }
    assert merged == existing;
    rest := additional.Keys;
    while rest != {}
      invariant rest <= additional.Keys
      invariant merged == existing + map k | k in additional && k !in rest :: additional[k]
    {
      var k :| k in rest;
      merged := merged[k := additional[k]];
      rest := rest - {k};
    }
    assert (map k | k in additional && k !in rest :: additional[k]) == additional;
  }

  method CopySteps(steps: Plan) returns (cp: Plan)
    ensures cp == CopyOf(steps)
  {
    cp := [];
    for i := 0 to |steps|
      invariant cp == CopyOf(steps)[..i]
    {
      cp := cp + [PlanStep(steps[i].agentID, steps[i].input, steps[i].metadata, None, "", [])];
    }
  }

  class ContextAwarePlanner {
    var registry: map<string, Plan>
    var fallbackAgentID: string

    constructor ()
      ensures registry == map[] && fallbackAgentID == ""
    {
      registry, fallbackAgentID := map[], "";
    }

    method RegisterTask(taskID: string, steps: Plan)
      modifies this`registry
      ensures registry == old(registry)[taskID := steps]
    {
      registry := registry[taskID := steps];
    }

    method SetFallbackAgent(agentID: string)
      modifies this`fallbackAgentID
      ensures fallbackAgentID == agentID
    {
      fallbackAgentID := agentID;
    }

    method CreatePlan(taskID: string) returns (plan: Plan)
      ensures MayCreate(registry, taskID, plan)
    {
      if taskID in registry {
        plan := CopySteps(registry[taskID]);
        return;
      }
      var patterns := registry.Keys;
      while patterns != {}
        invariant patterns <= registry.Keys
        invariant forall p :: p in registry && p !in patterns ==> !(p <= taskID)
      {
        var pattern :| pattern in patterns;
        if pattern <= taskID {
          plan := CopySteps(registry[pattern]);
          return;
        }
        patterns := patterns - {pattern};
      }
      plan := [JustAgent(ECHO_AGENT)];
    }

    method HandleValidationReplan(rctx: ReplanContext) returns (remaining: Plan)
      requires rctx.failureType == "validation_failure"
      ensures remaining == Remaining(fallbackAgentID, rctx)
    {
      if rctx.originalPlan.None? {
        return [JustAgent(ECHO_AGENT)];
      }
      var original := rctx.originalPlan.value;
      remaining := [];
      var i := rctx.failedStepIndex;
      while i < |original|
        invariant rctx.failedStepIndex < |original| ==>
          i <= |original| && remaining == Remaining(fallbackAgentID, rctx)[..i - rctx.failedStepIndex]
        invariant rctx.failedStepIndex <= i && (rctx.failedStepIndex >= |original| ==> remaining == [])
      {
        var step := original[i];
        var tags := VALIDATION_TAGS["__prev_error__" := Str(rctx.failureError)];
        var metadata := MergeMetadata(step.metadata, tags);
        remaining := remaining + [step.(metadata := metadata)];
        i := i + 1;
      }
      if |remaining| == 0 {
        remaining := [JustAgent(rctx.failedAgentID)];
      }
    }

    method HandleToolReplan(rctx: ReplanContext) returns (remaining: Plan)
      requires rctx.failureType == "tool_failure"
      ensures remaining == Remaining(fallbackAgentID, rctx)
    {
      if rctx.originalPlan.None? {
        return [JustAgent(ECHO_AGENT)];
      }
      var original := rctx.originalPlan.value;
      remaining := [];
      var i := rctx.failedStepIndex;
      while i < |original|
        invariant rctx.failedStepIndex < |original| ==>
          i <= |original| && remaining == Remaining(fallbackAgentID, rctx)[..i - rctx.failedStepIndex]
        invariant rctx.failedStepIndex <= i && (rctx.failedStepIndex >= |original| ==> remaining == [])
      {
        var step := original[i];
        if i == rctx.failedStepIndex && fallbackAgentID != "" {
          step := step.(agentID := fallbackAgentID);
        }
        var metadata := MergeMetadata(step.metadata, TOOL_TAGS);
        remaining := remaining + [step.(metadata := metadata)];
        i := i + 1;
      }
      if |remaining| == 0 {
        remaining := [JustAgent(rctx.failedAgentID)];
      }
    }

    method HandleAgentReplan(rctx: ReplanContext) returns (remaining: Plan)
      requires rctx.failureType == "agent_failure"
      ensures remaining == Remaining(fallbackAgentID, rctx)
    {
      if rctx.originalPlan.None? {
        return [JustAgent(if fallbackAgentID != "" then fallbackAgentID else ECHO_AGENT)];
      }
      var original := rctx.originalPlan.value;
      remaining := [];
      var i := rctx.failedStepIndex;
      while i < |original|
        invariant rctx.failedStepIndex < |original| ==>
          i <= |original| && remaining == Remaining(fallbackAgentID, rctx)[..i - rctx.failedStepIndex]
        invariant rctx.failedStepIndex <= i && (rctx.failedStepIndex >= |original| ==> remaining == [])
      {
        var step := original[i];
        if i == rctx.failedStepIndex && fallbackAgentID != "" {
          step := step.(agentID := fallbackAgentID);
        }
        var metadata := MergeMetadata(step.metadata, AGENT_TAGS);
        remaining := remaining + [step.(metadata := metadata)];
        i := i + 1;
      }
      if |remaining| == 0 {
        remaining := [JustAgent(if fallbackAgentID != "" then fallbackAgentID else rctx.failedAgentID)];
      }
    }

    method HandleDefaultReplan(rctx: ReplanContext) returns (remaining: Plan)
      requires rctx.failureType !in {"validation_failure", "tool_failure", "agent_failure"}
      ensures remaining == Remaining(fallbackAgentID, rctx)
    {
      if rctx.originalPlan.None? {
        return [JustAgent(ECHO_AGENT)];
      }
      var original := rctx.originalPlan.value;
      remaining := [];
      var i := rctx.failedStepIndex;
      while i < |original|
        invariant rctx.failedStepIndex < |original| ==>
          i <= |original| && remaining == Remaining(fallbackAgentID, rctx)[..i - rctx.failedStepIndex]
        invariant rctx.failedStepIndex <= i && (rctx.failedStepIndex >= |original| ==> remaining == [])
      {
        remaining := remaining + [original[i]];
        i := i + 1;
      }
      if |remaining| == 0 {
        remaining := [JustAgent(rctx.failedAgentID)];
      }
    }

    method Replan(rctx: ReplanContext) returns (r: Option<Plan>)
      ensures r == ReplanAnswer(fallbackAgentID, rctx)
    {
      if rctx.attempt > rctx.maxReplans {
        return None;
      }
      var remaining;
      if rctx.failureType == "validation_failure" {
        remaining := HandleValidationReplan(rctx);
      } else if rctx.failureType == "tool_failure" {
        remaining := HandleToolReplan(rctx);
      } else if rctx.failureType == "agent_failure" {
        remaining := HandleAgentReplan(rctx);
      } else {
        remaining := HandleDefaultReplan(rctx);
      }
      r := Some(remaining);
    }
  }
}
