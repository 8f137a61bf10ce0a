/** Plans and replan requests: the data passed between planners and the engine. */
module Plans {
  import opened Values
  import opened Wrappers
  import Retry

  datatype PlanStep = PlanStep(
    agentID: string,
    input: Fields,
    metadata: Fields,
    retryPolicy: Option<Retry.Policy>,
    stepID: string,
    dependsOn: seq<string>)

  type Plan = seq<PlanStep>

  /** What the engine remembers of a step that succeeded; None stands for a nil output map. */
  datatype CompletedStep = CompletedStep(stepIndex: nat, agentID: string, output: Option<Fields>)

  datatype ReplanContext = ReplanContext(
    originalPlan: Option<Plan>,
    failedStepIndex: nat,
    failedAgentID: string,
    failureError: string,
    failureType: string,
    completedSteps: seq<CompletedStep>,
    vars: Fields,
    attempt: int,
    maxReplans: int)
}
