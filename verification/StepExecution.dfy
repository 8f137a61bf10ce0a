/** Running one step: the retry loop with its two caps, repair actions and attempt records
    (orchestrator/step_executor.go, orchestrator/agent_runner.go). */
module StepExecution {
  import opened Plans
  import opened Repair
  import opened Values
  import opened Wrappers
  import Retry

  /** One agent invocation. `plan` counts the replans before it, so no two invocations of a run
      share their (plan, step, attempt). */
  datatype Call = Call(plan: nat, step: nat, attempt: nat, agentID: string, input: Fields)

  /** Everything the executor does not control, as arbitrary functions: what agents and validators
      answer to each invocation, how errors are classified, how failures are repaired. Because an
      invocation is identified by its Call, such functions describe every behaviour a run can meet. */
  datatype World = World(
    registered: set<string>,
    run: Call -> Result<Option<Fields>, string>,
    validate: Option<(Call, string, Option<Fields>) -> Option<string>>,
    repairEngine: Option<RepairEngine>,
    policy: Retry.Policy,
    classify: string -> FailureType,
    request: Fields)

  /** A step to execute: its index in the plan and the Vars snapshot of its batch. */
  datatype Job = Job(plan: nat, index: nat, step: PlanStep, vars: Fields)

  datatype StepRecord = StepRecord(step: nat, attempt: nat, succeeded: bool)

  datatype StepOutcome = StepOutcome(
    result: Result<Option<Fields>, string>, calls: seq<Call>, records: seq<StepRecord>, attempts: nat)

  const MAX_ATTEMPTS_EXCEEDED := "max retry attempts exceeded"
  const AGENT_NOT_FOUND := "agent not found: "
  const REPAIR_FAILED := "repair failed: "

  function PolicyFor(w: World, step: PlanStep): Retry.Policy {
    if step.retryPolicy.Some? then step.retryPolicy.value.Merge(w.policy) else w.policy
  }

  /** Earlier outputs, overlaid by the request input, overlaid by the step's own input. */
  function EffectiveInput(w: World, job: Job): Fields {
    job.vars + w.request + job.step.input
  }

  // ----- repair actions -----

  datatype Applied = Applied(retry: bool, input: Fields, agentID: string)

  function ApplyActions(registered: set<string>, actions: seq<RepairAction>, input: Fields, agentID: string): Applied {
    if actions == [] then Applied(false, input, agentID)
    else
      var a := actions[0];
      match a.actionType
      case RetryStep => Applied(true, input, agentID)
      case ModifyInput => Applied(true, if a.modifiedInput.Some? then a.modifiedInput.value else input, agentID)
      case ReplaceStep =>
        if a.agentID != "" && a.agentID != agentID && a.agentID in registered then Applied(true, input, a.agentID)
        else ApplyActions(registered, actions[1..], input, agentID)
      case Replan => Applied(false, input, agentID)
      case Abort => Applied(false, input, agentID)
      case InsertStep => ApplyActions(registered, actions[1..], input, agentID)
      case SkipStep => ApplyActions(registered, actions[1..], input, agentID)
  }

  /** A retry keeps the agent or moves to a registered one, and the modified input decides neither
      the retry nor the agent. */
  lemma {:induction false} ApplyKeepsRegistered(registered: set<string>, actions: seq<RepairAction>, input: Fields,
                                                other: Fields, agentID: string)
    ensures var applied := ApplyActions(registered, actions, input, agentID);
      && (applied.agentID == agentID || applied.agentID in registered)
      && ApplyActions(registered, actions, other, agentID).retry == applied.retry
      && ApplyActions(registered, actions, other, agentID).agentID == applied.agentID
  {
    if actions != [] {
      ApplyKeepsRegistered(registered, actions[1..], input, other, agentID);
    }
  }

  method ApplyRepairActions(registered: set<string>, plan: RepairPlan, inputIn: Fields, agentIn: string)
    returns (retry: bool, currentInput: Fields, currentAgentID: string)
    ensures Applied(retry, currentInput, currentAgentID) == ApplyActions(registered, plan.actions, inputIn, agentIn)
  {
    currentInput, currentAgentID := inputIn, agentIn;
    for k := 0 to |plan.actions|
      invariant currentInput == inputIn && currentAgentID == agentIn
      invariant ApplyActions(registered, plan.actions, inputIn, agentIn) ==
        ApplyActions(registered, plan.actions[k..], inputIn, agentIn)
    {
      var action := plan.actions[k];
      assert plan.actions[k..][1..] == plan.actions[k + 1..];
      match action.actionType {
        case RetryStep =>
          return true, currentInput, currentAgentID;
        case ModifyInput =>
          if action.modifiedInput.Some? {
            currentInput := action.modifiedInput.value;
          }
          return true, currentInput, currentAgentID;
        case ReplaceStep =>
          if action.agentID != "" && action.agentID != currentAgentID {
            if action.agentID in registered {
              currentAgentID := action.agentID;
              return true, currentInput, currentAgentID;
            }
          }
        case Replan =>
          return false, currentInput, currentAgentID;
        case Abort =>
          return false, currentInput, currentAgentID;
        case InsertStep =>
        case SkipStep =>
      }
    }
    retry := false;
  }

  // ----- one attempt -----

  datatype Turn = Finish(result: Result<Option<Fields>, string>) | Again(agentID: string)

  /** What one pass through the retry loop does: at most one invocation and one record. */
  datatype Effect = Effect(turn: Turn, calls: seq<Call>, records: seq<StepRecord>)

  function CallFor(w: World, job: Job, attempt: nat, agentID: string): Call {
    Call(job.plan, job.index, attempt, agentID, EffectiveInput(w, job))
  }

  /** Repair after a failed invocation. Without a repair engine, and when repair itself fails, no
      record is written. */
  function AfterFailure(w: World, job: Job, attempt: nat, agentID: string, kind: FailureType, error: string,
                        output: Option<Fields>): Effect {
    var call := CallFor(w, job, attempt, agentID);
    if w.repairEngine.None? then Effect(Finish(Err(error)), [call], [])
    else
      match w.repairEngine.value.Actions(FailureEvent(job.index, agentID, kind, error, output, attempt))
      case Err(repairError) => Effect(Finish(Err(REPAIR_FAILED + repairError)), [call], [])
      case Ok(actions) =>
        var applied := ApplyActions(w.registered, actions, w.request, agentID);
        Effect(
          if !Aborts(actions) && applied.retry then Again(applied.agentID) else Finish(Err(error)),
          [call],
          [StepRecord(job.index, attempt, false)])
  }

  function AgentMissing(w: World, job: Job, attempt: nat, agentID: string): Effect {
    var error := AGENT_NOT_FOUND + agentID;
    if w.repairEngine.None? then Effect(Finish(Err(error)), [], [])
    else
      match w.repairEngine.value.Actions(FailureEvent(job.index, agentID, AgentFailure, error, None, attempt))
      case Err(repairError) => Effect(Finish(Err(REPAIR_FAILED + repairError)), [], [])
      case Ok(actions) =>
        Effect(Finish(Err(error)), [], if Aborts(actions) then [] else [StepRecord(job.index, attempt, false)])
  }

  function Attempt(w: World, job: Job, attempt: nat, agentID: string): Effect {
    if attempt > 1 && !PolicyFor(w, job.step).ShouldRetry(attempt - 1) then
      Effect(Finish(Err(MAX_ATTEMPTS_EXCEEDED)), [], [])
    else if agentID !in w.registered then
      AgentMissing(w, job, attempt, agentID)
    else
      var call := CallFor(w, job, attempt, agentID);
      match w.run(call)
      case Err(error) => AfterFailure(w, job, attempt, agentID, w.classify(error), error, None)
      case Ok(output) =>
        var verdict := if w.validate.Some? then w.validate.value(call, job.step.agentID, output) else None;
        if verdict.Some? then AfterFailure(w, job, attempt, agentID, ValidationFailure, verdict.value, output)
        else Effect(Finish(Ok(output)), [call], [StepRecord(job.index, attempt, true)])
  }

  // ----- the retry loop -----

  function AtLeastOne(limit: int): nat {
    if limit < 1 then 1 else limit
  }

  function PolicyCap(w: World, step: PlanStep): nat {
    AtLeastOne(PolicyFor(w, step).AttemptLimit())
  }

  /** The rest of the loop, from the attempt with the given number on. */
  function RunFrom(w: World, job: Job, attempt: nat, agentID: string): StepOutcome
    requires attempt >= 1
    decreases PolicyCap(w, job.step) + 1 - attempt
  {
    var e := Attempt(w, job, attempt, agentID);
    match e.turn
    case Finish(result) => StepOutcome(result, e.calls, e.records, 1)
    case Again(next) => Extend(e.calls, e.records, 1, RunFrom(w, job, attempt + 1, next))
  }

  function Extend(calls: seq<Call>, records: seq<StepRecord>, attempts: nat, rest: StepOutcome): StepOutcome {
    StepOutcome(rest.result, calls + rest.calls, records + rest.records, attempts + rest.attempts)
  }

  /** A step executed with a fresh attempt tracker. */
  function RunStep(w: World, job: Job): StepOutcome {
    RunFrom(w, job, 1, job.step.agentID)
  }

  /** After some passes, with `start` attempts counted before: what was gathered, extended by the
      rest of the loop, is the whole outcome. */
  ghost predicate SoFar(w: World, job: Job, start: nat, calls: seq<Call>, records: seq<StepRecord>, attempts: nat,
                        agentID: string) {
    RunFrom(w, job, start + 1, job.step.agentID) ==
      Extend(calls, records, attempts, RunFrom(w, job, start + attempts + 1, agentID))
  }

  lemma Unroll(w: World, job: Job, start: nat, calls: seq<Call>, records: seq<StepRecord>, attempts: nat,
               agentID: string)
    requires SoFar(w, job, start, calls, records, attempts, agentID)
    ensures var e := Attempt(w, job, start + attempts + 1, agentID);
      match e.turn
      case Finish(result) =>
        RunFrom(w, job, start + 1, job.step.agentID) ==
          StepOutcome(result, calls + e.calls, records + e.records, attempts + 1)
      case Again(next) =>
        && start + attempts + 1 <= PolicyCap(w, job.step)
        && SoFar(w, job, start, calls + e.calls, records + e.records, attempts + 1, next)
  {
    var e := Attempt(w, job, start + attempts + 1, agentID);
    if e.turn.Again? {
      var rest := RunFrom(w, job, start + attempts + 2, e.turn.agentID);
      assert calls + (e.calls + rest.calls) == calls + e.calls + rest.calls;
      assert records + (e.records + rest.records) == records + e.records + rest.records;
    }
  }

  class StepAttemptTracker {
    var attempts: map<nat, nat>

    constructor ()
      ensures attempts == map[]
    {
      attempts := map[];
    }

    function GetAttempt(stepIndex: nat): nat
      reads this
    {
      if stepIndex in attempts then attempts[stepIndex] else 0
    }

    method IncrementAttempt(stepIndex: nat) returns (n: nat)
      modifies this
      ensures n == old(GetAttempt(stepIndex)) + 1
      ensures forall i :: GetAttempt(i) == if i == stepIndex then n else old(GetAttempt(i))
    {
      n := GetAttempt(stepIndex) + 1;
      attempts := attempts[stepIndex := n];
    }
  }

  /** Copies one layer of input over another, key by key in whatever order the map yields. */
  method Overlay(base: Fields, layer: Fields) returns (merged: Fields)
    ensures merged == base + layer
  {
    merged := base;
    var rest := layer.Keys;
    while rest != {}
      invariant rest <= layer.Keys
      invariant merged == base + (map k | k in layer && k !in rest :: layer[k])
      decreases rest
    {
      var k :| k in rest;
      merged := merged[k := layer[k]];
      rest := rest - {k};
    }
    assert (map k | k in layer && k !in rest :: layer[k]) == layer;
  }

  /** Builds the effective input of an invocation and makes it. */
  method RunAgent(w: World, job: Job, attempt: nat, agentID: string)
    returns (call: Call, r: Result<Option<Fields>, string>)
    ensures call == CallFor(w, job, attempt, agentID) && r == w.run(call)
  {
    var effectiveInput := Overlay(map[], job.vars);
    effectiveInput := Overlay(effectiveInput, w.request);
    effectiveInput := Overlay(effectiveInput, job.step.input);
    assert map[] + job.vars == job.vars;
    call := Call(job.plan, job.index, attempt, agentID, effectiveInput);
    r := w.run(call);
  }

  /** Repairs after a failed invocation and says whether, and with which agent, to go on. */
  method RepairFailure(w: World, job: Job, attempt: nat, agentID: string, inputIn: Fields, kind: FailureType,
                       error: string, output: Option<Fields>)
    returns (turn: Turn, currentInput: Fields, records: seq<StepRecord>)
    ensures var e := AfterFailure(w, job, attempt, agentID, kind, error, output); turn == e.turn && records == e.records
  {
    currentInput, records := inputIn, [];
    if w.repairEngine.None? {
      return Finish(Err(error)), currentInput, records;
    }
    var event := FailureEvent(job.index, agentID, kind, error, output, attempt);
    var repaired := Repair.Repair(w.repairEngine.value, event);
    if repaired.Err? {
      return Finish(Err(REPAIR_FAILED + repaired.error)), currentInput, records;
    }
    var plan := repaired.value;
    records := [StepRecord(job.index, attempt, false)];
    var abort := plan.HasAbort();
    if abort {
      return Finish(Err(error)), currentInput, records;
    }
    ApplyKeepsRegistered(w.registered, plan.actions, inputIn, w.request, agentID);
    var retry, currentAgentID;
    retry, currentInput, currentAgentID := ApplyRepairActions(w.registered, plan, currentInput, agentID);
    turn := if retry then Again(currentAgentID) else Finish(Err(error));
  }

  /** One pass through the retry loop, after the attempt was counted. */
  method TakeAttempt(w: World, job: Job, attemptNum: nat, currentAgentID: string, inputIn: Fields)
    returns (effect: Effect, currentInput: Fields)
    ensures effect == Attempt(w, job, attemptNum, currentAgentID)
  {
    currentInput := inputIn;
    if attemptNum > 1 && !PolicyFor(w, job.step).ShouldRetry(attemptNum - 1) {
      return Effect(Finish(Err(MAX_ATTEMPTS_EXCEEDED)), [], []), currentInput;
    }
    if currentAgentID !in w.registered {
      var error := AGENT_NOT_FOUND + currentAgentID;
      if w.repairEngine.None? {
        return Effect(Finish(Err(error)), [], []), currentInput;
      }
      var event := FailureEvent(job.index, currentAgentID, AgentFailure, error, None, attemptNum);
      var repaired := Repair.Repair(w.repairEngine.value, event);
      if repaired.Err? {
        return Effect(Finish(Err(REPAIR_FAILED + repaired.error)), [], []), currentInput;
      }
      var abort := repaired.value.HasAbort();
      return Effect(Finish(Err(error)), [], if abort then [] else [StepRecord(job.index, attemptNum, false)]),
        currentInput;
    }
    var call, r := RunAgent(w, job, attemptNum, currentAgentID);
    var turn, records;
    if r.Err? {
      turn, currentInput, records :=
        RepairFailure(w, job, attemptNum, currentAgentID, currentInput, w.classify(r.error), r.error, None);
      return Effect(turn, [call], records), currentInput;
    }
    if w.validate.Some? {
      var verdict := w.validate.value(call, job.step.agentID, r.value);
      if verdict.Some? {
        turn, currentInput, records :=
          RepairFailure(w, job, attemptNum, currentAgentID, currentInput, ValidationFailure, verdict.value, r.value);
        return Effect(turn, [call], records), currentInput;
      }
    }
    effect := Effect(Finish(r), [call], [StepRecord(job.index, attemptNum, true)]);
  }

  /** The retry loop of one step. `currentInput` is tracked as in the source, where it never reaches
      the agent: the outcome is a function of the job alone. */
  method ExecuteStepWithRetry(w: World, job: Job, tracker: StepAttemptTracker) returns (outcome: StepOutcome)
    modifies tracker
    ensures outcome == RunFrom(w, job, old(tracker.GetAttempt(job.index)) + 1, job.step.agentID)
    ensures forall i ::
      tracker.GetAttempt(i) == old(tracker.GetAttempt(i)) + if i == job.index then outcome.attempts else 0
  {
    var currentInput := w.request;
    hide Attempt, RunFrom;
    var currentAgentID := job.step.agentID;
    var calls: seq<Call>, records: seq<StepRecord>, attempts := [], [], 0;
    ghost var start := tracker.GetAttempt(job.index);
    while true
      invariant forall i :: tracker.GetAttempt(i) == old(tracker.GetAttempt(i)) + if i == job.index then attempts else 0
      invariant attempts > 0 ==> start + attempts <= PolicyCap(w, job.step)
      invariant SoFar(w, job, start, calls, records, attempts, currentAgentID)
      decreases PolicyCap(w, job.step) + 1 - attempts
    {
      var attemptNum := tracker.IncrementAttempt(job.index);
      var effect;
      effect, currentInput := TakeAttempt(w, job, attemptNum, currentAgentID, currentInput);
      Unroll(w, job, start, calls, records, attempts, currentAgentID);
      calls, records, attempts := calls + effect.calls, records + effect.records, attempts + 1;
      if effect.turn.Finish? {
        return StepOutcome(effect.turn.result, calls, records, attempts);
      }
      currentAgentID := effect.turn.agentID;
    }
  }
}
