/** Exactly how many attempts a step makes, from below as well as from above. */
module StepCounts {
  import opened Plans
  import opened Repair
  import opened StepExecution
  import opened StepLimits
  import opened Values
  import opened Wrappers

  /** The step's own limit if it sets one, else the engine's; zero stands for three. */
  function PolicyLimit(w: World, step: PlanStep): int {
    var own := if step.retryPolicy.Some? then step.retryPolicy.value.maxAttempts else 0;
    var chosen := if own != 0 then own else w.policy.maxAttempts;
    if chosen == 0 then 3 else chosen
  }

  /** The invocation the step makes at an attempt while it keeps its agent. */
  function OwnCall(w: World, job: Job, attempt: nat): Call {
    Call(job.plan, job.index, attempt, job.step.agentID, job.vars + w.request + job.step.input)
  }

  function OwnCalls(w: World, job: Job, from: nat, to: nat): (calls: seq<Call>)
    requires from <= to
    ensures |calls| == to - from
  {
    seq(to - from, (k: nat) => OwnCall(w, job, from + k))
  }

  /** Whatever the repair engine and its strategy are: an attempt is made exactly if it is the first or
      within the policy limit, and the agent is registered. */
  lemma GateExactly(w: World, job: Job, attempt: nat, agentID: string)
    requires attempt >= 1
    ensures |Attempt(w, job, attempt, agentID).calls| ==
      if agentID in w.registered && (attempt == 1 || attempt <= PolicyLimit(w, job.step)) then 1 else 0
  {
  }

  ghost predicate UsesSimple(w: World) {
    w.repairEngine.Some? && w.repairEngine.value.strategy.SimpleRetry?
  }

  /** The agent failed in a way the simple strategy retries. */
  ghost predicate FailsRetryably(w: World, job: Job, attempt: nat) {
    var answer := w.run(OwnCall(w, job, attempt));
    answer.Err? && (w.classify(answer.error).ToolFailure? || w.classify(answer.error).AgentFailure?)
  }

  /** min(max(1, P), max(1, R)) for the policy limit P and the repair limit R. */
  function Cap(w: World, job: Job): nat
    requires w.repairEngine.Some?
  {
    var p, r := PolicyLimit(w, job.step), w.repairEngine.value.maxAttempts;
    if p <= 1 || r <= 1 then 1 else if p <= r then p else r
  }

  lemma SingleRetry(w: World, agentID: string)
    ensures !Aborts([Act(RetryStep)])
    ensures ApplyActions(w.registered, [Act(RetryStep)], w.request, agentID) == Applied(true, w.request, agentID)
  {
    SingleAborts(Act(RetryStep));
  }

  /** One retryable failure below the cap is followed by another attempt. */
  lemma RetriesBelowCap(w: World, job: Job, attempt: nat)
    requires UsesSimple(w) && job.step.agentID in w.registered
    requires 1 <= attempt < Cap(w, job) && FailsRetryably(w, job, attempt)
    ensures var e := Attempt(w, job, attempt, job.step.agentID);
      e.turn == Again(job.step.agentID) && e.calls == [OwnCall(w, job, attempt)]
  {
    SingleRetry(w, job.step.agentID);
    hide ApplyActions, Aborts;
  }

  /** At the cap a retryable failure is the last invocation. */
  lemma EndsAtCap(w: World, job: Job)
    requires UsesSimple(w) && job.step.agentID in w.registered && FailsRetryably(w, job, Cap(w, job))
    ensures var o, call := RunFrom(w, job, Cap(w, job), job.step.agentID), OwnCall(w, job, Cap(w, job));
      && o.calls == [call] && w.run(call).Err?
      && o.result == if Cap(w, job) < w.repairEngine.value.maxAttempts then Err(MAX_ATTEMPTS_EXCEEDED) else w.run(call)
  {
    SingleRetry(w, job.step.agentID);
    SingleAborts(Act(Abort));
    hide ApplyActions, Aborts;
    var cap := Cap(w, job);
    var e := Attempt(w, job, cap, job.step.agentID);
    assert e.calls == [OwnCall(w, job, cap)];
    if e.turn.Again? {
      var more := Attempt(w, job, cap + 1, e.turn.agentID);
      assert more.calls == [] && more.turn == Finish(Err(MAX_ATTEMPTS_EXCEEDED));
    }
  }

  /** Up to the cap, every retryable failure uses up one attempt and nothing more. */
  lemma {:induction false} RunsOn(w: World, job: Job, attempt: nat, last: nat)
    requires UsesSimple(w) && job.step.agentID in w.registered
    requires 1 <= attempt <= last <= Cap(w, job)
    requires forall k :: attempt <= k < last ==> FailsRetryably(w, job, k)
    ensures var agentID := job.step.agentID;
      var o, rest := RunFrom(w, job, attempt, agentID), RunFrom(w, job, last, agentID);
      o.result == rest.result && o.calls == OwnCalls(w, job, attempt, last) + rest.calls
    decreases last - attempt
  {
    hide Attempt, Cap, FailsRetryably;
    if attempt < last {
      RetriesBelowCap(w, job, attempt);
      RunsOn(w, job, attempt + 1, last);
      assert OwnCalls(w, job, attempt, last) == [OwnCall(w, job, attempt)] + OwnCalls(w, job, attempt + 1, last);
    } else {
      var calls := RunFrom(w, job, last, job.step.agentID).calls;
      assert OwnCalls(w, job, attempt, last) == [];
    }
  }

  /** Exactly how a step ends whose agent fails retryably in all attempts before `last`, for every `last`
      up to the cap. If then the agent answers, the answer decides: accepted it is the result, rejected the
      validator's error is. If it fails with an error that is not retryable, that error is the result. In
      every case the step makes exactly `last` invocations. */
  lemma SimpleStepExactly(w: World, job: Job, last: nat)
    requires UsesSimple(w) && job.step.agentID in w.registered
    requires 1 <= last <= Cap(w, job) && forall k :: 1 <= k < last ==> FailsRetryably(w, job, k)
    requires !FailsRetryably(w, job, last)
    ensures var o, call := RunStep(w, job), OwnCall(w, job, last);
      && o.calls == OwnCalls(w, job, 1, last + 1)
      && match w.run(call)
         case Err(error) => o.result == Err(error)
         case Ok(output) =>
           if w.validate.None? then o.result == Ok(output)
           else match w.validate.value(call, job.step.agentID, output)
             case None => o.result == Ok(output)
             case Some(fault) => o.result == Err(fault)
  {
    RunsOn(w, job, 1, last);
    LastAttempt(w, job, last);
    hide Attempt, RunFrom;
    assert OwnCalls(w, job, 1, last + 1) == OwnCalls(w, job, 1, last) + [OwnCall(w, job, last)];
  }

  lemma LastAttempt(w: World, job: Job, last: nat)
    requires UsesSimple(w) && job.step.agentID in w.registered
    requires 1 <= last <= Cap(w, job) && !FailsRetryably(w, job, last)
    ensures var o, call := RunFrom(w, job, last, job.step.agentID), OwnCall(w, job, last);
      && o.calls == [call]
      && match w.run(call)
         case Err(error) => o.result == Err(error)
         case Ok(output) =>
           if w.validate.None? then o.result == Ok(output)
           else match w.validate.value(call, job.step.agentID, output)
             case None => o.result == Ok(output)
             case Some(fault) => o.result == Err(fault)
  {
    SingleAborts(Act(Abort));
    SingleAborts(Act(Replan));
    ApplySingle(w.registered, Act(Abort), w.request, job.step.agentID);
    ApplySingle(w.registered, Act(Replan), w.request, job.step.agentID);
    hide ApplyActions, Aborts;
    var e := Attempt(w, job, last, job.step.agentID);
    assert e.turn.Finish?;
  }

  /** And if every attempt fails retryably, the step makes exactly min(max(1, P), max(1, R)) invocations.
      It reports that attempts are exceeded when the policy limit stopped it, and the last error when the
      repair limit did. */
  lemma SimpleStepExhausts(w: World, job: Job)
    requires UsesSimple(w) && job.step.agentID in w.registered
    requires forall k :: 1 <= k <= Cap(w, job) ==> FailsRetryably(w, job, k)
    ensures var o, cap := RunStep(w, job), Cap(w, job);
      && o.calls == OwnCalls(w, job, 1, cap + 1) && |o.calls| == cap
      && o.result == if cap < w.repairEngine.value.maxAttempts then Err(MAX_ATTEMPTS_EXCEEDED)
                     else w.run(OwnCall(w, job, cap))
  {
    var cap := Cap(w, job);
    RunsOn(w, job, 1, cap);
    assert FailsRetryably(w, job, cap);
    EndsAtCap(w, job);
    hide Attempt, RunFrom, FailsRetryably;
    assert OwnCalls(w, job, 1, cap + 1) == OwnCalls(w, job, 1, cap) + [OwnCall(w, job, cap)];
  }

  /** Together the two lemmas cover every run of a registered step: either some attempt up to the cap does
      not fail retryably, and the first such attempt decides, or all do. */
  lemma {:induction false} FirstOther(w: World, job: Job, cap: nat) returns (last: nat)
    ensures 1 <= last <= cap + 1 && forall k :: 1 <= k < last ==> FailsRetryably(w, job, k)
    ensures last <= cap ==> !FailsRetryably(w, job, last)
  {
    hide FailsRetryably;
    last := 1;
    if cap > 0 {
      last := FirstOther(w, job, cap - 1);
      if last == cap && FailsRetryably(w, job, last) {
        last := cap + 1;
      }
    }
  }

  // ----- any strategy -----

  /** An action that sends the step into another attempt. */
  predicate Resumes(registered: set<string>, agentID: string, a: RepairAction) {
    || a.actionType.RetryStep? || a.actionType.ModifyInput?
    || (a.actionType.ReplaceStep? && a.agentID in registered && a.agentID != "" && a.agentID != agentID)
  }

  /** An action the executor passes over. */
  predicate PassedOver(registered: set<string>, agentID: string, a: RepairAction) {
    || a.actionType.InsertStep? || a.actionType.SkipStep?
    || (a.actionType.ReplaceStep? && !Resumes(registered, agentID, a))
  }

  ghost predicate ResumesAt(registered: set<string>, agentID: string, actions: seq<RepairAction>, k: int) {
    && 0 <= k < |actions| && Resumes(registered, agentID, actions[k])
    && forall j :: 0 <= j < k ==> PassedOver(registered, agentID, actions[j])
  }

  /** Exactly which repair plans lead to another attempt, and with which agent: the first action that is
      not passed over decides. */
  lemma {:induction false} AppliesExactly(registered: set<string>, actions: seq<RepairAction>, input: Fields,
                                          agentID: string)
    ensures var applied := ApplyActions(registered, actions, input, agentID);
      && (applied.retry <==> exists k :: ResumesAt(registered, agentID, actions, k))
      && forall k :: ResumesAt(registered, agentID, actions, k) ==>
           applied.agentID == if actions[k].actionType.ReplaceStep? then actions[k].agentID else agentID
  {
    if actions != [] {
      AppliesExactly(registered, actions[1..], input, agentID);
      if PassedOver(registered, agentID, actions[0]) {
        forall k: int
          ensures ResumesAt(registered, agentID, actions[1..], k) <==> ResumesAt(registered, agentID, actions, k + 1)
        {
          assert forall j :: 0 < j < |actions| ==> actions[1..][j - 1] == actions[j];
        }
        assert forall k :: ResumesAt(registered, agentID, actions, k) ==>
          ResumesAt(registered, agentID, actions[1..], k - 1);
      } else if Resumes(registered, agentID, actions[0]) {
        assert ResumesAt(registered, agentID, actions, 0);
      }
    }
  }

  /** What the repair engine is told of an invocation that failed or was rejected. */
  ghost predicate FailureOf(w: World, job: Job, attempt: nat, agentID: string, f: FailureEvent) {
    && f.stepIndex == job.index && f.agentID == agentID && f.attempt == attempt
    && var call := Call(job.plan, job.index, attempt, agentID, job.vars + w.request + job.step.input);
       match w.run(call)
       case Err(error) => f.failureType == w.classify(error) && f.error == error && f.output == None
       case Ok(output) =>
         && w.validate.Some? && w.validate.value(call, job.step.agentID, output) == Some(f.error)
         && f.failureType == ValidationFailure && f.output == output
  }

  /** Whatever the strategy: a failed or rejected invocation is repaired by its answer to that failure, and
      only by it. A record is written exactly if there is an answer. */
  lemma RepairDecides(w: World, job: Job, attempt: nat, agentID: string, f: FailureEvent)
    requires w.repairEngine.Some? && agentID in w.registered
    requires attempt == 1 || 1 < attempt <= PolicyLimit(w, job.step)
    requires FailureOf(w, job, attempt, agentID, f)
    ensures var e, answer := Attempt(w, job, attempt, agentID), w.repairEngine.value.Actions(f);
      match answer
      case Err(error) => e.turn == Finish(Err(REPAIR_FAILED + error)) && e.records == []
      case Ok(actions) =>
        && e.records == [StepRecord(job.index, attempt, false)]
        && (e.turn.Finish? ==> e.turn.result == Err(f.error))
        && (e.turn.Again? <==>
              && (forall a :: a in actions ==> !a.actionType.Abort?)
              && exists k :: ResumesAt(w.registered, agentID, actions, k))
        && (forall k :: e.turn.Again? && ResumesAt(w.registered, agentID, actions, k) ==>
              e.turn.agentID == if actions[k].actionType.ReplaceStep? then actions[k].agentID else agentID)
  {
    var answer := w.repairEngine.value.Actions(f);
    FailureIsTold(w, job, attempt, agentID, f);
    if answer.Ok? {
      AppliesExactly(w.registered, answer.value, w.request, agentID);
      hide ApplyActions, Attempt;
      assert Aborts(answer.value) <==> exists a :: a in answer.value && a.actionType.Abort?;
    }
  }

  lemma FailureIsTold(w: World, job: Job, attempt: nat, agentID: string, f: FailureEvent)
    requires w.repairEngine.Some? && agentID in w.registered
    requires attempt == 1 || 1 < attempt <= PolicyLimit(w, job.step)
    requires FailureOf(w, job, attempt, agentID, f)
    ensures Attempt(w, job, attempt, agentID) ==
      AfterFailure(w, job, attempt, agentID, f.failureType, f.error, f.output)
    ensures f == FailureEvent(job.index, agentID, f.failureType, f.error, f.output, attempt)
  {
    hide AfterFailure;
  }
}
