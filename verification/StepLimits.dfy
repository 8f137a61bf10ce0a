/** How often a step invokes agents, under the two caps and under the advanced strategy. */
module StepLimits {
  import opened Plans
  import opened Repair
  import opened StepExecution
  import opened Values
  import opened Wrappers

  function Min(a: nat, b: nat): nat {
    if a <= b then a else b
  }

  /** The most invocations a step can make: one without a repair engine, otherwise the smaller of
      the policy limit and the repair engine limit, both at least one. */
  function InvocationCap(w: World, step: PlanStep): nat {
    if w.repairEngine.None? then 1
    else Min(PolicyCap(w, step), AtLeastOne(w.repairEngine.value.maxAttempts))
  }

  /** A pass that ends in a retry, explained: the failure it met and the actions that repaired it. */
  ghost predicate Repaired(w: World, job: Job, attempt: nat, agentID: string, f: FailureEvent,
                           actions: seq<RepairAction>) {
    && f.attempt == attempt && f.agentID == agentID
    && w.repairEngine.Some? && w.repairEngine.value.Actions(f) == Ok(actions) && !Aborts(actions)
    && var applied := ApplyActions(w.registered, actions, w.request, agentID);
       applied.retry && Attempt(w, job, attempt, agentID).turn == Again(applied.agentID)
  }

  lemma AgainIsRepaired(w: World, job: Job, attempt: nat, agentID: string)
    returns (f: FailureEvent, actions: seq<RepairAction>)
    requires Attempt(w, job, attempt, agentID).turn.Again?
    ensures Repaired(w, job, attempt, agentID, f, actions)
  {
    var call := CallFor(w, job, attempt, agentID);
    match w.run(call) {
      case Err(error) =>
        f := FailureEvent(job.index, agentID, w.classify(error), error, None, attempt);
      case Ok(output) =>
        var verdict := w.validate.value(call, job.step.agentID, output);
        f := FailureEvent(job.index, agentID, ValidationFailure, verdict.value, output, attempt);
    }
    actions := w.repairEngine.value.Actions(f).value;
  }

  lemma SingleAborts(a: RepairAction)
    ensures Aborts([a]) <==> a.actionType.Abort?
  {
    assert [a][0] == a;
  }

  /** Going on is only possible below both caps, after one invocation of a registered agent and one
      failed record, and with a registered agent: from the second attempt on, the agent lookup
      cannot fail. */
  lemma AgainMeans(w: World, job: Job, attempt: nat, agentID: string)
    requires attempt >= 1
    ensures var e := Attempt(w, job, attempt, agentID);
      e.turn.Again? ==>
        && w.repairEngine.Some? && attempt < w.repairEngine.value.maxAttempts
        && attempt <= PolicyCap(w, job.step)
        && agentID in w.registered && e.turn.agentID in w.registered
        && e.calls == [CallFor(w, job, attempt, agentID)]
        && e.records == [StepRecord(job.index, attempt, false)]
  {
    var e := Attempt(w, job, attempt, agentID);
    if e.turn.Again? {
      var f, actions := AgainIsRepaired(w, job, attempt, agentID);
      ApplyKeepsRegistered(w.registered, actions, w.request, w.request, agentID);
      SingleAborts(Act(Abort));
    }
  }

  /** The two caps compose. From any attempt on, what is left of both caps bounds the invocations. */
  lemma {:induction false} CapsCompose(w: World, job: Job, attempt: nat, agentID: string)
    requires attempt >= 1
    ensures var n := |RunFrom(w, job, attempt, agentID).calls|;
      && (n + attempt <= PolicyCap(w, job.step) + 1 || n == 0)
      && (w.repairEngine.None? ==> n <= 1)
      && (w.repairEngine.Some? ==> n <= 1 || n + attempt <= w.repairEngine.value.maxAttempts + 1)
    decreases PolicyCap(w, job.step) + 1 - attempt
  {
    hide Attempt;
    AgainMeans(w, job, attempt, agentID);
    FinishMeans(w, job, attempt, agentID);
    var e := Attempt(w, job, attempt, agentID);
    if e.turn.Again? {
      CapsCompose(w, job, attempt + 1, e.turn.agentID);
    }
  }

  lemma FinishMeans(w: World, job: Job, attempt: nat, agentID: string)
    requires attempt >= 1
    ensures var e := Attempt(w, job, attempt, agentID);
      && |e.calls| <= 1
      && (|e.calls| == 1 ==>
           attempt <= PolicyCap(w, job.step) && e.calls[0] == CallFor(w, job, attempt, agentID)
             && agentID in w.registered)
      && |e.records| <= 1 && (forall r :: r in e.records ==> r.step == job.index && r.attempt == attempt)
      && (e.turn.Finish? ==> (e.turn.result.Ok? <==> e.records == [StepRecord(job.index, attempt, true)]))
      && (e.turn.Finish? && e.calls == [] && agentID in w.registered ==> e.turn.result == Err(MAX_ATTEMPTS_EXCEEDED))
  {
  }

  /** A step invokes agents at most InvocationCap times. */
  lemma InvocationsCapped(w: World, job: Job)
    ensures |RunStep(w, job).calls| <= InvocationCap(w, job.step)
  {
    CapsCompose(w, job, 1, job.step.agentID);
  }

  /** What the calls and records of a step look like: attempts numbered without gaps, every call
      made with the one effective input of the batch, failed records first, and a succeeded record
      exactly at the end of a step that succeeds. */
  ghost predicate WellShaped(w: World, job: Job, attempt: nat, outcome: StepOutcome) {
    && (forall k :: 0 <= k < |outcome.calls| ==>
          && outcome.calls[k] == CallFor(w, job, attempt + k, outcome.calls[k].agentID)
          && outcome.calls[k].agentID in w.registered)
    && (forall k :: 0 <= k < |outcome.records| ==>
          && outcome.records[k].step == job.index && outcome.records[k].attempt == attempt + k
          && (outcome.records[k].succeeded <==> k == |outcome.records| - 1 && outcome.result.Ok?))
    && (outcome.result.Ok? ==> outcome.records != [])
    && |outcome.calls| <= outcome.attempts <= |outcome.calls| + 1
  }

  lemma {:induction false} RunsAreWellShaped(w: World, job: Job, attempt: nat, agentID: string)
    requires attempt >= 1
    ensures WellShaped(w, job, attempt, RunFrom(w, job, attempt, agentID))
    decreases PolicyCap(w, job.step) + 1 - attempt
  {
    hide Attempt;
    AgainMeans(w, job, attempt, agentID);
    FinishMeans(w, job, attempt, agentID);
    var e := Attempt(w, job, attempt, agentID);
    if e.turn.Again? {
      RunsAreWellShaped(w, job, attempt + 1, e.turn.agentID);
    }
  }

  /** Once the first lookup succeeded, every pass either invokes an agent or gives up because the
      policy limit is reached: no later lookup fails. */
  lemma {:induction false} LookupFailsOnlyFirst(w: World, job: Job, attempt: nat, agentID: string)
    requires attempt >= 1 && agentID in w.registered
    ensures var o := RunFrom(w, job, attempt, agentID);
      |o.calls| == o.attempts || (|o.calls| + 1 == o.attempts && o.result == Err(MAX_ATTEMPTS_EXCEEDED))
    decreases PolicyCap(w, job.step) + 1 - attempt
  {
    hide Attempt;
    AgainMeans(w, job, attempt, agentID);
    FinishMeans(w, job, attempt, agentID);
    var e := Attempt(w, job, attempt, agentID);
    if e.turn.Again? {
      LookupFailsOnlyFirst(w, job, attempt + 1, e.turn.agentID);
    }
  }

  // ----- what a result means -----

  /** An invocation that returned this output, with which the validator found no fault. */
  predicate Accepted(w: World, job: Job, call: Call, output: Option<Fields>) {
    && w.run(call) == Ok(output)
    && (w.validate.Some? ==> w.validate.value(call, job.step.agentID, output).None?)
  }

  lemma AttemptAccepts(w: World, job: Job, attempt: nat, agentID: string)
    requires attempt >= 1
    ensures var e := Attempt(w, job, attempt, agentID);
      forall output :: e.turn == Finish(Ok(output)) <==> e.calls != [] && Accepted(w, job, e.calls[0], output)
  {
  }

  /** The outputs with which the run succeeded, if any, are those that its last invocation returned and
      the validator accepted; every earlier invocation failed or was rejected. */
  ghost predicate LastAccepted(w: World, job: Job, o: StepOutcome) {
    && (forall k, output :: 0 <= k < |o.calls| - 1 ==> !Accepted(w, job, o.calls[k], output))
    && (forall output :: o.result == Ok(output) <==> o.calls != [] && Accepted(w, job, o.calls[|o.calls| - 1], output))
  }

  lemma EarlierRejected(w: World, job: Job, call: Call, records: seq<StepRecord>, rest: StepOutcome)
    requires LastAccepted(w, job, rest) && forall output :: !Accepted(w, job, call, output)
    ensures LastAccepted(w, job, Extend([call], records, 1, rest))
  {
    hide Accepted;
    var o := Extend([call], records, 1, rest);
    assert forall k :: 0 < k < |o.calls| ==> o.calls[k] == rest.calls[k - 1];
    assert rest.calls == [] ==> o.calls[|o.calls| - 1] == call;
  }

  /** A step succeeds exactly when its last invocation is accepted, and only the last one can be. */
  lemma {:induction false} SuccessIsAccepted(w: World, job: Job, attempt: nat, agentID: string)
    requires attempt >= 1
    ensures LastAccepted(w, job, RunFrom(w, job, attempt, agentID))
    decreases PolicyCap(w, job.step) + 1 - attempt
  {
    AgainMeans(w, job, attempt, agentID);
    FinishMeans(w, job, attempt, agentID);
    AttemptAccepts(w, job, attempt, agentID);
    hide Attempt, Accepted;
    var e := Attempt(w, job, attempt, agentID);
    if e.turn.Again? {
      SuccessIsAccepted(w, job, attempt + 1, e.turn.agentID);
      var call := CallFor(w, job, attempt, agentID);
      assert e.calls[0] == call;
      hide LastAccepted, CallFor;
      EarlierRejected(w, job, call, e.records, RunFrom(w, job, attempt + 1, e.turn.agentID));
    }
  }

  // ----- the replacement chain of the advanced strategy -----

  /** id with ".alternative" appended n times. */
  function Alternative(id: string, n: nat): string {
    if n == 0 then id else Alternative(id, n - 1) + ALTERNATIVE
  }

  ghost predicate UsesAdvanced(w: World) {
    w.repairEngine.Some? && w.repairEngine.value.strategy.Advanced?
  }

  /** Under the advanced strategy the first two retries keep the agent, and every later one moves to
      the registered agent whose ID is longer by one suffix. */
  lemma AdvancedRetry(w: World, job: Job, attempt: nat, agentID: string)
    requires UsesAdvanced(w) && attempt >= 1 && Attempt(w, job, attempt, agentID).turn.Again?
    ensures var next := Attempt(w, job, attempt, agentID).turn.agentID;
      if attempt <= 2 then next == agentID else next == agentID + ALTERNATIVE && next in w.registered
  {
    var f, actions := AgainIsRepaired(w, job, attempt, agentID);
    hide Attempt;
    SingleAborts(Act(Abort));
    SingleAborts(actions[0]);
    assert actions == [actions[0]];
    ApplySingle(w.registered, actions[0], w.request, agentID);
  }

  lemma ApplySingle(registered: set<string>, a: RepairAction, input: Fields, agentID: string)
    ensures var applied := ApplyActions(registered, [a], input, agentID);
      && (applied.retry <==>
            || a.actionType in {RetryStep, ModifyInput}
            || (a.actionType.ReplaceStep? && a.agentID !in {"", agentID} && a.agentID in registered))
      && (applied.retry ==> applied.agentID == if a.actionType.ReplaceStep? then a.agentID else agentID)
  {
    assert [a][1..] == [];
  }

  /** Exactly when the advanced strategy retries. Validation and agent failures are retried once; the
      replacement planned for a second agent failure names no agent and is never carried out. Tool
      failures are retried twice, then as long as the next alternative is registered. */
  lemma AdvancedRetriesExactly(w: World, job: Job, attempt: nat, agentID: string, kind: FailureType, error: string,
                               output: Option<Fields>)
    requires UsesAdvanced(w) && attempt >= 1
    ensures AfterFailure(w, job, attempt, agentID, kind, error, output).turn.Again? <==>
      && attempt < w.repairEngine.value.maxAttempts
      && match kind
         case ValidationFailure => attempt == 1
         case AgentFailure => attempt == 1
         case ToolFailure =>
           attempt <= 2
             || (w.repairEngine.value.strategy.enableStepReplacement && agentID + ALTERNATIVE in w.registered)
         case UnknownFailure => false
  {
    var f := FailureEvent(job.index, agentID, kind, error, output, attempt);
    var actions := w.repairEngine.value.Actions(f).value;
    assert actions == [actions[0]];
    SingleAborts(actions[0]);
    ApplySingle(w.registered, actions[0], w.request, agentID);
    hide ApplyActions, Aborts;
    assert |agentID + ALTERNATIVE| > |agentID|;
  }

  /** However large both caps are, a step makes at most 3 + m invocations, where m counts the
      registered IDs reached by appending ".alternative" again and again. */
  lemma {:induction false} ReplacementChainEnds(w: World, job: Job, attempt: nat, agentID: string, m: nat)
    requires UsesAdvanced(w) && attempt >= 1
    requires Alternative(job.step.agentID, m + 1) !in w.registered
    requires agentID == Alternative(job.step.agentID, if attempt <= 3 then 0 else attempt - 3)
    requires attempt <= 3 + m
    ensures |RunFrom(w, job, attempt, agentID).calls| + attempt <= 4 + m
    decreases 3 + m - attempt
  {
    var e := Attempt(w, job, attempt, agentID);
    FinishMeans(w, job, attempt, agentID);
    if e.turn.Again? {
      AdvancedRetry(w, job, attempt, agentID);
      hide Attempt;
      ReplacementChainEnds(w, job, attempt + 1, e.turn.agentID, m);
    }
  }

  /** Such an m exists, and is at most the number of registered agents. */
  lemma {:induction false} ChainLength(registered: set<string>, id: string, from: nat) returns (m: nat)
    ensures m >= from && Alternative(id, m + 1) !in registered
    ensures m <= from + |registered|
    ensures forall k :: from < k <= m ==> Alternative(id, k) in registered
    decreases registered
  {
    if Alternative(id, from + 1) !in registered {
      m := from;
    } else {
      var others := registered - {Alternative(id, from + 1)};
      m := ChainLength(others, id, from + 1);
      AlternativeLength(id, from + 1);
      AlternativeLength(id, m + 1);
    }
  }

  lemma {:induction false} AlternativeLength(id: string, n: nat)
    ensures |Alternative(id, n)| == |id| + 12 * n
  {
    if n > 0 {
      AlternativeLength(id, n - 1);
    }
  }

  /** Under the advanced strategy every step ends by itself, without relying on either cap. */
  lemma AdvancedStepsEnd(w: World, job: Job) returns (m: nat)
    requires UsesAdvanced(w)
    ensures m <= |w.registered|
    ensures Alternative(job.step.agentID, m + 1) !in w.registered
    ensures forall k :: 0 < k <= m ==> Alternative(job.step.agentID, k) in w.registered
    ensures |RunStep(w, job).calls| <= 3 + m
  {
    m := ChainLength(w.registered, job.step.agentID, 0);
    ReplacementChainEnds(w, job, 1, job.step.agentID, m);
  }
}
