/** What a failed step leads to: what the engine tells the replanner, and what becomes of the run. Stated
    in terms of the steps' own runs and of the replanner's answer only. */
module EngineFailures {
  import opened Dag
  import opened DependencyGraph
  import opened Engine
  import opened EngineRuns
  import opened PlanGraph
  import opened Plans
  import opened Repair
  import opened StepExecution
  import opened Values
  import opened Wrappers

  /** What step i of the batch returns, started from the Vars of the loop head. */
  ghost function ResultOf(w: World, s: State, i: nat): StepResult
    requires i < |s.plan|
  {
    RunStep(w, Job(s.replans, i, s.plan[i], s.progress.vars)).result
  }

  ghost predicate Launched(s: State, i: nat) {
    i < |s.plan| && i in ReadySteps(s)
  }

  /** Step f failed with this error, and every launched step listed before it succeeded. */
  ghost predicate FirstFailing(w: World, s: State, f: nat, error: string) {
    && Launched(s, f) && ResultOf(w, s, f) == Err(error)
    && forall i: nat :: Launched(s, i) && i < f ==> ResultOf(w, s, i).Ok?
  }

  /** c is what is remembered of step i when it succeeded with a non-nil output. */
  ghost predicate CompletedNow(w: World, s: State, c: CompletedStep, i: nat) {
    && Launched(s, i) && ResultOf(w, s, i).Ok? && ResultOf(w, s, i).value.Some?
    && c == CompletedStep(i, s.plan[i].agentID, ResultOf(w, s, i).value)
  }

  ghost predicate CompletedInBatch(w: World, s: State, c: CompletedStep) {
    exists i :: CompletedNow(w, s, c, i)
  }

  /** The steps completed before, followed by those launched steps that succeeded with an output, each
      once and by increasing index. */
  ghost predicate WithBatch(w: World, s: State, after: seq<CompletedStep>) {
    var before := s.progress.completed;
    && before <= after
    && (forall c :: c in after[|before|..] <==> CompletedInBatch(w, s, c))
    && forall a, b :: |before| <= a < b < |after| ==> after[a].stepIndex < after[b].stepIndex
  }

  /** The replanner is told which step failed first, with which agent, error and failure type, on which
      plan, for the how manieth time, and everything that completed, other steps of the batch included. */
  ghost predicate Tells(o: Setup, s: State, r: ReplanContext) {
    && r.originalPlan == Some(s.plan) && r.attempt == s.replans + 1 && r.maxReplans == o.maxReplans
    && FirstFailing(o.world, s, r.failedStepIndex, r.failureError)
    && r.failedAgentID == s.plan[r.failedStepIndex].agentID
    && r.failureType == FailureTypeName(o.world.classify(r.failureError))
    && WithBatch(o.world, s, r.completedSteps)
    && r.vars == FoldOutputs(r.completedSteps)
  }

  /** What becomes of the run. Below the limit the replanner is asked; a plan with steps replaces the old
      one, anything else fails the run with the first error, what completed being kept. */
  ghost predicate Follows(o: Setup, s: State, r: ReplanContext, next: State) {
    var failed := Failed(StepFailed(r.failureError));
    if o.replanner.None? || s.replans >= o.maxReplans then next == s.(status := failed)
    else
      var progress := Progress(r.completedSteps, r.vars);
      match o.replanner.value(r)
      case None => next == s.(progress := progress, status := failed)
      case Some(plan) =>
        if plan == [] then next == s.(progress := progress, status := failed)
        else next == State(plan, {}, s.replans + 1, progress, s.finalOutput,
                           if Buildable(plan) then Running else Failed(ReplanRejected))
  }

  lemma {:induction false} AbsorbedEntries(p: Progress, plan: Plan, ready: seq<nat>, results: seq<StepResult>, k: nat)
    requires k <= |results| == |ready| && forall i :: i in ready ==> i < |plan|
    requires forall a, b :: 0 <= a < b < |ready| ==> ready[a] < ready[b]
    ensures var before, after := p.completed, AbsorbFirst(p, plan, ready, results, k, true).completed;
      && before <= after
      && (forall c :: c in after[|before|..] <==> InSlots(plan, ready, results, k, c))
      && (forall a, b :: |before| <= a < b < |after| ==> after[a].stepIndex < after[b].stepIndex)
  {
    var before, after := p.completed, AbsorbFirst(p, plan, ready, results, k, true).completed;
    if k == 0 {
      assert after[|before|..] == [];
    } else {
      AbsorbedEntries(p, plan, ready, results, k - 1);
      var shorter := AbsorbFirst(p, plan, ready, results, k - 1, true).completed;
      assert ready[k - 1] in ready;
      OneMoreEntry(plan, ready, results, k);
      if EntryFrom(plan, ready, results, k - 1) {
        var last := CompletedStep(ready[k - 1], plan[ready[k - 1]].agentID, results[k - 1].value);
        assert after == shorter + [last];
        assert after[|before|..] == shorter[|before|..] + [last];
        forall a | |before| <= a < |shorter|
          ensures shorter[a].stepIndex < ready[k - 1]
        {
          assert shorter[a] in shorter[|before|..];
          assert InSlots(plan, ready, results, k - 1, shorter[a]);
        }
      }
    }
  }

  ghost predicate EntryFrom(plan: Plan, ready: seq<nat>, results: seq<StepResult>, j: int)
    requires |results| == |ready|
  {
    0 <= j < |ready| && ready[j] < |plan| && results[j].Ok? && results[j].value.Some?
  }

  /** c comes from one of the first k slots. */
  ghost predicate InSlots(plan: Plan, ready: seq<nat>, results: seq<StepResult>, k: nat, c: CompletedStep)
    requires |results| == |ready|
  {
    exists j :: EntryFrom(plan, ready, results, j) && j < k
      && c == CompletedStep(ready[j], plan[ready[j]].agentID, results[j].value)
  }

  lemma OneMoreEntry(plan: Plan, ready: seq<nat>, results: seq<StepResult>, k: nat)
    requires 0 < k <= |results| == |ready|
    ensures forall c :: InSlots(plan, ready, results, k, c) <==>
      InSlots(plan, ready, results, k - 1, c)
      || (EntryFrom(plan, ready, results, k - 1)
          && c == CompletedStep(ready[k - 1], plan[ready[k - 1]].agentID, results[k - 1].value))
  {
  }

  /** The slots hold the launched steps' own results. */
  lemma SlotResults(w: World, s: State)
    ensures var ready, slots := ReadySteps(s), SlotsOf(w, s);
      && (forall a, b :: 0 <= a < b < |ready| ==> ready[a] < ready[b])
      && (forall k :: 0 <= k < |ready| ==> Launched(s, ready[k]) && slots[k] == ResultOf(w, s, ready[k]))
      && (forall i :: Launched(s, i) ==> exists k :: 0 <= k < |ready| && ready[k] == i)
  {
    ReadyInPlan(s);
    ReadyBelowLists(GraphOf(s.plan), s.done, |s.plan|);
    hide RunFrom, GraphOf;
  }

  lemma BatchMerged(o: Setup, s: State)
    ensures WithBatch(o.world, s, Absorbed(o, s, true).completed)
  {
    var ready, slots := ReadySteps(s), SlotsOf(o.world, s);
    var after := Absorbed(o, s, true).completed;
    ReadyInPlan(s);
    SlotResults(o.world, s);
    AbsorbedEntries(s.progress, s.plan, ready, slots, |ready|);
    hide ReadySteps, SlotsOf, ResultOf, StartsReady, AbsorbFirst, Absorbed;
    forall c
      ensures InSlots(s.plan, ready, slots, |ready|, c) <==> CompletedInBatch(o.world, s, c)
    {
      SlotsAreBatch(o.world, s, c);
    }
  }

  lemma SlotsAreBatch(w: World, s: State, c: CompletedStep)
    ensures InSlots(s.plan, ReadySteps(s), SlotsOf(w, s), |ReadySteps(s)|, c) <==> CompletedInBatch(w, s, c)
  {
    var ready, slots := ReadySteps(s), SlotsOf(w, s);
    SlotResults(w, s);
    hide ReadySteps, SlotsOf, ResultOf;
    if InSlots(s.plan, ready, slots, |ready|, c) {
      var j :| EntryFrom(s.plan, ready, slots, j) && j < |ready|
        && c == CompletedStep(ready[j], s.plan[ready[j]].agentID, slots[j].value);
      assert CompletedNow(w, s, c, ready[j]);
    }
    if i :| CompletedNow(w, s, c, i) {
      var j :| 0 <= j < |ready| && ready[j] == i;
      assert EntryFrom(s.plan, ready, slots, j);
    }
  }

  // ----- the turn -----

  lemma FirstFailureIs(w: World, s: State)
    requires exists i :: Launched(s, i) && ResultOf(w, s, i).Err?
    ensures var f := FirstFailure(SlotsOf(w, s));
      f < |SlotsOf(w, s)| && SlotsOf(w, s)[f].Err? && FirstFailing(w, s, ReadySteps(s)[f], SlotsOf(w, s)[f].error)
  {
    SlotResults(w, s);
    hide ReadySteps, SlotsOf, ResultOf;
    var i :| Launched(s, i) && ResultOf(w, s, i).Err?;
    var k :| 0 <= k < |ReadySteps(s)| && ReadySteps(s)[k] == i;
    var f := FirstFailure(SlotsOf(w, s));
    assert SlotsOf(w, s)[k].Err?;
    forall i | Launched(s, i) && i < ReadySteps(s)[f]
      ensures ResultOf(w, s, i).Ok?
    {
      var j :| 0 <= j < |ReadySteps(s)| && ReadySteps(s)[j] == i;
    }
  }

  lemma ContextTells(o: Setup, s: State, f: nat)
    requires Folded(s.progress) && f < |SlotsOf(o.world, s)| && SlotsOf(o.world, s)[f].Err?
    requires FirstFailing(o.world, s, ReadySteps(s)[f], SlotsOf(o.world, s)[f].error)
    ensures Tells(o, s, ContextFor(o, s, f, SlotsOf(o.world, s)[f].error, Absorbed(o, s, true)))
  {
    BatchMerged(o, s);
    AbsorbedFolds(o, s);
    ReadyInPlan(s);
    hide WithBatch, FirstFailing, Absorbed, SlotsOf, ReadySteps, StartsReady, FoldOutputs;
    assert ReadySteps(s)[f] in ReadySteps(s);
  }

  lemma ContextDecides(o: Setup, s: State, f: nat)
    requires !Ended(s) && f < |SlotsOf(o.world, s)| && f == FirstFailure(SlotsOf(o.world, s))
      && SlotsOf(o.world, s)[f].Err?
    ensures Follows(o, s, ContextFor(o, s, f, SlotsOf(o.world, s)[f].error, Absorbed(o, s, true)), Next(o, s))
  {
    ReadyInPlan(s);
    hide AbsorbFirst, SlotsOf, ReadySteps, StartsReady, Buildable, FirstFailure;
  }

  /** A turn in which a launched step fails, for every replanner and every limit. */
  lemma FailureTurn(o: Setup, s: State) returns (r: ReplanContext)
    requires !Ended(s) && Folded(s.progress)
    requires exists i :: Launched(s, i) && ResultOf(o.world, s, i).Err?
    ensures Tells(o, s, r) && Follows(o, s, r, Next(o, s))
  {
    hide *;
    FirstFailureIs(o.world, s);
    var f := FirstFailure(SlotsOf(o.world, s));
    ContextTells(o, s, f);
    ContextDecides(o, s, f);
    r := ContextFor(o, s, f, SlotsOf(o.world, s)[f].error, Absorbed(o, s, true));
  }

  lemma AbsorbedFolds(o: Setup, s: State)
    requires Folded(s.progress)
    ensures Folded(Absorbed(o, s, true))
  {
    ReadyInPlan(s);
    hide Folded, SlotsOf, ReadySteps;
    AbsorbFolds(s.progress, s.plan, ReadySteps(s), SlotsOf(o.world, s), |ReadySteps(s)|, true);
  }

  lemma SomeLaunchedFailed(o: Setup, s: State)
    requires KindOf(o, s).Replans? || KindOf(o, s).Fails?
    ensures !Ended(s) && exists i :: Launched(s, i) && ResultOf(o.world, s, i).Err?
  {
    TurnCases(o, s);
    SlotResults(o.world, s);
    hide ReadySteps, SlotsOf, ResultOf, Next, Absorbed, AbsorbFirst, GetsPlan;
    var f := FirstFailure(SlotsOf(o.world, s));
    assert Launched(s, ReadySteps(s)[f]) && ResultOf(o.world, s, ReadySteps(s)[f]).Err?;
  }

  /** At every loop head of every run: whenever a step fails, the replanner is told everything that
      completed, and its answer decides. */
  lemma FailureTurnOfRun(o: Setup, plan: Plan, n: nat) returns (r: ReplanContext)
    requires KindOf(o, Head(o, plan, n)).Replans? || KindOf(o, Head(o, plan, n)).Fails?
    ensures Tells(o, Head(o, plan, n), r) && Follows(o, Head(o, plan, n), r, Head(o, plan, n + 1))
  {
    VarsAreFolded(o, plan, n);
    SomeLaunchedFailed(o, Head(o, plan, n));
    hide Next, Tells, Follows, KindOf, ReadySteps, ResultOf;
    r := FailureTurn(o, Head(o, plan, n));
  }

  /** A new plan is always the replanner's answer to being told what completed, and the run goes on with
      exactly that. */
  lemma ReplannerIsTold(o: Setup, plan: Plan, n: nat) returns (r: ReplanContext)
    requires KindOf(o, Head(o, plan, n)).Replans?
    ensures var s, next := Head(o, plan, n), Head(o, plan, n + 1);
      && Tells(o, s, r) && o.replanner.Some? && o.replanner.value(r) == Some(next.plan)
      && r.completedSteps == next.progress.completed && r.vars == next.progress.vars && r.attempt == next.replans
  {
    r := FailureTurnOfRun(o, plan, n);
    TurnCases(o, Head(o, plan, n));
    hide Next, Tells, ReadySteps, ResultOf, SlotsOf, Absorbed, ContextFor;
  }
}
