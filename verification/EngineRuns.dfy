/** What holds at every loop head of every run of the engine, for all agents, validators, repair
    strategies, planners and replanners. */
module EngineRuns {
  import opened Dag
  import opened DependencyGraph
  import opened Engine
  import opened Interleaving
  import opened PlanGraph
  import opened Plans
  import opened StepExecution
  import opened StepLimits
  import opened Values
  import opened Wrappers

  // ----- one turn, case by case -----

  datatype TurnKind = Stays | Advances | Replans | Fails

  /** The progress of a turn: after a failure nil outputs and failed slots are skipped. */
  ghost function Absorbed(o: Setup, s: State, afterFailure: bool): Progress {
    var results := SlotsOf(o.world, s);
    ReadyInPlan(s);
    AbsorbFirst(s.progress, s.plan, ReadySteps(s), results, |results|, afterFailure)
  }

  /** The replanner is asked and answers with a plan. */
  ghost predicate GetsPlan(o: Setup, s: State) {
    var f := FirstFailure(SlotsOf(o.world, s));
    && f < |SlotsOf(o.world, s)| && MayReplan(o, s)
    && var error := SlotsOf(o.world, s)[f].error;
       var answer := o.replanner.value(ContextFor(o, s, f, error, Absorbed(o, s, true)));
       answer.Some? && |answer.value| > 0
  }

  ghost function KindOf(o: Setup, s: State): TurnKind {
    if Ended(s) then Stays
    else if FirstFailure(SlotsOf(o.world, s)) == |SlotsOf(o.world, s)| then Advances
    else if GetsPlan(o, s) then Replans
    else Fails
  }

  lemma TurnCases(o: Setup, s: State)
    ensures var next := Next(o, s);
      match KindOf(o, s)
      case Stays => next == s
      case Advances =>
        && !Ended(s)
        && (forall k :: 0 <= k < |SlotsOf(o.world, s)| ==> SlotsOf(o.world, s)[k].Ok?)
        && next == s.(progress := Absorbed(o, s, false), done := s.done + Elems(ReadySteps(s)),
                      finalOutput := next.finalOutput)
      case Replans =>
        && !Ended(s) && MayReplan(o, s)
        && var f := FirstFailure(SlotsOf(o.world, s));
        && f < |SlotsOf(o.world, s)|
        && o.replanner.value(ContextFor(o, s, f, SlotsOf(o.world, s)[f].error, Absorbed(o, s, true))) == Some(next.plan)
        && next.plan != []
        && next == State(next.plan, {}, s.replans + 1, Absorbed(o, s, true), s.finalOutput,
                         if Buildable(next.plan) then Running else Failed(ReplanRejected))
      case Fails =>
        && !Ended(s) && next.status.Failed? && next.plan == s.plan && next.done == s.done && next.replans == s.replans
        && (next.progress == s.progress || next.progress == Absorbed(o, s, true))
  {
    ReadyInPlan(s);
  }

  // ----- the scheduler along a run -----

  lemma TurnKeepsWorkable(o: Setup, s: State)
    requires s.status.Running? ==> Workable(s)
    ensures Next(o, s).status.Running? ==> Workable(Next(o, s))
    ensures s.replans <= AtLeastZero(o.maxReplans) ==> Next(o, s).replans <= AtLeastZero(o.maxReplans)
  {
    hide Next, Buildable, GraphOf, SlotsOf, Absorbed;
    TurnCases(o, s);
    ReadyInPlan(s);
  }

  /** Each turn keeps the state workable until the run fails: this is the scheduler invariant over
      whole runs, from which progress follows. */
  lemma {:induction false} HeadsAreWorkable(o: Setup, plan: Plan, n: nat)
    requires Buildable(plan)
    ensures Head(o, plan, n).status.Running? ==> Workable(Head(o, plan, n))
    ensures Head(o, plan, n).replans <= AtLeastZero(o.maxReplans)
  {
    hide Next, Workable;
    if n > 0 {
      HeadsAreWorkable(o, plan, n - 1);
      TurnKeepsWorkable(o, Head(o, plan, n - 1));
    } else {
      BeginWorkable(plan);
    }
  }

  lemma BeginWorkable(plan: Plan)
    requires Buildable(plan)
    ensures Workable(Begin(plan))
  {
  }

  function AtLeastZero(limit: int): nat {
    if limit < 0 then 0 else limit
  }

  /** At every loop head that has not ended, some step is ready, and no two steps of the batch
      depend on each other. */
  lemma BatchesAreProper(o: Setup, plan: Plan, n: nat)
    requires Buildable(plan) && !Ended(Head(o, plan, n))
    ensures var s := Head(o, plan, n);
      && ReadySteps(s) != []
      && forall i, j :: i in ReadySteps(s) && j in ReadySteps(s) ==> j < |s.plan| && i !in GraphOf(s.plan)[j]
  {
    HeadsAreWorkable(o, plan, n);
    BatchNeverEmpty(Head(o, plan, n));
    ReadyInPlan(Head(o, plan, n));
  }

  // ----- Vars are a fold -----

  /** The outputs of the completed steps, merged from left to right. */
  ghost function FoldOutputs(completed: seq<CompletedStep>): Fields {
    if completed == [] then map[]
    else FoldOutputs(completed[..|completed| - 1]) + FieldsOf(completed[|completed| - 1].output)
  }

  ghost predicate Writes(c: CompletedStep, key: string) {
    c.output.Some? && key in c.output.value
  }

  ghost predicate LastToWrite(completed: seq<CompletedStep>, key: string, j: int) {
    && 0 <= j < |completed| && Writes(completed[j], key)
    && forall k :: j < k < |completed| ==> !Writes(completed[k], key)
  }

  /** The value of a variable is the one the last step to write it gave it. */
  lemma {:induction false} LastOutputWins(completed: seq<CompletedStep>, key: string, j: nat)
    requires LastToWrite(completed, key, j)
    ensures key in FoldOutputs(completed) && FoldOutputs(completed)[key] == completed[j].output.value[key]
  {
    var n := |completed| - 1;
    if j < n {
      assert !Writes(completed[n], key);
      LastOutputWins(completed[..n], key, j);
    }
  }

  /** A variable that no step wrote is absent. */
  lemma {:induction false} UnwrittenIsAbsent(completed: seq<CompletedStep>, key: string)
    requires forall j :: 0 <= j < |completed| ==> !Writes(completed[j], key)
    ensures key !in FoldOutputs(completed)
  {
    if completed != [] {
      UnwrittenIsAbsent(completed[..|completed| - 1], key);
    }
  }

  ghost predicate Folded(p: Progress) {
    p.vars == FoldOutputs(p.completed)
  }

  lemma {:induction false} AbsorbFolds(p: Progress, plan: Plan, ready: seq<nat>, results: seq<StepResult>, k: nat,
                                       afterFailure: bool)
    requires k <= |results| == |ready| && (forall i :: i in ready ==> i < |plan|) && Folded(p)
    ensures Folded(AbsorbFirst(p, plan, ready, results, k, afterFailure))
  {
    if k > 0 {
      AbsorbFolds(p, plan, ready, results, k - 1, afterFailure);
      var before := AbsorbFirst(p, plan, ready, results, k - 1, afterFailure);
      assert ready[k - 1] in ready;
      var after := AbsorbFirst(p, plan, ready, results, k, afterFailure);
      if after != before {
        assert after.completed[..|after.completed| - 1] == before.completed;
      }
    }
  }

  /** At every loop head, across replans, Vars is the left-to-right merge of all completed outputs. */
  lemma {:induction false} VarsAreFolded(o: Setup, plan: Plan, n: nat)
    ensures Folded(Head(o, plan, n).progress)
  {
    hide Next, Folded;
    if n > 0 {
      VarsAreFolded(o, plan, n - 1);
      TurnFolds(o, Head(o, plan, n - 1));
    } else {
      BeginFolded(plan);
    }
  }

  lemma BeginFolded(plan: Plan)
    ensures Folded(Begin(plan).progress)
  {
  }

  lemma TurnFolds(o: Setup, s: State)
    requires Folded(s.progress)
    ensures Folded(Next(o, s).progress)
  {
    hide Next, Folded, SlotsOf;
    TurnCases(o, s);
    ReadyInPlan(s);
    var results := SlotsOf(o.world, s);
    AbsorbFolds(s.progress, s.plan, ReadySteps(s), results, |results|, true);
    AbsorbFolds(s.progress, s.plan, ReadySteps(s), results, |results|, false);
  }

  /** Every attempt of every goroutine of a batch gets the same Vars, namely the merge of all outputs
      completed before the batch, under the request input and the step's own input. */
  lemma BatchSeesOneSnapshot(o: Setup, plan: Plan, n: nat, k: nat, a: nat)
    requires k < |JobsOf(Head(o, plan, n))| && a < |RunStep(o.world, JobsOf(Head(o, plan, n))[k]).calls|
    ensures var s, job := Head(o, plan, n), JobsOf(Head(o, plan, n))[k];
      RunStep(o.world, job).calls[a].input == FoldOutputs(s.progress.completed) + o.world.request + job.step.input
  {
    VarsAreFolded(o, plan, n);
    hide Head, RunFrom;
    var job := JobsOf(Head(o, plan, n))[k];
    RunsAreWellShaped(o.world, job, 1, job.step.agentID);
  }

  // ----- interleavings -----

  /** Whatever order the goroutines of a batch were scheduled in, once all returned, the loop goes on
      to the same next state. */
  lemma InterleavingsAgree(o: Setup, s: State, schedule: seq<nat>, results: seq<StepResult>)
    requires !Ended(s) && ScheduleOf(JobsOf(s), schedule) && |results| == |JobsOf(s)|
    requires forall t :: 0 <= t < |results| ==> Play(o.world, JobsOf(s), schedule).threads[t] == Finished(results[t])
    ensures Conclude(o, s, results) == Next(o, s)
  {
    var jobs := JobsOf(s);
    ReadyInPlan(s);
    assert DistinctJobs(jobs);
    forall t | 0 <= t < |results|
      ensures results[t] == SlotsOf(o.world, s)[t]
    {
      InterleavingIndependent(o.world, jobs, schedule, t);
    }
    assert results == SlotsOf(o.world, s);
  }

  // ----- bounds -----

  ghost predicate TookTurn(o: Setup, plan: Plan, n: nat) {
    n > 0 && !Ended(Head(o, plan, n - 1))
  }

  /** All plans started so far, the current one last. */
  ghost function PlansStarted(o: Setup, plan: Plan, n: nat): (plans: seq<Plan>)
    ensures plans != []
  {
    if n == 0 then [plan]
    else if Head(o, plan, n).replans > Head(o, plan, n - 1).replans then
      PlansStarted(o, plan, n - 1) + [Head(o, plan, n).plan]
    else PlansStarted(o, plan, n - 1)
  }

  /** The invocations of the first k goroutines of a batch. */
  ghost function BatchCalls(w: World, jobs: seq<Job>, k: nat): seq<Call>
    requires k <= |jobs|
  {
    if k == 0 then [] else BatchCalls(w, jobs, k - 1) + RunStep(w, jobs[k - 1]).calls
  }

  ghost function CallsMade(o: Setup, plan: Plan, n: nat): seq<Call> {
    if n == 0 then []
    else
      var jobs := JobsOf(Head(o, plan, n - 1));
      CallsMade(o, plan, n - 1) + if TookTurn(o, plan, n) then BatchCalls(o.world, jobs, |jobs|) else []
  }

  ghost function TurnsTaken(o: Setup, plan: Plan, n: nat): nat {
    if n == 0 then 0 else TurnsTaken(o, plan, n - 1) + if TookTurn(o, plan, n) then 1 else 0
  }

  /** The attempt limits of the steps below n that are not done. */
  ghost function CapsLeft(w: World, plan: Plan, done: set<nat>, n: nat): nat
    requires n <= |plan|
  {
    if n == 0 then 0
    else CapsLeft(w, plan, done, n - 1) + if n - 1 in done then 0 else InvocationCap(w, plan[n - 1])
  }

  ghost function PlanCap(w: World, plan: Plan): nat {
    CapsLeft(w, plan, {}, |plan|)
  }

  ghost function SumCaps(w: World, plans: seq<Plan>): nat {
    if plans == [] then 0 else SumCaps(w, plans[..|plans| - 1]) + PlanCap(w, plans[|plans| - 1])
  }

  ghost function SumSteps(plans: seq<Plan>): nat {
    if plans == [] then 0 else SumSteps(plans[..|plans| - 1]) + |plans[|plans| - 1]|
  }

  lemma {:induction false} CapSpent(w: World, plan: Plan, done: set<nat>, i: nat, n: nat)
    requires n <= |plan| && i !in done && i < |plan|
    ensures CapsLeft(w, plan, done, n) ==
      CapsLeft(w, plan, done + {i}, n) + if i < n then InvocationCap(w, plan[i]) else 0
  {
    if n > 0 {
      CapSpent(w, plan, done, i, n - 1);
    }
  }

  lemma {:induction false} BatchCallsCapped(w: World, s: State, k: nat)
    requires k <= |ReadySteps(s)|
    ensures |BatchCalls(w, JobsOf(s), k)| + CapsLeft(w, s.plan, s.done + Elems(ReadySteps(s)[..k]), |s.plan|)
      <= CapsLeft(w, s.plan, s.done, |s.plan|)
  {
    var ready := ReadySteps(s);
    if k == 0 {
      assert s.done + Elems(ready[..0]) == s.done;
    } else {
      BatchCallsCapped(w, s, k - 1);
      ReadyInPlan(s);
      NextElem(ready, k - 1);
      InvocationsCapped(w, JobsOf(s)[k - 1]);
      CapSpent(w, s.plan, s.done + Elems(ready[..k - 1]), ready[k - 1], |s.plan|);
      assert s.done + Elems(ready[..k - 1]) + {ready[k - 1]} == s.done + Elems(ready[..k]);
    }
  }

  /** A turn pays for its invocations out of the limits of the steps it launches, and launches at
      least one step. */
  lemma TurnSpends(o: Setup, s: State)
    ensures Workable(s) && !Ended(s) ==>
      var jobs := JobsOf(s);
      && |BatchCalls(o.world, jobs, |jobs|)| + CapsLeft(o.world, s.plan, s.done + Elems(ReadySteps(s)), |s.plan|)
           <= CapsLeft(o.world, s.plan, s.done, |s.plan|)
      && |s.done + Elems(ReadySteps(s))| > |s.done|
  {
    if Workable(s) && !Ended(s) {
      var ready := ReadySteps(s);
      BatchCallsCapped(o.world, s, |ready|);
      assert ready[..|ready|] == ready;
      BatchNeverEmpty(s);
      ReadyInPlan(s);
      assert ready[0] in ready && ready[0] !in s.done;
      Larger(s.done, s.done + Elems(ready), ready[0]);
    }
  }

  lemma Larger(a: set<nat>, b: set<nat>, x: nat)
    requires a <= b && x in b && x !in a
    ensures |a| < |b|
  {
    assert |b| == |a| + |b - a| by {
      assert b == a + (b - a);
    }
    assert x in b - a;
  }

  /** The budget of a run after `calls` invocations and `turns` turns in the given plans. */
  ghost predicate WithinBudget(o: Setup, s: State, plans: seq<Plan>, calls: nat, turns: nat) {
    && plans != [] && plans[|plans| - 1] == s.plan
    && |plans| == s.replans + 1 <= AtLeastZero(o.maxReplans) + 1
    && calls <= SumCaps(o.world, plans)
    && turns <= SumSteps(plans)
    && (s.status.Running? ==>
          && calls + CapsLeft(o.world, s.plan, s.done, |s.plan|) <= SumCaps(o.world, plans)
          && turns + |s.plan| <= SumSteps(plans) + |s.done|)
  }

  lemma PlanStarted(w: World, plans: seq<Plan>, plan: Plan)
    ensures SumCaps(w, plans + [plan]) == SumCaps(w, plans) + PlanCap(w, plan)
    ensures SumSteps(plans + [plan]) == SumSteps(plans) + |plan|
  {
    assert (plans + [plan])[..|plans|] == plans;
  }

  /** A turn that stays in its plan, after spending `spent` invocations. */
  lemma SamePlanBudget(o: Setup, s: State, next: State, plans: seq<Plan>, calls: nat, turns: nat, spent: nat)
    requires WithinBudget(o, s, plans, calls, turns) && s.status.Running? && Workable(s)
    requires next.plan == s.plan && next.replans == s.replans && |s.done| < |s.plan|
    requires spent + CapsLeft(o.world, s.plan, s.done + Elems(ReadySteps(s)), |s.plan|)
      <= CapsLeft(o.world, s.plan, s.done, |s.plan|)
    requires next.status.Running? ==> next.done == s.done + Elems(ReadySteps(s)) && |next.done| > |s.done|
    ensures WithinBudget(o, next, plans, calls + spent, turns + 1)
  {
    hide CapsLeft, SumCaps, SumSteps, Workable, ReadySteps, Elems;
  }

  lemma NewPlanBudget(o: Setup, s: State, next: State, plans: seq<Plan>, calls: nat, turns: nat, spent: nat)
    requires WithinBudget(o, s, plans, calls, turns) && s.status.Running? && |s.done| < |s.plan|
    requires next.replans == s.replans + 1 <= AtLeastZero(o.maxReplans) && next.done == {} && next.plan != []
    requires spent <= CapsLeft(o.world, s.plan, s.done, |s.plan|)
    ensures WithinBudget(o, next, plans + [next.plan], calls + spent, turns + 1)
  {
    PlanStarted(o.world, plans, next.plan);
    hide CapsLeft, SumCaps, SumSteps;
  }

  lemma TurnWithinBudget(o: Setup, s: State, plans: seq<Plan>, calls: nat, turns: nat)
    requires WithinBudget(o, s, plans, calls, turns)
    requires s.status.Running? ==> Workable(s)
    ensures !Ended(s) ==>
      var next := Next(o, s);
      WithinBudget(o, next, if next.replans > s.replans then plans + [next.plan] else plans,
                   calls + |BatchCalls(o.world, JobsOf(s), |JobsOf(s)|)|, turns + 1)
  {
    hide Next, Workable, SlotsOf, Absorbed, JobsOf, BatchCalls, WithinBudget, CapsLeft, ReadySteps, Elems;
    if !Ended(s) {
      TurnCases(o, s);
      TurnSpends(o, s);
      var next, spent := Next(o, s), |BatchCalls(o.world, JobsOf(s), |JobsOf(s)|)|;
      if KindOf(o, s).Replans? {
        NewPlanBudget(o, s, next, plans, calls, turns, spent);
      } else {
        SamePlanBudget(o, s, next, plans, calls, turns, spent);
      }
    }
  }

  lemma Fits(a: set<nat>, b: set<nat>)
    requires forall i :: i in a ==> i in b
    ensures |a| <= |b|
  {
    assert b == a + (b - a);
  }

  /** Over a whole run, agents are invoked at most as often as the attempt limits of the started
      plans allow in total, at most max(0, maxReplans) + 1 plans are started, and no more turns are
      taken than those plans have steps. */
  lemma {:induction false} RunIsBounded(o: Setup, plan: Plan, n: nat)
    requires Buildable(plan)
    ensures WithinBudget(o, Head(o, plan, n), PlansStarted(o, plan, n), |CallsMade(o, plan, n)|, TurnsTaken(o, plan, n))
  {
    hide Next, Workable;
    if n > 0 {
      RunIsBounded(o, plan, n - 1);
      HeadsAreWorkable(o, plan, n - 1);
      hide WithinBudget;
      TurnWithinBudget(o, Head(o, plan, n - 1), PlansStarted(o, plan, n - 1), |CallsMade(o, plan, n - 1)|,
        TurnsTaken(o, plan, n - 1));
      EndedStays(o, Head(o, plan, n - 1));
    } else {
      BeginBudget(o, plan);
    }
  }

  lemma EndedStays(o: Setup, s: State)
    ensures Ended(s) ==> Next(o, s) == s
  {
  }

  lemma BeginBudget(o: Setup, plan: Plan)
    ensures WithinBudget(o, Begin(plan), [plan], 0, 0)
  {
    assert [plan][..0] == [];
    assert SumCaps(o.world, [plan]) == SumCaps(o.world, []) + PlanCap(o.world, plan);
    assert SumSteps([plan]) == SumSteps([]) + |plan|;
  }
}
