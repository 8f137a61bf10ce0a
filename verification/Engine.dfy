/** The engine loop (orchestrator/engine.go, Execute): batches of ready steps, merged outputs, and
    replacement of plan and scheduler after a failure. The loop is stated twice: as a transition
    function over values, and as the method that works on the scheduler and tracker objects. */
module Engine {
  import opened Dag
  import opened DependencyGraph
  import opened PlanGraph
  import opened Plans
  import opened Repair
  import opened StepExecution
  import opened Values
  import opened Wrappers

  /** How a run is set up. A replanner answers None when it fails or returns a nil plan. */
  datatype Setup = Setup(
    world: World,
    planner: string -> Result<Plan, string>,
    replanner: Option<ReplanContext -> Option<Plan>>,
    maxReplans: int)

  datatype RunError =
    | NoTaskID
    | PlannerFailed(error: string)
    | PlanRejected(dagError: DagError)
    | ReplanRejected
    | StepFailed(error: string)

  type ExecutionResult = Result<Option<Fields>, RunError>

  // ----- merging outputs -----

  datatype Progress = Progress(completed: seq<CompletedStep>, vars: Fields)

  function FieldsOf(output: Option<Fields>): Fields {
    if output.Some? then output.value else map[]
  }

  function Absorb(p: Progress, index: nat, agentID: string, output: Option<Fields>): Progress {
    Progress(p.completed + [CompletedStep(index, agentID, output)], p.vars + FieldsOf(output))
  }

  type StepResult = Result<Option<Fields>, string>

  /** Merging the first k result slots. After a failure, failed slots and nil outputs are skipped. */
  function AbsorbFirst(p: Progress, plan: Plan, ready: seq<nat>, results: seq<StepResult>, k: nat,
                       afterFailure: bool): Progress
    requires k <= |results| == |ready|
    requires forall i :: i in ready ==> i < |plan|
  {
    if k == 0 then p
    else
      var before := AbsorbFirst(p, plan, ready, results, k - 1, afterFailure);
      var r := results[k - 1];
      assert ready[k - 1] in ready;
      if r.Err? || (afterFailure && r.value.None?) then before
      else Absorb(before, ready[k - 1], plan[ready[k - 1]].agentID, r.value)
  }

  function FirstFailure(results: seq<StepResult>): (f: nat)
    ensures f <= |results|
    ensures f < |results| ==> results[f].Err?
    ensures forall k :: 0 <= k < f ==> results[k].Ok?
  {
    if results == [] then 0
    else if results[0].Err? then 0
    else 1 + FirstFailure(results[1..])
  }

  // ----- the transition function -----

  datatype Status = Running | Failed(error: RunError)

  /** The engine at a loop head. `done` is what the scheduler has marked. */
  datatype State = State(
    plan: Plan, done: set<nat>, replans: nat, progress: Progress, finalOutput: Option<Fields>, status: Status)

  ghost function Begin(plan: Plan): State {
    State(plan, {}, 0, Progress([], map[]), None, Running)
  }

  /** The loop condition is false, or the run was failed. */
  ghost predicate Ended(s: State) {
    s.status.Failed? || |s.done| >= |s.plan|
  }

  ghost function Report(s: State): ExecutionResult {
    if s.status.Failed? then Err(s.status.error) else Ok(s.finalOutput)
  }

  ghost function ReadySteps(s: State): seq<nat> {
    ReadyOf(GraphOf(s.plan), s.done)
  }

  lemma ReadyInPlan(s: State)
    ensures forall i :: i in ReadySteps(s) ==> StartsReady(GraphOf(s.plan), s.done, i) && i < |s.plan|
    ensures forall k :: 0 <= k < |ReadySteps(s)| ==> ReadySteps(s)[k] in ReadySteps(s)
    ensures Distinct(ReadySteps(s))
  {
    ReadyBelowLists(GraphOf(s.plan), s.done, |s.plan|);
  }

  /** The jobs of the goroutines of one batch: every ready step, with the Vars of the loop head. */
  ghost function JobsOf(s: State): (jobs: seq<Job>)
    ensures |jobs| == |ReadySteps(s)|
  {
    var ready := ReadySteps(s);
    ReadyInPlan(s);
    seq(|ready|, (k: nat) requires k < |ready| => Job(s.replans, ready[k], s.plan[ready[k]], s.progress.vars))
  }

  /** The result slots when every goroutine returned. */
  ghost function SlotsOf(w: World, s: State): (results: seq<StepResult>)
    ensures |results| == |ReadySteps(s)|
  {
    var jobs := JobsOf(s);
    seq(|jobs|, (k: nat) requires k < |jobs| => RunStep(w, jobs[k]).result)
  }

  /** What the replanner is told. The attempt number it sees is never beyond its limit. */
  ghost function ContextFor(o: Setup, s: State, f: nat, error: string, progress: Progress): (rctx: ReplanContext)
    requires f < |ReadySteps(s)|
    ensures MayReplan(o, s) ==> 1 <= rctx.attempt <= rctx.maxReplans == o.maxReplans
  {
    ReadyInPlan(s);
    var failed := ReadySteps(s)[f];
    ReplanContext(
      Some(s.plan), failed, s.plan[failed].agentID, error, FailureTypeName(o.world.classify(error)),
      progress.completed, progress.vars, s.replans + 1, o.maxReplans)
  }

  ghost predicate MayReplan(o: Setup, s: State) {
    o.replanner.Some? && s.replans < o.maxReplans
  }

  /** Everything the loop body does after its goroutines returned. */
  ghost function Conclude(o: Setup, s: State, results: seq<StepResult>): State
    requires |results| == |ReadySteps(s)|
  {
    ReadyInPlan(s);
    var ready := ReadySteps(s);
    var f := FirstFailure(results);
    if f < |results| then
      var error := results[f].error;
      if MayReplan(o, s) then
        var progress := AbsorbFirst(s.progress, s.plan, ready, results, |results|, true);
        var answer := o.replanner.value(ContextFor(o, s, f, error, progress));
        if answer.Some? && |answer.value| > 0 then
          State(answer.value, {}, s.replans + 1, progress, s.finalOutput,
                if Buildable(answer.value) then Running else Failed(ReplanRejected))
        else s.(progress := progress, status := Failed(StepFailed(error)))
      else s.(status := Failed(StepFailed(error)))
    else
      s.(progress := AbsorbFirst(s.progress, s.plan, ready, results, |results|, false),
         done := s.done + Elems(ready),
         finalOutput := if |results| > 0 then results[|results| - 1].value else s.finalOutput)
  }

  /** One turn of the loop. */
  ghost function Next(o: Setup, s: State): State {
    if Ended(s) then s else Conclude(o, s, SlotsOf(o.world, s))
  }

  /** The loop head after n turns, or where the run ended before. */
  ghost function Head(o: Setup, plan: Plan, n: nat): State {
    if n == 0 then Begin(plan) else Next(o, Head(o, plan, n - 1))
  }

  lemma HeadGoesOn(o: Setup, plan: Plan, n: nat)
    ensures Head(o, plan, 0) == Begin(plan)
    ensures !Ended(Head(o, plan, n)) ==>
      Head(o, plan, n + 1) == Conclude(o, Head(o, plan, n), SlotsOf(o.world, Head(o, plan, n)))
  {
    hide Conclude, SlotsOf, Ended, Begin;
  }

  // ----- the loop on objects -----

  /** Launches the batch and waits for it. The goroutines run one after the other here; module
      Interleaving shows that any other order fills the same slots. */
  method RunBatch(w: World, ghost s: State, plan: Plan, replans: nat, vars: Fields, ready: seq<nat>,
                  tracker: StepAttemptTracker)
    returns (results: seq<StepResult>)
    requires plan == s.plan && replans == s.replans && vars == s.progress.vars && ready == ReadySteps(s)
    requires forall i :: i !in s.done ==> tracker.GetAttempt(i) == 0
    modifies tracker
    ensures results == SlotsOf(w, s)
    ensures forall i :: i !in s.done && i !in ready ==> tracker.GetAttempt(i) == 0
  {
    results := [];
    ReadyInPlan(s);
    hide ReadyOf, GraphOf;
    for k := 0 to |ready|
      invariant results == SlotsOf(w, s)[..k]
      invariant forall i :: i !in s.done && i !in ready[..k] ==> tracker.GetAttempt(i) == 0
    {
      assert ready[k] in ready;
      assert ready[k] !in ready[..k];
      var outcome := ExecuteStepWithRetry(w, Job(replans, ready[k], plan[ready[k]], vars), tracker);
      results := results + [outcome.result];
    }
    assert ready[..|ready|] == ready;
  }

  method FindFirstFailure(results: seq<StepResult>) returns (f: nat)
    ensures f == FirstFailure(results)
  {
    f := 0;
    while f < |results|
      invariant f <= |results| && FirstFailure(results) == f + FirstFailure(results[f..])
    {
      if results[f].Err? {
        return;
      }
      assert results[f..][1..] == results[f + 1..];
      f := f + 1;
    }
  }

  /** The slots that did succeed, merged after another step of the batch failed. */
  method MergeAfterFailure(plan: Plan, ready: seq<nat>, results: seq<StepResult>, progressIn: Progress)
    returns (progress: Progress)
    requires |results| == |ready| && forall i :: i in ready ==> i < |plan|
    ensures progress == AbsorbFirst(progressIn, plan, ready, results, |results|, true)
  {
    progress := progressIn;
    for k := 0 to |results|
      invariant progress == AbsorbFirst(progressIn, plan, ready, results, k, true)
    {
      assert ready[k] in ready;
      if results[k].Ok? && results[k].value.Some? {
        var completed := progress.completed + [CompletedStep(ready[k], plan[ready[k]].agentID, results[k].value)];
        var vars := Overlay(progress.vars, results[k].value.value);
        progress := Progress(completed, vars);
      }
    }
  }

  lemma StillReady(g: Graph, done: set<nat>, more: set<nat>, i: nat)
    requires StartsReady(g, done, i) && i !in more
    ensures StartsReady(g, done + more, i) && i !in done
  {
  }

  /** Merging one result and marking its step done. */
  method MergeResult(dag: DagScheduler, plan: Plan, idx: nat, output: Option<Fields>, progressIn: Progress)
    returns (progress: Progress)
    requires dag.Valid() && dag.steps == plan && idx < |plan| && StartsReady(GraphOf(plan), dag.done, idx)
    modifies dag`done, dag.nodes
    ensures dag.Valid() && dag.done == old(dag.done) + {idx}
    ensures progress == Absorb(progressIn, idx, plan[idx].agentID, output)
  {
    var completed := progressIn.completed + [CompletedStep(idx, plan[idx].agentID, output)];
    var vars := Overlay(progressIn.vars, FieldsOf(output));
    progress := Progress(completed, vars);
    dag.MarkDone(idx);
  }

  lemma AbsorbNext(p: Progress, plan: Plan, ready: seq<nat>, results: seq<StepResult>, k: nat)
    requires k < |results| == |ready| && results[k].Ok?
    requires forall i :: i in ready ==> i < |plan|
    ensures ready[k] in ready
    ensures AbsorbFirst(p, plan, ready, results, k + 1, false) ==
      Absorb(AbsorbFirst(p, plan, ready, results, k, false), ready[k], plan[ready[k]].agentID, results[k].value)
  {
    assert ready[k] in ready;
  }

  /** Merging a batch without failures. */
  method MergeBatch(dag: DagScheduler, plan: Plan, ready: seq<nat>, results: seq<StepResult>, progressIn: Progress,
                    outputIn: Option<Fields>, completedIn: nat)
    returns (progress: Progress, finalOutput: Option<Fields>, completed: nat)
    requires dag.Valid() && dag.steps == plan && |results| == |ready| && completedIn == |dag.done|
    requires Distinct(ready) && forall i :: i in ready ==> i < |plan| && StartsReady(GraphOf(plan), dag.done, i)
    requires forall k :: 0 <= k < |results| ==> results[k].Ok?
    modifies dag`done, dag.nodes
    ensures dag.Valid() && dag.done == old(dag.done) + Elems(ready)
    ensures progress == AbsorbFirst(progressIn, plan, ready, results, |results|, false)
    ensures finalOutput == if |results| > 0 then results[|results| - 1].value else outputIn
    ensures completed == |dag.done| == completedIn + |ready|
  {
    hide *;
    assert ready[..0] == [];
    NoElems();
    ghost var g, before := GraphOf(plan), dag.done;
    progress, finalOutput, completed := progressIn, outputIn, completedIn;
    NothingAbsorbed(progressIn, plan, ready, results);
    for k := 0 to |results|
      invariant dag.Valid() && dag.done == before + Elems(ready[..k])
      invariant progress == AbsorbFirst(progressIn, plan, ready, results, k, false)
      invariant finalOutput == if k > 0 then results[k - 1].value else outputIn
      invariant completed == |dag.done| == completedIn + k
    {
      var idx := ready[k];
      NextElem(ready, k);
      StillReady(g, before, Elems(ready[..k]), idx);
      AbsorbNext(progressIn, plan, ready, results, k);
      progress := MergeResult(dag, plan, idx, results[k].value, progress);
      finalOutput := results[k].value;
      completed := completed + 1;
    }
    assert ready[..|ready|] == ready;
  }

  lemma NothingAbsorbed(p: Progress, plan: Plan, ready: seq<nat>, results: seq<StepResult>)
    requires |results| == |ready| && forall i :: i in ready ==> i < |plan|
    ensures AbsorbFirst(p, plan, ready, results, 0, false) == p
  {
  }

  lemma NoElems()
    ensures Elems([]) == {}
  {
  }

  lemma NextElem(s: seq<nat>, k: nat)
    requires Distinct(s) && k < |s|
    ensures s[k] in s && s[k] !in Elems(s[..k])
    ensures Elems(s[..k + 1]) == Elems(s[..k]) + {s[k]}
  {
    assert s[..k + 1] == s[..k] + [s[k]];
  }

  /** Asks the replanner, telling it what the rest of the batch completed. */
  method AskReplanner(o: Setup, ghost s: State, plan: Plan, replanCount: nat, progressIn: Progress, ready: seq<nat>,
                      results: seq<StepResult>, f: nat)
    returns (progress: Progress, newPlan: Option<Plan>)
    requires o.replanner.Some? && plan == s.plan && replanCount == s.replans && progressIn == s.progress
    requires ready == ReadySteps(s) && |results| == |ready| && f < |results| && results[f].Err?
    requires forall i :: i in ready ==> i < |plan|
    requires f == FirstFailure(results) && MayReplan(o, s) && s.status.Running?
    ensures Conclude(o, s, results) ==
      if newPlan.Some? && |newPlan.value| > 0 then
        State(newPlan.value, {}, replanCount + 1, progress, s.finalOutput,
              if Buildable(newPlan.value) then Running else Failed(ReplanRejected))
      else s.(progress := progress, status := Failed(StepFailed(results[f].error)))
  {
    hide Buildable, GraphOf;
    ReadyInPlan(s);
    progress := MergeAfterFailure(plan, ready, results, progressIn);
    assert ready[f] in ready;
    var rctx := ReplanContext(
      Some(plan), ready[f], plan[ready[f]].agentID, results[f].error,
      FailureTypeName(o.world.classify(results[f].error)),
      progress.completed, progress.vars, replanCount + 1, o.maxReplans);
    newPlan := o.replanner.value(rctx);
  }

  lemma ConcludeMerged(o: Setup, s: State, results: seq<StepResult>)
    requires |results| == |ReadySteps(s)| && FirstFailure(results) == |results| && |results| > 0 && s.status.Running?
    requires forall i :: i in ReadySteps(s) ==> i < |s.plan|
    ensures Conclude(o, s, results) == State(
      s.plan, s.done + Elems(ReadySteps(s)), s.replans,
      AbsorbFirst(s.progress, s.plan, ReadySteps(s), results, |results|, false), results[|results| - 1].value, Running)
  {
  }

  lemma ConcludeFailed(o: Setup, s: State, results: seq<StepResult>)
    requires |results| == |ReadySteps(s)| && FirstFailure(results) < |results| && !MayReplan(o, s)
    ensures Conclude(o, s, results).status == Failed(StepFailed(results[FirstFailure(results)].error))
  {
  }

  lemma SchedulerWorkable(dag: DagScheduler)
    requires dag.Valid()
    ensures DoneClosed(GraphOf(dag.steps), dag.done)
  {
  }

  /** A running state the loop can work on. */
  ghost predicate Workable(s: State) {
    s.status.Running? && Buildable(s.plan) && DoneClosed(GraphOf(s.plan), s.done)
  }

  /** The engine never meets an empty batch: its "should never happen" break is dead code. */
  lemma BatchNeverEmpty(s: State)
    requires Workable(s) && !Ended(s)
    ensures ReadySteps(s) != []
  {
    var g := GraphOf(s.plan);
    BuildableGraphs(s.plan);
    if forall i: nat :: i < |g| ==> i in s.done {
      DistinctFits(seq(|g|, (i: nat) => i), s.done);
    }
    SomeStepReady(g, s.done);
    ReadyBelowLists(g, s.done, |s.plan|);
  }

  class Engine {
    var world: World
    var planner: string -> Result<Plan, string>
    var replanner: Option<ReplanContext -> Option<Plan>>
    var maxReplans: int

    constructor (world: World, planner: string -> Result<Plan, string>,
                 replanner: Option<ReplanContext -> Option<Plan>>)
      ensures Config() == Setup(world, planner, replanner, 3)
    {
      this.world, this.planner, this.replanner, this.maxReplans := world, planner, replanner, 3;
    }

    ghost function Config(): Setup
      reads this
    {
      Setup(world, planner, replanner, maxReplans)
    }

    method SetReplanner(rp: ReplanContext -> Option<Plan>)
      modifies this`replanner
      ensures replanner == Some(rp)
    {
      replanner := Some(rp);
    }

    method SetMaxReplans(n: int)
      modifies this`maxReplans
      ensures maxReplans == n
    {
      maxReplans := n;
    }

    /** A run fails at once without a task, a plan or a usable graph. Otherwise it goes through loop
        heads until one has ended, and reports that one; in particular it terminates. */
    method Execute(taskID: string) returns (r: ExecutionResult, ghost turns: nat)
      ensures taskID == "" ==> r == Err(NoTaskID)
      ensures taskID != "" && planner(taskID).Err? ==> r == Err(PlannerFailed(planner(taskID).error))
      ensures taskID != "" && planner(taskID).Ok? && !Buildable(planner(taskID).value) ==>
        r.Err? && r.error.PlanRejected? && Rejects(planner(taskID).value, r.error.dagError)
      ensures taskID != "" && planner(taskID).Ok? && Buildable(planner(taskID).value) ==>
        var last := Head(Config(), planner(taskID).value, turns);
        Ended(last) && r == Report(last)
    {
      hide DagScheduler.Valid, DoneClosed, Buildable, GraphOf, AbsorbFirst, ReadyOf, SlotsOf, Rejects, Conclude,
        FirstFailure, Head, Next, Distinct, StartsReady;
      turns := 0;
      if taskID == "" {
        return Err(NoTaskID), turns;
      }
      var planned := planner(taskID);
      if planned.Err? {
        return Err(PlannerFailed(planned.error)), turns;
      }
      var plan := planned.value;
      var progress := Progress([], map[]);
      var finalOutput: Option<Fields> := None;
      var replanCount := 0;
      var tracker := new StepAttemptTracker();
      var built := NewDagScheduler(plan);
      if built.Err? {
        return Err(PlanRejected(built.error)), turns;
      }
      var dag := built.value;
      var completed := 0;
      var o := Setup(world, planner, replanner, maxReplans);
      HeadGoesOn(o, plan, 0);
      while completed < |plan|
        invariant fresh(dag) && fresh(dag.nodes) && fresh(tracker)
        invariant dag.Valid() && dag.steps == plan && Buildable(plan) && completed == |dag.done|
        invariant Head(o, planned.value, turns) == State(plan, dag.done, replanCount, progress, finalOutput, Running)
        invariant forall i :: i !in dag.done ==> tracker.GetAttempt(i) == 0
        decreases if o.maxReplans > replanCount then o.maxReplans - replanCount else 0, |plan| - completed
      {
        ghost var s := Head(o, planned.value, turns);
        HeadGoesOn(o, planned.value, turns);
        var ready := dag.ReadySteps();
        SchedulerWorkable(dag);
        BatchNeverEmpty(s);
        if |ready| == 0 {
          assert false;
          break;
        }
        ReadyInPlan(s);
        var results := RunBatch(world, s, plan, replanCount, progress.vars, ready, tracker);
        turns := turns + 1;
        var f := FindFirstFailure(results);
        if f < |results| {
          var error := results[f].error;
          if replanner.Some? && replanCount < maxReplans {
            var newPlan;
            progress, newPlan := AskReplanner(o, s, plan, replanCount, progress, ready, results, f);
            if newPlan.Some? && |newPlan.value| > 0 {
              replanCount := replanCount + 1;
              plan := newPlan.value;
              tracker := new StepAttemptTracker();
              var rebuilt := NewDagScheduler(plan);
              if rebuilt.Err? {
                return Err(ReplanRejected), turns;
              }
              dag := rebuilt.value;
              completed := 0;
              continue;
            }
            return Err(StepFailed(error)), turns;
          }
          ConcludeFailed(o, s, results);
          return Err(StepFailed(error)), turns;
        }
        ConcludeMerged(o, s, results);
        progress, finalOutput, completed := MergeBatch(dag, plan, ready, results, progress, finalOutput, completed);
      }
      r := Ok(finalOutput);
    }
  }
}
