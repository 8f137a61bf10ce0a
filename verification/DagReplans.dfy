/** Replanning plans with StepIDs: what the context-aware replanner keeps, loses and repeats. */
module DagReplans {
  import opened Conservation
  import opened ContextAwarePlanner
  import opened Dag
  import opened DependencyGraph
  import opened Engine
  import opened EngineOrder
  import opened EngineRuns
  import opened PlanGraph
  import opened Plans
  import opened Repair
  import opened StepExecution
  import opened Wrappers
  import Retry

  /** The steps of a batch that are merged although another step of it failed: nil outputs are not. */
  function Merged(ready: seq<nat>, results: seq<StepResult>, k: nat): seq<nat>
    requires k <= |results| == |ready|
  {
    if k == 0 then []
    else Merged(ready, results, k - 1) + if results[k - 1].Ok? && results[k - 1].value.Some? then [ready[k - 1]] else []
  }

  /** Done before the batch, or merged after it. */
  ghost function Finished(o: Setup, s: State): set<nat> {
    s.done + Elems(Merged(ReadySteps(s), SlotsOf(o.world, s), |ReadySteps(s)|))
  }

  lemma {:induction false} MergedFromReady(ready: seq<nat>, results: seq<StepResult>, k: nat)
    requires k <= |results| == |ready| && Distinct(ready)
    ensures Distinct(Merged(ready, results, k))
    ensures forall i :: i in Merged(ready, results, k) ==> i in ready[..k]
  {
    if k > 0 {
      MergedFromReady(ready, results, k - 1);
      assert ready[..k] == ready[..k - 1] + [ready[k - 1]];
      assert ready[k - 1] !in ready[..k - 1];
      var before := Merged(ready, results, k - 1);
      assert forall a :: 0 <= a < |before| ==> before[a] in before;
    }
  }

  lemma {:induction false} MergedAppends(p: Progress, plan: Plan, ready: seq<nat>, results: seq<StepResult>, k: nat)
    requires k <= |results| == |ready| && forall i :: i in ready ==> i < |plan|
    ensures var after, merged := AbsorbFirst(p, plan, ready, results, k, true).completed, Merged(ready, results, k);
      && |after| == |p.completed| + |merged| && after[..|p.completed|] == p.completed
      && forall j :: 0 <= j < |merged| ==>
           after[|p.completed| + j].stepIndex == merged[j] && merged[j] < |plan|
           && after[|p.completed| + j].agentID == plan[merged[j]].agentID
  {
    if k > 0 {
      MergedAppends(p, plan, ready, results, k - 1);
      assert ready[k - 1] in ready;
    }
  }

  // ----- exactly once -----

  function Positions(from: nat, to: nat): (s: seq<nat>)
    requires from <= to
    ensures |s| == to - from && forall k :: 0 <= k < |s| ==> s[k] == from + k
  {
    seq(to - from, (k: nat) => from + k)
  }

  /** Every position below n occurs exactly once. */
  ghost predicate ExactlyOnce(s: seq<nat>, n: nat) {
    Distinct(s) && forall i: nat :: i in s <==> i < n
  }

  lemma PositionsList(from: nat, to: nat)
    requires from <= to
    ensures Distinct(Positions(from, to)) && forall i: nat :: i in Positions(from, to) <==> from <= i < to
  {
    var s := Positions(from, to);
    forall i: nat | from <= i < to
      ensures i in s
    {
      assert s[i - from] == i;
    }
  }

  lemma DistinctParts(a: seq<nat>, b: seq<nat>)
    ensures Distinct(a + b) <==> Distinct(a) && Distinct(b) && forall x :: x in a ==> x !in b
  {
    var all := a + b;
    assert forall i :: 0 <= i < |a| ==> all[i] == a[i] && a[i] in a;
    assert forall j :: 0 <= j < |b| ==> all[|a| + j] == b[j] && b[j] in b;
    assert forall i :: |a| <= i < |all| ==> all[i] == b[i - |a|];
  }

  lemma ExactlyOnceBelow(finished: seq<nat>, f: nat, n: nat)
    requires Distinct(finished) && f <= n && forall i :: i in finished ==> i < n
    ensures ExactlyOnce(finished + Positions(f, n), n) <==> forall i: nat :: i in finished <==> i < f
  {
    hide Distinct, Positions;
    PositionsList(f, n);
    DistinctParts(finished, Positions(f, n));
    assert forall i :: i in finished + Positions(f, n) <==> i in finished || f <= i < n;
  }

  ghost predicate Increasing(s: seq<nat>) {
    forall a, b :: 0 <= a < b < |s| ==> s[a] < s[b]
  }

  lemma {:induction false} IncreasingPositions(s: seq<nat>, n: nat)
    requires Increasing(s) && forall i: nat :: i in s <==> i < n
    ensures s == Positions(0, n)
  {
    if s == [] {
      assert n > 0 ==> 0 in s;
    } else {
      var m := |s| - 1;
      assert s == s[..m] + [s[m]] && s[m] in s;
      assert n - 1 in s;
      assert s[m] == n - 1;
      forall i: nat
        ensures i in s[..m] <==> i < n - 1
      {
        assert i in s <==> i in s[..m] || i == n - 1;
        assert forall b :: 0 <= b < m ==> s[..m][b] == s[b] < s[m];
      }
      IncreasingPositions(s[..m], n - 1);
    }
  }

  lemma InOrder(finished: seq<nat>, f: nat, n: nat)
    requires f <= n
    ensures finished + Positions(f, n) == Positions(0, n)
      <==> Increasing(finished) && forall i: nat :: i in finished <==> i < f
  {
    var all := finished + Positions(f, n);
    PositionsList(0, f);
    if Increasing(finished) && forall i: nat :: i in finished <==> i < f {
      IncreasingPositions(finished, f);
    }
    if all == Positions(0, n) {
      assert finished == all[..|finished|] == Positions(0, f);
    }
  }

  // ----- one replan -----

  lemma FinishedIndices(before: seq<CompletedStep>, after: seq<CompletedStep>, base: nat, merged: seq<nat>)
    requires base <= |before| && |after| == |before| + |merged| && after[..|before|] == before
    requires forall j :: 0 <= j < |merged| ==> after[|before| + j].stepIndex == merged[j]
    ensures Indices(after[base..]) == Indices(before[base..]) + merged
  {
    IndicesAppended(before, after, base, merged);
  }

  /** After a turn that replans, the completed steps of the replaced plan are, each once, the steps done
      before the batch and those merged after it. */
  lemma FinishedSteps(o: Setup, s: State, base: nat)
    requires KindOf(o, s).Replans? && OrderedLog(s, base)
    ensures var after := Next(o, s).progress.completed;
      && base <= |after|
      && Distinct(Indices(after[base..]))
      && forall i :: i in Indices(after[base..]) <==> i in Finished(o, s)
  {
    TurnCases(o, s);
    ReadyInPlan(s);
    hide Next, GraphOf, Buildable, SlotsOf, ReadySteps, Indices, ParentsFirst, KindOf, StartsReady, Merged, AbsorbFirst;
    var ready, results := ReadySteps(s), SlotsOf(o.world, s);
    MergedAppends(s.progress, s.plan, ready, results, |ready|);
    MergedFromReady(ready, results, |ready|);
    var merged := Merged(ready, results, |ready|);
    assert ready[..|ready|] == ready;
    assert Next(o, s).progress == AbsorbFirst(s.progress, s.plan, ready, results, |results|, true);
    FinishedIndices(s.progress.completed, Next(o, s).progress.completed, base, merged);
    Together(Indices(s.progress.completed[base..]), merged, s.done, GraphOf(s.plan), ready);
  }

  lemma Together(order: seq<nat>, merged: seq<nat>, done: set<nat>, g: Graph, ready: seq<nat>)
    requires Distinct(order) && (forall i :: i in order <==> i in done)
    requires Distinct(merged) && forall i :: i in merged ==> i in ready
    requires forall i :: i in ready ==> StartsReady(g, done, i)
    ensures Distinct(order + merged)
    ensures forall i :: i in order + merged <==> i in done + Elems(merged)
  {
    DistinctParts(order, merged);
  }

  lemma FinishedInPlan(o: Setup, s: State)
    requires Workable(s)
    ensures forall i :: i in Finished(o, s) ==> i < |s.plan|
  {
    ReadyInPlan(s);
    hide SlotsOf, ReadySteps, StartsReady, Buildable, GraphOf;
    var ready := ReadySteps(s);
    MergedFromReady(ready, SlotsOf(o.world, s), |ready|);
    assert ready[..|ready|] == ready;
  }

  /** What a replan does to the steps of the plan it replaces, whose completed steps begin at `base`. The
      new plan is the old one from the failed step f on. Together, completed and new steps are the old
      plan exactly once each if and only if the finished steps are exactly those below f; and they are it
      position by position if and only if, besides, the completed ones completed in plan order. A step
      below f that did not finish is lost; a finished step from f on is repeated. */
  ghost predicate KeptExactly(o: Setup, fallback: string, s: State, base: nat) {
    var f, next := FailedIndex(o, s), Next(o, s);
    && f < |s.plan| && |next.plan| == |s.plan| - f
    && (forall k :: 0 <= k < |next.plan| ==> StandsFor(fallback, s.plan[f + k], next.plan[k]))
    && base <= |next.progress.completed|
    && var completed := Indices(next.progress.completed[base..]);
    && (forall i :: i in completed <==> i in Finished(o, s))
    && (ExactlyOnce(completed + Positions(f, |s.plan|), |s.plan|) <==> Finished(o, s) == Nodes(f))
    && (completed + Positions(f, |s.plan|) == Positions(0, |s.plan|) <==>
          Finished(o, s) == Nodes(f) && Increasing(completed))
  }

  lemma ReplanKeepsExactly(o: Setup, fallback: string, s: State, base: nat)
    requires UsesContextAware(o, fallback) && KindOf(o, s).Replans? && Workable(s) && OrderedLog(s, base)
    ensures KeptExactly(o, fallback, s, base)
  {
    hide Next, Workable, OrderedLog, UsesContextAware, KindOf, FailedIndex, Finished, StandsFor, Indices, Nodes,
      ExactlyOnce, Positions, Increasing;
    var f, next := FailedIndex(o, s), Next(o, s);
    SuffixKept(o, fallback, s);
    FinishedSteps(o, s, base);
    FinishedInPlan(o, s);
    var completed := Indices(next.progress.completed[base..]);
    ExactlyOnceBelow(completed, f, |s.plan|);
    InOrder(completed, f, |s.plan|);
  }

  /** So it is at every loop head of every run that replans, after any number of replans before. */
  lemma ReplansKeepExactly(o: Setup, fallback: string, plan: Plan, n: nat)
    requires Buildable(plan)
    ensures UsesContextAware(o, fallback) && KindOf(o, Head(o, plan, n)).Replans? ==>
      KeptExactly(o, fallback, Head(o, plan, n), Base(o, plan, n))
  {
    var s := Head(o, plan, n);
    if UsesContextAware(o, fallback) && KindOf(o, s).Replans? {
      NotEnded(o, s);
      HeadsAreWorkable(o, plan, n);
      LogIsOrdered(o, plan, n);
      hide *;
      ReplanKeepsExactly(o, fallback, s, Base(o, plan, n));
    }
  }

  lemma SuffixKept(o: Setup, fallback: string, s: State)
    requires UsesContextAware(o, fallback) && KindOf(o, s).Replans?
    ensures var f, next := FailedIndex(o, s), Next(o, s);
      && f < |s.plan| && |next.plan| == |s.plan| - f
      && forall k :: 0 <= k < |next.plan| ==> StandsFor(fallback, s.plan[f + k], next.plan[k])
  {
    hide *;
    var failureType, error := ContextAwareReplan(o, fallback, s);
    var f, next := FailedIndex(o, s), Next(o, s);
    forall k | 0 <= k < |next.plan|
      ensures StandsFor(fallback, s.plan[f + k], next.plan[k])
    {
      StandsForItself(fallback, s.plan[f + k]);
      ReworkedStandsFor(fallback, failureType, error, k, s.plan[f + k], s.plan[f + k]);
    }
  }

  lemma StandsForItself(fallback: string, step: PlanStep)
    ensures StandsFor(fallback, step, step)
  {
  }

  // ----- two concrete runs -----

  function Step(id: string, dependsOn: seq<string>): PlanStep {
    PlanStep(id, map[], map[], None, id, dependsOn)
  }

  /** Agents that fail exactly when asked to run the step with the given agent in the first plan. */
  function FailsFirst(agentID: string): World {
    World({"a", "b"},
          (c: Call) => if c.plan == 0 && c.agentID == agentID then Err("down") else Ok(Some(map[])),
          None, None, Retry.Policy(1, "none", 0, 0, 0.0, false, []), _ => ToolFailure, map[])
  }

  function Replanned(w: World): Setup {
    Setup(w, _ => Err(""), Some(rctx => ReplanAnswer("", rctx)), 1)
  }

  /** Step "a", listed first, depends on step "b". */
  function Backwards(): Plan {
    [Step("a", ["b"]), Step("b", [])]
  }

  function Independent(): Plan {
    [Step("a", []), Step("b", [])]
  }

  lemma RunsOnce(agentID: string, job: Job)
    requires job.step.agentID in {"a", "b"}
    ensures var o := RunStep(FailsFirst(agentID), job);
      && (o.result.Err? <==> job.plan == 0 && job.step.agentID == agentID)
      && (o.result.Ok? ==> o.result.value.Some?)
      && o.calls == [CallFor(FailsFirst(agentID), job, 1, job.step.agentID)]
  {
  }

  lemma BackwardsBuildable()
    ensures DagMode(Backwards()) && GraphOf(Backwards()) == [[1], []] && Buildable(Backwards())
  {
    var plan := Backwards();
    assert UsesDagFields(plan[0]);
    assert plan[0].stepID == "a" && plan[1].stepID == "b" && "a" != "b";
    assert IndexOf(plan, "b") == 1;
    assert NamedParents(plan, ["b"]) == [1] && NamedParents(plan, []) == [];
    assert GraphOf(plan)[0] == [1] && GraphOf(plan)[1] == [];
    assert Names(plan, "b");
    assert GraphOf(plan) == [[1], []];
    hide GraphOf;
    BackwardsAcyclic([[1], []]);
  }

  lemma BackwardsAcyclic(g: Graph)
    requires g == [[1], []]
    ensures Acyclic(g)
  {
    var order: seq<nat> := [1, 0];
    assert order[..1] == [1];
    assert order[0] == 1 && order[1] == 0;
    TopologicalIsAcyclic(g, order);
  }

  lemma OnlyReady(s: State, i: nat)
    requires i in ReadySteps(s) && forall j :: j in ReadySteps(s) ==> j == i
    ensures ReadySteps(s) == [i]
  {
    ReadyInPlan(s);
    hide ReadySteps, StartsReady;
    DistinctFits(ReadySteps(s), {i});
  }

  /** The only ready step fails, and the replanner keeps it and what follows it. */
  lemma OnlyStepFails(agentID: string, s: State, i: nat)
    requires s.status.Running? && s.replans == 0 && |s.done| < |s.plan|
    requires ReadySteps(s) == [i] && i < |s.plan| && s.plan[i].agentID == agentID && agentID in {"a", "b"}
    ensures var o := Replanned(FailsFirst(agentID)); KindOf(o, s).Replans? && FailedIndex(o, s) == i
  {
    var o := Replanned(FailsFirst(agentID));
    RunsOnce(agentID, JobsOf(s)[0]);
    hide RunFrom, ReadySteps, Buildable, Reworked, GraphOf;
    var results := SlotsOf(o.world, s);
    assert |results| == 1 && results[0].Err?;
    assert FirstFailure(results) == 0;
  }

  lemma FirstTurn(s: State)
    requires s == Begin(Backwards())
    ensures Workable(s) && ReadySteps(s) == [1]
  {
    BackwardsBuildable();
    BeginWorkable(Backwards());
    ReadyInPlan(s);
    var g := GraphOf(s.plan);
    assert 1 in g[0];
    ReadyBelowLists(g, s.done, |g|);
    OnlyReady(s, 1);
  }

  lemma LastTurn(agentID: string, s: State)
    requires Workable(s) && |s.plan| == 1 && s.done == {} && s.replans == 1 && s.plan[0].agentID in {"a", "b"}
    ensures var o := Replanned(FailsFirst(agentID));
      && ReadySteps(s) == [0] && KindOf(o, s).Advances? && Ended(Next(o, s)) && Next(o, s).status.Running?
  {
    var o := Replanned(FailsFirst(agentID));
    BatchNeverEmpty(s);
    ReadyInPlan(s);
    assert ReadySteps(s)[0] in ReadySteps(s);
    OnlyReady(s, 0);
    RunsOnce(agentID, JobsOf(s)[0]);
    TurnCases(o, s);
    hide RunFrom, ReadySteps, Buildable, Reworked, GraphOf, Next;
    var results := SlotsOf(o.world, s);
    assert |results| == 1 && results[0].Ok?;
    assert FirstFailure(results) == 1;
  }

  lemma TwoBatchCalls(o: Setup, plan: Plan, agentID: string)
    requires forall n: nat :: n < 2 ==>
      && |ReadySteps(Head(o, plan, n))| == 1 && |BatchCalls(o.world, JobsOf(Head(o, plan, n)), 1)| == 1
      && BatchCalls(o.world, JobsOf(Head(o, plan, n)), 1)[0].agentID == agentID
    ensures forall c :: c in CallsMade(o, plan, 2) ==> c.agentID == agentID
  {
    hide Head, BatchCalls, ReadySteps;
    assert 0 < 2 && 1 < 2;
    assert CallsMade(o, plan, 0) == [];
    forall c | c in CallsMade(o, plan, 1)
      ensures c.agentID == agentID
    {
    }
  }

  lemma OneBatchCall(agentID: string, s: State, i: nat)
    requires ReadySteps(s) == [i] && i < |s.plan| && s.plan[i].agentID in {"a", "b"}
    ensures var calls := BatchCalls(FailsFirst(agentID), JobsOf(s), 1);
      |calls| == 1 && calls[0].agentID == s.plan[i].agentID
  {
    hide RunFrom;
    var jobs := JobsOf(s);
    RunsOnce(agentID, jobs[0]);
    assert BatchCalls(FailsFirst(agentID), jobs, 0) == [];
  }

  /** The failed turn of the run below. */
  lemma BackwardsReplanned(s: State)
    requires s == Begin(Backwards())
    ensures var next := Next(Replanned(FailsFirst("b")), s);
      && ReadySteps(s) == [1] && |s.plan| == 2 && s.plan[1].agentID == "b"
      && KindOf(Replanned(FailsFirst("b")), s).Replans?
      && next.status.Running? && next.replans == 1 && next.done == {} && |next.plan| == 1 && next.plan[0].agentID == "b"
  {
    var o := Replanned(FailsFirst("b"));
    BackwardsBuildable();
    FirstTurn(s);
    OnlyStepFails("b", s, 1);
    hide Next, Buildable, GraphOf, ReadySteps, KindOf, Workable, DagMode, ReplanAnswer, FailsFirst, SlotsOf, Absorbed;
    DagReplanAccepted(o, "", s);
    SuffixKept(o, "", s);
    TurnCases(o, s);
  }

  /** A concrete run that loses a step. Of two steps, "a" depends on "b", listed after it. Step "b" fails
      once and is replanned; the new plan is "b" alone. The run then reports success, and agent "a" was
      never invoked. */
  lemma ReplanCanLoseAStep()
    ensures var o := Replanned(FailsFirst("b"));
      && Buildable(Backwards()) && UsesContextAware(o, "")
      && Ended(Head(o, Backwards(), 2)) && Report(Head(o, Backwards(), 2)).Ok?
      && forall c :: c in CallsMade(o, Backwards(), 2) ==> c.agentID == "b"
  {
    hide *;
    var o, plan := Replanned(FailsFirst("b")), Backwards();
    ReplannedMeans(FailsFirst("b"));
    TwoTurns(o, plan);
    BackwardsBuildable();
    BackwardsReplanned(Begin(plan));
    HeadsAreWorkable(o, plan, 1);
    LastTurn("b", Head(o, plan, 1));
    OneBatchCall("b", Begin(plan), 1);
    OneBatchCall("b", Head(o, plan, 1), 0);
    TwoBatchCalls(o, plan, "b");
  }

  lemma ReplannedMeans(w: World)
    ensures UsesContextAware(Replanned(w), "") && Replanned(w).world == w
  {
  }

  lemma TwoTurns(o: Setup, plan: Plan)
    ensures Head(o, plan, 0) == Begin(plan) && Head(o, plan, 1) == Next(o, Begin(plan))
    ensures Head(o, plan, 2) == Next(o, Head(o, plan, 1))
    ensures Head(o, plan, 2).status.Running? ==> Report(Head(o, plan, 2)).Ok?
  {
    hide Next;
  }

  /** Two steps without dependencies, however often they were replanned. */
  ghost predicate TwoFree(plan: Plan) {
    && |plan| == 2 && plan[0].stepID == "a" && plan[1].stepID == "b"
    && plan[0].dependsOn == [] && plan[1].dependsOn == []
    && plan[0].agentID == "a" && plan[1].agentID == "b"
  }

  lemma TwoFreeBuildable(plan: Plan)
    requires TwoFree(plan)
    ensures GraphOf(plan) == [[], []] && Buildable(plan) && DagMode(plan)
  {
    assert UsesDagFields(plan[0]);
    assert "a" != "b" && NamedParents(plan, []) == [];
    assert GraphOf(plan)[0] == [] && GraphOf(plan)[1] == [];
    assert GraphOf(plan) == [[], []];
    hide GraphOf;
    FreeAcyclic([[], []]);
  }

  lemma FreeAcyclic(g: Graph)
    requires g == [[], []]
    ensures Acyclic(g)
  {
    var order: seq<nat> := [0, 1];
    assert order[0] == 0 && order[1] == 1;
    TopologicalIsAcyclic(g, order);
  }

  lemma BothReady(s: State)
    requires TwoFree(s.plan) && s.done == {}
    ensures ReadySteps(s) == [0, 1]
  {
    TwoFreeBuildable(s.plan);
    hide GraphOf, Buildable, DagMode, TwoFree;
    var g := GraphOf(s.plan);
    assert ReadyBelow(g, {}, 0) == [];
    assert ReadyBelow(g, {}, 1) == [0];
    assert ReadyBelow(g, {}, 2) == [0, 1];
  }

  /** The results of both steps, in the first plan and in the one that replaces it. */
  lemma BothRun(s: State)
    requires TwoFree(s.plan) && ReadySteps(s) == [0, 1]
    ensures var results := SlotsOf(FailsFirst("a"), s);
      && |results| == 2 && (results[0].Err? <==> s.replans == 0) && results[1].Ok? && results[1].value.Some?
      && (results[0].Ok? ==> results[0].value.Some?)
  {
    var jobs := JobsOf(s);
    RunsOnce("a", jobs[0]);
    RunsOnce("a", jobs[1]);
    hide RunFrom;
  }

  lemma FreeReplanned(s: State)
    requires s == Begin(Independent())
    ensures var o, next := Replanned(FailsFirst("a")), Next(Replanned(FailsFirst("a")), s);
      && Buildable(Independent()) && KindOf(o, s).Replans? && next.replans == 1 && next.done == {} && TwoFree(next.plan)
      && |next.progress.completed| == 1 && next.progress.completed[0].agentID == "b"
  {
    var o := Replanned(FailsFirst("a"));
    assert TwoFree(s.plan);
    TwoFreeBuildable(s.plan);
    BothReady(s);
    BothRun(s);
    hide RunFrom, ReadySteps, Buildable, GraphOf, Reworked, DagMode, FailsFirst, SlotsOf;
    FreeKind(o, s);
    FreeSuffix(o, s);
    TurnCases(o, s);
    FreeMerged(s.progress, s.plan, SlotsOf(o.world, s));
  }

  lemma FreeKind(o: Setup, s: State)
    requires s.status.Running? && |s.done| < |s.plan| && UsesContextAware(o, "") && s.replans == 0 && o.maxReplans == 1
    requires TwoFree(s.plan) && ReadySteps(s) == [0, 1] && |SlotsOf(o.world, s)| == 2 && SlotsOf(o.world, s)[0].Err?
    ensures KindOf(o, s).Replans? && FailedIndex(o, s) == 0
  {
    hide SlotsOf, ReadySteps, Reworked, Buildable, AbsorbFirst;
    assert FirstFailure(SlotsOf(o.world, s)) == 0;
  }

  lemma FreeSuffix(o: Setup, s: State)
    requires UsesContextAware(o, "") && KindOf(o, s).Replans? && FailedIndex(o, s) == 0 && TwoFree(s.plan)
    ensures TwoFree(Next(o, s).plan)
  {
    hide KindOf, FailedIndex, Next, UsesContextAware;
    var failureType, error := ContextAwareReplan(o, "", s);
    var next := Next(o, s);
    assert next.plan[0] == Reworked("", failureType, error, 0, s.plan[0]);
    assert next.plan[1] == Reworked("", failureType, error, 1, s.plan[1]);
  }

  lemma FreeMerged(p: Progress, plan: Plan, results: seq<StepResult>)
    requires TwoFree(plan) && p.completed == [] && |results| == 2
    requires results[0].Err? && results[1].Ok? && results[1].value.Some?
    ensures var after := AbsorbFirst(p, plan, [0, 1], results, 2, true).completed;
      |after| == 1 && after[0].agentID == "b"
  {
    assert AbsorbFirst(p, plan, [0, 1], results, 0, true) == p;
    assert AbsorbFirst(p, plan, [0, 1], results, 1, true) == p;
  }

  lemma FreeAdvances(s: State)
    requires s.status.Running? && s.done == {} && s.replans == 1 && TwoFree(s.plan)
    ensures var o, next := Replanned(FailsFirst("a")), Next(Replanned(FailsFirst("a")), s);
      && Ended(next) && next.status.Running?
      && |next.progress.completed| == |s.progress.completed| + 2 && s.progress.completed <= next.progress.completed
      && next.progress.completed[|s.progress.completed| + 1].agentID == "b"
  {
    var o := Replanned(FailsFirst("a"));
    BothReady(s);
    BothRun(s);
    TurnCases(o, s);
    hide RunFrom, ReadySteps, Buildable, GraphOf, DagMode, FailsFirst, SlotsOf, Next;
    assert FirstFailure(SlotsOf(o.world, s)) == 2;
    AdvanceAppends(o, s);
    assert Elems([0, 1]) == {0, 1};
  }

  /** A concrete run that repeats a step. Of two independent steps, the first fails once while the second
      succeeds; the new plan holds both. The run then reports success, and the second step completed
      twice. */
  lemma ReplanCanRepeatAStep()
    ensures var o := Replanned(FailsFirst("a"));
      && Buildable(Independent()) && UsesContextAware(o, "")
      && Ended(Head(o, Independent(), 2)) && Report(Head(o, Independent(), 2)).Ok?
      && var completed := Head(o, Independent(), 2).progress.completed;
      && |completed| == 3 && completed[0].agentID == "b" && completed[2].agentID == "b"
  {
    var o, plan := Replanned(FailsFirst("a")), Independent();
    hide *;
    ReplannedMeans(FailsFirst("a"));
    TwoTurns(o, plan);
    FreeReplanned(Begin(plan));
    FreeRuns(o, Begin(plan));
    FreeAdvances(Head(o, plan, 1));
    assert Head(o, plan, 1).progress.completed[0] == Head(o, plan, 2).progress.completed[0];
  }

  lemma FreeRuns(o: Setup, s: State)
    requires KindOf(o, s).Replans? && TwoFree(Next(o, s).plan)
    ensures Next(o, s).status.Running?
  {
    TwoFreeBuildable(Next(o, s).plan);
    hide Next, Buildable, KindOf, TwoFree;
    TurnGoesOn(o, s);
  }
}
