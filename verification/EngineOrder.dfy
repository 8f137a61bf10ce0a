/** Termination of runs, and the order in which a run executes the steps of its plans. */
module EngineOrder {
  import opened Dag
  import opened DependencyGraph
  import opened Engine
  import opened EngineRuns
  import opened PlanGraph
  import opened Plans
  import opened StepExecution
  import opened Wrappers

  // ----- termination -----

  lemma TurnDecreases(o: Setup, s: State)
    requires Workable(s) && !Ended(s) && s.replans <= AtLeastZero(o.maxReplans)
    ensures var next := Next(o, s);
      (next.status.Failed? && next.replans >= s.replans)
      || (next.replans == s.replans + 1 <= AtLeastZero(o.maxReplans))
      || (next.replans == s.replans && next.plan == s.plan && |s.done| < |next.done|)
  {
    hide Next, Workable;
    TurnCases(o, s);
    TurnSpends(o, s);
  }

  /** Every run ends. */
  lemma {:induction false} RunEnds(o: Setup, plan: Plan, from: nat) returns (n: nat)
    requires Buildable(plan)
    ensures n >= from && Ended(Head(o, plan, n))
    decreases AtLeastZero(o.maxReplans) + (if Head(o, plan, from).status.Failed? then 0 else 1)
                - Head(o, plan, from).replans,
              |Head(o, plan, from).plan| - |Head(o, plan, from).done|
  {
    hide Next, Workable, Buildable;
    var s := Head(o, plan, from);
    HeadsAreWorkable(o, plan, from);
    if Ended(s) {
      n := from;
    } else {
      TurnDecreases(o, s);
      HeadsAreWorkable(o, plan, from + 1);
      n := RunEnds(o, plan, from + 1);
    }
  }

  // ----- batches are levels -----

  lemma {:induction false} ReplansGrow(o: Setup, plan: Plan, n: nat)
    requires n > 0
    ensures Head(o, plan, n - 1).replans <= Head(o, plan, n).replans
    ensures Head(o, plan, n).status.Running? ==> Head(o, plan, n - 1).status.Running?
    ensures Head(o, plan, n).status.Running? && Head(o, plan, n).replans == Head(o, plan, n - 1).replans ==>
      KindOf(o, Head(o, plan, n - 1)).Stays? || KindOf(o, Head(o, plan, n - 1)).Advances?
  {
    hide Buildable;
    TurnCases(o, Head(o, plan, n - 1));
  }

  /** As long as no step has failed, the steps done after n turns are those done after n batches of
      the level order. */
  lemma {:induction false} HeadIsLevel(o: Setup, plan: Plan, n: nat)
    requires Buildable(plan)
    requires Head(o, plan, n).status.Running? && Head(o, plan, n).replans == 0
    ensures Head(o, plan, n).plan == plan && Head(o, plan, n).done == DoneAfter(GraphOf(plan), n)
  {
    hide Next, Buildable, GraphOf;
    BuildableGraphs(plan);
    if n > 0 {
      var s := Head(o, plan, n - 1);
      ReplansGrow(o, plan, n);
      HeadIsLevel(o, plan, n - 1);
      TurnCases(o, s);
      var g := GraphOf(plan);
      DoneAfterGrows(g, n - 1);
      if KindOf(o, s).Stays? {
        AllDone(g, DoneAfter(g, n - 1), DoneAfter(g, n));
      } else {
        ReadyInPlan(s);
        ReadyBelowLists(g, s.done, |g|);
        assert s.done + Elems(ReadySteps(s)) == DoneAfter(g, n);
      }
    }
  }

  lemma AllDone(g: Graph, a: set<nat>, b: set<nat>)
    requires a <= b && |a| >= |g| && forall i :: i in b ==> i < |g|
    ensures a == b
  {
    assert forall i :: i in b ==> i in Nodes(|g|);
    Fits(b, Nodes(|g|));
    if a != b {
      var x :| x in b && x !in a;
      Larger(a, b, x);
    }
  }

  /** Batching is level-exact: with no failure so far, batch n (from 0) consists of exactly the steps
      whose longest dependency chain has n + 1 steps. */
  lemma BatchesAreLevels(o: Setup, plan: Plan, n: nat, i: nat)
    requires Buildable(plan) && i < |plan|
    requires Head(o, plan, n).status.Running? && Head(o, plan, n).replans == 0
    ensures i in ReadySteps(Head(o, plan, n)) <==>
      HasChain(GraphOf(plan), i, n + 1) && forall c :: Chain(GraphOf(plan), c) && c[0] == i ==> |c| <= n + 1
  {
    hide Head, Buildable, GraphOf;
    HeadIsLevel(o, plan, n);
    BuildableGraphs(plan);
    ReadyBelowLists(GraphOf(plan), DoneAfter(GraphOf(plan), n), |plan|);
    BatchIsLevel(GraphOf(plan), n, i);
  }

  /** Batching is optimal: any schedule that runs dependencies in strictly earlier rounds needs at
      least as many rounds as a run without failures needs batches. */
  lemma BatchCountIsLeast(o: Setup, plan: Plan, round: seq<nat>, rounds: nat)
    requires Buildable(plan) && Schedule(GraphOf(plan), round)
    requires forall i :: 0 <= i < |round| ==> round[i] < rounds
    requires Head(o, plan, rounds).status.Running? && Head(o, plan, rounds).replans == 0
    ensures Ended(Head(o, plan, rounds))
  {
    var g := GraphOf(plan);
    hide Head, Buildable, GraphOf;
    HeadIsLevel(o, plan, rounds);
    BuildableGraphs(plan);
    forall i | i in Nodes(|g|)
      ensures i in DoneAfter(g, rounds)
    {
      BatchesAreOptimal(g, round, i);
      DoneAfterMonotone(g, round[i] + 1, rounds);
    }
    Fits(Nodes(|g|), DoneAfter(g, rounds));
  }

  // ----- exactly once, in dependency order -----

  /** Where in the list of completed steps the current plan begins. */
  ghost function Base(o: Setup, plan: Plan, n: nat): nat {
    if n == 0 then 0
    else if Head(o, plan, n).replans > Head(o, plan, n - 1).replans then |Head(o, plan, n).progress.completed|
    else Base(o, plan, n - 1)
  }

  function Indices(completed: seq<CompletedStep>): (s: seq<nat>)
    ensures |s| == |completed|
  {
    seq(|completed|, (k: nat) requires k < |completed| => completed[k].stepIndex)
  }

  /** The steps of the current plan that completed: no step twice, all parents before. */
  ghost predicate OrderedLog(s: State, base: nat) {
    && base <= |s.progress.completed|
    && var order := Indices(s.progress.completed[base..]);
    && Distinct(order)
    && (forall i :: i in order <==> i in s.done)
    && ParentsFirst(GraphOf(s.plan), order)
  }

  lemma {:induction false} AbsorbAppends(p: Progress, plan: Plan, ready: seq<nat>, results: seq<StepResult>, k: nat)
    requires k <= |results| == |ready| && forall i :: i in ready ==> i < |plan|
    requires forall j :: 0 <= j < |results| ==> results[j].Ok?
    ensures var after := AbsorbFirst(p, plan, ready, results, k, false).completed;
      && |after| == |p.completed| + k && after[..|p.completed|] == p.completed
      && forall j :: 0 <= j < k ==>
           ready[j] in ready
             && after[|p.completed| + j] == CompletedStep(ready[j], plan[ready[j]].agentID, results[j].value)
  {
    if k > 0 {
      AbsorbAppends(p, plan, ready, results, k - 1);
      assert ready[k - 1] in ready;
    }
  }

  /** A turn without failure appends one completed step per ready step, in order. */
  ghost predicate Appends(o: Setup, s: State, next: State) {
    var before, after, ready := s.progress.completed, next.progress.completed, ReadySteps(s);
    && next.plan == s.plan && next.replans == s.replans && next.done == s.done + Elems(ready)
    && |after| == |before| + |ready| && before <= after
    && forall k :: 0 <= k < |ready| ==>
         && ready[k] < |s.plan| && SlotsOf(o.world, s)[k].Ok?
         && after[|before| + k] == CompletedStep(ready[k], s.plan[ready[k]].agentID, SlotsOf(o.world, s)[k].value)
  }

  lemma AbsorbedAppends(o: Setup, s: State)
    requires forall k :: 0 <= k < |SlotsOf(o.world, s)| ==> SlotsOf(o.world, s)[k].Ok?
    ensures var before, after, ready := s.progress.completed, Absorbed(o, s, false).completed, ReadySteps(s);
      && |after| == |before| + |ready| && after[..|before|] == before
      && forall k :: 0 <= k < |ready| ==>
           && ready[k] < |s.plan|
           && after[|before| + k] == CompletedStep(ready[k], s.plan[ready[k]].agentID, SlotsOf(o.world, s)[k].value)
  {
    hide ReadySteps, SlotsOf, AbsorbFirst;
    ReadyInPlan(s);
    AbsorbAppends(s.progress, s.plan, ReadySteps(s), SlotsOf(o.world, s), |ReadySteps(s)|);
  }

  lemma AdvanceAppends(o: Setup, s: State)
    requires KindOf(o, s).Advances?
    ensures Appends(o, s, Next(o, s))
  {
    hide Next, Buildable, GraphOf, KindOf, Absorbed, SlotsOf, ReadySteps;
    TurnCases(o, s);
    AbsorbedAppends(o, s);
  }

  lemma OrderExtends(g: Graph, done: set<nat>, order: seq<nat>, ready: seq<nat>)
    requires Distinct(order) && (forall i :: i in order <==> i in done) && ParentsFirst(g, order)
    requires Distinct(ready) && forall i :: i in ready ==> StartsReady(g, done, i)
    ensures Distinct(order + ready) && ParentsFirst(g, order + ready)
    ensures forall i :: i in order + ready <==> i in done + Elems(ready)
  {
    var longer := order + ready;
    forall a, b | 0 <= a < b < |longer|
      ensures longer[a] != longer[b]
    {
      if a < |order| <= b {
        assert longer[a] in order && longer[b] in ready;
      }
    }
    forall k, p | 0 <= k < |longer| && longer[k] < |g| && p in g[longer[k]]
      ensures p in longer[..k]
    {
      if k < |order| {
        assert longer[..k] == order[..k];
      } else {
        assert longer[k] in ready;
        assert p in order;
        assert longer[..k] == order + ready[..k - |order|];
      }
    }
  }

  lemma IndicesAppended(before: seq<CompletedStep>, after: seq<CompletedStep>, base: nat, ready: seq<nat>)
    requires base <= |before| && |after| == |before| + |ready| && after[..|before|] == before
    requires forall j :: 0 <= j < |ready| ==> after[|before| + j].stepIndex == ready[j]
    ensures Indices(after[base..]) == Indices(before[base..]) + ready
  {
    forall k | 0 <= k < |after| - base
      ensures Indices(after[base..])[k] == (Indices(before[base..]) + ready)[k]
    {
      if base + k < |before| {
        assert after[base + k] == after[..|before|][base + k];
      } else {
        var j := base + k - |before|;
        assert after[|before| + j].stepIndex == ready[j];
      }
    }
  }

  /** Where the completed steps of the plan after a turn begin. */
  ghost function NextBase(s: State, next: State, base: nat): nat {
    if next.replans > s.replans then |next.progress.completed| else base
  }

  lemma AppendedLog(o: Setup, s: State, next: State, base: nat)
    requires OrderedLog(s, base) && Appends(o, s, next)
    ensures OrderedLog(next, base)
  {
    ReadyInPlan(s);
    hide GraphOf, SlotsOf, Indices, ParentsFirst, Distinct, ReadySteps, StartsReady;
    var ready := ReadySteps(s);
    IndicesAppended(s.progress.completed, next.progress.completed, base, ready);
    OrderExtends(GraphOf(s.plan), s.done, Indices(s.progress.completed[base..]), ready);
  }

  lemma TurnKeepsLog(o: Setup, s: State, base: nat)
    requires OrderedLog(s, base)
    ensures var next := Next(o, s);
      next.status.Running? ==> OrderedLog(next, NextBase(s, next, base))
  {
    hide Next, Buildable, GraphOf, SlotsOf, Absorbed, OrderedLog, Appends;
    TurnCases(o, s);
    var next := Next(o, s);
    if KindOf(o, s).Advances? {
      AdvanceAppends(o, s);
      AppendedLog(o, s, next, base);
    } else if KindOf(o, s).Replans? {
      BeginLog(next);
    }
  }

  lemma BeginLog(s: State)
    requires s.done == {}
    ensures OrderedLog(s, |s.progress.completed|)
  {
  }

  lemma {:induction false} LogIsOrdered(o: Setup, plan: Plan, n: nat)
    requires Head(o, plan, n).status.Running?
    ensures OrderedLog(Head(o, plan, n), Base(o, plan, n))
  {
    hide Next, OrderedLog;
    if n > 0 {
      ReplansGrow(o, plan, n);
      LogIsOrdered(o, plan, n - 1);
      TurnKeepsLog(o, Head(o, plan, n - 1), Base(o, plan, n - 1));
    } else {
      BeginIsOrdered(plan);
    }
  }

  lemma BeginIsOrdered(plan: Plan)
    ensures OrderedLog(Begin(plan), 0)
  {
  }

  /** A plan that ran to completion completed every step exactly once, each after all of its
      dependencies: the completed indices are a topological order of the plan. */
  lemma CompletedInTopologicalOrder(o: Setup, plan: Plan, n: nat)
    requires Buildable(plan) && Head(o, plan, n).status.Running? && Ended(Head(o, plan, n))
    ensures var s := Head(o, plan, n);
      Base(o, plan, n) <= |s.progress.completed|
        && Topological(GraphOf(s.plan), Indices(s.progress.completed[Base(o, plan, n)..]))
  {
    LogIsOrdered(o, plan, n);
    HeadsAreWorkable(o, plan, n);
    hide Head, Buildable, GraphOf, Base;
    var s := Head(o, plan, n);
    var all := Nodes(|s.plan|);
    assert forall i :: i in s.done ==> i in all;
    AllDone(GraphOf(s.plan), s.done, all);
  }

  /** Completed step k of the current plan was produced by a step execution that started from the
      merge of the first b outputs, which include the outputs of all its dependencies. */
  ghost predicate ProducedBy(o: Setup, s: State, base: nat, k: nat, b: nat) {
    && base <= b <= k < |s.progress.completed|
    && var c := s.progress.completed[k];
    && c.stepIndex < |s.plan| && c.agentID == s.plan[c.stepIndex].agentID
    && (forall p :: p in GraphOf(s.plan)[c.stepIndex] ==> p in Indices(s.progress.completed[base..b]))
    && var job := Job(s.replans, c.stepIndex, s.plan[c.stepIndex], FoldOutputs(s.progress.completed[..b]));
       RunStep(o.world, job).result == Ok(c.output)
  }

  ghost predicate Produced(o: Setup, s: State, base: nat, k: nat) {
    exists b :: ProducedBy(o, s, base, k, b)
  }

  ghost predicate AllProduced(o: Setup, s: State, base: nat) {
    forall k :: base <= k < |s.progress.completed| ==> Produced(o, s, base, k)
  }

  lemma ProducedStays(o: Setup, s: State, next: State, base: nat, k: nat)
    requires next.plan == s.plan && next.replans == s.replans && k < |s.progress.completed|
    requires s.progress.completed <= next.progress.completed
    requires Produced(o, s, base, k)
    ensures Produced(o, next, base, k)
  {
    var b: nat :| ProducedBy(o, s, base, k, b);
    hide RunFrom, GraphOf, FoldOutputs;
    var before, after := s.progress.completed, next.progress.completed;
    assert before[..b] == after[..b] && before[base..b] == after[base..b] && before[k] == after[k];
    assert ProducedBy(o, next, base, k, b);
  }

  lemma ProducedNow(o: Setup, s: State, next: State, base: nat, k: nat)
    requires OrderedLog(s, base) && Folded(s.progress) && k < |ReadySteps(s)| && SlotsOf(o.world, s)[k].Ok?
    requires next.plan == s.plan && next.replans == s.replans
    requires s.progress.completed <= next.progress.completed && |s.progress.completed| + k < |next.progress.completed|
    requires ReadySteps(s)[k] < |s.plan|
    requires next.progress.completed[|s.progress.completed| + k] ==
      CompletedStep(ReadySteps(s)[k], s.plan[ReadySteps(s)[k]].agentID, SlotsOf(o.world, s)[k].value)
    ensures Produced(o, next, base, |s.progress.completed| + k)
  {
    ReadyInPlan(s);
    hide RunFrom, GraphOf, FoldOutputs;
    var b := |s.progress.completed|;
    assert next.progress.completed[..b] == s.progress.completed;
    assert next.progress.completed[base..b] == s.progress.completed[base..];
    assert ReadySteps(s)[k] in ReadySteps(s);
    assert ProducedBy(o, next, base, b + k, b);
  }

  lemma TurnKeepsProduced(o: Setup, s: State, base: nat)
    requires OrderedLog(s, base) && AllProduced(o, s, base) && Folded(s.progress)
    ensures var next := Next(o, s);
      next.status.Running? ==>
      AllProduced(o, next, NextBase(s, next, base))
  {
    hide Next, Buildable, GraphOf, Produced, OrderedLog, Folded, SlotsOf, ReadySteps, Absorbed;
    TurnCases(o, s);
    var next := Next(o, s);
    if KindOf(o, s).Advances? {
      AdvanceAppends(o, s);
      var n := |s.progress.completed|;
      forall k | base <= k < |next.progress.completed|
        ensures Produced(o, next, base, k)
      {
        if k < n {
          ProducedStays(o, s, next, base, k);
        } else {
          ProducedNow(o, s, next, base, k - n);
        }
      }
    }
  }

  /** Every completed step of the current plan started only after the outputs of all its
      dependencies were merged, and its recorded output is what its execution returned. */
  lemma {:induction false} StartedAfterDependencies(o: Setup, plan: Plan, n: nat)
    requires Head(o, plan, n).status.Running?
    ensures AllProduced(o, Head(o, plan, n), Base(o, plan, n))
  {
    hide Next, OrderedLog, AllProduced, Folded;
    if n > 0 {
      ReplansGrow(o, plan, n);
      StartedAfterDependencies(o, plan, n - 1);
      LogIsOrdered(o, plan, n - 1);
      VarsAreFolded(o, plan, n - 1);
      TurnKeepsProduced(o, Head(o, plan, n - 1), Base(o, plan, n - 1));
    } else {
      BeginProduced(o, plan);
    }
  }

  lemma BeginProduced(o: Setup, plan: Plan)
    ensures AllProduced(o, Begin(plan), 0)
  {
  }

  // ----- what a successful run reports -----

  ghost predicate OutputIsLast(s: State) {
    s.plan != []
      && (s.done != {} ==>
           s.progress.completed != [] && s.finalOutput == s.progress.completed[|s.progress.completed| - 1].output)
  }

  lemma TurnKeepsOutput(o: Setup, s: State)
    requires Workable(s) && OutputIsLast(s) && Next(o, s).status.Running?
    ensures OutputIsLast(Next(o, s))
  {
    hide Next, Buildable, GraphOf, SlotsOf, Workable;
    TurnCases(o, s);
    var next := Next(o, s);
    if KindOf(o, s).Advances? {
      BatchNeverEmpty(s);
      AdvanceAppends(o, s);
      AdvanceOutput(o, s);
    }
  }

  lemma AdvanceOutput(o: Setup, s: State)
    requires KindOf(o, s).Advances? && ReadySteps(s) != []
    ensures Next(o, s).finalOutput == SlotsOf(o.world, s)[|ReadySteps(s)| - 1].value
  {
    ReadyInPlan(s);
  }

  lemma {:induction false} OutputsAreLast(o: Setup, plan: Plan, n: nat)
    requires Buildable(plan) && plan != [] && Head(o, plan, n).status.Running?
    ensures OutputIsLast(Head(o, plan, n))
  {
    hide Next, OutputIsLast, Workable;
    if n > 0 {
      ReplansGrow(o, plan, n);
      OutputsAreLast(o, plan, n - 1);
      HeadsAreWorkable(o, plan, n - 1);
      TurnKeepsOutput(o, Head(o, plan, n - 1));
    } else {
      BeginOutput(plan);
    }
  }

  lemma BeginOutput(plan: Plan)
    requires plan != []
    ensures OutputIsLast(Begin(plan))
  {
  }

  /** A successful run of a plan with steps reports the output of the step it completed last, never a
      value left over from a plan that was replaced. */
  lemma ReportsLastOutput(o: Setup, plan: Plan, n: nat)
    requires Buildable(plan) && plan != [] && Ended(Head(o, plan, n)) && Head(o, plan, n).status.Running?
    ensures var completed := Head(o, plan, n).progress.completed;
      completed != [] && Report(Head(o, plan, n)) == Ok(completed[|completed| - 1].output)
  {
    hide Head;
    OutputsAreLast(o, plan, n);
  }
}
