/** The dependency graph a plan describes, and which plans the scheduler accepts
    (orchestrator/dag.go). */
module PlanGraph {
  import opened DependencyGraph
  import opened Plans

  datatype DagError =
    | MissingStepID(index: nat)
    | DuplicateStepID(index: nat)
    | UnknownDependency(index: nat, dep: string)
    | DependencyCycle

  ghost predicate DagMode(steps: Plan) {
    exists i :: 0 <= i < |steps| && UsesDagFields(steps[i])
  }

  predicate UsesDagFields(step: PlanStep) {
    step.stepID != "" || |step.dependsOn| > 0
  }

  ghost predicate IdsUsable(steps: Plan, upTo: nat)
    requires upTo <= |steps|
  {
    && (forall i :: 0 <= i < upTo ==> steps[i].stepID != "")
    && (forall i, j :: 0 <= i < j < upTo ==> steps[i].stepID != steps[j].stepID)
  }

  ghost predicate Names(steps: Plan, id: string) {
    exists k :: 0 <= k < |steps| && steps[k].stepID == id
  }

  ghost predicate DependenciesNamed(steps: Plan) {
    forall i, dep :: 0 <= i < |steps| && dep in steps[i].dependsOn ==> Names(steps, dep)
  }

  ghost function IndexOf(steps: Plan, id: string): nat {
    if k: nat :| k < |steps| && steps[k].stepID == id then k else |steps|
  }

  /** Parents of every step: the named dependencies in DAG mode, otherwise the previous step. A
      dependency that names no step becomes |steps|, outside the graph. */
  ghost function GraphOf(steps: Plan): (g: Graph)
    ensures |g| == |steps|
  {
    seq(|steps|, (i: nat) requires i < |steps| => ParentsOf(steps, i))
  }

  ghost function ParentsOf(steps: Plan, i: nat): seq<nat>
    requires i < |steps|
  {
    if !DagMode(steps) then (if i == 0 then [] else [i - 1])
    else NamedParents(steps, steps[i].dependsOn)
  }

  ghost function NamedParents(steps: Plan, deps: seq<string>): (parents: seq<nat>)
    ensures |parents| == |deps|
  {
    seq(|deps|, (j: nat) requires j < |deps| => IndexOf(steps, deps[j]))
  }

  /** Exactly the plans the scheduler accepts. */
  ghost predicate Buildable(steps: Plan) {
    DagMode(steps) ==>
      && IdsUsable(steps, |steps|)
      && DependenciesNamed(steps)
      && Acyclic(GraphOf(steps))
  }

  /** dep is the first of the dependencies that names no step. */
  ghost predicate FirstUnknown(steps: Plan, deps: seq<string>, dep: string) {
    exists j ::
      && 0 <= j < |deps| && deps[j] == dep && !Names(steps, dep)
      && forall k :: 0 <= k < j ==> Names(steps, deps[k])
  }

  /** The check that fails first, in source order, decides the error. */
  ghost predicate Rejects(steps: Plan, e: DagError) {
    && DagMode(steps)
    && match e {
         case MissingStepID(i) => i < |steps| && IdsUsable(steps, i) && steps[i].stepID == ""
         case DuplicateStepID(i) =>
           && i < |steps| && IdsUsable(steps, i) && steps[i].stepID != ""
           && exists j :: 0 <= j < i && steps[j].stepID == steps[i].stepID
         case UnknownDependency(i, dep) =>
           && IdsUsable(steps, |steps|)
           && i < |steps| && FirstUnknown(steps, steps[i].dependsOn, dep)
           && forall k, d :: 0 <= k < i && d in steps[k].dependsOn ==> Names(steps, d)
         case DependencyCycle =>
           IdsUsable(steps, |steps|) && DependenciesNamed(steps) && !Acyclic(GraphOf(steps))
       }
  }

  lemma BuildableGraphs(steps: Plan)
    requires Buildable(steps)
    ensures WellFormed(GraphOf(steps)) && Acyclic(GraphOf(steps))
  {
    var g := GraphOf(steps);
    if DagMode(steps) {
      NamedGraphWellFormed(steps);
    } else {
      var order := seq(|steps|, (i: nat) => i);
      forall k, p | 0 <= k < |order| && order[k] < |g| && p in g[order[k]]
        ensures p in order[..k]
      {
        assert order[..k][k - 1] == p;
      }
      forall i: nat
        ensures i in order <==> i < |g|
      {
        assert i < |g| ==> order[i] == i;
      }
      TopologicalIsAcyclic(g, order);
    }
  }

  lemma NamedGraphWellFormed(steps: Plan)
    requires DagMode(steps) && DependenciesNamed(steps)
    ensures WellFormed(GraphOf(steps))
  {
    var g := GraphOf(steps);
    forall i, p | 0 <= i < |g| && p in g[i]
      ensures p < |g|
    {
      var j :| 0 <= j < |g[i]| && g[i][j] == p;
      var dep := steps[i].dependsOn[j];
      assert dep in steps[i].dependsOn;
      assert Names(steps, dep);
    }
  }

  /** Cutting a DAG plan to the steps from `from` on gives an accepted plan exactly when no step
      kept depends on a step dropped. */
  lemma SuffixBuildable(steps: Plan, from: nat, suffix: Plan)
    requires Buildable(steps) && DagMode(steps) && from < |steps|
    requires |suffix| == |steps| - from
    requires forall i :: 0 <= i < |suffix| ==>
      suffix[i].stepID == steps[from + i].stepID && suffix[i].dependsOn == steps[from + i].dependsOn
    ensures Buildable(suffix) <==>
      forall i, dep :: from <= i < |steps| && dep in steps[i].dependsOn ==>
        exists k :: from <= k < |steps| && steps[k].stepID == dep
  {
    assert UsesDagFields(suffix[0]);
    var kept := forall i, dep :: from <= i < |steps| && dep in steps[i].dependsOn ==>
        exists k :: from <= k < |steps| && steps[k].stepID == dep;
    if kept {
      SuffixNames(steps, from, suffix);
      SuffixAcyclic(steps, from, suffix);
    } else {
      var i, dep :| from <= i < |steps| && dep in steps[i].dependsOn &&
        forall k :: from <= k < |steps| ==> steps[k].stepID != dep;
      assert dep in suffix[i - from].dependsOn && !Names(suffix, dep);
    }
  }

  lemma SuffixNames(steps: Plan, from: nat, suffix: Plan)
    requires from < |steps| && |suffix| == |steps| - from
    requires forall i :: 0 <= i < |suffix| ==>
      suffix[i].stepID == steps[from + i].stepID && suffix[i].dependsOn == steps[from + i].dependsOn
    requires forall i, dep :: from <= i < |steps| && dep in steps[i].dependsOn ==>
      exists k :: from <= k < |steps| && steps[k].stepID == dep
    ensures DependenciesNamed(suffix)
  {
    forall i, dep | 0 <= i < |suffix| && dep in suffix[i].dependsOn
      ensures Names(suffix, dep)
    {
      assert dep in steps[from + i].dependsOn;
      var k :| from <= k < |steps| && steps[k].stepID == dep;
      assert suffix[k - from].stepID == dep;
    }
  }

  lemma SuffixAcyclic(steps: Plan, from: nat, suffix: Plan)
    requires Buildable(steps) && DagMode(steps) && DagMode(suffix) && DependenciesNamed(suffix)
    requires from < |steps| && |suffix| == |steps| - from
    requires forall i :: 0 <= i < |suffix| ==>
      suffix[i].stepID == steps[from + i].stepID && suffix[i].dependsOn == steps[from + i].dependsOn
    ensures Acyclic(GraphOf(suffix))
  {
    var g, h := GraphOf(steps), GraphOf(suffix);
    forall i, p | 0 <= i < |h| && p in h[i]
      ensures p < |h| && from + p in g[from + i]
    {
      SuffixEdge(steps, from, suffix, i, p);
    }
    forall c | Cycle(h, c)
      ensures false
    {
      var _ := ShiftedCycle(g, h, from, c);
    }
  }

  lemma ShiftedCycle(g: Graph, h: Graph, from: nat, c: seq<nat>) returns (shifted: seq<nat>)
    requires |g| == from + |h| && Cycle(h, c)
    requires forall i, p :: 0 <= i < |h| && p in h[i] ==> p < |h| && from + p in g[from + i]
    ensures Cycle(g, shifted)
  {
    shifted := seq(|c|, (k: nat) requires k < |c| => from + c[k]);
  }

  /** Resolved in the suffix, a dependency names the same step, renumbered. */
  lemma SuffixEdge(steps: Plan, from: nat, suffix: Plan, i: nat, p: nat)
    requires Buildable(steps) && DagMode(steps) && DagMode(suffix) && DependenciesNamed(suffix)
    requires from < |steps| && |suffix| == |steps| - from
    requires forall k :: 0 <= k < |suffix| ==>
      suffix[k].stepID == steps[from + k].stepID && suffix[k].dependsOn == steps[from + k].dependsOn
    requires i < |suffix| && p in GraphOf(suffix)[i]
    ensures p < |suffix| && from + p in GraphOf(steps)[from + i]
  {
    hide Acyclic, DagMode;
    var parents := GraphOf(suffix)[i];
    var j :| 0 <= j < |parents| && parents[j] == p;
    var dep := suffix[i].dependsOn[j];
    assert Names(suffix, dep) by {
      assert dep in suffix[i].dependsOn;
    }
    assert steps[from + p].stepID == dep;
    assert GraphOf(steps)[from + i][j] == from + p;
  }

  // ----- accepted plans, in terms of the steps alone -----

  /** Steps each of which names the next one among its dependencies, back to the first. */
  ghost predicate NamedCycle(steps: Plan, c: seq<nat>) {
    && |c| >= 2 && c[0] == c[|c| - 1]
    && (forall k :: 0 <= k < |c| ==> c[k] < |steps|)
    && forall k :: 0 <= k < |c| - 1 ==> steps[c[k + 1]].stepID in steps[c[k]].dependsOn
  }

  /** The edges of a plan with StepIDs are the dependencies it declares, as often as it declares them. */
  lemma EdgesAreDependencies(steps: Plan, i: nat, p: nat)
    requires DagMode(steps) && IdsUsable(steps, |steps|) && i < |steps| && p < |steps|
    ensures p in GraphOf(steps)[i] <==> steps[p].stepID in steps[i].dependsOn
    ensures |GraphOf(steps)[i]| == |steps[i].dependsOn|
    ensures forall j :: 0 <= j < |steps[i].dependsOn| ==>
      (GraphOf(steps)[i][j] == p <==> steps[i].dependsOn[j] == steps[p].stepID)
  {
    var deps, parents := steps[i].dependsOn, GraphOf(steps)[i];
    assert parents == NamedParents(steps, deps);
    forall j | 0 <= j < |deps|
      ensures parents[j] == p <==> deps[j] == steps[p].stepID
    {
      assert deps[j] == steps[p].stepID ==> Names(steps, deps[j]);
    }
    if steps[p].stepID in deps {
      var j :| 0 <= j < |deps| && deps[j] == steps[p].stepID;
      assert parents[j] == p;
    }
    if p in parents {
      var j :| 0 <= j < |parents| && parents[j] == p;
      assert deps[j] == steps[p].stepID;
    }
  }

  lemma CyclesAreNamed(steps: Plan, c: seq<nat>)
    requires DagMode(steps) && IdsUsable(steps, |steps|)
    ensures Cycle(GraphOf(steps), c) <==> NamedCycle(steps, c)
  {
    hide GraphOf, DagMode, IdsUsable;
    if |c| >= 2 && forall k :: 0 <= k < |c| ==> c[k] < |steps| {
      forall k | 0 <= k < |c| - 1
        ensures c[k + 1] in GraphOf(steps)[c[k]] <==> steps[c[k + 1]].stepID in steps[c[k]].dependsOn
      {
        EdgesAreDependencies(steps, c[k], c[k + 1]);
      }
    }
  }

  lemma AcyclicMeans(steps: Plan)
    requires DagMode(steps) && IdsUsable(steps, |steps|)
    ensures Acyclic(GraphOf(steps)) <==> forall c :: !NamedCycle(steps, c)
  {
    hide GraphOf, NamedCycle, Cycle, DagMode, IdsUsable;
    forall c
      ensures Cycle(GraphOf(steps), c) <==> NamedCycle(steps, c)
    {
      CyclesAreNamed(steps, c);
    }
  }

  /** No step has a StepID or a dependency. */
  ghost predicate WithoutFields(steps: Plan) {
    forall i :: 0 <= i < |steps| ==> steps[i].stepID == "" && steps[i].dependsOn == []
  }

  /** Every step has a StepID of its own, every dependency is the StepID of some step, and dependencies go
      round in no circle. */
  ghost predicate ProperlyNamed(steps: Plan) {
    && (forall i :: 0 <= i < |steps| ==> steps[i].stepID != "")
    && (forall i, j :: 0 <= i < j < |steps| ==> steps[i].stepID != steps[j].stepID)
    && (forall i, dep :: 0 <= i < |steps| && dep in steps[i].dependsOn ==>
          exists k :: 0 <= k < |steps| && steps[k].stepID == dep)
    && forall c :: !NamedCycle(steps, c)
  }

  /** Exactly which plans are accepted. In particular one dependency is enough to make every StepID
      required. */
  lemma AcceptedExactly(steps: Plan)
    ensures Buildable(steps) <==> WithoutFields(steps) || ProperlyNamed(steps)
  {
    NoFields(steps);
    hide GraphOf, NamedCycle, Acyclic, DagMode;
    if DagMode(steps) {
      if IdsUsable(steps, |steps|) {
        AcyclicMeans(steps);
      }
      NamedMeans(steps);
    }
  }

  lemma NamedMeans(steps: Plan)
    ensures DependenciesNamed(steps) <==>
      forall i, dep :: 0 <= i < |steps| && dep in steps[i].dependsOn ==>
        exists k :: 0 <= k < |steps| && steps[k].stepID == dep
  {
    if forall i, dep :: 0 <= i < |steps| && dep in steps[i].dependsOn ==>
      exists k :: 0 <= k < |steps| && steps[k].stepID == dep
    {
      forall i, dep | 0 <= i < |steps| && dep in steps[i].dependsOn
        ensures Names(steps, dep)
      {
        var k :| 0 <= k < |steps| && steps[k].stepID == dep;
      }
    }
    if DependenciesNamed(steps) {
      forall i, dep | 0 <= i < |steps| && dep in steps[i].dependsOn
        ensures exists k :: 0 <= k < |steps| && steps[k].stepID == dep
      {
        assert Names(steps, dep);
      }
    }
  }

  lemma NoFields(steps: Plan)
    ensures DagMode(steps) <==> !WithoutFields(steps)
  {
    if i :| 0 <= i < |steps| && !(steps[i].stepID == "" && steps[i].dependsOn == []) {
      assert UsesDagFields(steps[i]);
    }
  }
}
