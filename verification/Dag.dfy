/** The scheduler that turns a plan into batches of ready steps (orchestrator/dag.go). */
module Dag {
  import opened DependencyGraph
  import opened PlanGraph
  import opened Plans
  import opened Wrappers

  datatype DagNode = DagNode(index: nat, step: PlanStep, inDegree: int)

  // ----- in-degrees -----

  /** How many of the parents, counted with multiplicity, are not done. */
  ghost function Pending(parents: seq<nat>, done: set<nat>): nat {
    if parents == [] then 0
    else (if parents[0] in done then 0 else 1) + Pending(parents[1..], done)
  }

  lemma {:induction false} PendingAll(parents: seq<nat>)
    ensures Pending(parents, {}) == |parents|
  {
    if parents != [] {
      PendingAll(parents[1..]);
    }
  }

  lemma {:induction false} PendingZero(parents: seq<nat>, done: set<nat>)
    ensures Pending(parents, done) == 0 <==> forall p :: p in parents ==> p in done
  {
    if parents != [] {
      PendingZero(parents[1..], done);
      assert parents == [parents[0]] + parents[1..];
    }
  }

  /** Finishing a parent removes one pending entry for each of its edges. */
  lemma {:induction false} PendingDrops(parents: seq<nat>, done: set<nat>, p: nat)
    requires p !in done
    ensures Pending(parents, done + {p}) == Pending(parents, done) - multiset(parents)[p]
  {
    if parents != [] {
      PendingDrops(parents[1..], done, p);
      assert parents == [parents[0]] + parents[1..];
      assert multiset(parents) == multiset{parents[0]} + multiset(parents[1..]);
    }
  }

  function Kids(children: map<nat, seq<nat>>, p: nat): seq<nat> {
    if p in children then children[p] else []
  }

  /** children is g with every edge turned round. */
  ghost predicate Transposes(children: map<nat, seq<nat>>, g: Graph) {
    && (forall p, c :: c in Kids(children, p) ==> c < |g|)
    && (forall p, c: nat :: c < |g| ==> multiset(Kids(children, p))[c] == multiset(g[c])[p])
  }

  // ----- cycle detection -----

  ghost function Elems(s: seq<nat>): set<nat> {
    set x | x in s
  }

  /** The state of Kahn's algorithm. `order` is every step queued so far; edges out of `gone` have
      been removed and, of the edges out of the step at hand, those to the steps in `partly`. */
  ghost predicate KahnState(g: Graph, order: seq<nat>, gone: set<nat>, partly: multiset<nat>, deg: seq<int>) {
    && |deg| == |g|
    && Distinct(order)
    && gone <= Elems(order)
    && (forall i :: 0 <= i < |g| ==> 0 <= deg[i] == Pending(g[i], gone) - partly[i])
    && (forall i: nat :: i in order <==> i < |g| && deg[i] == 0)
    && ParentsFirst(g, order)
  }

  lemma KahnStarts(g: Graph, queue: seq<nat>, deg: seq<int>)
    requires |deg| == |g| && Distinct(queue)
    requires forall i :: 0 <= i < |g| ==> deg[i] == Pending(g[i], {})
    requires forall i: nat :: i in queue <==> i < |g| && deg[i] == 0
    ensures KahnState(g, queue, {}, multiset{}, deg)
  {
    forall k | 0 <= k < |queue|
      ensures queue[k] < |g| && forall p :: p !in g[queue[k]]
    {
      assert queue[k] in queue;
      PendingZero(g[queue[k]], {});
    }
  }

  /** Removing one edge from cur to child, and queueing the child if it was its last edge. */
  lemma KahnRemovesEdge(g: Graph, order: seq<nat>, gone: set<nat>, partly: multiset<nat>, deg: seq<int>, cur: nat,
                        child: nat)
    requires KahnState(g, order, gone, partly, deg)
    requires child < |g| && cur in order && cur !in gone
    requires partly[child] + 1 <= multiset(g[child])[cur]
    ensures deg[child] > 0
    ensures var grown := if deg[child] == 1 then order + [child] else order;
      KahnState(g, grown, gone, partly + multiset{child}, deg[child := deg[child] - 1])
  {
    PendingDrops(g[child], gone, cur);
    if deg[child] == 1 {
      PendingZero(g[child], gone + {cur});
      var longer := order + [child];
      forall k, p | 0 <= k < |longer| && longer[k] < |g| && p in g[longer[k]]
        ensures p in longer[..k]
      {
        if k < |order| {
          assert longer[..k] == order[..k];
        } else {
          assert longer[..k] == order;
        }
      }
    }
  }

  lemma KahnFinishesStep(g: Graph, order: seq<nat>, gone: set<nat>, kids: seq<nat>, deg: seq<int>, cur: nat)
    requires KahnState(g, order, gone, multiset(kids), deg)
    requires cur in order && cur !in gone
    requires forall c: nat :: c < |g| ==> multiset(kids)[c] == multiset(g[c])[cur]
    ensures KahnState(g, order, gone + {cur}, multiset{}, deg)
  {
    forall i | 0 <= i < |g|
      ensures deg[i] == Pending(g[i], gone + {cur})
    {
      PendingDrops(g[i], gone, cur);
    }
  }

  lemma PrefixCount(s: seq<nat>, c: nat)
    requires c < |s|
    ensures s[c] in s
    ensures multiset(s[..c + 1]) == multiset(s[..c]) + multiset{s[c]}
    ensures multiset(s[..c])[s[c]] + 1 <= multiset(s)[s[c]]
  {
    assert s[..c + 1] == s[..c] + [s[c]];
    assert s == s[..c + 1] + s[c + 1..];
  }

  /** One turn of the inner loop, with orderIn the steps queued before the loop and `added` those
      queued in it. */
  lemma KahnTurn(g: Graph, orderIn: seq<nat>, added: seq<nat>, gone: set<nat>, kids: seq<nat>, c: nat, deg: seq<int>,
                 cur: nat)
    requires c < |kids| && kids[c] < |g| && cur in orderIn && cur !in gone
    requires KahnState(g, orderIn + added, gone, multiset(kids[..c]), deg)
    requires multiset(kids)[kids[c]] == multiset(g[kids[c]])[cur]
    ensures deg[kids[c]] > 0
    ensures KahnState(g, orderIn + if deg[kids[c]] == 1 then added + [kids[c]] else added, gone,
                      multiset(kids[..c + 1]), deg[kids[c] := deg[kids[c]] - 1])
  {
    PrefixCount(kids, c);
    KahnRemovesEdge(g, orderIn + added, gone, multiset(kids[..c]), deg, cur, kids[c]);
    assert orderIn + (added + [kids[c]]) == orderIn + added + [kids[c]];
  }

  lemma KahnTakes(g: Graph, order: seq<nat>, head: nat, deg: seq<int>)
    requires head < |order| && KahnState(g, order, Elems(order[..head]), multiset{}, deg)
    ensures |order| <= |g| && order[head] < |g|
    ensures order[head] in order && order[head] !in Elems(order[..head])
  {
    assert order[head] in order;
    DistinctBelow(order, |g|);
  }

  lemma TakenGrows(order: seq<nat>, added: seq<nat>, head: nat)
    requires head < |order|
    ensures Elems((order + added)[..head + 1]) == Elems(order[..head]) + {order[head]}
    ensures order[head..][1..] + added == (order + added)[head + 1..]
  {
    assert (order + added)[..head + 1] == order[..head] + [order[head]];
  }

  /** With the queue empty, everything was queued exactly when there is no cycle. */
  lemma KahnDecides(g: Graph, order: seq<nat>, deg: seq<int>)
    requires WellFormed(g) && KahnState(g, order, Elems(order), multiset{}, deg)
    ensures |order| == |g| <==> Acyclic(g)
    ensures |order| == |g| ==> Topological(g, order)
  {
    DistinctBelow(order, |g|);
    if |order| == |g| {
      TopologicalIsAcyclic(g, order);
    } else {
      var stuck := set i: nat | i < |g| && i !in order;
      if stuck == {} {
        ElemsFit(order, Nodes(|g|));
      }
      forall i | i in stuck
        ensures exists p :: p in stuck && p in g[i]
      {
        PendingZero(g[i], Elems(order));
      }
      StuckSetHasCycle(g, stuck);
    }
  }

  /** First loop of cycle detection: copy the in-degrees and queue the steps without parents. */
  method CopyDegrees(nodes: array<DagNode>, tempDeg: array<int>, ghost g: Graph) returns (queue: seq<nat>)
    requires nodes.Length == tempDeg.Length == |g|
    requires forall i :: 0 <= i < |g| ==> nodes[i].inDegree == |g[i]|
    modifies tempDeg
    ensures KahnState(g, queue, {}, multiset{}, tempDeg[..])
  {
    queue := [];
    for i := 0 to nodes.Length
      invariant forall k :: 0 <= k < i ==> tempDeg[k] == Pending(g[k], {})
      invariant Distinct(queue)
      invariant forall k: nat :: k in queue <==> k < i && tempDeg[k] == 0
    {
      PendingAll(g[i]);
      tempDeg[i] := nodes[i].inDegree;
      assert i !in queue;
      if tempDeg[i] == 0 {
        queue := queue + [i];
      }
    }
    KahnStarts(g, queue, tempDeg[..]);
  }

  /** Inner loop of cycle detection: remove the edges out of cur, queueing children that have no
      edge left. orderIn is everything queued before, and `added` what is queued now. */
  method RemoveEdges(kids: seq<nat>, tempDeg: array<int>, queueIn: seq<nat>, ghost g: Graph, ghost orderIn: seq<nat>,
                     ghost gone: set<nat>, ghost cur: nat)
    returns (queue: seq<nat>, ghost added: seq<nat>)
    requires KahnState(g, orderIn, gone, multiset{}, tempDeg[..])
    requires cur in orderIn && cur !in gone
    requires forall c :: c in kids ==> c < |g|
    requires forall c: nat :: c < |g| ==> multiset(kids)[c] == multiset(g[c])[cur]
    modifies tempDeg
    ensures queue == queueIn + added
    ensures KahnState(g, orderIn + added, gone + {cur}, multiset{}, tempDeg[..])
  {
    queue, added := queueIn, [];
    assert orderIn + added == orderIn;
    for c := 0 to |kids|
      invariant queue == queueIn + added
      invariant KahnState(g, orderIn + added, gone, multiset(kids[..c]), tempDeg[..])
    {
      var child := kids[c];
      assert child in kids;
      ghost var deg := tempDeg[..];
      KahnTurn(g, orderIn, added, gone, kids, c, deg, cur);
      tempDeg[child] := tempDeg[child] - 1;
      assert tempDeg[..] == deg[child := deg[child] - 1];
      if tempDeg[child] == 0 {
        queue := queue + [child];
        added := added + [child];
      }
    }
    assert kids[..|kids|] == kids;
    KahnFinishesStep(g, orderIn + added, gone, kids, tempDeg[..], cur);
  }

  /** Kahn's algorithm: how many steps can be taken off the graph parents first. All of them can
      exactly when there is no cycle. */
  method Kahn(nodes: array<DagNode>, children: map<nat, seq<nat>>, ghost g: Graph) returns (reachable: nat)
    requires WellFormed(g) && nodes.Length == |g| && Transposes(children, g)
    requires forall i :: 0 <= i < |g| ==> nodes[i].inDegree == |g[i]|
    ensures reachable == |g| <==> Acyclic(g)
  {
    reachable := 0;
    var tempDeg := new int[nodes.Length];
    var queue := CopyDegrees(nodes, tempDeg, g);
    ghost var order := queue;
    assert Elems(order[..0]) == {};
    while |queue| > 0
      invariant reachable <= |order| && queue == order[reachable..]
      invariant KahnState(g, order, Elems(order[..reachable]), multiset{}, tempDeg[..])
      decreases |g| - reachable
    {
      var cur := queue[0];
      KahnTakes(g, order, reachable, tempDeg[..]);
      ghost var added;
      queue, added := RemoveEdges(Kids(children, cur), tempDeg, queue[1..], g, order, Elems(order[..reachable]), cur);
      TakenGrows(order, added, reachable);
      order := order + added;
      reachable := reachable + 1;
    }
    assert order[..reachable] == order;
    KahnDecides(g, order, tempDeg[..]);
  }

  // ----- the scheduler -----

  ghost predicate StartsReady(g: Graph, done: set<nat>, i: nat) {
    i < |g| && i !in done && forall p :: i < |g| && p in g[i] ==> p in done
  }

  /** The steps below n that can be launched next, by increasing index. */
  ghost function ReadyBelow(g: Graph, done: set<nat>, n: nat): seq<nat> {
    if n == 0 then [] else ReadyBelow(g, done, n - 1) + if StartsReady(g, done, n - 1) then [n - 1] else []
  }

  ghost function ReadyOf(g: Graph, done: set<nat>): seq<nat> {
    ReadyBelow(g, done, |g|)
  }

  lemma {:induction false} ReadyBelowLists(g: Graph, done: set<nat>, n: nat)
    ensures forall a, b :: 0 <= a < b < |ReadyBelow(g, done, n)| ==>
      ReadyBelow(g, done, n)[a] < ReadyBelow(g, done, n)[b]
    ensures forall i: nat :: i in ReadyBelow(g, done, n) <==> i < n && StartsReady(g, done, i)
  {
    if n > 0 {
      ReadyBelowLists(g, done, n - 1);
      var shorter := ReadyBelow(g, done, n - 1);
      assert forall a :: 0 <= a < |shorter| ==> shorter[a] in shorter;
    }
  }

  /** The scheduler invariant. The in-degree of a step is -1 exactly when it is done, and otherwise
      the number of its edges from parents that are not done. */
  ghost predicate SchedulerState(steps: Plan, done: set<nat>, children: map<nat, seq<nat>>, nodes: seq<DagNode>) {
    var g := GraphOf(steps);
    && |nodes| == |steps|
    && WellFormed(g) && Acyclic(g)
    && Transposes(children, g)
    && DoneClosed(g, done)
    && (forall i :: 0 <= i < |steps| ==>
          nodes[i] == DagNode(i, steps[i], if i in done then -1 else Pending(g[i], done)))
  }

  /** A step is only done after its parents. */
  ghost predicate DoneClosed(g: Graph, done: set<nat>) {
    && (forall i :: i in done ==> i < |g|)
    && (forall i, p :: i in done && i < |g| && p in g[i] ==> p in done)
  }

  lemma MarkedState(steps: Plan, done: set<nat>, children: map<nat, seq<nat>>, before: seq<DagNode>,
                    after: seq<DagNode>, idx: nat)
    requires SchedulerState(steps, done, children, before)
    requires StartsReady(GraphOf(steps), done, idx) && |after| == |before|
    requires forall i: nat :: i < |after| ==>
      var marked := if i == idx then -1 else before[i].inDegree;
      after[i] == before[i].(inDegree := marked - multiset(Kids(children, idx))[i])
    ensures SchedulerState(steps, done + {idx}, children, after)
  {
    var g := GraphOf(steps);
    forall i: nat | i < |steps|
      ensures after[i].inDegree == if i in done + {idx} then -1 else Pending(g[i], done + {idx})
    {
      PendingDrops(g[i], done, idx);
      assert multiset(Kids(children, idx))[i] == multiset(g[i])[idx];
      if i in done || i == idx {
        assert idx !in g[i];
      }
    }
  }

  /** Some step is ready whenever one is undone, so the engine never meets an empty batch. */
  lemma SomeStepReady(g: Graph, done: set<nat>)
    requires WellFormed(g) && Acyclic(g)
    requires exists i: nat :: i < |g| && i !in done
    ensures exists i :: StartsReady(g, done, i)
  {
    var undone := set i: nat | i < |g| && i !in done;
    var left: nat :| left < |g| && left !in done;
    assert left in undone;
    if forall i: nat :: !StartsReady(g, done, i) {
      forall i | i in undone
        ensures exists p :: p in undone && p in g[i]
      {
        assert !StartsReady(g, done, i);
      }
      StuckSetHasCycle(g, undone);
    }
  }

  method Decrement(nodes: array<DagNode>, kids: seq<nat>)
    requires forall c :: c in kids ==> c < nodes.Length
    modifies nodes
    ensures forall i :: 0 <= i < nodes.Length ==>
      nodes[i] == old(nodes[i]).(inDegree := old(nodes[i]).inDegree - multiset(kids)[i])
  {
    for c := 0 to |kids|
      invariant forall i :: 0 <= i < nodes.Length ==>
        nodes[i] == old(nodes[i]).(inDegree := old(nodes[i]).inDegree - multiset(kids[..c])[i])
    {
      PrefixCount(kids, c);
      var child := kids[c];
      nodes[child] := nodes[child].(inDegree := nodes[child].inDegree - 1);
    }
    assert kids[..|kids|] == kids;
  }

  class DagScheduler {
    var nodes: array<DagNode>
    var children: map<nat, seq<nat>>
    ghost var steps: Plan
    ghost var done: set<nat>

    ghost function Deps(): (g: Graph)
      reads this
      ensures |g| == |steps|
    {
      GraphOf(steps)
    }

    ghost predicate Valid()
      reads this, nodes
    {
      SchedulerState(steps, done, children, nodes[..])
    }

    constructor (nodes: array<DagNode>, children: map<nat, seq<nat>>, ghost steps: Plan)
      requires nodes.Length == |steps| && Buildable(steps) && Transposes(children, GraphOf(steps))
      requires forall i :: 0 <= i < |steps| ==> nodes[i] == DagNode(i, steps[i], |GraphOf(steps)[i]|)
      ensures Valid() && this.nodes == nodes && this.steps == steps && done == {}
    {
      this.nodes, this.children, this.steps, this.done := nodes, children, steps, {};
      new;
      BuildableGraphs(steps);
      forall i | 0 <= i < |steps|
        ensures nodes[i].inDegree == Pending(Deps()[i], {})
      {
        PendingAll(Deps()[i]);
      }
    }

    method ReadySteps() returns (ready: seq<nat>)
      requires Valid()
      ensures ready == ReadyOf(Deps(), done)
    {
      hide Transposes, Acyclic, GraphOf;
      ready := [];
      for i := 0 to nodes.Length
        invariant ready == ReadyBelow(Deps(), done, i)
      {
        PendingZero(Deps()[i], done);
        if nodes[i].inDegree == 0 {
          ready := ready + [i];
        }
      }
    }

    /** The engine marks a step only after ReadySteps returned it. */
    method MarkDone(idx: nat)
      requires Valid() && StartsReady(Deps(), done, idx)
      modifies this`done, nodes
      ensures Valid() && done == old(done) + {idx}
    {
      ghost var before := nodes[..];
      nodes[idx] := nodes[idx].(inDegree := -1);
      var kids := Kids(children, idx);
      Decrement(nodes, kids);
      MarkedState(steps, done, children, before, nodes[..], idx);
      done := done + {idx};
    }

    method Len() returns (n: nat)
      requires Valid()
      ensures n == |steps|
    {
      n := nodes.Length;
    }
  }

  // ----- construction -----

  /** Sequential fallback: step i depends on step i - 1. */
  method BuildSequential(steps: Plan, nodes: array<DagNode>) returns (children: map<nat, seq<nat>>)
    requires nodes.Length == |steps| && !DagMode(steps)
    modifies nodes
    ensures Transposes(children, GraphOf(steps))
    ensures forall i :: 0 <= i < |steps| ==> nodes[i] == DagNode(i, steps[i], |GraphOf(steps)[i]|)
  {
    children := map[];
    SequentialGraph(steps);
    ghost var g := GraphOf(steps);
    hide GraphOf, DagMode, Transposes;
    for i := 0 to |steps|
      invariant forall k :: 0 <= k < i ==> nodes[k] == DagNode(k, steps[k], |g[k]|)
      invariant forall p: nat :: Kids(children, p) == if p + 1 < i then [p + 1] else []
    {
      var inDeg := 0;
      if i > 0 {
        inDeg := 1;
        ghost var before := children;
        children := children[i - 1 := Kids(children, i - 1) + [i]];
        forall p: nat
          ensures Kids(children, p) == if p < i then [p + 1] else []
        {
          assert Kids(children, p) == if p == i - 1 then [i] else Kids(before, p);
        }
      }
      nodes[i] := DagNode(i, steps[i], inDeg);
    }
    SequentialTransposes(children, g);
  }

  lemma SequentialGraph(steps: Plan)
    requires !DagMode(steps)
    ensures forall k :: 0 <= k < |steps| ==> GraphOf(steps)[k] == if k == 0 then [] else [k - 1]
  {
  }

  lemma SequentialTransposes(children: map<nat, seq<nat>>, g: Graph)
    requires forall k :: 0 <= k < |g| ==> g[k] == if k == 0 then [] else [k - 1]
    requires forall p: nat :: Kids(children, p) == if p + 1 < |g| then [p + 1] else []
    ensures Transposes(children, g)
  {
    hide Kids;
    forall p, c: nat | c < |g|
      ensures multiset(Kids(children, p))[c] == multiset(g[c])[p]
    {
      CountOfOne(Kids(children, p), p + 1, c);
      if c > 0 {
        CountOfOne(g[c], c - 1, p);
      }
    }
  }

  lemma CountOfOne(s: seq<nat>, x: nat, y: nat)
    ensures s == [x] ==> multiset(s)[y] == if x == y then 1 else 0
    ensures s == [] ==> multiset(s)[y] == 0
  {
  }

  /** The index knows every step by its StepID. */
  ghost predicate IndexOfSteps(steps: Plan, idToIndex: map<string, nat>) {
    && (forall id :: id in idToIndex <==> Names(steps, id))
    && (forall id :: id in idToIndex ==> idToIndex[id] == IndexOf(steps, id))
  }

  lemma AllIndexed(steps: Plan, idToIndex: map<string, nat>)
    requires IdsUsable(steps, |steps|)
    requires forall id :: id in idToIndex <==> exists k :: 0 <= k < |steps| && steps[k].stepID == id
    requires forall k :: 0 <= k < |steps| ==> idToIndex[steps[k].stepID] == k
    ensures IndexOfSteps(steps, idToIndex)
  {
  }

  /** First loop of DAG mode: StepIDs must be non-empty and distinct. */
  method IndexIds(steps: Plan) returns (r: Result<map<string, nat>, DagError>)
    requires DagMode(steps)
    ensures match r
      case Ok(idToIndex) =>
        && IdsUsable(steps, |steps|)
        && IndexOfSteps(steps, idToIndex)
      case Err(e) => Rejects(steps, e)
  {
    hide DagMode, Names, IndexOf, IndexOfSteps;
    var idToIndex: map<string, nat> := map[];
    for i := 0 to |steps|
      invariant IdsUsable(steps, i)
      invariant forall id :: id in idToIndex <==> exists k :: 0 <= k < i && steps[k].stepID == id
      invariant forall k :: 0 <= k < i ==> idToIndex[steps[k].stepID] == k
    {
      var id := steps[i].stepID;
      if id == "" {
        return Err(MissingStepID(i));
      }
      if id in idToIndex {
        return Err(DuplicateStepID(i));
      }
      idToIndex := idToIndex[id := i];
    }
    AllIndexed(steps, idToIndex);
    r := Ok(idToIndex);
  }

  /** Edges from p to c among those into the steps before i and the first j into step i. */
  ghost function EdgeCount(g: Graph, i: nat, j: nat, p: nat, c: nat): nat
    requires c < |g|
  {
    if c < i then multiset(g[c])[p]
    else if c == i && j <= |g[c]| then multiset(g[c][..j])[p]
    else 0
  }

  ghost predicate PartlyTransposed(children: map<nat, seq<nat>>, g: Graph, i: nat, j: nat) {
    && (forall p, c :: c in Kids(children, p) ==> c < |g|)
    && (forall p, c: nat :: c < |g| ==> multiset(Kids(children, p))[c] == EdgeCount(g, i, j, p, c))
  }

  lemma NoEdges(g: Graph)
    ensures PartlyTransposed(map[], g, 0, 0)
  {
    assert |g| > 0 ==> g[0][..0] == [];
  }

  lemma AllEdges(children: map<nat, seq<nat>>, g: Graph)
    requires PartlyTransposed(children, g, |g|, 0)
    ensures Transposes(children, g)
  {
  }

  lemma KidAdded(children: map<nat, seq<nat>>, parent: nat, i: nat)
    ensures var grown := children[parent := Kids(children, parent) + [i]];
      && (forall p, c: nat ::
            multiset(Kids(grown, p))[c] == multiset(Kids(children, p))[c] + if p == parent && c == i then 1 else 0)
      && (forall p, c: nat :: c in Kids(grown, p) ==> c in Kids(children, p) || c == i)
  {
    var grown := children[parent := Kids(children, parent) + [i]];
    forall p: nat
      ensures Kids(grown, p) == if p == parent then Kids(children, p) + [i] else Kids(children, p)
    {
    }
  }

  lemma EdgeCounted(g: Graph, i: nat, j: nat, p: nat, c: nat)
    requires i < |g| && j < |g[i]| && c < |g|
    ensures EdgeCount(g, i, j + 1, p, c) == EdgeCount(g, i, j, p, c) + if p == g[i][j] && c == i then 1 else 0
  {
    PrefixCount(g[i], j);
  }

  lemma AddEdge(children: map<nat, seq<nat>>, g: Graph, i: nat, j: nat)
    requires i < |g| && j < |g[i]| && PartlyTransposed(children, g, i, j)
    ensures PartlyTransposed(children[g[i][j] := Kids(children, g[i][j]) + [i]], g, i, j + 1)
  {
    hide Kids, EdgeCount;
    KidAdded(children, g[i][j], i);
    forall p, c: nat | c < |g|
      ensures EdgeCount(g, i, j + 1, p, c) == EdgeCount(g, i, j, p, c) + if p == g[i][j] && c == i then 1 else 0
    {
      EdgeCounted(g, i, j, p, c);
    }
  }

  lemma AddStep(children: map<nat, seq<nat>>, g: Graph, i: nat)
    requires i < |g| && PartlyTransposed(children, g, i, |g[i]|)
    ensures PartlyTransposed(children, g, i + 1, 0)
  {
    assert g[i][..|g[i]|] == g[i];
    assert forall c: nat :: c < |g| ==> g[c][..0] == [];
  }

  lemma ParentsResolved(steps: Plan, i: nat)
    requires i < |steps| && DagMode(steps)
    ensures |GraphOf(steps)[i]| == |steps[i].dependsOn|
    ensures forall k :: 0 <= k < |steps[i].dependsOn| ==> GraphOf(steps)[i][k] == IndexOf(steps, steps[i].dependsOn[k])
  {
    assert GraphOf(steps)[i] == NamedParents(steps, steps[i].dependsOn);
  }

  lemma ParentFound(steps: Plan, idToIndex: map<string, nat>, i: nat, j: nat)
    requires i < |steps| && DagMode(steps) && IndexOfSteps(steps, idToIndex)
    requires j < |steps[i].dependsOn|
    ensures |GraphOf(steps)[i]| == |steps[i].dependsOn|
    ensures steps[i].dependsOn[j] in idToIndex <==> Names(steps, steps[i].dependsOn[j])
    ensures steps[i].dependsOn[j] in idToIndex ==> idToIndex[steps[i].dependsOn[j]] == GraphOf(steps)[i][j]
  {
    hide DagMode, Names, IndexOf, GraphOf;
    ParentsResolved(steps, i);
  }

  lemma NoEdgeYet(steps: Plan, i: nat)
    requires i < |steps| && DagMode(steps)
    ensures |GraphOf(steps)[i]| == |steps[i].dependsOn|
  {
    hide DagMode, GraphOf;
    ParentsResolved(steps, i);
  }

  lemma IsFirstUnknown(steps: Plan, deps: seq<string>, j: nat)
    requires j < |deps| && !Names(steps, deps[j]) && forall k :: 0 <= k < j ==> Names(steps, deps[k])
    ensures FirstUnknown(steps, deps, deps[j])
  {
    hide Names;
  }

  lemma NoneUnknown(steps: Plan, deps: seq<string>)
    requires forall k :: 0 <= k < |deps| ==> Names(steps, deps[k])
    ensures forall d :: d in deps ==> Names(steps, d)
  {
    hide Names;
  }

  /** The dependencies of step i, resolved into edges. */
  method BuildStepEdges(steps: Plan, idToIndex: map<string, nat>, i: nat, childrenIn: map<nat, seq<nat>>)
    returns (children: map<nat, seq<nat>>, inDeg: nat, unknown: Option<string>)
    requires i < |steps| && DagMode(steps) && IndexOfSteps(steps, idToIndex)
    requires PartlyTransposed(childrenIn, GraphOf(steps), i, 0)
    ensures unknown.None? ==>
      && (forall d :: d in steps[i].dependsOn ==> Names(steps, d))
      && inDeg == |GraphOf(steps)[i]|
      && PartlyTransposed(children, GraphOf(steps), i + 1, 0)
    ensures unknown.Some? ==> FirstUnknown(steps, steps[i].dependsOn, unknown.value)
  {
    hide *;
    var deps := steps[i].dependsOn;
    ghost var g := GraphOf(steps);
    NoEdgeYet(steps, i);
    children, inDeg := childrenIn, 0;
    for j := 0 to |deps|
      invariant inDeg == j
      invariant PartlyTransposed(children, g, i, j)
      invariant forall k :: 0 <= k < j ==> Names(steps, deps[k])
    {
      ParentFound(steps, idToIndex, i, j);
      if deps[j] !in idToIndex {
        IsFirstUnknown(steps, deps, j);
        return children, inDeg, Some(deps[j]);
      }
      var parentIdx := idToIndex[deps[j]];
      AddEdge(children, g, i, j);
      children := children[parentIdx := Kids(children, parentIdx) + [i]];
      inDeg := inDeg + 1;
    }
    AddStep(children, g, i);
    NoneUnknown(steps, deps);
    unknown := None;
  }

  /** Second loop of DAG mode: resolve the dependencies into edges. */
  method BuildEdges(steps: Plan, idToIndex: map<string, nat>, nodes: array<DagNode>)
    returns (r: Result<map<nat, seq<nat>>, DagError>)
    requires nodes.Length == |steps| && DagMode(steps) && IdsUsable(steps, |steps|) && IndexOfSteps(steps, idToIndex)
    modifies nodes
    ensures match r
      case Ok(children) =>
        && DependenciesNamed(steps)
        && Transposes(children, GraphOf(steps))
        && (forall i :: 0 <= i < |steps| ==> nodes[i] == DagNode(i, steps[i], |GraphOf(steps)[i]|))
      case Err(e) => e.UnknownDependency? && Rejects(steps, e)
  {
    var children: map<nat, seq<nat>> := map[];
    ghost var g := GraphOf(steps);
    NoEdges(g);
    hide PartlyTransposed, Transposes, GraphOf, DagMode;
    for i := 0 to |steps|
      invariant PartlyTransposed(children, g, i, 0)
      invariant forall k :: 0 <= k < i ==> nodes[k] == DagNode(k, steps[k], |g[k]|)
      invariant forall k, d :: 0 <= k < i && d in steps[k].dependsOn ==> Names(steps, d)
    {
      var inDeg, unknown;
      children, inDeg, unknown := BuildStepEdges(steps, idToIndex, i, children);
      if unknown.Some? {
        return Err(UnknownDependency(i, unknown.value));
      }
      nodes[i] := DagNode(i, steps[i], inDeg);
    }
    AllEdges(children, g);
    r := Ok(children);
  }

  /** Builds the scheduler, or reports the first check that fails. It succeeds exactly on the
      buildable plans. */
  method NewDagScheduler(steps: Plan) returns (r: Result<DagScheduler, DagError>)
    ensures r.Ok? <==> Buildable(steps)
    ensures r.Ok? ==>
      fresh(r.value) && fresh(r.value.nodes) && r.value.Valid() && r.value.steps == steps && r.value.done == {}
    ensures r.Err? ==> Rejects(steps, r.error)
  {
    var hasDag := false;
    for i := 0 to |steps|
      invariant hasDag <==> exists k :: 0 <= k < i && UsesDagFields(steps[k])
    {
      if UsesDagFields(steps[i]) {
        hasDag := true;
      }
    }
    var nodes := new DagNode[|steps|];
    var children: map<nat, seq<nat>>;
    if !hasDag {
      children := BuildSequential(steps, nodes);
    } else {
      var ids := IndexIds(steps);
      if ids.Err? {
        return Err(ids.error);
      }
      var edges := BuildEdges(steps, ids.value, nodes);
      if edges.Err? {
        return Err(edges.error);
      }
      children := edges.value;
      NamedGraphWellFormed(steps);
      var reachable := Kahn(nodes, children, GraphOf(steps));
      if reachable != nodes.Length {
        return Err(DependencyCycle);
      }
    }
    var scheduler := new DagScheduler(nodes, children, steps);
    r := Ok(scheduler);
  }
}
