/** The dependency multigraph of a plan: g[i] lists the parents of step i, one entry per declared
    dependency, so duplicate edges and self-edges are kept. Everything here is about the graph
    alone; module Dag connects it to the scheduler. */
module DependencyGraph {
  type Graph = seq<seq<nat>>

  ghost predicate WellFormed(g: Graph) {
    forall i, p :: 0 <= i < |g| && p in g[i] ==> p < |g|
  }

  /** A dependency chain: every step on it depends on the next one. */
  ghost predicate Chain(g: Graph, c: seq<nat>) {
    && |c| >= 1
    && (forall k :: 0 <= k < |c| ==> c[k] < |g|)
    && (forall k :: 0 <= k < |c| - 1 ==> c[k + 1] in g[c[k]])
  }

  ghost predicate Cycle(g: Graph, c: seq<nat>) {
    Chain(g, c) && |c| >= 2 && c[0] == c[|c| - 1]
  }

  ghost predicate Acyclic(g: Graph) {
    forall c :: !Cycle(g, c)
  }

  ghost predicate Distinct(s: seq<nat>) {
    forall i, j :: 0 <= i < j < |s| ==> s[i] != s[j]
  }

  /** Every step of the sequence comes after all of its parents. */
  ghost predicate ParentsFirst(g: Graph, order: seq<nat>) {
    forall k, p :: 0 <= k < |order| && order[k] < |g| && p in g[order[k]] ==> p in order[..k]
  }

  ghost predicate Topological(g: Graph, order: seq<nat>) {
    && Distinct(order)
    && (forall i: nat :: i in order <==> i < |g|)
    && ParentsFirst(g, order)
  }

  ghost function Nodes(n: nat): (s: set<nat>)
    ensures |s| == n
    ensures forall i: nat :: i in s <==> i < n
  {
    if n == 0 then {} else
      var below := Nodes(n - 1);
      assert n - 1 !in below;
      below + {n - 1}
  }

  // ----- counting -----

  lemma {:induction false} DistinctFits(s: seq<nat>, elems: set<nat>)
    requires Distinct(s)
    requires forall x :: x in s ==> x in elems
    ensures |s| <= |elems|
    ensures |s| == |elems| ==> forall x :: x in elems ==> x in s
  {
    if s == [] {
      assert |elems| == 0 ==> elems == {};
    } else {
      var last := s[|s| - 1];
      assert last in s;
      forall x | x in s[..|s| - 1]
        ensures x in elems - {last}
      {
        assert x in s;
      }
      DistinctFits(s[..|s| - 1], elems - {last});
      forall x | |s| == |elems| && x in elems
        ensures x in s
      {
        if x != last {
          assert x in s[..|s| - 1];
        }
      }
    }
  }

  /** Nodes below n: a duplicate-free sequence of them has at most n entries, and has n only if
      it lists them all. */
  lemma DistinctBelow(s: seq<nat>, n: nat)
    requires Distinct(s)
    requires forall x :: x in s ==> x < n
    ensures |s| <= n
    ensures |s| == n ==> forall x: nat :: x < n ==> x in s
  {
    DistinctFits(s, Nodes(n));
  }

  lemma {:induction false} ElemsFit(s: seq<nat>, elems: set<nat>)
    requires forall x :: x in elems ==> x in s
    ensures |elems| <= |s|
  {
    if s == [] {
      assert elems == {};
    } else {
      var last := s[|s| - 1];
      forall x | x in elems - {last}
        ensures x in s[..|s| - 1]
      {
        assert x in s;
      }
      ElemsFit(s[..|s| - 1], elems - {last});
      assert elems <= (elems - {last}) + {last};
    }
  }

  // ----- cycles -----

  /** A chain longer than the number of steps repeats one, and the stretch between two visits is
      a cycle. */
  lemma LongChainHasCycle(g: Graph, c: seq<nat>)
    requires Chain(g, c) && |c| > |g|
    ensures !Acyclic(g)
  {
    if Distinct(c) {
      DistinctBelow(c, |g|);
    } else {
      var i, j :| 0 <= i < j < |c| && c[i] == c[j];
      var loop := c[i..j + 1];
      forall k | 0 <= k < |loop| - 1
        ensures loop[k + 1] in g[loop[k]]
      {
        assert loop[k] == c[i + k] && loop[k + 1] == c[i + k + 1];
      }
      assert Cycle(g, loop);
    }
  }

  lemma ChainPrepend(g: Graph, i: nat, c: seq<nat>)
    requires i < |g| && Chain(g, c) && c[0] in g[i]
    ensures Chain(g, [i] + c)
  {
    var longer := [i] + c;
    forall k | 0 <= k < |longer| - 1
      ensures longer[k + 1] in g[longer[k]]
    {
      assert k > 0 ==> longer[k] == c[k - 1] && longer[k + 1] == c[k];
    }
  }

  /** Following one parent each, forever inside the domain of `parent`, gives a chain of any
      length. */
  lemma {:induction false} WalkToParents(g: Graph, parent: map<nat, nat>, start: nat, len: nat) returns (c: seq<nat>)
    requires start in parent && len >= 1
    requires forall i :: i in parent ==> i < |g| && parent[i] in parent && parent[i] in g[i]
    ensures Chain(g, c) && |c| == len && c[0] == start
    decreases len
  {
    if len == 1 {
      c := [start];
    } else {
      var rest := WalkToParents(g, parent, parent[start], len - 1);
      c := [start] + rest;
      ChainPrepend(g, start, rest);
    }
  }

  /** If every member of a non-empty set has a parent in the set, there is a cycle. */
  lemma StuckSetHasCycle(g: Graph, stuck: set<nat>)
    requires stuck != {}
    requires forall i :: i in stuck ==> i < |g| && exists p :: p in stuck && p in g[i]
    ensures !Acyclic(g)
  {
    var parent := map i | i in stuck :: (var p :| p in stuck && p in g[i]; p);
    var start :| start in stuck;
    var c := WalkToParents(g, parent, start, |g| + 1);
    LongChainHasCycle(g, c);
  }

  /** Along a chain, positions in a topological order only go down. */
  lemma {:induction false} ChainDescends(g: Graph, order: seq<nat>, c: seq<nat>, at: nat) returns (end: nat)
    requires Distinct(order) && ParentsFirst(g, order)
    requires Chain(g, c) && at < |order| && order[at] == c[0]
    ensures end + |c| <= at + 1 && order[end] == c[|c| - 1]
  {
    if |c| == 1 {
      end := at;
    } else {
      assert c[1] in g[order[at]];
      assert c[1] in order[..at];
      var next :| 0 <= next < at && order[next] == c[1];
      assert Chain(g, c[1..]);
      end := ChainDescends(g, order, c[1..], next);
    }
  }

  lemma TopologicalIsAcyclic(g: Graph, order: seq<nat>)
    requires Topological(g, order)
    ensures Acyclic(g)
  {
    forall c | Cycle(g, c)
      ensures false
    {
      assert c[0] in order;
      var at :| 0 <= at < |order| && order[at] == c[0];
      var _ := ChainDescends(g, order, c, at);
    }
  }

  // ----- batches -----

  /** The steps finished after k batches when every batch runs all steps whose parents are done. */
  ghost function DoneAfter(g: Graph, k: nat): set<nat> {
    if k == 0 then {}
    else set i | 0 <= i < |g| && (forall p :: p in g[i] ==> p in DoneAfter(g, k - 1))
  }

  lemma {:induction false} DoneAfterGrows(g: Graph, k: nat)
    ensures DoneAfter(g, k) <= DoneAfter(g, k + 1)
  {
    if k > 0 {
      DoneAfterGrows(g, k - 1);
    }
  }

  /** A step is done after k batches exactly when no dependency chain from it has more than k
      steps: batches are dependency levels. */
  lemma {:induction false} DoneAfterIffShortChains(g: Graph, k: nat, i: nat)
    requires WellFormed(g) && i < |g|
    ensures i in DoneAfter(g, k) <==> forall c :: Chain(g, c) && c[0] == i ==> |c| <= k
  {
    if k == 0 {
      assert Chain(g, [i]) && [i][0] == i;
    } else if i in DoneAfter(g, k) {
      forall c | Chain(g, c) && c[0] == i
        ensures |c| <= k
      {
        if |c| > 1 {
          assert c[1] in g[i];
          DoneAfterIffShortChains(g, k - 1, c[1]);
          assert Chain(g, c[1..]) && c[1..][0] == c[1];
        }
      }
    } else {
      var p :| p in g[i] && p !in DoneAfter(g, k - 1);
      DoneAfterIffShortChains(g, k - 1, p);
      var c :| Chain(g, c) && c[0] == p && |c| > k - 1;
      ChainPrepend(g, i, c);
      assert ([i] + c)[0] == i;
    }
  }

  ghost predicate HasChain(g: Graph, i: nat, len: nat) {
    exists c :: Chain(g, c) && c[0] == i && |c| == len
  }

  /** Batch k (counting from 0) holds exactly the steps whose longest dependency chain has k + 1
      steps. */
  lemma BatchIsLevel(g: Graph, k: nat, i: nat)
    requires WellFormed(g) && i < |g|
    ensures i in DoneAfter(g, k + 1) - DoneAfter(g, k)
      <==> HasChain(g, i, k + 1) && forall c :: Chain(g, c) && c[0] == i ==> |c| <= k + 1
  {
    DoneAfterIffShortChains(g, k, i);
    DoneAfterIffShortChains(g, k + 1, i);
    if i in DoneAfter(g, k + 1) && i !in DoneAfter(g, k) {
      var c :| Chain(g, c) && c[0] == i && |c| > k;
      assert |c| == k + 1;
    }
  }

  /** In an acyclic graph |g| batches finish everything. */
  lemma AcyclicFinishes(g: Graph, i: nat)
    requires WellFormed(g) && Acyclic(g) && i < |g|
    ensures i in DoneAfter(g, |g|)
  {
    DoneAfterIffShortChains(g, |g|, i);
    forall c | Chain(g, c) && c[0] == i
      ensures |c| <= |g|
    {
      if |c| > |g| {
        LongChainHasCycle(g, c);
      }
    }
  }

  /** A schedule gives every step a round, later than the rounds of all its parents. */
  ghost predicate Schedule(g: Graph, round: seq<nat>) {
    && |round| == |g|
    && (forall i, p :: 0 <= i < |g| && p in g[i] ==> p < |g| && round[p] < round[i])
  }

  /** No schedule runs a step in an earlier round than its batch, so no schedule that fits in
      `rounds` rounds needs fewer rounds than the batches do. */
  lemma {:induction false} BatchesAreOptimal(g: Graph, round: seq<nat>, i: nat)
    requires WellFormed(g) && Schedule(g, round) && i < |g|
    ensures i in DoneAfter(g, round[i] + 1)
    decreases round[i]
  {
    forall p | p in g[i]
      ensures p in DoneAfter(g, round[i])
    {
      BatchesAreOptimal(g, round, p);
      DoneAfterMonotone(g, round[p] + 1, round[i]);
    }
  }

  lemma {:induction false} DoneAfterMonotone(g: Graph, a: nat, b: nat)
    requires a <= b
    ensures DoneAfter(g, a) <= DoneAfter(g, b)
    decreases b - a
  {
    if a < b {
      DoneAfterGrows(g, a);
      DoneAfterMonotone(g, a + 1, b);
    }
  }
}
