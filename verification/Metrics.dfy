/** The repair rate, computed from persisted step records alone (orchestrator/metrics.go). The records
    of one step are found again through their IDs. */
module Metrics {
  import opened Dag
  import opened Decimals
  import Engine
  import EngineRuns
  import opened Interleaving
  import opened Plans
  import opened StepExecution
  import opened StepLimits

  // ----- record IDs -----

  const ATTEMPT_MARKER := "-attempt-"

  function StepPrefix(runID: string, stepIndex: nat): string {
    runID + "-step-" + Decimal(stepIndex)
  }

  function StepRecordID(runID: string, stepIndex: nat, attempt: nat): string {
    StepPrefix(runID, stepIndex) + ATTEMPT_MARKER + Decimal(attempt)
  }

  predicate MarkerAt(s: string, i: int) {
    0 <= i <= |s| - |ATTEMPT_MARKER| && s[i..i + |ATTEMPT_MARKER|] == ATTEMPT_MARKER
  }

  /** Where the marker occurs last among the positions below n, or -1. */
  function LastMarkerBelow(s: string, n: nat): (i: int)
    ensures -1 <= i < n
    ensures i >= 0 ==> MarkerAt(s, i)
    ensures forall k :: i < k < n ==> !MarkerAt(s, k)
  {
    if n == 0 then -1 else if MarkerAt(s, n - 1) then n - 1 else LastMarkerBelow(s, n - 1)
  }

  function LogicalStepPrefix(stepID: string): string {
    var idx := LastMarkerBelow(stepID, |stepID|);
    if idx < 0 then "" else stepID[..idx]
  }

  lemma MarkerStarts(s: string, k: int)
    requires MarkerAt(s, k)
    ensures s[k] == '-' && s[k + 1] == 'a'
  {
    var found := s[k..k + |ATTEMPT_MARKER|];
    assert s[k] == found[0] && s[k + 1] == found[1];
  }

  /** Past its first character, the rest of a record ID holds no dash followed by a letter. */
  lemma RestOfRecordID(prefix: string, digits: string, k: nat)
    requires forall i :: 0 <= i < |digits| ==> IsDigit(digits[i])
    requires |prefix| < k < |prefix| + |digits|
    ensures var id := prefix + ATTEMPT_MARKER + digits; id[k] == '-' ==> id[k + 1] != 'a'
  {
    var id, from := prefix + ATTEMPT_MARKER + digits, |prefix| + |ATTEMPT_MARKER|;
    if k >= from {
      assert IsDigit(digits[k - from]) && id[k] == digits[k - from];
    } else {
      assert id[k] == ATTEMPT_MARKER[k - |prefix|];
      if k == from - 1 {
        assert IsDigit(digits[0]) && id[k + 1] == digits[0];
      }
    }
  }

  lemma MarkerInRecordID(prefix: string, digits: string)
    requires forall i :: 0 <= i < |digits| ==> IsDigit(digits[i])
    ensures MarkerAt(prefix + ATTEMPT_MARKER + digits, |prefix|)
    ensures forall k :: k > |prefix| ==> !MarkerAt(prefix + ATTEMPT_MARKER + digits, k)
  {
    var id := prefix + ATTEMPT_MARKER + digits;
    assert id[|prefix|..|prefix| + |ATTEMPT_MARKER|] == ATTEMPT_MARKER;
    forall k | |prefix| < k && MarkerAt(id, k)
      ensures false
    {
      MarkerStarts(id, k);
      RestOfRecordID(prefix, digits, k);
    }
  }

  /** The prefix of a record ID is recovered whatever the run ID is, even one that contains the
      marker itself. */
  lemma PrefixInvertsRecordID(runID: string, stepIndex: nat, attempt: nat)
    ensures LogicalStepPrefix(StepRecordID(runID, stepIndex, attempt)) == StepPrefix(runID, stepIndex)
  {
    var prefix, id := StepPrefix(runID, stepIndex), StepRecordID(runID, stepIndex, attempt);
    var idx := LastMarkerBelow(id, |id|);
    MarkerInRecordID(prefix, Decimal(attempt));
    hide MarkerAt, StepPrefix;
    assert idx == |prefix|;
    assert id[..|prefix|] == prefix;
  }

  lemma NoShorter(a: string, s: string, b: string, t: string)
    requires b != "" && !IsDigit(b[|b| - 1]) && a + s == b + t
    requires forall i :: 0 <= i < |s| ==> IsDigit(s[i])
    ensures |a| >= |b|
  {
    var whole := a + s;
    assert whole[|b| - 1] == (b + t)[|b| - 1] == b[|b| - 1];
    assert forall i :: |a| <= i < |whole| ==> whole[i] == s[i - |a|];
  }

  /** Digits after a character that is none are found again. */
  lemma TrailingDigits(a: string, s: string, b: string, t: string)
    requires a != "" && !IsDigit(a[|a| - 1]) && b != "" && !IsDigit(b[|b| - 1])
    requires forall i :: 0 <= i < |s| ==> IsDigit(s[i])
    requires forall i :: 0 <= i < |t| ==> IsDigit(t[i])
    requires a + s == b + t
    ensures a == b && s == t
  {
    NoShorter(a, s, b, t);
    NoShorter(b, t, a, s);
    var whole := a + s;
    assert a == whole[..|a|] == b;
    assert s == whole[|a|..] == t;
  }

  lemma StepPrefixInjective(runA: string, runB: string, a: nat, b: nat)
    requires StepPrefix(runA, a) == StepPrefix(runB, b)
    ensures runA == runB && a == b
  {
    var s, t := runA + "-step-", runB + "-step-";
    assert s[|s| - 1] == '-' && t[|t| - 1] == '-';
    TrailingDigits(s, Decimal(a), t, Decimal(b));
    assert s[..|s| - 6] == runA && t[..|t| - 6] == runB;
    DecimalInjective(a, b);
  }

  /** Different attempts, of any steps of any runs, have different record IDs. */
  lemma RecordIDsDistinct(runA: string, runB: string, stepA: nat, stepB: nat, attemptA: nat, attemptB: nat)
    requires StepRecordID(runA, stepA, attemptA) == StepRecordID(runB, stepB, attemptB)
    ensures runA == runB && stepA == stepB && attemptA == attemptB
  {
    PrefixInvertsRecordID(runA, stepA, attemptA);
    PrefixInvertsRecordID(runB, stepB, attemptB);
    StepPrefixInjective(runA, runB, stepA, stepB);
    SuffixInjective(StepPrefix(runA, stepA) + ATTEMPT_MARKER, attemptA, attemptB);
  }

  // ----- the computation -----

  datatype StepStatus = Pending | Succeeded | Failed

  datatype AgentStep = AgentStep(stepID: string, status: StepStatus)

  datatype StepGroup = StepGroup(hasFailed: bool, hasSucceeded: bool)

  /** The prefixes under which a record with the given status was persisted. */
  function GroupsWith(steps: seq<AgentStep>, status: StepStatus): set<string> {
    set s | s in steps && s.status == status && LogicalStepPrefix(s.stepID) != "" :: LogicalStepPrefix(s.stepID)
  }

  lemma GroupsWithAppended(steps: seq<AgentStep>, s: AgentStep, status: StepStatus)
    ensures GroupsWith(steps + [s], status) ==
      GroupsWith(steps, status)
      + if s.status == status && LogicalStepPrefix(s.stepID) != "" then {LogicalStepPrefix(s.stepID)} else {}
  {
    hide LogicalStepPrefix;
    assert forall r :: r in steps + [s] <==> r in steps || r == s;
    var p := LogicalStepPrefix(s.stepID);
    forall q | q in GroupsWith(steps, status)
      ensures q in GroupsWith(steps + [s], status)
    {
      var r :| r in steps && r.status == status && LogicalStepPrefix(r.stepID) == q && q != "";
      assert r in steps + [s];
    }
    if s.status == status && p != "" {
      assert s in steps + [s];
      assert p in GroupsWith(steps + [s], status);
    }
  }

  /** The groups say of each prefix what was persisted under it. */
  ghost predicate Grouped(groups: map<string, StepGroup>, steps: seq<AgentStep>) {
    && GroupsWith(steps, Failed) <= groups.Keys && GroupsWith(steps, Succeeded) <= groups.Keys
    && forall p :: p in groups ==>
         groups[p] == StepGroup(p in GroupsWith(steps, Failed), p in GroupsWith(steps, Succeeded))
  }

  method AddToGroups(groupsIn: map<string, StepGroup>, ghost before: seq<AgentStep>, s: AgentStep)
    returns (groups: map<string, StepGroup>)
    requires Grouped(groupsIn, before)
    ensures Grouped(groups, before + [s])
  {
    hide LogicalStepPrefix, GroupsWith;
    groups := groupsIn;
    GroupsWithAppended(before, s, Failed);
    GroupsWithAppended(before, s, Succeeded);
    var prefix := LogicalStepPrefix(s.stepID);
    if prefix == "" {
      return;
    }
    if prefix !in groups {
      groups := groups[prefix := StepGroup(false, false)];
    }
    if s.status == Failed {
      groups := groups[prefix := groups[prefix].(hasFailed := true)];
    }
    if s.status == Succeeded {
      groups := groups[prefix := groups[prefix].(hasSucceeded := true)];
    }
  }

  lemma OneMore(counted: set<string>, rest: set<string>, p: string)
    requires p in rest
    ensures |counted - (rest - {p})| == |counted - rest| + if p in counted then 1 else 0
  {
    if p in counted {
      assert counted - (rest - {p}) == (counted - rest) + {p};
    } else {
      assert counted - (rest - {p}) == counted - rest;
    }
  }

  /** Repairable: prefixes with a failed record. Repaired: those that also have a succeeded one. The
      groups are visited in whatever order the map yields. */
  method ComputeRepairRate(steps: seq<AgentStep>) returns (repairable: nat, repaired: nat)
    ensures repairable == |GroupsWith(steps, Failed)|
    ensures repaired == |GroupsWith(steps, Failed) * GroupsWith(steps, Succeeded)|
  {
    hide LogicalStepPrefix, GroupsWith;
    var groups: map<string, StepGroup> := map[];
    EmptyGrouped();
    for k := 0 to |steps|
      invariant Grouped(groups, steps[..k])
    {
      groups := AddToGroups(groups, steps[..k], steps[k]);
      assert steps[..k] + [steps[k]] == steps[..k + 1];
    }
    assert steps[..|steps|] == steps;
    ghost var failed, both := GroupsWith(steps, Failed), GroupsWith(steps, Failed) * GroupsWith(steps, Succeeded);
    repairable, repaired := 0, 0;
    var rest := groups.Keys;
    assert failed - rest == {} && both - rest == {};
    while rest != {}
      invariant rest <= groups.Keys && repairable == |failed - rest| && repaired == |both - rest|
      decreases rest
    {
      var p :| p in rest;
      OneMore(failed, rest, p);
      OneMore(both, rest, p);
      if groups[p].hasFailed {
        repairable := repairable + 1;
        if groups[p].hasSucceeded {
          repaired := repaired + 1;
        }
      }
      rest := rest - {p};
    }
    assert failed - rest == failed && both - rest == both;
  }

  lemma EmptyGrouped()
    ensures Grouped(map[], [])
  {
  }

  // ----- what it means for the records of one plan -----

  /** The records of one plan, as the steps of its batches interleave: every step that ran left
      exactly the records of its own run, in order. */
  ghost predicate LogOfPlan(w: World, jobs: seq<Job>, log: seq<StepRecord>) {
    && DistinctJobs(jobs)
    && (forall r :: r in log ==> exists j :: 0 <= j < |jobs| && jobs[j].index == r.step)
    && forall j :: 0 <= j < |jobs| ==> RecordsOf(log, jobs[j].index) == RunStep(w, jobs[j]).records
  }

  lemma {:induction false} RecordsOfConcat(log: seq<StepRecord>, more: seq<StepRecord>, step: nat)
    ensures RecordsOf(log + more, step) == RecordsOf(log, step) + RecordsOf(more, step)
  {
    if more == [] {
      assert log + more == log;
    } else {
      assert (log + more)[..|log + more| - 1] == log + more[..|more| - 1];
      RecordsOfConcat(log, more[..|more| - 1], step);
    }
  }

  lemma {:induction false} RecordsAreOwn(log: seq<StepRecord>, step: nat)
    ensures forall r :: r in RecordsOf(log, step) <==> r in log && r.step == step
  {
    if log != [] {
      RecordsAreOwn(log[..|log| - 1], step);
      assert log == log[..|log| - 1] + [log[|log| - 1]];
    }
  }

  lemma {:induction false} PlayLogsOwnSteps(w: World, jobs: seq<Job>, schedule: seq<nat>)
    requires DistinctJobs(jobs) && ScheduleOf(jobs, schedule)
    ensures forall r :: r in Play(w, jobs, schedule).log ==> exists j :: 0 <= j < |jobs| && jobs[j].index == r.step
  {
    if schedule != [] {
      var before, t := schedule[..|schedule| - 1], schedule[|schedule| - 1];
      PlayLogsOwnSteps(w, jobs, before);
      PlayKeepsTrack(w, jobs, before);
      var b := Play(w, jobs, before);
      assert TrackOf(w, jobs, b, t);
      hide Attempt, RunFrom;
      if b.threads[t].Writing? {
        assert forall r :: r in b.threads[t].records ==> jobs[t].index == r.step;
      }
    }
  }

  /** A finished batch of steps that did not run before extends the log of the plan, whatever the
      order in which its goroutines moved. */
  lemma BatchExtendsLog(w: World, jobs: seq<Job>, log: seq<StepRecord>, batch: seq<Job>, schedule: seq<nat>)
    requires LogOfPlan(w, jobs, log) && DistinctJobs(jobs + batch) && DistinctJobs(batch) && ScheduleOf(batch, schedule)
    requires forall t :: 0 <= t < |batch| ==> Play(w, batch, schedule).threads[t].Finished?
    ensures LogOfPlan(w, jobs + batch, log + Play(w, batch, schedule).log)
  {
    hide RunFrom, RecordsOf, Play;
    var more := Play(w, batch, schedule).log;
    var all := jobs + batch;
    PlayLogsOwnSteps(w, batch, schedule);
    OtherBatch(jobs, batch);
    forall r | r in log + more
      ensures exists j :: 0 <= j < |all| && all[j].index == r.step
    {
      if r in log {
        var j :| 0 <= j < |jobs| && jobs[j].index == r.step;
        assert all[j].index == r.step;
      } else {
        var j :| 0 <= j < |batch| && batch[j].index == r.step;
        assert all[|jobs| + j].index == r.step;
      }
    }
    forall j | 0 <= j < |all|
      ensures RecordsOf(log + more, all[j].index) == RunStep(w, all[j]).records
    {
      var step := all[j].index;
      RecordsOfConcat(log, more, step);
      RecordsAreOwn(log, step);
      RecordsAreOwn(more, step);
      if j < |jobs| {
        NoRecords(more, batch, step);
      } else {
        NoRecords(log, jobs, step);
        InterleavingIndependent(w, batch, schedule, j - |jobs|);
      }
    }
  }

  ghost predicate NotAmong(jobs: seq<Job>, step: nat) {
    forall j :: 0 <= j < |jobs| ==> jobs[j].index != step
  }

  lemma {:induction false} NoRecords(log: seq<StepRecord>, jobs: seq<Job>, step: nat)
    requires forall r :: r in log ==> exists j :: 0 <= j < |jobs| && jobs[j].index == r.step
    requires NotAmong(jobs, step)
    ensures RecordsOf(log, step) == []
  {
    if log != [] {
      assert log[|log| - 1] in log;
      NoRecords(log[..|log| - 1], jobs, step);
    }
  }

  lemma OtherBatch(jobs: seq<Job>, batch: seq<Job>)
    requires DistinctJobs(jobs + batch)
    ensures forall j :: 0 <= j < |jobs| ==> NotAmong(batch, jobs[j].index)
    ensures forall j :: 0 <= j < |batch| ==> NotAmong(jobs, batch[j].index)
  {
    var all := jobs + batch;
    forall i, j | 0 <= i < |jobs| && 0 <= j < |batch|
      ensures jobs[i].index != batch[j].index
    {
      assert all[i] == jobs[i] && all[|jobs| + j] == batch[j];
    }
  }

  /** At a loop head: the log of the current plan so far, by jobs of steps that are done. */
  ghost predicate LoggedSoFar(w: World, s: Engine.State, jobs: seq<Job>, log: seq<StepRecord>) {
    LogOfPlan(w, jobs, log) && forall j :: 0 <= j < |jobs| ==> jobs[j].index in s.done
  }

  lemma BatchIsNew(s: Engine.State, jobs: seq<Job>)
    requires DistinctJobs(jobs) && forall j :: 0 <= j < |jobs| ==> jobs[j].index in s.done
    ensures DistinctJobs(Engine.JobsOf(s)) && DistinctJobs(jobs + Engine.JobsOf(s))
    ensures forall j :: 0 <= j < |Engine.JobsOf(s)| ==> Engine.JobsOf(s)[j].index in Engine.ReadySteps(s)
  {
    Engine.ReadyInPlan(s);
  }

  lemma StillDone(jobs: seq<Job>, batch: seq<Job>, done: set<nat>, ready: seq<nat>)
    requires forall j :: 0 <= j < |jobs| ==> jobs[j].index in done
    requires forall j :: 0 <= j < |batch| ==> batch[j].index in ready
    ensures forall j :: 0 <= j < |jobs + batch| ==> (jobs + batch)[j].index in done + Elems(ready)
  {
  }

  /** Every turn of the engine extends the log of its plan by its batch, under every schedule of the
      goroutines, and whether or not a step of the batch fails. */
  lemma TurnExtendsLog(o: Engine.Setup, s: Engine.State, jobs: seq<Job>, log: seq<StepRecord>, schedule: seq<nat>)
    requires LoggedSoFar(o.world, s, jobs, log) && ScheduleOf(Engine.JobsOf(s), schedule)
    requires forall t :: 0 <= t < |Engine.JobsOf(s)| ==> Play(o.world, Engine.JobsOf(s), schedule).threads[t].Finished?
    ensures var batch, more := Engine.JobsOf(s), Play(o.world, Engine.JobsOf(s), schedule).log;
      && LogOfPlan(o.world, jobs + batch, log + more)
      && (EngineRuns.KindOf(o, s).Advances? ==> LoggedSoFar(o.world, Engine.Next(o, s), jobs + batch, log + more))
  {
    BatchIsNew(s, jobs);
    EngineRuns.TurnCases(o, s);
    hide LogOfPlan, Play, Engine.Next, Engine.JobsOf, Engine.ReadySteps;
    BatchExtendsLog(o.world, jobs, log, Engine.JobsOf(s), schedule);
    StillDone(jobs, Engine.JobsOf(s), s.done, Engine.ReadySteps(s));
  }

  function FailedSteps(log: seq<StepRecord>): set<nat> {
    set r | r in log && !r.succeeded :: r.step
  }

  function SucceededSteps(log: seq<StepRecord>): set<nat> {
    set r | r in log && r.succeeded :: r.step
  }

  /** Steps that failed and succeeded later in the log. */
  ghost predicate FailedThenSucceeded(log: seq<StepRecord>, step: nat) {
    exists i, j ::
      0 <= i < j < |log| && log[i].step == step && log[j].step == step && !log[i].succeeded && log[j].succeeded
  }

  predicate SuccessOnlyLast(records: seq<StepRecord>) {
    forall k :: 0 <= k < |records| - 1 ==> !records[k].succeeded
  }

  lemma OwnPosition(log: seq<StepRecord>, step: nat, j: nat) returns (k: nat)
    requires j < |log| && log[j].step == step
    ensures k < |RecordsOf(log, step)| && RecordsOf(log, step)[k] == log[j]
  {
    RecordsAreOwn(log, step);
    assert log[j] in log;
    k :| k < |RecordsOf(log, step)| && RecordsOf(log, step)[k] == log[j];
  }

  lemma EarlierFailed(records: seq<StepRecord>, last: StepRecord)
    requires SuccessOnlyLast(records + [last])
    ensures forall k :: 0 <= k < |records| ==> !records[k].succeeded
  {
    assert forall k :: 0 <= k < |records| ==> (records + [last])[k] == records[k];
  }

  /** Nothing of a step is logged after its success. */
  lemma {:induction false} SuccessEndsStep(log: seq<StepRecord>, step: nat, i: nat, j: nat)
    requires i < |log| && j < |log| && log[i].step == step && log[j].step == step && log[j].succeeded
    requires SuccessOnlyLast(RecordsOf(log, step))
    ensures i <= j
  {
    var before := log[..|log| - 1];
    if i < |log| - 1 && j < |log| - 1 {
      var own := RecordsOf(before, step);
      assert forall k :: 0 <= k < |own| ==> own[k] == RecordsOf(log, step)[k];
      SuccessEndsStep(before, step, i, j);
    } else if j < |log| - 1 {
      EarlierFailed(RecordsOf(before, step), log[i]);
      var k := OwnPosition(before, step, j);
    }
  }

  /** On the log of a plan, failing and succeeding is failing and then succeeding. */
  lemma RepairedMeansLater(w: World, jobs: seq<Job>, log: seq<StepRecord>, step: nat)
    requires LogOfPlan(w, jobs, log)
    ensures step in FailedSteps(log) * SucceededSteps(log) <==> FailedThenSucceeded(log, step)
  {
    hide RunFrom, RecordsOf;
    if step in FailedSteps(log) * SucceededSteps(log) {
      var f :| f in log && !f.succeeded && f.step == step;
      var s :| s in log && s.succeeded && s.step == step;
      var i :| 0 <= i < |log| && log[i] == f;
      var j :| 0 <= j < |log| && log[j] == s;
      var t :| 0 <= t < |jobs| && jobs[t].index == step;
      RunsAreWellShaped(w, jobs[t], 1, jobs[t].step.agentID);
      SuccessEndsStep(log, step, i, j);
    }
  }

  /** The persisted form of a log. */
  function Persisted(runID: string, log: seq<StepRecord>): (steps: seq<AgentStep>)
    ensures |steps| == |log|
  {
    seq(|log|, (k: nat) requires k < |log| =>
      AgentStep(StepRecordID(runID, log[k].step, log[k].attempt), if log[k].succeeded then Succeeded else Failed))
  }

  function Prefixes(runID: string, steps: set<nat>): set<string> {
    set k | k in steps :: StepPrefix(runID, k)
  }

  lemma {:induction false} PrefixesCount(runID: string, steps: set<nat>)
    ensures |Prefixes(runID, steps)| == |steps|
  {
    hide StepPrefix;
    if steps != {} {
      var k :| k in steps;
      var others := steps - {k};
      PrefixesCount(runID, others);
      forall j | j in others
        ensures StepPrefix(runID, j) != StepPrefix(runID, k)
      {
        if StepPrefix(runID, j) == StepPrefix(runID, k) {
          StepPrefixInjective(runID, runID, j, k);
        }
      }
      assert Prefixes(runID, steps) == Prefixes(runID, others) + {StepPrefix(runID, k)};
    }
  }

  lemma PrefixesMeet(runID: string, a: set<nat>, b: set<nat>)
    ensures Prefixes(runID, a) * Prefixes(runID, b) == Prefixes(runID, a * b)
  {
    hide StepPrefix;
    forall p | p in Prefixes(runID, a) * Prefixes(runID, b)
      ensures p in Prefixes(runID, a * b)
    {
      var j :| j in a && StepPrefix(runID, j) == p;
      var k :| k in b && StepPrefix(runID, k) == p;
      StepPrefixInjective(runID, runID, j, k);
    }
  }

  lemma PersistedGroups(runID: string, log: seq<StepRecord>)
    ensures GroupsWith(Persisted(runID, log), Failed) == Prefixes(runID, FailedSteps(log))
    ensures GroupsWith(Persisted(runID, log), Succeeded) == Prefixes(runID, SucceededSteps(log))
  {
    var steps := Persisted(runID, log);
    forall k | 0 <= k < |log|
      ensures LogicalStepPrefix(steps[k].stepID) == StepPrefix(runID, log[k].step) != ""
      ensures log[k] in log && steps[k] in steps
    {
      PrefixInvertsRecordID(runID, log[k].step, log[k].attempt);
    }
    hide LogicalStepPrefix, StepPrefix, StepRecordID;
    SameGroups(runID, log, Failed);
    SameGroups(runID, log, Succeeded);
  }

  function StepsWith(log: seq<StepRecord>, status: StepStatus): set<nat> {
    if status == Failed then FailedSteps(log) else if status == Succeeded then SucceededSteps(log) else {}
  }

  lemma SameGroups(runID: string, log: seq<StepRecord>, status: StepStatus)
    requires forall k :: 0 <= k < |log| ==>
      LogicalStepPrefix(Persisted(runID, log)[k].stepID) == StepPrefix(runID, log[k].step) != ""
    ensures GroupsWith(Persisted(runID, log), status) == Prefixes(runID, StepsWith(log, status))
  {
    hide LogicalStepPrefix, StepPrefix, StepRecordID;
    var steps := Persisted(runID, log);
    forall p | p in GroupsWith(steps, status)
      ensures p in Prefixes(runID, StepsWith(log, status))
    {
      var s :| s in steps && s.status == status && LogicalStepPrefix(s.stepID) == p;
      var k :| 0 <= k < |steps| && steps[k] == s;
      assert log[k] in log;
      assert log[k].step in StepsWith(log, status);
    }
    forall p | p in Prefixes(runID, StepsWith(log, status))
      ensures p in GroupsWith(steps, status)
    {
      var step :| step in StepsWith(log, status) && StepPrefix(runID, step) == p;
      var r :| r in log && r.step == step && r.succeeded == (status == Succeeded);
      var k :| 0 <= k < |log| && log[k] == r;
      assert steps[k] in steps;
    }
  }

  /** The metric means what it says: on the persisted log of any plan, under any interleaving of its
      batches, `repairable` counts the steps with a failed attempt and `repaired` those whose failure
      was followed by a success. */
  lemma RepairRateIsExact(runID: string, w: World, jobs: seq<Job>, log: seq<StepRecord>) returns (repaired: set<nat>)
    requires LogOfPlan(w, jobs, log)
    ensures forall step :: step in repaired <==> FailedThenSucceeded(log, step)
    ensures |GroupsWith(Persisted(runID, log), Failed)| == |FailedSteps(log)|
    ensures |GroupsWith(Persisted(runID, log), Failed) * GroupsWith(Persisted(runID, log), Succeeded)| == |repaired|
  {
    repaired := FailedSteps(log) * SucceededSteps(log);
    forall step: nat
      ensures step in repaired <==> FailedThenSucceeded(log, step)
    {
      RepairedMeansLater(w, jobs, log, step);
    }
    hide LogOfPlan, FailedSteps, SucceededSteps, FailedThenSucceeded, GroupsWith, Prefixes, Persisted;
    PersistedGroups(runID, log);
    PrefixesCount(runID, FailedSteps(log));
    PrefixesMeet(runID, FailedSteps(log), SucceededSteps(log));
    PrefixesCount(runID, repaired);
  }

  /** In terms of the runs: a step counts as repaired exactly when it succeeded after more than one
      recorded attempt. */
  lemma RepairedMeansRetried(w: World, jobs: seq<Job>, log: seq<StepRecord>, t: nat)
    requires LogOfPlan(w, jobs, log) && t < |jobs|
    ensures FailedThenSucceeded(log, jobs[t].index)
      <==> RunStep(w, jobs[t]).result.Ok? && |RunStep(w, jobs[t]).records| > 1
  {
    var step, outcome := jobs[t].index, RunStep(w, jobs[t]);
    RunsAreWellShaped(w, jobs[t], 1, jobs[t].step.agentID);
    RepairedMeansLater(w, jobs, log, step);
    hide RunFrom, RecordsOf;
    RecordsAreOwn(log, step);
    assert RecordsOf(log, step) == outcome.records;
    if outcome.result.Ok? && |outcome.records| > 1 {
      var first, last := outcome.records[0], outcome.records[|outcome.records| - 1];
      assert first in outcome.records && last in outcome.records;
      assert first in log && last in log;
    }
    if step in FailedSteps(log) * SucceededSteps(log) {
      var f :| f in log && !f.succeeded && f.step == step;
      var s :| s in log && s.succeeded && s.step == step;
      assert f in outcome.records && s in outcome.records;
    }
  }

  // ----- whole plans of actual runs -----

  /** A schedule under which every goroutine of the batch returned. */
  ghost predicate Completes(w: World, jobs: seq<Job>, schedule: seq<nat>) {
    ScheduleOf(jobs, schedule) && forall t :: 0 <= t < |jobs| ==> Play(w, jobs, schedule).threads[t].Finished?
  }

  /** One schedule for each of the turns from turn `from` on. */
  ghost predicate Scheduled(o: Engine.Setup, plan: Plan, from: nat, schedules: seq<seq<nat>>) {
    forall k :: 0 <= k < |schedules| ==>
      Completes(o.world, Engine.JobsOf(Engine.Head(o, plan, from + k)), schedules[k])
  }

  ghost function PlanJobs(o: Engine.Setup, plan: Plan, from: nat, n: nat): seq<Job> {
    if n == 0 then [] else PlanJobs(o, plan, from, n - 1) + Engine.JobsOf(Engine.Head(o, plan, from + n - 1))
  }

  /** What the first n of these turns log. */
  ghost function PlanLog(o: Engine.Setup, plan: Plan, from: nat, schedules: seq<seq<nat>>, n: nat): seq<StepRecord>
    requires Scheduled(o, plan, from, schedules) && n <= |schedules|
  {
    if n == 0 then []
    else
      var jobs := Engine.JobsOf(Engine.Head(o, plan, from + n - 1));
      assert Completes(o.world, Engine.JobsOf(Engine.Head(o, plan, from + (n - 1))), schedules[n - 1]);
      PlanLog(o, plan, from, schedules, n - 1) + Play(o.world, jobs, schedules[n - 1]).log
  }

  ghost predicate AdvancesAt(o: Engine.Setup, plan: Plan, n: nat) {
    EngineRuns.KindOf(o, Engine.Head(o, plan, n)).Advances?
  }

  /** Turns from..from + n belong to one plan: it starts with nothing done, and only the last of the turns
      may end it. */
  ghost predicate OnePlan(o: Engine.Setup, plan: Plan, from: nat, n: nat) {
    && Engine.Head(o, plan, from).done == {}
    && forall k: nat :: from <= k && k + 1 < from + n ==> AdvancesAt(o, plan, k)
  }

  /** The records logged by the batches of one plan of a run, under any schedules of their goroutines, are
      the log of that plan. */
  lemma {:induction false} RunsLogTheirPlans(o: Engine.Setup, plan: Plan, from: nat, schedules: seq<seq<nat>>, n: nat)
    requires Scheduled(o, plan, from, schedules) && n <= |schedules| && OnePlan(o, plan, from, n)
    ensures var jobs, log := PlanJobs(o, plan, from, n), PlanLog(o, plan, from, schedules, n);
      && LogOfPlan(o.world, jobs, log)
      && (n == 0 || EngineRuns.KindOf(o, Engine.Head(o, plan, from + n - 1)).Advances? ==>
            LoggedSoFar(o.world, Engine.Head(o, plan, from + n), jobs, log))
  {
    hide LogOfPlan, Engine.Next, Engine.JobsOf, EngineRuns.KindOf, Play;
    if n == 0 {
      NothingLogged(o.world);
    } else {
      var s := Engine.Head(o, plan, from + (n - 1));
      assert n > 1 ==> AdvancesAt(o, plan, from + (n - 2));
      RunsLogTheirPlans(o, plan, from, schedules, n - 1);
      assert Completes(o.world, Engine.JobsOf(s), schedules[n - 1]);
      TurnExtendsLog(o, s, PlanJobs(o, plan, from, n - 1), PlanLog(o, plan, from, schedules, n - 1), schedules[n - 1]);
    }
  }

  lemma NothingLogged(w: World)
    ensures LogOfPlan(w, [], [])
  {
  }

  /** So the repair rate of an actual run is exact plan by plan. */
  lemma RunRepairRate(runID: string, o: Engine.Setup, plan: Plan, from: nat, schedules: seq<seq<nat>>)
    returns (repaired: set<nat>)
    requires Scheduled(o, plan, from, schedules) && OnePlan(o, plan, from, |schedules|)
    ensures var log := PlanLog(o, plan, from, schedules, |schedules|);
      && (forall step :: step in repaired <==> FailedThenSucceeded(log, step))
      && |GroupsWith(Persisted(runID, log), Failed)| == |FailedSteps(log)|
      && |GroupsWith(Persisted(runID, log), Failed) * GroupsWith(Persisted(runID, log), Succeeded)| == |repaired|
  {
    hide *;
    var n := |schedules|;
    RunsLogTheirPlans(o, plan, from, schedules, n);
    repaired := RepairRateIsExact(runID, o.world, PlanJobs(o, plan, from, n), PlanLog(o, plan, from, schedules, n));
  }
}
