/** The goroutines of one batch (orchestrator/engine.go, orchestrator/step_executor.go), as a
    small-step machine. The threads share the attempt tracker, the record log and the call log; a
    schedule names the thread that moves next. */
module Interleaving {
  import opened StepExecution
  import opened StepLimits
  import opened Values
  import opened Wrappers

  /** Where a goroutine stands in its retry loop: before counting an attempt, before invoking the
      agent, before writing the records of the attempt, or returned. */
  datatype Thread =
    | Waiting(agentID: string)
    | Holding(attempt: nat, agentID: string)
    | Writing(turn: Turn, records: seq<StepRecord>)
    | Finished(result: Result<Option<Fields>, string>)

  datatype Batch = Batch(threads: seq<Thread>, attempts: map<nat, nat>, log: seq<StepRecord>, calls: seq<Call>)
  {
    function Count(stepIndex: nat): nat {
      if stepIndex in attempts then attempts[stepIndex] else 0
    }
  }

  /** Every goroutine of a batch runs a different step. */
  ghost predicate DistinctJobs(jobs: seq<Job>) {
    forall a, b :: 0 <= a < b < |jobs| ==> jobs[a].index != jobs[b].index
  }

  function Start(jobs: seq<Job>): Batch {
    Batch(seq(|jobs|, (t: nat) requires t < |jobs| => Waiting(jobs[t].step.agentID)), map[], [], [])
  }

  /** Thread t takes its next atomic step; a finished thread stays as it is. */
  function Move(w: World, jobs: seq<Job>, b: Batch, t: nat): Batch
    requires |b.threads| == |jobs| && t < |jobs|
  {
    var job := jobs[t];
    match b.threads[t]
    case Waiting(agentID) =>
      var n := b.Count(job.index) + 1;
      b.(attempts := b.attempts[job.index := n], threads := b.threads[t := Holding(n, agentID)])
    case Holding(attempt, agentID) =>
      var e := Attempt(w, job, attempt, agentID);
      b.(calls := b.calls + e.calls, threads := b.threads[t := Writing(e.turn, e.records)])
    case Writing(turn, records) =>
      b.(log := b.log + records,
         threads := b.threads[t := match turn
                                   case Finish(result) => Finished(result)
                                   case Again(next) => Waiting(next)])
    case Finished(_) => b
  }

  ghost predicate ScheduleOf(jobs: seq<Job>, schedule: seq<nat>) {
    forall k :: 0 <= k < |schedule| ==> schedule[k] < |jobs|
  }

  ghost function Play(w: World, jobs: seq<Job>, schedule: seq<nat>): (b: Batch)
    requires ScheduleOf(jobs, schedule)
    ensures |b.threads| == |jobs|
  {
    if schedule == [] then Start(jobs)
    else Move(w, jobs, Play(w, jobs, schedule[..|schedule| - 1]), schedule[|schedule| - 1])
  }

  // ----- one thread's share of the logs -----

  function RecordsOf(log: seq<StepRecord>, step: nat): seq<StepRecord> {
    if log == [] then []
    else RecordsOf(log[..|log| - 1], step) + if log[|log| - 1].step == step then [log[|log| - 1]] else []
  }

  function CallsOf(calls: seq<Call>, step: nat): seq<Call> {
    if calls == [] then []
    else CallsOf(calls[..|calls| - 1], step) + if calls[|calls| - 1].step == step then [calls[|calls| - 1]] else []
  }

  lemma AppendedRecords(log: seq<StepRecord>, more: seq<StepRecord>, owner: nat, step: nat)
    requires |more| <= 1 && forall r :: r in more ==> r.step == owner
    ensures RecordsOf(log + more, step) == RecordsOf(log, step) + if step == owner then more else []
  {
    if more == [] {
      assert log + more == log;
    } else {
      assert (log + more)[..|log|] == log && more[0] in more;
    }
  }

  lemma AppendedCalls(calls: seq<Call>, more: seq<Call>, owner: nat, step: nat)
    requires |more| <= 1 && forall c :: c in more ==> c.step == owner
    ensures CallsOf(calls + more, step) == CallsOf(calls, step) + if step == owner then more else []
  {
    if more == [] {
      assert calls + more == calls;
    } else {
      assert (calls + more)[..|calls|] == calls && more[0] in more;
    }
  }

  // ----- the invariant -----

  /** Thread t is somewhere on the one run its step makes alone: what it logged so far, extended by
      what it has still to do, is that run. */
  ghost predicate OnTrack(w: World, job: Job, thread: Thread, count: nat, calls: seq<Call>, log: seq<StepRecord>) {
    match thread
    case Waiting(agentID) => SoFar(w, job, 0, calls, log, count, agentID)
    case Holding(attempt, agentID) => attempt == count >= 1 && SoFar(w, job, 0, calls, log, count - 1, agentID)
    case Writing(Finish(result), records) =>
      |records| <= 1 && (forall r :: r in records ==> r.step == job.index)
      && RunStep(w, job) == StepOutcome(result, calls, log + records, count)
    case Writing(Again(next), records) =>
      |records| <= 1 && (forall r :: r in records ==> r.step == job.index)
      && SoFar(w, job, 0, calls, log + records, count, next)
    case Finished(result) => RunStep(w, job) == StepOutcome(result, calls, log, count)
  }

  ghost predicate TrackOf(w: World, jobs: seq<Job>, b: Batch, t: nat)
    requires |b.threads| == |jobs| && t < |jobs|
  {
    OnTrack(w, jobs[t], b.threads[t], b.Count(jobs[t].index), CallsOf(b.calls, jobs[t].index),
      RecordsOf(b.log, jobs[t].index))
  }

  ghost predicate AllOnTrack(w: World, jobs: seq<Job>, b: Batch) {
    |b.threads| == |jobs| && forall t :: 0 <= t < |jobs| ==> TrackOf(w, jobs, b, t)
  }

  /** The moving thread stays on its run. */
  lemma MoverOnTrack(w: World, job: Job, thread: Thread, count: nat, calls: seq<Call>, log: seq<StepRecord>)
    requires OnTrack(w, job, thread, count, calls, log)
    ensures match thread
      case Waiting(agentID) => OnTrack(w, job, Holding(count + 1, agentID), count + 1, calls, log)
      case Holding(attempt, agentID) =>
        var e := Attempt(w, job, attempt, agentID);
        OnTrack(w, job, Writing(e.turn, e.records), count, calls + e.calls, log)
      case Writing(Finish(result), records) => OnTrack(w, job, Finished(result), count, calls, log + records)
      case Writing(Again(next), records) => OnTrack(w, job, Waiting(next), count, calls, log + records)
      case Finished(_) => true
  {
    if thread.Holding? {
      Unroll(w, job, 0, calls, log, count - 1, thread.agentID);
      FinishMeans(w, job, count, thread.agentID);
    }
  }

  lemma CounterKeepsTrack(w: World, jobs: seq<Job>, b: Batch, t: nat)
    requires |b.threads| == |jobs| && t < |jobs| && TrackOf(w, jobs, b, t) && b.threads[t].Waiting?
    ensures TrackOf(w, jobs, Move(w, jobs, b, t), t)
  {
    hide SoFar, RunFrom, Attempt;
  }

  lemma CallerMoves(w: World, jobs: seq<Job>, b: Batch, t: nat)
    requires |b.threads| == |jobs| && t < |jobs| && b.threads[t].Holding?
    ensures var next := Move(w, jobs, b, t);
      var e := Attempt(w, jobs[t], b.threads[t].attempt, b.threads[t].agentID);
      && next.threads == b.threads[t := Writing(e.turn, e.records)]
      && next.calls == b.calls + e.calls && next.log == b.log && next.attempts == b.attempts
  {
    hide Attempt;
  }

  lemma CallerKeepsTrack(w: World, jobs: seq<Job>, b: Batch, t: nat)
    requires |b.threads| == |jobs| && t < |jobs| && TrackOf(w, jobs, b, t) && b.threads[t].Holding?
    ensures TrackOf(w, jobs, Move(w, jobs, b, t), t)
  {
    var step, attempt, agentID := jobs[t].index, b.threads[t].attempt, b.threads[t].agentID;
    HolderCounts(w, jobs[t], b.threads[t], b.Count(step), CallsOf(b.calls, step), RecordsOf(b.log, step));
    hide Attempt, CallsOf, RecordsOf, Move, OnTrack;
    MoverOnTrack(w, jobs[t], b.threads[t], b.Count(step), CallsOf(b.calls, step), RecordsOf(b.log, step));
    FinishMeans(w, jobs[t], attempt, agentID);
    AppendedCalls(b.calls, Attempt(w, jobs[t], attempt, agentID).calls, step, step);
    CallerMoves(w, jobs, b, t);
  }

  lemma HolderCounts(w: World, job: Job, thread: Thread, count: nat, calls: seq<Call>, log: seq<StepRecord>)
    requires OnTrack(w, job, thread, count, calls, log) && thread.Holding?
    ensures thread.attempt == count >= 1
  {
    hide SoFar;
  }

  lemma WriterKeepsTrack(w: World, jobs: seq<Job>, b: Batch, t: nat)
    requires |b.threads| == |jobs| && t < |jobs| && TrackOf(w, jobs, b, t) && b.threads[t].Writing?
    ensures TrackOf(w, jobs, Move(w, jobs, b, t), t)
  {
    var step, records := jobs[t].index, b.threads[t].records;
    MoverOnTrack(w, jobs[t], b.threads[t], b.Count(step), CallsOf(b.calls, step), RecordsOf(b.log, step));
    OwnRecords(w, jobs[t], b.threads[t], b.Count(step), CallsOf(b.calls, step), RecordsOf(b.log, step));
    hide OnTrack, CallsOf;
    AppendedRecords(b.log, records, step, step);
  }

  lemma OwnRecords(w: World, job: Job, thread: Thread, count: nat, calls: seq<Call>, log: seq<StepRecord>)
    requires OnTrack(w, job, thread, count, calls, log) && thread.Writing?
    ensures |thread.records| <= 1 && forall r :: r in thread.records ==> r.step == job.index
  {
    hide SoFar, RunFrom;
  }

  predicate MindsOwnStep(job: Job, thread: Thread) {
    && (thread.Holding? ==> thread.attempt >= 1)
    && (thread.Writing? ==> |thread.records| <= 1 && forall r :: r in thread.records ==> r.step == job.index)
  }

  /** A move by t leaves the share of every other thread alone. */
  lemma OthersUntouched(w: World, jobs: seq<Job>, b: Batch, t: nat, step: nat)
    requires |b.threads| == |jobs| && t < |jobs| && jobs[t].index != step
    requires MindsOwnStep(jobs[t], b.threads[t])
    ensures var next := Move(w, jobs, b, t);
      CallsOf(next.calls, step) == CallsOf(b.calls, step) && RecordsOf(next.log, step) == RecordsOf(b.log, step)
        && next.Count(step) == b.Count(step)
  {
    match b.threads[t] {
      case Waiting(_) =>
      case Holding(attempt, agentID) =>
        FinishMeans(w, jobs[t], attempt, agentID);
        hide Attempt;
        AppendedCalls(b.calls, Attempt(w, jobs[t], attempt, agentID).calls, jobs[t].index, step);
        assert CallsOf(b.calls, step) + [] == CallsOf(b.calls, step);
      case Writing(_, records) =>
        AppendedRecords(b.log, records, jobs[t].index, step);
        assert RecordsOf(b.log, step) + [] == RecordsOf(b.log, step);
      case Finished(_) =>
    }
  }

  lemma MoveKeepsTrack(w: World, jobs: seq<Job>, b: Batch, t: nat)
    requires DistinctJobs(jobs) && AllOnTrack(w, jobs, b) && t < |jobs|
    ensures AllOnTrack(w, jobs, Move(w, jobs, b, t))
  {
    assert TrackOf(w, jobs, b, t);
    assert MindsOwnStep(jobs[t], b.threads[t]);
    hide OnTrack, MindsOwnStep;
    match b.threads[t] {
      case Waiting(_) => CounterKeepsTrack(w, jobs, b, t);
      case Holding(_, _) => CallerKeepsTrack(w, jobs, b, t);
      case Writing(_, _) => WriterKeepsTrack(w, jobs, b, t);
      case Finished(_) =>
    }
    forall u | 0 <= u < |jobs| && u != t
      ensures TrackOf(w, jobs, Move(w, jobs, b, t), u)
    {
      assert TrackOf(w, jobs, b, u);
      OthersUntouched(w, jobs, b, t, jobs[u].index);
    }
  }

  lemma {:induction false} PlayKeepsTrack(w: World, jobs: seq<Job>, schedule: seq<nat>)
    requires DistinctJobs(jobs) && ScheduleOf(jobs, schedule)
    ensures AllOnTrack(w, jobs, Play(w, jobs, schedule))
  {
    if schedule != [] {
      PlayKeepsTrack(w, jobs, schedule[..|schedule| - 1]);
      MoveKeepsTrack(w, jobs, Play(w, jobs, schedule[..|schedule| - 1]), schedule[|schedule| - 1]);
    } else {
      forall t | 0 <= t < |jobs|
        ensures SoFar(w, jobs[t], 0, [], [], 0, jobs[t].step.agentID)
      {
      }
    }
  }

  // ----- what every interleaving agrees on -----

  /** Whatever the schedule, a goroutine that returned left in its result slot, in the record log and
      in the call log exactly what its step does when run alone. */
  lemma InterleavingIndependent(w: World, jobs: seq<Job>, schedule: seq<nat>, t: nat)
    requires DistinctJobs(jobs) && ScheduleOf(jobs, schedule) && t < |jobs|
    requires Play(w, jobs, schedule).threads[t].Finished?
    ensures var b, alone := Play(w, jobs, schedule), RunStep(w, jobs[t]);
      && b.threads[t] == Finished(alone.result)
      && RecordsOf(b.log, jobs[t].index) == alone.records
      && CallsOf(b.calls, jobs[t].index) == alone.calls
      && b.Count(jobs[t].index) == alone.attempts
  {
    PlayKeepsTrack(w, jobs, schedule);
    assert TrackOf(w, jobs, Play(w, jobs, schedule), t);
    hide Play, RunFrom;
  }

  /** The moves a goroutine has still to make. */
  function MovesLeft(w: World, job: Job, thread: Thread, count: nat): nat {
    match thread
    case Waiting(agentID) => 3 * RunFrom(w, job, count + 1, agentID).attempts
    case Holding(attempt, agentID) =>
      if attempt == 0 then 0 else AtLeastOne(3 * RunFrom(w, job, attempt, agentID).attempts - 1)
    case Writing(Finish(_), _) => 1
    case Writing(Again(next), _) => 1 + 3 * RunFrom(w, job, count + 1, next).attempts
    case Finished(_) => 0
  }

  function Turns(schedule: seq<nat>, t: nat): nat {
    if schedule == [] then 0
    else Turns(schedule[..|schedule| - 1], t) + if schedule[|schedule| - 1] == t then 1 else 0
  }

  lemma RunsTakeAttempts(w: World, job: Job, attempt: nat, agentID: string)
    requires attempt >= 1
    ensures RunFrom(w, job, attempt, agentID).attempts >= 1
  {
  }

  lemma MoveCounts(w: World, jobs: seq<Job>, b: Batch, t: nat, u: nat)
    requires DistinctJobs(jobs) && |b.threads| == |jobs| && t < |jobs| && u < |jobs| && TrackOf(w, jobs, b, u)
    ensures var next := Move(w, jobs, b, t);
      var before := MovesLeft(w, jobs[u], b.threads[u], b.Count(jobs[u].index));
      MovesLeft(w, jobs[u], next.threads[u], next.Count(jobs[u].index)) ==
        if u == t && before > 0 then before - 1 else before
    ensures MovesLeft(w, jobs[u], b.threads[u], b.Count(jobs[u].index)) == 0 ==> b.threads[u].Finished?
  {
    hide Attempt, RunFrom;
    match b.threads[u] {
      case Waiting(agentID) =>
        RunsTakeAttempts(w, jobs[u], b.Count(jobs[u].index) + 1, agentID);
      case Holding(attempt, agentID) =>
        RunsTakeAttempts(w, jobs[u], attempt, agentID);
        if u == t {
          HoldingCounts(w, jobs[u], attempt, agentID);
        }
      case Writing(_, _) =>
      case Finished(_) =>
    }
  }

  lemma HoldingCounts(w: World, job: Job, attempt: nat, agentID: string)
    requires attempt >= 1
    ensures var e := Attempt(w, job, attempt, agentID);
      MovesLeft(w, job, Holding(attempt, agentID), attempt) ==
        MovesLeft(w, job, Writing(e.turn, e.records), attempt) + 1
  {
    hide Attempt;
    var e := Attempt(w, job, attempt, agentID);
    if e.turn.Again? {
      RunsTakeAttempts(w, job, attempt + 1, e.turn.agentID);
    }
  }

  lemma {:induction false} MovesLeftAfter(w: World, jobs: seq<Job>, schedule: seq<nat>, t: nat)
    requires DistinctJobs(jobs) && ScheduleOf(jobs, schedule) && t < |jobs|
    ensures var b := Play(w, jobs, schedule);
      var total := 3 * RunStep(w, jobs[t]).attempts;
      MovesLeft(w, jobs[t], b.threads[t], b.Count(jobs[t].index)) ==
        if Turns(schedule, t) >= total then 0 else total - Turns(schedule, t)
  {
    if schedule != [] {
      var before := schedule[..|schedule| - 1];
      MovesLeftAfter(w, jobs, before, t);
      PlayKeepsTrack(w, jobs, before);
      assert TrackOf(w, jobs, Play(w, jobs, before), t);
      MoveCounts(w, jobs, Play(w, jobs, before), schedule[|schedule| - 1], t);
    }
  }

  /** No goroutine blocks another: thread t has returned exactly when the schedule gave it three
      moves for each of the attempts its step makes. So every fair schedule ends the batch. */
  lemma FinishedExactlyWhenScheduled(w: World, jobs: seq<Job>, schedule: seq<nat>, t: nat)
    requires DistinctJobs(jobs) && ScheduleOf(jobs, schedule) && t < |jobs|
    ensures Play(w, jobs, schedule).threads[t].Finished? <==> Turns(schedule, t) >= 3 * RunStep(w, jobs[t]).attempts
  {
    MovesLeftAfter(w, jobs, schedule, t);
    PlayKeepsTrack(w, jobs, schedule);
    assert TrackOf(w, jobs, Play(w, jobs, schedule), t);
    MoveCounts(w, jobs, Play(w, jobs, schedule), t, t);
  }
}
