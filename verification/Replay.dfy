/** Replaying recorded tool calls (tools/replay_executor.go): a scan over flagged entries that
    behaves as one first-in-first-out queue per (tool, input) pair. */
module Replay {
  import opened DependencyGraph
  import opened ToolRecords
  import opened Values
  import opened Wrappers

  datatype ReplayEntry = ReplayEntry(inputJSON: string, output: Fields, consumed: bool)

  type Entries = map<string, seq<ReplayEntry>>

  function EntriesOf(entries: Entries, tool: string): seq<ReplayEntry> {
    if tool in entries then entries[tool] else []
  }

  // ----- the operations as functions -----

  /** The first unconsumed entry with the given input, or |list|. */
  function FirstMatch(list: seq<ReplayEntry>, input: string): (i: nat)
    ensures i <= |list|
    ensures i < |list| ==> !list[i].consumed && list[i].inputJSON == input
    ensures forall k :: 0 <= k < i ==> list[k].consumed || list[k].inputJSON != input
  {
    if list == [] then 0
    else if !list[0].consumed && list[0].inputJSON == input then 0
    else 1 + FirstMatch(list[1..], input)
  }

  datatype Taken = Taken(output: Option<Fields>, entries: Entries)

  function Take(entries: Entries, tool: string, input: string): Taken {
    var list := EntriesOf(entries, tool);
    var i := FirstMatch(list, input);
    if i < |list| then Taken(Some(list[i].output), entries[tool := list[i := list[i].(consumed := true)]])
    else Taken(None, entries)
  }

  function AddEntry(entries: Entries, tool: string, entry: ReplayEntry): Entries {
    entries[tool := EntriesOf(entries, tool) + [entry]]
  }

  /** The entries of the first k records; failed calls are left out. None if an output is corrupt. */
  function Load(decode: string -> Option<Fields>, records: seq<ToolCallRecord>, k: nat): Option<Entries>
    requires k <= |records|
  {
    if k == 0 then Some(map[])
    else
      var before := Load(decode, records, k - 1);
      var rec := records[k - 1];
      if before.None? || !rec.succeeded then before
      else
        var output := decode(rec.output);
        if output.None? then None
        else Some(AddEntry(before.value, rec.toolName, ReplayEntry(rec.input, output.value, false)))
  }

  lemma {:induction false} CorruptStays(decode: string -> Option<Fields>, records: seq<ToolCallRecord>, k: nat, n: nat)
    requires k <= n <= |records| && Load(decode, records, k).None?
    ensures Load(decode, records, n).None?
  {
    if k < n {
      CorruptStays(decode, records, k, n - 1);
    }
  }

  // ----- counting -----

  function CountUnconsumed(list: seq<ReplayEntry>): nat {
    if list == [] then 0 else CountUnconsumed(list[..|list| - 1]) + if list[|list| - 1].consumed then 0 else 1
  }

  ghost function CountOver(entries: Entries, tools: set<string>): nat {
    if tools == {} then 0
    else
      var t :| t in tools;
      CountOver(entries, tools - {t}) + CountUnconsumed(EntriesOf(entries, t))
  }

  ghost function TotalUnconsumed(entries: Entries): nat {
    CountOver(entries, entries.Keys)
  }

  /** The order in which the tools are counted does not matter. */
  lemma {:induction false} CountPick(entries: Entries, tools: set<string>, x: string)
    requires x in tools
    ensures CountOver(entries, tools) == CountOver(entries, tools - {x}) + CountUnconsumed(EntriesOf(entries, x))
  {
    var t :| t in tools
      && CountOver(entries, tools) == CountOver(entries, tools - {t}) + CountUnconsumed(EntriesOf(entries, t));
    if t != x {
      CountPick(entries, tools - {t}, x);
      CountPick(entries, tools - {x}, t);
      assert tools - {t} - {x} == tools - {x} - {t};
    }
  }

  lemma {:induction false} CountFrame(a: Entries, b: Entries, tools: set<string>)
    requires forall t :: t in tools ==> CountUnconsumed(EntriesOf(a, t)) == CountUnconsumed(EntriesOf(b, t))
    ensures CountOver(a, tools) == CountOver(b, tools)
  {
    if tools != {} {
      var t :| t in tools;
      CountPick(a, tools, t);
      CountPick(b, tools, t);
      CountFrame(a, b, tools - {t});
    }
  }

  /** Changing the list of one tool changes the total by the change of its own count. */
  lemma TotalChange(entries: Entries, tool: string, list: seq<ReplayEntry>)
    ensures TotalUnconsumed(entries[tool := list]) + CountUnconsumed(EntriesOf(entries, tool)) ==
      TotalUnconsumed(entries) + CountUnconsumed(list)
  {
    var changed := entries[tool := list];
    var others := entries.Keys - {tool};
    assert changed.Keys - {tool} == others;
    CountPick(changed, changed.Keys, tool);
    CountFrame(entries, changed, others);
    if tool in entries {
      CountPick(entries, entries.Keys, tool);
    } else {
      assert others == entries.Keys;
    }
  }

  lemma {:induction false} CountFlag(list: seq<ReplayEntry>, i: nat)
    requires i < |list| && !list[i].consumed
    ensures CountUnconsumed(list[i := list[i].(consumed := true)]) + 1 == CountUnconsumed(list)
  {
    var flagged := list[i := list[i].(consumed := true)];
    var n := |list| - 1;
    if i == n {
      assert flagged[..n] == list[..n];
    } else {
      CountFlag(list[..n], i);
      assert flagged[..n] == list[..n][i := list[i].(consumed := true)];
    }
  }

  /** A replayed call uses up one record, and a miss changes nothing. */
  lemma TakeConserves(entries: Entries, tool: string, input: string)
    ensures var t := Take(entries, tool, input);
      if t.output.Some? then TotalUnconsumed(t.entries) + 1 == TotalUnconsumed(entries) else t.entries == entries
  {
    var list := EntriesOf(entries, tool);
    var i := FirstMatch(list, input);
    if i < |list| {
      CountFlag(list, i);
      TotalChange(entries, tool, list[i := list[i].(consumed := true)]);
    }
  }

  lemma SucceededStep(records: seq<ToolCallRecord>, k: nat)
    requires 0 < k <= |records|
    ensures Succeeded(records[..k]) ==
      if records[k - 1].succeeded then Succeeded(records[..k - 1]) + [records[k - 1]] else Succeeded(records[..k - 1])
  {
    assert records[..k][..k - 1] == records[..k - 1];
  }

  lemma AddCounts(entries: Entries, tool: string, entry: ReplayEntry)
    requires !entry.consumed
    ensures TotalUnconsumed(AddEntry(entries, tool, entry)) == TotalUnconsumed(entries) + 1
  {
    var list := EntriesOf(entries, tool);
    assert (list + [entry])[..|list|] == list;
    TotalChange(entries, tool, list + [entry]);
  }

  lemma NothingCounts()
    ensures TotalUnconsumed(map[]) == 0
  {
  }

  lemma {:induction false} LoadCounts(decode: string -> Option<Fields>, records: seq<ToolCallRecord>, k: nat)
    requires k <= |records| && Load(decode, records, k).Some?
    ensures TotalUnconsumed(Load(decode, records, k).value) == |Succeeded(records[..k])|
  {
    hide TotalUnconsumed, AddEntry, Succeeded;
    if k > 0 {
      LoadCounts(decode, records, k - 1);
      SucceededStep(records, k);
      var rec := records[k - 1];
      if rec.succeeded {
        AddCounts(Load(decode, records, k - 1).value, rec.toolName,
          ReplayEntry(rec.input, decode(rec.output).value, false));
      }
    } else {
      NothingCounts();
      NoneSucceeded(records[..0]);
    }
  }

  lemma NoneSucceeded(records: seq<ToolCallRecord>)
    requires records == []
    ensures Succeeded(records) == []
  {
  }

  // ----- the executor -----

  class ReplayExecutor {
    const encode: Fields -> string
    var entries: Entries

    constructor (encode: Fields -> string, entries: Entries)
      ensures this.encode == encode && this.entries == entries
    {
      this.encode, this.entries := encode, entries;
    }

    /** Flags and returns the first unconsumed entry that matches; a miss is an error. */
    method Execute(call: ToolCall) returns (r: ToolResult)
      modifies this
      ensures var t := Take(old(entries), call.toolName, encode(call.args));
        entries == t.entries && r.Ok? == t.output.Some? && (r.Ok? ==> r.value == t.output.value)
    {
      var input := encode(call.args);
      var candidates := EntriesOf(entries, call.toolName);
      for i := 0 to |candidates|
        invariant forall k :: 0 <= k < i ==> candidates[k].consumed || candidates[k].inputJSON != input
        invariant entries == old(entries)
      {
        if candidates[i].consumed {
          continue;
        }
        if candidates[i].inputJSON == input {
          entries := entries[call.toolName := candidates[i := candidates[i].(consumed := true)]];
          return Ok(candidates[i].output);
        }
      }
      r := Err("replay: no stored output");
    }

    /** How many stored records were never matched; the order of the tools does not matter. */
    method Unconsumed() returns (n: nat)
      ensures n == TotalUnconsumed(entries)
    {
      n := 0;
      var rest := entries.Keys;
      while rest != {}
        invariant rest <= entries.Keys
        invariant n + CountOver(entries, rest) == TotalUnconsumed(entries)
      {
        var tool :| tool in rest;
        CountPick(entries, rest, tool);
        var list := entries[tool];
        ghost var before := n;
        for i := 0 to |list|
          invariant n == before + CountUnconsumed(list[..i])
        {
          assert list[..i + 1][..i] == list[..i];
          if !list[i].consumed {
            n := n + 1;
          }
        }
        assert list[..|list|] == list;
        rest := rest - {tool};
      }
    }
  }

  method NewReplayExecutor(codec: Codec, records: seq<ToolCallRecord>) returns (r: Result<ReplayExecutor, string>)
    ensures r.Ok? <==> Load(codec.decode, records, |records|).Some?
    ensures r.Ok? ==>
      fresh(r.value) && r.value.encode == codec.encode
        && Load(codec.decode, records, |records|) == Some(r.value.entries)
  {
    var entries: Entries := map[];
    for k := 0 to |records|
      invariant Load(codec.decode, records, k) == Some(entries)
    {
      var rec := records[k];
      if !rec.succeeded {
        continue;
      }
      var output := codec.decode(rec.output);
      if output.None? {
        CorruptStays(codec.decode, records, k + 1, |records|);
        return Err("replay: corrupt output");
      }
      entries := entries[rec.toolName :=
        EntriesOf(entries, rec.toolName) + [ReplayEntry(rec.input, output.value, false)]];
    }
    var executor := new ReplayExecutor(codec.encode, entries);
    r := Ok(executor);
  }

  // ----- the queues behind the flags -----

  /** The outputs still waiting for a (tool, input) pair, in the order they were recorded. */
  function Queue(entries: Entries, tool: string, input: string): seq<Fields> {
    Waiting(EntriesOf(entries, tool), input)
  }

  function Waiting(list: seq<ReplayEntry>, input: string): seq<Fields> {
    if list == [] then []
    else (if !list[0].consumed && list[0].inputJSON == input then [list[0].output] else []) + Waiting(list[1..], input)
  }

  lemma {:induction false} WaitingHead(list: seq<ReplayEntry>, input: string)
    ensures var i := FirstMatch(list, input);
      if i < |list| then Waiting(list, input) != [] && list[i].output == Waiting(list, input)[0]
      else Waiting(list, input) == []
  {
    if list != [] {
      WaitingHead(list[1..], input);
    }
  }

  /** Flagging entry i takes its output out of its own queue. */
  lemma {:induction false} WaitingFlagged(list: seq<ReplayEntry>, i: nat, other: string)
    requires i < |list| && !list[i].consumed
    requires forall k :: 0 <= k < i ==> list[k].consumed || list[k].inputJSON != list[i].inputJSON
    ensures Waiting(list, other) ==
      (if other == list[i].inputJSON then [list[i].output] else [])
        + Waiting(list[i := list[i].(consumed := true)], other)
  {
    var flagged := list[i := list[i].(consumed := true)];
    if i == 0 {
      assert flagged[1..] == list[1..];
    } else {
      WaitingFlagged(list[1..], i - 1, other);
      assert flagged[1..] == list[1..][i - 1 := list[i].(consumed := true)];
    }
  }

  /** The flagged scan is one first-in-first-out queue per (tool, input) pair: a call pops the head of
      its own queue and touches no other, and fails exactly when that queue is empty. */
  lemma TakeIsDequeue(entries: Entries, tool: string, input: string, otherTool: string, otherInput: string)
    ensures var t, q := Take(entries, tool, input), Queue(entries, tool, input);
      && t.output == (if q == [] then None else Some(q[0]))
      && Queue(t.entries, otherTool, otherInput) ==
           if q != [] && otherTool == tool && otherInput == input then q[1..] else Queue(entries, otherTool, otherInput)
  {
    var list := EntriesOf(entries, tool);
    var i := FirstMatch(list, input);
    WaitingHead(list, input);
    if i < |list| {
      WaitingFlagged(list, i, otherInput);
    }
    hide Waiting;
  }

  lemma {:induction false} WaitingAppended(list: seq<ReplayEntry>, entry: ReplayEntry, input: string)
    requires !entry.consumed
    ensures Waiting(list + [entry], input) ==
      Waiting(list, input) + if entry.inputJSON == input then [entry.output] else []
  {
    if list == [] {
      assert list + [entry] == [entry] && [entry][1..] == [];
    } else {
      WaitingAppended(list[1..], entry, input);
      assert (list + [entry])[1..] == list[1..] + [entry];
    }
  }

  // ----- whole replays -----

  datatype Key = Key(tool: string, input: string)

  /** Replaying the first k keys: the answers, and what is left. */
  function ReplayAll(entries: Entries, keys: seq<Key>, k: nat): (r: (seq<Option<Fields>>, Entries))
    requires k <= |keys|
    ensures |r.0| == k
  {
    if k == 0 then ([], entries)
    else
      var before := ReplayAll(entries, keys, k - 1);
      var t := Take(before.1, keys[k - 1].tool, keys[k - 1].input);
      (before.0 + [t.output], t.entries)
  }

  function Hits(answers: seq<Option<Fields>>): nat {
    if answers == [] then 0 else Hits(answers[..|answers| - 1]) + if answers[|answers| - 1].Some? then 1 else 0
  }

  /** Conservation over any replay: records never matched plus calls answered are all the records
      that succeeded. */
  lemma {:induction false} ReplayConserves(decode: string -> Option<Fields>, records: seq<ToolCallRecord>,
                                           keys: seq<Key>, k: nat)
    requires k <= |keys| && Load(decode, records, |records|).Some?
    ensures var r := ReplayAll(Load(decode, records, |records|).value, keys, k);
      TotalUnconsumed(r.1) + Hits(r.0) == |Succeeded(records)|
  {
    var loaded := Load(decode, records, |records|).value;
    if k == 0 {
      LoadCounts(decode, records, |records|);
      assert records[..|records|] == records;
    } else {
      ReplayConserves(decode, records, keys, k - 1);
      var before := ReplayAll(loaded, keys, k - 1);
      var after := ReplayAll(loaded, keys, k);
      TakeConserves(before.1, keys[k - 1].tool, keys[k - 1].input);
      assert after.0[..k - 1] == before.0;
    }
  }

  // ----- the round trip -----

  function KeyOf(rec: ToolCallRecord): Key {
    Key(rec.toolName, rec.input)
  }

  /** The outputs of the first n succeeded calls of `trace` with the given key that were not replayed
      yet, in recorded order. */
  ghost function Left(decode: string -> Option<Fields>, trace: seq<ToolCallRecord>, used: set<nat>, key: Key,
                      n: nat): seq<Fields>
    requires n <= |trace|
  {
    if n == 0 then []
    else
      var output := decode(trace[n - 1].output);
      Left(decode, trace, used, key, n - 1) +
        if KeyOf(trace[n - 1]) == key && n - 1 !in used && output.Some? then [output.value] else []
  }

  lemma {:induction false} LoadedQueues(decode: string -> Option<Fields>, trace: seq<ToolCallRecord>, k: nat, key: Key)
    requires k <= |trace| && (forall i :: 0 <= i < |trace| ==> trace[i].succeeded) && Load(decode, trace, k).Some?
    ensures Queue(Load(decode, trace, k).value, key.tool, key.input) == Left(decode, trace, {}, key, k)
  {
    hide Waiting;
    if k > 0 {
      LoadedQueues(decode, trace, k - 1, key);
      var rec := trace[k - 1];
      var before := Load(decode, trace, k - 1).value;
      WaitingAppended(EntriesOf(before, rec.toolName), ReplayEntry(rec.input, decode(rec.output).value, false),
        key.input);
    } else {
      NothingWaits(key.input);
    }
  }

  lemma NothingWaits(input: string)
    ensures Waiting([], input) == []
  {
  }

  lemma {:induction false} LoadedDecodes(decode: string -> Option<Fields>, trace: seq<ToolCallRecord>, k: nat, i: nat)
    requires i < k <= |trace| && trace[i].succeeded && Load(decode, trace, k).Some?
    ensures decode(trace[i].output).Some?
  {
    if i < k - 1 {
      LoadedDecodes(decode, trace, k - 1, i);
    }
  }

  /** Failed calls leave no trace in the executor. */
  lemma {:induction false} LoadSkipsFailed(decode: string -> Option<Fields>, records: seq<ToolCallRecord>, k: nat)
    requires k <= |records|
    ensures Load(decode, records, k) == Load(decode, Succeeded(records[..k]), |Succeeded(records[..k])|)
    ensures forall i :: 0 <= i < |Succeeded(records[..k])| ==> Succeeded(records[..k])[i].succeeded
  {
    hide Succeeded, AddEntry;
    if k > 0 {
      LoadSkipsFailed(decode, records, k - 1);
      SucceededStep(records, k);
      if records[k - 1].succeeded {
        var before := Succeeded(records[..k - 1]);
        LoadPrefix(decode, before, records[k - 1], |before|);
      }
    } else {
      NoneSucceeded(records[..0]);
    }
  }

  lemma {:induction false} LoadPrefix(decode: string -> Option<Fields>, records: seq<ToolCallRecord>,
                                      last: ToolCallRecord, k: nat)
    requires k <= |records|
    ensures Load(decode, records + [last], k) == Load(decode, records, k)
  {
    if k > 0 {
      LoadPrefix(decode, records, last, k - 1);
    }
  }

  /** Replaying call j, when it is the oldest one of its key not replayed yet, takes the head. */
  lemma {:induction false} LeftHead(decode: string -> Option<Fields>, trace: seq<ToolCallRecord>, used: set<nat>,
                                    key: Key, j: nat, n: nat)
    requires n <= |trace| && j < |trace| && j !in used && decode(trace[j].output).Some?
    requires forall i :: 0 <= i < j && KeyOf(trace[i]) == KeyOf(trace[j]) ==> i in used
    ensures Left(decode, trace, used, key, n) ==
      (if key == KeyOf(trace[j]) && j < n then [decode(trace[j].output).value] else [])
        + Left(decode, trace, used + {j}, key, n)
    ensures key == KeyOf(trace[j]) && n <= j ==> Left(decode, trace, used, key, n) == []
  {
    if n > 0 {
      LeftHead(decode, trace, used, key, j, n - 1);
    }
  }

  /** An order that replays every call once and keeps identical calls in sequence. */
  ghost predicate KeepsSequence(trace: seq<ToolCallRecord>, order: seq<nat>) {
    && |order| == |trace| && Distinct(order) && (forall i :: i in order ==> i < |trace|)
    && forall a, b ::
         && 0 <= a < b < |order| && order[a] < |trace| && order[b] < |trace|
         && KeyOf(trace[order[a]]) == KeyOf(trace[order[b]])
         ==> order[a] < order[b]
  }

  ghost function KeysInOrder(trace: seq<ToolCallRecord>, order: seq<nat>): (keys: seq<Key>)
    requires forall i :: i in order ==> i < |trace|
    ensures |keys| == |order|
  {
    seq(|order|, (a: nat) requires a < |order| => assert order[a] in order; KeyOf(trace[order[a]]))
  }

  ghost function UsedBy(order: seq<nat>): set<nat> {
    set i | i in order
  }

  lemma OldestFirst(trace: seq<ToolCallRecord>, order: seq<nat>, a: nat)
    requires KeepsSequence(trace, order) && a < |order|
    ensures order[a] < |trace| && order[a] !in UsedBy(order[..a])
    ensures forall i :: 0 <= i < order[a] && KeyOf(trace[i]) == KeyOf(trace[order[a]]) ==> i in UsedBy(order[..a])
  {
    assert order[a] in order;
    DistinctBelow(order, |trace|);
    forall i | 0 <= i < order[a] && KeyOf(trace[i]) == KeyOf(trace[order[a]])
      ensures i in order[..a]
    {
      assert i in order;
      var b :| 0 <= b < |order| && order[b] == i;
      assert !(a < b);
      assert order[..a][b] == i;
    }
  }

  /** Every queue holds what is left of the trace for its key. */
  ghost predicate QueuesLeft(decode: string -> Option<Fields>, trace: seq<ToolCallRecord>, entries: Entries,
                             used: set<nat>) {
    forall key: Key :: Queue(entries, key.tool, key.input) == Left(decode, trace, used, key, |trace|)
  }

  lemma ReplayOne(decode: string -> Option<Fields>, trace: seq<ToolCallRecord>, entries: Entries, used: set<nat>,
                  j: nat)
    requires QueuesLeft(decode, trace, entries, used)
    requires j < |trace| && j !in used && decode(trace[j].output).Some?
    requires forall i :: 0 <= i < j && KeyOf(trace[i]) == KeyOf(trace[j]) ==> i in used
    ensures var t := Take(entries, trace[j].toolName, trace[j].input);
      t.output == decode(trace[j].output) && QueuesLeft(decode, trace, t.entries, used + {j})
  {
    hide Take, Queue, Left;
    var mine := KeyOf(trace[j]);
    LeftHead(decode, trace, used, mine, j, |trace|);
    var t := Take(entries, mine.tool, mine.input);
    TakeIsDequeue(entries, mine.tool, mine.input, mine.tool, mine.input);
    assert Queue(entries, mine.tool, mine.input) == Left(decode, trace, used, mine, |trace|);
    forall key: Key
      ensures Queue(t.entries, key.tool, key.input) == Left(decode, trace, used + {j}, key, |trace|)
    {
      TakeIsDequeue(entries, mine.tool, mine.input, key.tool, key.input);
      LeftHead(decode, trace, used, key, j, |trace|);
      assert Queue(entries, key.tool, key.input) == Left(decode, trace, used, key, |trace|);
      assert key != mine ==> key.tool != mine.tool || key.input != mine.input;
    }
  }

  lemma LoadedQueuesLeft(decode: string -> Option<Fields>, trace: seq<ToolCallRecord>)
    requires (forall i :: 0 <= i < |trace| ==> trace[i].succeeded) && Load(decode, trace, |trace|).Some?
    ensures QueuesLeft(decode, trace, Load(decode, trace, |trace|).value, {})
  {
    hide Queue, Left, Load;
    forall key: Key
      ensures Queue(Load(decode, trace, |trace|).value, key.tool, key.input) == Left(decode, trace, {}, key, |trace|)
    {
      LoadedQueues(decode, trace, |trace|, key);
    }
  }

  lemma UsedStep(order: seq<nat>, a: nat)
    requires 0 < a <= |order|
    ensures UsedBy(order[..a]) == UsedBy(order[..a - 1]) + {order[a - 1]}
  {
    assert order[..a] == order[..a - 1] + [order[a - 1]];
  }

  lemma {:induction false} RoundTripPrefix(decode: string -> Option<Fields>, trace: seq<ToolCallRecord>,
                                           order: seq<nat>, a: nat)
    requires (forall i :: 0 <= i < |trace| ==> trace[i].succeeded) && Load(decode, trace, |trace|).Some?
    requires KeepsSequence(trace, order) && a <= |order| && forall i :: i in order ==> i < |trace|
    ensures var r := ReplayAll(Load(decode, trace, |trace|).value, KeysInOrder(trace, order), a);
      && QueuesLeft(decode, trace, r.1, UsedBy(order[..a]))
      && forall b :: 0 <= b < a ==> order[b] < |trace| && r.0[b] == decode(trace[order[b]].output) && r.0[b].Some?
  {
    hide Take, Load, QueuesLeft, UsedBy, KeepsSequence;
    var loaded := Load(decode, trace, |trace|).value;
    if a == 0 {
      LoadedQueuesLeft(decode, trace);
      NothingUsed(order);
    } else {
      var j := order[a - 1];
      RoundTripPrefix(decode, trace, order, a - 1);
      OldestFirst(trace, order, a - 1);
      LoadedDecodes(decode, trace, |trace|, j);
      UsedStep(order, a);
      ReplayOne(decode, trace, ReplayAll(loaded, KeysInOrder(trace, order), a - 1).1, UsedBy(order[..a - 1]), j);
    }
  }

  lemma NothingUsed(order: seq<nat>)
    ensures UsedBy(order[..0]) == {}
  {
  }

  /** Record/replay round trip. Replaying the succeeded calls of a run, in any order that keeps
      identical calls in sequence, answers every call with its own stored output and leaves nothing
      unconsumed. */
  lemma RecordReplayRoundTrip(decode: string -> Option<Fields>, records: seq<ToolCallRecord>, order: seq<nat>)
    requires Load(decode, records, |records|).Some? && KeepsSequence(Succeeded(records), order)
    ensures var trace := Succeeded(records);
      var r := ReplayAll(Load(decode, records, |records|).value, KeysInOrder(trace, order), |order|);
      && (forall a :: 0 <= a < |order| ==>
           order[a] < |trace| && r.0[a] == decode(trace[order[a]].output) && r.0[a].Some?)
      && TotalUnconsumed(r.1) == 0
  {
    hide Load, ReplayAll, Succeeded, QueuesLeft;
    var trace := Succeeded(records);
    assert records[..|records|] == records;
    LoadSkipsFailed(decode, records, |records|);
    RoundTripPrefix(decode, trace, order, |order|);
    ReplayConserves(decode, records, KeysInOrder(trace, order), |order|);
    AllHit(ReplayAll(Load(decode, records, |records|).value, KeysInOrder(trace, order), |order|).0);
  }

  lemma {:induction false} AllHit(answers: seq<Option<Fields>>)
    requires forall a :: 0 <= a < |answers| ==> answers[a].Some?
    ensures Hits(answers) == |answers|
  {
    if answers != [] {
      AllHit(answers[..|answers| - 1]);
    }
  }

  lemma {:induction false} LoadDecodable(decode: string -> Option<Fields>, records: seq<ToolCallRecord>, k: nat)
    requires k <= |records|
    requires forall i :: 0 <= i < |records| && records[i].succeeded ==> decode(records[i].output).Some?
    ensures Load(decode, records, k).Some?
  {
    if k > 0 {
      LoadDecodable(decode, records, k - 1);
    }
  }

  /** End to end: record a sequential trace through the persisting executor over the collector, with a
      codec that can decode what it encodes, load the records, and replay the succeeded calls in any
      order that keeps identical calls in sequence. Each answer is the decoded encoding of what the
      collector logged for that call, and nothing is left unconsumed. */
  lemma TraceReplaysItself(codec: Codec, tool: Tool, start: nat, runID: string, stepID: string, calls: seq<ToolCall>,
                           order: seq<nat>)
    requires forall data :: codec.decode(codec.encode(data)).Some?
    requires KeepsSequence(Succeeded(TraceRecords(codec, tool, start, runID, stepID, calls, |calls|)), order)
    ensures var records := TraceRecords(codec, tool, start, runID, stepID, calls, |calls|);
      var outputs := TraceOutputs(tool, start, calls, |calls|);
      && Load(codec.decode, records, |records|).Some?
      && var r := ReplayAll(Load(codec.decode, records, |records|).value, KeysInOrder(Succeeded(records), order),
           |order|);
      && |order| == |outputs|
      && (forall a :: 0 <= a < |order| ==>
            order[a] < |outputs| && r.0[a] == codec.decode(codec.encode(outputs[order[a]].output)))
      && TotalUnconsumed(r.1) == 0
  {
    var records := TraceRecords(codec, tool, start, runID, stepID, calls, |calls|);
    forall i | 0 <= i < |records| && records[i].succeeded
      ensures codec.decode(records[i].output).Some?
    {
      RecordAt(codec, tool, start, runID, stepID, calls, |calls|, i);
    }
    hide TraceRecords, TraceOutputs, Load, ReplayAll, Succeeded;
    LoadDecodable(codec.decode, records, |records|);
    RecordReplayRoundTrip(codec.decode, records, order);
    RecordsMatchCollector(codec, tool, start, runID, stepID, calls, |calls|);
  }
}
