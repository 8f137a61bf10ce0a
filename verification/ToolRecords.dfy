/** Collecting, persisting and replaying tool calls (tools/collector.go,
    tools/persisting_executor.go, tools/replay_executor.go). JSON is an encoder with a decoder; no
    relation between the two is assumed except where stated. */
module ToolRecords {
  import opened Decimals
  import opened Values
  import opened Wrappers

  datatype ToolCall = ToolCall(toolName: string, args: Fields)

  type ToolResult = Result<Fields, string>

  /** A tool may answer every call differently, so its answer also depends on the call's number. */
  type Tool = (nat, ToolCall) -> ToolResult

  datatype Codec = Codec(encode: Fields -> string, decode: string -> Option<Fields>)

  datatype CollectedOutput = CollectedOutput(toolName: string, input: Fields, output: Fields)

  datatype ToolCallRecord = ToolCallRecord(
    toolCallID: string, runID: string, stepID: string, toolName: string, input: string, output: string, succeeded: bool)

  // ----- collector -----

  /** `issued` numbers the calls that reach the wrapped executor. */
  class ToolCallCollector {
    const inner: Tool
    var issued: nat
    var outputs: seq<CollectedOutput>

    constructor (inner: Tool)
      ensures this.inner == inner && issued == 0 && outputs == []
    {
      this.inner, issued, outputs := inner, 0, [];
    }

    method Execute(call: ToolCall) returns (r: ToolResult)
      modifies this
      ensures r == inner(old(issued), call) && issued == old(issued) + 1
      ensures outputs == old(outputs) + if r.Ok? then [CollectedOutput(call.toolName, call.args, r.value)] else []
    {
      r := inner(issued, call);
      issued := issued + 1;
      if r.Ok? {
        outputs := outputs + [CollectedOutput(call.toolName, call.args, r.value)];
      }
    }

    method Outputs() returns (copy: seq<CollectedOutput>)
      ensures copy == outputs
    {
      copy := outputs;
    }

    method AddOutput(o: CollectedOutput)
      modifies this`outputs
      ensures outputs == old(outputs) + [o]
    {
      outputs := outputs + [o];
    }
  }

  // ----- persisting executor -----

  class Recorder {
    var records: seq<ToolCallRecord>

    constructor ()
      ensures records == []
    {
      records := [];
    }

    method Record(rec: ToolCallRecord)
      modifies this
      ensures records == old(records) + [rec]
    {
      records := records + [rec];
    }
  }

  function CallID(runID: string, stepID: string, n: nat): string {
    runID + "-" + stepID + "-tc-" + Decimal(n)
  }

  function RecordFor(codec: Codec, runID: string, stepID: string, n: nat, call: ToolCall,
                     r: ToolResult): ToolCallRecord {
    ToolCallRecord(CallID(runID, stepID, n), runID, stepID, call.toolName, codec.encode(call.args),
                   match r case Ok(data) => codec.encode(data) case Err(error) => error,
                   r.Ok?)
  }

  class PersistingExecutor {
    const inner: ToolCallCollector
    const recorder: Recorder
    const codec: Codec
    const runID: string
    const stepID: string
    var calls: nat

    constructor (inner: ToolCallCollector, recorder: Recorder, codec: Codec, runID: string, stepID: string)
      ensures this.inner == inner && this.recorder == recorder && this.codec == codec
      ensures this.runID == runID && this.stepID == stepID && calls == 0
    {
      this.inner, this.recorder, this.codec, this.runID, this.stepID, calls := inner, recorder, codec, runID, stepID, 0;
    }

    /** Every call, failed or not, is recorded, and the caller sees the wrapped executor's answer. */
    method Execute(call: ToolCall) returns (r: ToolResult)
      modifies this`calls, inner, recorder
      ensures r == inner.inner(old(inner.issued), call) && inner.issued == old(inner.issued) + 1
      ensures inner.outputs ==
        old(inner.outputs) + if r.Ok? then [CollectedOutput(call.toolName, call.args, r.value)] else []
      ensures calls == old(calls) + 1
      ensures recorder.records == old(recorder.records) + [RecordFor(codec, runID, stepID, calls, call, r)]
    {
      calls := calls + 1;
      var callID := runID + "-" + stepID + "-tc-" + Decimal(calls);
      var input := codec.encode(call.args);
      r := inner.Execute(call);
      var output;
      if r.Err? {
        output := r.error;
      } else {
        output := codec.encode(r.value);
      }
      recorder.Record(ToolCallRecord(callID, runID, stepID, call.toolName, input, output, r.Ok?));
    }
  }

  // ----- what a sequential trace leaves behind -----

  /** The records of the first k calls of a trace whose tool calls are numbered from `start`. */
  function TraceRecords(codec: Codec, tool: Tool, start: nat, runID: string, stepID: string, calls: seq<ToolCall>,
                        k: nat): (records: seq<ToolCallRecord>)
    requires k <= |calls|
    ensures |records| == k
  {
    if k == 0 then []
    else
      var before := TraceRecords(codec, tool, start, runID, stepID, calls, k - 1);
      before + [RecordFor(codec, runID, stepID, k, calls[k - 1], tool(start + k - 1, calls[k - 1]))]
  }

  function TraceOutputs(tool: Tool, start: nat, calls: seq<ToolCall>, k: nat): seq<CollectedOutput>
    requires k <= |calls|
  {
    if k == 0 then []
    else
      var r := tool(start + k - 1, calls[k - 1]);
      TraceOutputs(tool, start, calls, k - 1)
        + if r.Ok? then [CollectedOutput(calls[k - 1].toolName, calls[k - 1].args, r.value)] else []
  }

  lemma NothingTraced(codec: Codec, tool: Tool, start: nat, runID: string, stepID: string, calls: seq<ToolCall>)
    ensures TraceRecords(codec, tool, start, runID, stepID, calls, 0) == []
    ensures TraceOutputs(tool, start, calls, 0) == []
  {
  }

  lemma OneMoreTraced(codec: Codec, tool: Tool, start: nat, runID: string, stepID: string, calls: seq<ToolCall>, k: nat)
    requires k < |calls|
    ensures var r := tool(start + k, calls[k]);
      && TraceRecords(codec, tool, start, runID, stepID, calls, k + 1) ==
           TraceRecords(codec, tool, start, runID, stepID, calls, k)
           + [RecordFor(codec, runID, stepID, k + 1, calls[k], r)]
      && TraceOutputs(tool, start, calls, k + 1) ==
           TraceOutputs(tool, start, calls, k)
           + if r.Ok? then [CollectedOutput(calls[k].toolName, calls[k].args, r.value)] else []
  {
  }

  /** An agent making a sequence of calls through the persisting executor of its step. */
  method RunTrace(px: PersistingExecutor, calls: seq<ToolCall>)
    requires px.calls == 0
    modifies px`calls, px.inner, px.recorder
    ensures px.recorder.records == old(px.recorder.records) +
      TraceRecords(px.codec, px.inner.inner, old(px.inner.issued), px.runID, px.stepID, calls, |calls|)
    ensures px.inner.outputs ==
      old(px.inner.outputs) + TraceOutputs(px.inner.inner, old(px.inner.issued), calls, |calls|)
  {
    hide TraceRecords, TraceOutputs, RecordFor, Decimal;
    NothingTraced(px.codec, px.inner.inner, px.inner.issued, px.runID, px.stepID, calls);
    for k := 0 to |calls|
      invariant px.calls == k && px.inner.issued == old(px.inner.issued) + k
      invariant px.recorder.records == old(px.recorder.records) +
        TraceRecords(px.codec, px.inner.inner, old(px.inner.issued), px.runID, px.stepID, calls, k)
      invariant px.inner.outputs == old(px.inner.outputs) + TraceOutputs(px.inner.inner, old(px.inner.issued), calls, k)
    {
      OneMoreTraced(px.codec, px.inner.inner, old(px.inner.issued), px.runID, px.stepID, calls, k);
      var _ := px.Execute(calls[k]);
    }
  }

  function Succeeded(records: seq<ToolCallRecord>): seq<ToolCallRecord> {
    if records == [] then []
    else Succeeded(records[..|records| - 1]) + if records[|records| - 1].succeeded then [records[|records| - 1]] else []
  }

  ghost predicate Describes(codec: Codec, rec: ToolCallRecord, o: CollectedOutput) {
    rec.toolName == o.toolName && rec.input == codec.encode(o.input) && rec.output == codec.encode(o.output)
  }

  /** The succeeded records of a trace are the collector log, entry by entry and in order. */
  lemma {:induction false} RecordsMatchCollector(codec: Codec, tool: Tool, start: nat, runID: string, stepID: string,
                                                 calls: seq<ToolCall>, k: nat)
    requires k <= |calls|
    ensures var recs := Succeeded(TraceRecords(codec, tool, start, runID, stepID, calls, k));
      var outs := TraceOutputs(tool, start, calls, k);
      |recs| == |outs| && forall i :: 0 <= i < |recs| ==> Describes(codec, recs[i], outs[i])
  {
    if k > 0 {
      RecordsMatchCollector(codec, tool, start, runID, stepID, calls, k - 1);
      var records := TraceRecords(codec, tool, start, runID, stepID, calls, k);
      assert records[..|records| - 1] == TraceRecords(codec, tool, start, runID, stepID, calls, k - 1);
    }
  }

  /** Call IDs are unique within a step. */
  lemma {:induction false} CallIDsDistinct(codec: Codec, tool: Tool, start: nat, runID: string, stepID: string,
                                           calls: seq<ToolCall>, i: nat, j: nat)
    requires i < |calls| && j < |calls|
    requires var records := TraceRecords(codec, tool, start, runID, stepID, calls, |calls|);
      records[i].toolCallID == records[j].toolCallID
    ensures i == j
  {
    RecordAt(codec, tool, start, runID, stepID, calls, |calls|, i);
    RecordAt(codec, tool, start, runID, stepID, calls, |calls|, j);
    SuffixInjective(runID + "-" + stepID + "-tc-", i + 1, j + 1);
  }

  lemma {:induction false} RecordAt(codec: Codec, tool: Tool, start: nat, runID: string, stepID: string,
                                    calls: seq<ToolCall>, k: nat, i: nat)
    requires i < k <= |calls|
    ensures TraceRecords(codec, tool, start, runID, stepID, calls, k)[i] ==
      RecordFor(codec, runID, stepID, i + 1, calls[i], tool(start + i, calls[i]))
  {
    if i < k - 1 {
      RecordAt(codec, tool, start, runID, stepID, calls, k - 1, i);
    }
  }

  /** Every call of a trace leaves one record, in order and under its own number: with the encoded answer if
      it succeeded, with the error text if it failed. */
  lemma RecordsExactly(codec: Codec, tool: Tool, start: nat, runID: string, stepID: string, calls: seq<ToolCall>,
                       i: nat)
    requires i < |calls|
    ensures var records := TraceRecords(codec, tool, start, runID, stepID, calls, |calls|);
      var answer := tool(start + i, calls[i]);
      && |records| == |calls|
      && records[i].toolCallID == runID + "-" + stepID + "-tc-" + Decimal(i + 1)
      && records[i].runID == runID && records[i].stepID == stepID
      && records[i].toolName == calls[i].toolName && records[i].input == codec.encode(calls[i].args)
      && match answer
         case Ok(data) => records[i].succeeded && records[i].output == codec.encode(data)
         case Err(error) => !records[i].succeeded && records[i].output == error
  {
    RecordAt(codec, tool, start, runID, stepID, calls, |calls|, i);
  }
}
