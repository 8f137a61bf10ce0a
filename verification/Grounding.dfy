/** Checking evidence against tool outputs (orchestrator/grounding_validator.go). */
module Grounding {
  import opened Corpus
  import opened Text
  import opened ToolRecords
  import opened Values

  /** The index of the last slash, or -1. */
  function LastSlash(p: string): (i: int)
    ensures -1 <= i < |p|
    ensures i >= 0 ==> p[i] == '/'
    ensures forall k :: i < k < |p| ==> p[k] != '/'
  {
    if p == "" then -1
    else if p[|p| - 1] == '/' then |p| - 1
    else LastSlash(p[..|p| - 1])
  }

  /** A file counts as accessed under the path given to a tool and under its base name. */
  predicate NamesFile(input: Fields, file: string) {
    && "path" in input && input["path"].Str?
    && var p := input["path"].s;
       file == p || (LastSlash(p) >= 0 && file == p[LastSlash(p) + 1..])
  }

  ghost predicate Accessed(outputs: seq<CollectedOutput>, file: string) {
    exists j :: 0 <= j < |outputs| && NamesFile(outputs[j].input, file)
  }

  /** The outputs are rendered one after the other, like the elements of a list of maps. */
  function Collected(outputs: seq<CollectedOutput>): (v: Value)
    ensures v.List? && |v.items| == |outputs|
  {
    List(seq(|outputs|, (j: nat) requires j < |outputs| => Obj(Row(outputs[j].output))))
  }

  ghost predicate OutputLeaf(show: Show, outputs: seq<CollectedOutput>, text: string) {
    exists j :: 0 <= j < |outputs| && RowLeaf(show, Row(outputs[j].output), text)
  }

  ghost predicate CorpusFrom(show: Show, outputs: seq<CollectedOutput>, corpus: string, chunks: seq<string>) {
    Renders(show, Collected(outputs), chunks) && corpus == Lines(chunks)
  }

  /** A text BuildCorpus may return: every leaf once, outputs and list elements in order, and only the
      entries of a map in any order. */
  ghost predicate IsCorpus(show: Show, outputs: seq<CollectedOutput>, corpus: string) {
    exists chunks :: CorpusFrom(show, outputs, corpus, chunks)
  }

  method TrackFile(input: Fields, filesIn: set<string>) returns (fileSet: set<string>)
    ensures forall file :: file in fileSet <==> file in filesIn || NamesFile(input, file)
  {
    fileSet := filesIn;
    if "path" in input && input["path"].Str? {
      var p := input["path"].s;
      fileSet := fileSet + {p};
      var idx := LastSlash(p);
      if idx >= 0 {
        fileSet := fileSet + {p[idx + 1..]};
      }
    }
  }

  method BuildCorpus(show: Show, outputs: seq<CollectedOutput>) returns (corpus: string, fileSet: set<string>)
    ensures IsCorpus(show, outputs, corpus)
    ensures forall file :: file in fileSet <==> Accessed(outputs, file)
  {
    hide Appended, ItemsAppended, RowAppended, Accessed, NamesFile;
    corpus, fileSet := "", {};
    ghost var all := Collected(outputs);
    NothingAppended(show, all, Row(map[]), "");
    NoFile(outputs[..0]);
    for j := 0 to |outputs|
      invariant ItemsAppended(show, all, j, "", corpus)
      invariant forall file :: file in fileSet <==> Accessed(outputs[..j], file)
    {
      var o := outputs[j];
      fileSet := TrackFile(o.input, fileSet);
      ghost var mid := corpus;
      corpus := AppendRow(show, corpus, Row(o.output));
      AllKeysAppended(show, Row(o.output), mid, corpus);
      ItemAppended(show, all, j, "", mid, corpus);
      OneMoreFile(outputs, j);
    }
    assert outputs[..|outputs|] == outputs;
    AllItemsAppended(show, all, "", corpus);
    AllAppended(show, outputs, corpus);
  }

  lemma AllAppended(show: Show, outputs: seq<CollectedOutput>, corpus: string)
    requires Appended(show, Collected(outputs), "", corpus)
    ensures IsCorpus(show, outputs, corpus)
  {
    var chunks :| Renders(show, Collected(outputs), chunks) && corpus == "" + Lines(chunks);
    assert "" + Lines(chunks) == Lines(chunks);
    assert CorpusFrom(show, outputs, corpus, chunks);
  }

  lemma NoFile(outputs: seq<CollectedOutput>)
    requires outputs == []
    ensures forall file :: !Accessed(outputs, file)
  {
  }

  lemma OneMoreFile(outputs: seq<CollectedOutput>, j: nat)
    requires j < |outputs|
    ensures forall file ::
      Accessed(outputs[..j + 1], file) <==> Accessed(outputs[..j], file) || NamesFile(outputs[j].input, file)
  {
    var shorter, longer := outputs[..j], outputs[..j + 1];
    assert forall k :: 0 <= k < j ==> shorter[k] == longer[k];
    assert longer[j] == outputs[j];
  }

  /** Normalised substring search. */
  ghost predicate IsGrounded(text: string, corpus: string) {
    Contains(NormalizeWS(corpus), NormalizeWS(text))
  }

  // ----- completeness and monotonicity of the search -----

  lemma CollectedLeaves(show: Show, outputs: seq<CollectedOutput>, text: string)
    ensures IsLeaf(show, Collected(outputs), text) <==> OutputLeaf(show, outputs, text)
  {
    hide RowLeaf;
    var items := Collected(outputs).items;
    assert forall j :: 0 <= j < |outputs| ==>
      (IsLeaf(show, items[j], text) <==> RowLeaf(show, Row(outputs[j].output), text));
    assert forall j :: 0 <= j < |outputs| && RowLeaf(show, Row(outputs[j].output), text) ==>
      IsLeaf(show, items[j], text);
  }

  /** Every leaf is one of the chunks, and every chunk a leaf. */
  lemma CorpusLeaves(show: Show, outputs: seq<CollectedOutput>, chunks: seq<string>, text: string)
    requires Renders(show, Collected(outputs), chunks)
    ensures text in chunks <==> OutputLeaf(show, outputs, text)
  {
    LeavesRendered(show, Collected(outputs), chunks, text);
    CollectedLeaves(show, outputs, text);
  }

  /** Any leaf, at any depth of any collected output, is judged grounded, whatever order the maps were
      ranged over in: real tool output is never taken for an invention. */
  lemma LeavesAreGrounded(show: Show, outputs: seq<CollectedOutput>, corpus: string, text: string)
    requires IsCorpus(show, outputs, corpus) && OutputLeaf(show, outputs, text)
    ensures IsGrounded(text, corpus)
  {
    hide Renders, OutputLeaf;
    var chunks :| CorpusFrom(show, outputs, corpus, chunks);
    CorpusLeaves(show, outputs, chunks, text);
    var i :| 0 <= i < |chunks| && chunks[i] == text;
    var before, after := chunks[..i], chunks[i + 1..];
    assert chunks == before + [text] + after;
    LinesAppend(before + [text], after);
    LinesAppend(before, [text]);
    LinesOfOne(text);
    assert Lines(chunks) == Lines(before) + text + "\n" + Lines(after);
    LinesEndInSpace(before);
    LineIsFound(Lines(before), text, Lines(after));
  }

  /** And so is any stretch of a leaf, also after more outputs were collected and the corpus was built
      again in another order. A quoted part of a log line is the ordinary form of evidence. */
  lemma QuotesStayGrounded(show: Show, outputs: seq<CollectedOutput>, more: seq<CollectedOutput>, corpus: string,
                           leaf: string, i: nat, j: nat)
    requires IsCorpus(show, outputs + more, corpus) && OutputLeaf(show, outputs, leaf)
    requires i <= j <= |leaf|
    ensures IsGrounded(leaf[i..j], corpus)
  {
    hide IsCorpus, RowLeaf;
    var at :| 0 <= at < |outputs| && RowLeaf(show, Row(outputs[at].output), leaf);
    assert (outputs + more)[at] == outputs[at];
    LeavesAreGrounded(show, outputs + more, corpus, leaf);
    QuoteIsFound(leaf, i, j);
    ContainsTransitive(NormalizeWS(corpus), NormalizeWS(leaf), NormalizeWS(leaf[i..j]));
  }

  /** The strings at any depth of a value, those in lists of strings included. */
  ghost predicate HoldsString(v: Value, text: string)
    decreases v
  {
    match v
    case Str(s) => text == s
    case Strs(strs) => text in strs
    case List(items) => exists i :: 0 <= i < |items| && HoldsString(items[i], text)
    case Rows(rows) => exists i :: 0 <= i < |rows| && RowHoldsString(rows[i], text)
    case Obj(row) => RowHoldsString(row, text)
    case _ => false
  }

  ghost predicate RowHoldsString(row: Row, text: string)
    decreases row
  {
    exists k :: k in row.fields && HoldsString(row.fields[k], text)
  }

  /** Every string at any depth of an output is a stretch of some leaf of it. */
  lemma {:induction false} StringIsQuote(show: Show, v: Value, text: string) returns (leaf: string, i: nat, j: nat)
    requires HoldsString(v, text)
    ensures IsLeaf(show, v, leaf) && i <= j <= |leaf| && leaf[i..j] == text
    decreases v
  {
    match v {
      case Str(s) =>
        leaf, i, j := s, 0, |s|;
      case Strs(strs) =>
        leaf := ShowStrs(strs);
        i := JoinedAt(strs, text);
        i, j := i + 1, i + 1 + |text|;
        assert leaf[i..j] == Join(strs)[i - 1..j - 1];
      case List(items) =>
        var n :| 0 <= n < |items| && HoldsString(items[n], text);
        leaf, i, j := StringIsQuote(show, items[n], text);
      case Rows(rows) =>
        var n :| 0 <= n < |rows| && RowHoldsString(rows[n], text);
        leaf, i, j := RowStringIsQuote(show, rows[n], text);
      case Obj(row) =>
        leaf, i, j := RowStringIsQuote(show, row, text);
    }
  }

  lemma {:induction false} RowStringIsQuote(show: Show, row: Row, text: string) returns (leaf: string, i: nat, j: nat)
    requires RowHoldsString(row, text)
    ensures RowLeaf(show, row, leaf) && i <= j <= |leaf| && leaf[i..j] == text
    decreases row
  {
    var k :| k in row.fields && HoldsString(row.fields[k], text);
    leaf, i, j := StringIsQuote(show, row.fields[k], text);
  }

  lemma {:induction false} JoinedAt(strs: seq<string>, text: string) returns (i: nat)
    requires text in strs
    ensures OccursAt(Join(strs), text, i)
  {
    if strs[0] == text {
      i := 0;
    } else {
      i := JoinedAt(strs[1..], text);
      i := i + |strs[0]| + 1;
    }
  }

  lemma LeafOfOutput(show: Show, outputs: seq<CollectedOutput>, at: nat, leaf: string)
    requires at < |outputs| && RowLeaf(show, Row(outputs[at].output), leaf)
    ensures OutputLeaf(show, outputs, leaf)
  {
    hide RowLeaf;
  }

  /** So every string a tool returned, and every quote from it, is and stays grounded. */
  lemma StringsStayGrounded(show: Show, outputs: seq<CollectedOutput>, more: seq<CollectedOutput>, corpus: string,
                            at: nat, text: string, i: nat, j: nat)
    requires IsCorpus(show, outputs + more, corpus)
    requires at < |outputs| && RowHoldsString(Row(outputs[at].output), text)
    requires i <= j <= |text|
    ensures IsGrounded(text[i..j], corpus)
  {
    hide *;
    var leaf, start, end := RowStringIsQuote(show, Row(outputs[at].output), text);
    LeafOfOutput(show, outputs, at, leaf);
    SliceOfSlice(leaf, start, end, i, j);
    QuotesStayGrounded(show, outputs, more, corpus, leaf, start + i, start + j);
  }

  // ----- collecting more -----

  lemma {:induction false} SameItems(show: Show, v: Value, u: Value, n: nat, chunks: seq<string>)
    requires v.List? && u.List? && n <= |v.items| && n <= |u.items| && v.items[..n] == u.items[..n]
    requires ItemsRender(show, v, n, chunks)
    ensures ItemsRender(show, u, n, chunks)
  {
    if n > 0 {
      hide Renders;
      var cut: nat :|
        cut <= |chunks| && ItemsRender(show, v, n - 1, chunks[..cut]) && Renders(show, v.items[n - 1], chunks[cut..]);
      assert v.items[..n - 1] == v.items[..n][..n - 1] && u.items[..n - 1] == u.items[..n][..n - 1];
      assert v.items[n - 1] == v.items[..n][n - 1] && u.items[n - 1] == u.items[..n][n - 1];
      SameItems(show, v, u, n - 1, chunks[..cut]);
    }
  }

  lemma {:induction false} FirstItems(show: Show, v: Value, n: nat, m: nat, chunks: seq<string>) returns (cut: nat)
    requires v.List? && m <= n <= |v.items| && ItemsRender(show, v, n, chunks)
    ensures cut <= |chunks| && ItemsRender(show, v, m, chunks[..cut])
    decreases n
  {
    if m == n {
      cut := |chunks|;
      assert chunks[..cut] == chunks;
    } else {
      hide Renders;
      var before: nat :|
        && before <= |chunks| && ItemsRender(show, v, n - 1, chunks[..before])
        && Renders(show, v.items[n - 1], chunks[before..]);
      cut := FirstItems(show, v, n - 1, m, chunks[..before]);
      assert chunks[..before][..cut] == chunks[..cut];
    }
  }

  /** A corpus of more outputs begins with a corpus of the first ones, though perhaps not with the one
      that was built before. */
  lemma CorpusBegins(show: Show, outputs: seq<CollectedOutput>, more: seq<CollectedOutput>, corpus: string)
    returns (begin: string, rest: string)
    requires IsCorpus(show, outputs + more, corpus)
    ensures IsCorpus(show, outputs, begin) && corpus == begin + rest && EndsInSpace(begin)
  {
    var chunks :| CorpusFrom(show, outputs + more, corpus, chunks);
    var all, first := Collected(outputs + more), Collected(outputs);
    var cut := FirstItems(show, all, |outputs + more|, |outputs|, chunks);
    assert all.items[..|outputs|] == first.items[..|outputs|];
    SameItems(show, all, first, |outputs|, chunks[..cut]);
    begin, rest := Lines(chunks[..cut]), Lines(chunks[cut..]);
    assert CorpusFrom(show, outputs, begin, chunks[..cut]);
    assert chunks == chunks[..cut] + chunks[cut..];
    LinesAppend(chunks[..cut], chunks[cut..]);
    LinesEndInSpace(chunks[..cut]);
  }

  /** Any text, quoted from one leaf or not, that every corpus of the outputs grounds is grounded in
      every corpus built after more outputs were collected; and only such texts are. */
  lemma StaysGroundedExactly(show: Show, outputs: seq<CollectedOutput>, text: string)
    ensures (forall more, corpus :: IsCorpus(show, outputs + more, corpus) ==> IsGrounded(text, corpus))
      <==> (forall corpus :: IsCorpus(show, outputs, corpus) ==> IsGrounded(text, corpus))
  {
    hide IsCorpus, IsGrounded;
    if forall corpus :: IsCorpus(show, outputs, corpus) ==> IsGrounded(text, corpus) {
      forall more, corpus | IsCorpus(show, outputs + more, corpus)
        ensures IsGrounded(text, corpus)
      {
        var begin, rest := CorpusBegins(show, outputs, more, corpus);
        GroundedGrows(text, begin, rest);
      }
    }
    assert outputs + [] == outputs;
  }

  lemma GroundedGrows(text: string, corpus: string, rest: string)
    requires EndsInSpace(corpus) && IsGrounded(text, corpus)
    ensures IsGrounded(text, corpus + rest)
  {
    StaysFound(corpus, rest, text);
  }

  // ----- evidence -----

  datatype EvidenceItem = EvidenceItem(file: string, lineNumber: int, text: string)

  function StrVal(m: Fields, key: string): string {
    if key in m && m[key].Str? then m[key].s else ""
  }

  function IntVal(m: Fields, key: string): int {
    if key in m && m[key].Int? then m[key].i else 0
  }

  /** The maps of a list value; other list elements are skipped. */
  function RowsOf(v: Value): seq<Row> {
    match v
    case Rows(rows) => rows
    case List(items) => ObjectsOf(items)
    case _ => []
  }

  function ObjectsOf(items: seq<Value>): seq<Row> {
    if items == [] then []
    else ObjectsOf(items[..|items| - 1]) + if items[|items| - 1].Obj? then [items[|items| - 1].row] else []
  }

  function ItemOf(row: Row): EvidenceItem {
    EvidenceItem(StrVal(row.fields, "file"), IntVal(row.fields, "line_number"), StrVal(row.fields, "text"))
  }

  const EVIDENCE := "supporting_evidence"

  function EvidenceOf(output: Fields): (items: seq<EvidenceItem>) {
    if EVIDENCE !in output then []
    else var rows := RowsOf(output[EVIDENCE]); seq(|rows|, (i: nat) requires i < |rows| => ItemOf(rows[i]))
  }

  method ExtractRows(v: Value) returns (rows: seq<Row>)
    ensures rows == RowsOf(v)
  {
    match v {
      case Rows(all) =>
        rows := all;
      case List(items) =>
        rows := [];
        for i := 0 to |items|
          invariant rows == ObjectsOf(items[..i])
        {
          assert items[..i + 1][..i] == items[..i];
          if items[i].Obj? {
            rows := rows + [items[i].row];
          }
        }
        assert items[..|items|] == items;
      case _ =>
        rows := [];
    }
  }

  method ExtractEvidenceItems(output: Fields) returns (items: seq<EvidenceItem>)
    ensures items == EvidenceOf(output)
  {
    if EVIDENCE !in output {
      return [];
    }
    var rows := ExtractRows(output[EVIDENCE]);
    items := [];
    for i := 0 to |rows|
      invariant items == EvidenceOf(output)[..i]
    {
      items := items + [ItemOf(rows[i])];
    }
  }

  // ----- the validator -----

  datatype Violation = FileNotFound(item: nat) | TextNotFound(item: nat)

  ghost predicate Violates(outputs: seq<CollectedOutput>, corpus: string, items: seq<EvidenceItem>, v: Violation) {
    && v.item < |items|
    && match v
       case FileNotFound(i) => items[i].file != "" && !Accessed(outputs, items[i].file)
       case TextNotFound(i) => items[i].text != "" && !IsGrounded(items[i].text, corpus)
  }

  class GroundingValidator {
    var collector: ToolCallCollector?

    constructor ()
      ensures collector == null
    {
      collector := null;
    }

    method SetCollector(c: ToolCallCollector)
      modifies this
      ensures collector == c
    {
      collector := c;
    }

    /** Nothing is checked without an evidence field or without a collector. Otherwise the violations
        are exactly the evidence files never accessed and the evidence texts not grounded in a corpus
        of what the collector logged. */
    method Validate(show: Show, output: Fields) returns (violations: seq<Violation>, ghost corpus: string)
      ensures EVIDENCE !in output || collector == null ==> violations == []
      ensures EVIDENCE in output && collector != null ==>
        && (EvidenceOf(output) != [] ==> IsCorpus(show, collector.outputs, corpus))
        && forall v :: v in violations <==> Violates(collector.outputs, corpus, EvidenceOf(output), v)
    {
      hide IsGrounded, Accessed, IsCorpus, EvidenceOf;
      violations, corpus := [], "";
      if EVIDENCE !in output || collector == null {
        return;
      }
      var evidence := ExtractEvidenceItems(output);
      if |evidence| == 0 {
        return;
      }
      var outputs := collector.Outputs();
      var text, fileSet := BuildCorpus(show, outputs);
      corpus := text;
      for i := 0 to |evidence|
        invariant forall v :: v in violations <==> v.item < i && Violates(outputs, text, evidence, v)
      {
        var ev := evidence[i];
        if ev.file != "" && ev.file !in fileSet {
          violations := violations + [FileNotFound(i)];
        }
        var grounded := Search(ev.text, text);
        if ev.text != "" && !grounded {
          violations := violations + [TextNotFound(i)];
        }
      }
    }
  }

  method Search(text: string, corpus: string) returns (r: bool)
    ensures r == IsGrounded(text, corpus)
  {
    var needle, hay := NormalizeWS(text), NormalizeWS(corpus);
    r := false;
    var i := 0;
    while i + |needle| <= |hay|
      invariant forall k: nat :: k < i ==> !OccursAt(hay, needle, k)
      invariant !r
    {
      if OccursAt(hay, needle, i) {
        return true;
      }
      i := i + 1;
    }
  }
}
