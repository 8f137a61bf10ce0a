/** Log reader, then log analyzer, then both validators: the golden path end to end. */
module Pipeline {
  import opened Corpus
  import opened Diagnosis
  import opened Grounding
  import opened GroundingSoundness
  import opened LogAnalyzer
  import opened LogReader
  import opened StepExecution
  import opened ToolRecords
  import opened Values
  import opened Wrappers

  predicate NoSlash(name: string) {
    '/' !in name
  }

  /** Under a real directory, a name without slashes is the base name of its path. */
  lemma PathNamesFile(dir: string, file: string, input: Fields)
    requires "path" in input && input["path"] == Str(PathOf(dir, file))
    requires dir == "." || NoSlash(file)
    ensures NamesFile(input, file)
  {
    if dir != "." {
      var p := dir + "/" + file;
      assert p[|dir|] == '/';
      assert forall k :: |dir| < k < |p| ==> p[k] == file[k - |dir| - 1];
      assert LastSlash(p) == |dir|;
      assert p[|dir| + 1..] == file;
    }
  }

  lemma SuffixAvoids(p: string, from: nat)
    requires from <= |p| && forall k :: from <= k < |p| ==> p[k] != '/'
    ensures NoSlash(p[from..])
  {
    assert forall k :: 0 <= k < |p[from..]| ==> p[from..][k] != '/';
  }

  lemma BaseNameHasNoSlash(p: string)
    ensures NoSlash(p[LastSlash(p) + 1..])
  {
    hide *;
    var from: nat := LastSlash(p) + 1;
    assert forall k :: from <= k < |p| ==> p[k] != '/';
    SuffixAvoids(p, from);
  }

  /** And a name with a slash is not: the base name is what follows the last slash. So the reader's
      file names are found among the accessed files of their own calls exactly when the scan is of
      the current directory or the name has no slash. */
  lemma PathNamesFileIff(dir: string, file: string, input: Fields)
    requires "path" in input && input["path"] == Str(PathOf(dir, file))
    ensures NamesFile(input, file) <==> dir == "." || NoSlash(file)
  {
    hide LastSlash;
    if dir == "." || NoSlash(file) {
      PathNamesFile(dir, file, input);
    } else {
      var p := dir + "/" + file;
      BaseNameHasNoSlash(p);
      assert |p| > |file|;
    }
  }

  /** Some collected call was given exactly this path. */
  ghost predicate PathGiven(outputs: seq<CollectedOutput>, file: string) {
    exists j :: 0 <= j < |outputs| && "path" in outputs[j].input && outputs[j].input["path"] == Str(file)
  }

  /** What makes a scanned file count as accessed. */
  ghost predicate NameFits(outputs: seq<CollectedOutput>, dir: string, file: string) {
    dir == "." || NoSlash(file) || PathGiven(outputs, file)
  }

  lemma NamedBy(input: Fields, file: string)
    requires NamesFile(input, file)
    ensures NoSlash(file) || ("path" in input && input["path"] == Str(file))
  {
    hide LastSlash, NoSlash;
    var p := input["path"].s;
    if file != p {
      BaseNameHasNoSlash(p);
    }
  }

  lemma AccessedExactly(outputs: seq<CollectedOutput>, dir: string, file: string)
    requires PathGiven(outputs, PathOf(dir, file))
    ensures Accessed(outputs, file) <==> NameFits(outputs, dir, file)
  {
    hide NamesFile, NoSlash, PathOf;
    var j :| 0 <= j < |outputs| && "path" in outputs[j].input && outputs[j].input["path"] == Str(PathOf(dir, file));
    PathNamesFileIff(dir, file, outputs[j].input);
    if Accessed(outputs, file) {
      var i :| 0 <= i < |outputs| && NamesFile(outputs[i].input, file);
      NamedBy(outputs[i].input, file);
    }
    if PathGiven(outputs, file) {
      var i :| 0 <= i < |outputs| && "path" in outputs[i].input && outputs[i].input["path"] == Str(file);
      GivenIsNamed(outputs[i].input, file);
    }
  }

  lemma GivenIsNamed(input: Fields, file: string)
    requires "path" in input && input["path"] == Str(file)
    ensures NamesFile(input, file)
  {
  }

  /** A backed match grounds the evidence made from it: its text is a leaf of a collected output. */
  lemma BackedIsGrounded(show: Show, outputs: seq<CollectedOutput>, path: string, m: Row, corpus: string)
    requires Backed(outputs, path, m) && IsCorpus(show, outputs, corpus)
    ensures PathGiven(outputs, path)
    ensures StrVal(m.fields, "text") != "" ==> IsGrounded(StrVal(m.fields, "text"), corpus)
  {
    var j: nat :| BackedBy(outputs, path, m, j);
    hide IsCorpus, IsGrounded;
    var text := StrVal(m.fields, "text");
    if text != "" {
      assert IsLeaf(show, m.fields["text"], text);
      assert RowLeaf(show, m, text);
      RowsAreLeaves(show, outputs[j].output["matches"], m, text);
      assert RowLeaf(show, Row(outputs[j].output), text);
      LeavesAreGrounded(show, outputs, corpus, text);
    }
  }

  lemma {:induction false} ObjectsAreItems(items: seq<Value>, m: Row)
    requires m in ObjectsOf(items)
    ensures exists i :: 0 <= i < |items| && items[i] == Obj(m)
  {
    if items[|items| - 1] != Obj(m) {
      ObjectsAreItems(items[..|items| - 1], m);
    }
  }

  lemma RowsAreLeaves(show: Show, v: Value, m: Row, text: string)
    requires m in RowsOf(v) && RowLeaf(show, m, text)
    ensures IsLeaf(show, v, text)
  {
    match v {
      case Rows(rows) =>
        var i :| 0 <= i < |rows| && rows[i] == m;
        assert RowLeaf(show, rows[i], text);
      case List(items) =>
        ObjectsAreItems(items, m);
        var i :| 0 <= i < |items| && items[i] == Obj(m);
        assert IsLeaf(show, items[i], text);
    }
  }

  lemma FindingFields(file: string, matches: seq<Row>)
    ensures MatchesOf(FindingFor(file, matches)) == matches && StrVal(FindingFor(file, matches).fields, "file") == file
  {
  }

  /** The text of evidence taken from good findings is grounded; its file counts as accessed exactly when
      its name fits, and was listed. */
  lemma EvidenceSupport(show: Show, outputs: seq<CollectedOutput>, dir: string, files: seq<string>, findings: seq<Row>,
                        corpus: string, e: Evidence)
    requires AllGood(outputs, dir, files, findings) && IsCorpus(show, outputs, corpus)
    requires e in EvidenceIn(findings)
    ensures e.file in files && (Accessed(outputs, e.file) <==> NameFits(outputs, dir, e.file))
    ensures e.text != "" ==> IsGrounded(e.text, corpus)
  {
    var f, m := EvidenceHasSource(findings, e);
    assert GoodFinding(outputs, dir, files, f);
    hide IsCorpus, Accessed, NameFits, IsGrounded, PathOf, MatchesOf, StrVal, FindingFor, Backed;
    var file, matches :|
      && f == FindingFor(file, matches) && file in files && matches != []
      && AllBacked(outputs, PathOf(dir, file), matches);
    FindingFields(file, matches);
    assert Backed(outputs, PathOf(dir, file), m);
    BackedIsGrounded(show, outputs, PathOf(dir, file), m, corpus);
    AccessedExactly(outputs, dir, file);
  }

  lemma ShownItems(report: Fields, shown: seq<Evidence>, findings: seq<Row>)
    requires Shows(report, shown, findings)
    ensures |EvidenceOf(report)| == |shown|
    ensures forall k :: 0 <= k < |shown| ==>
      shown[k] in EvidenceIn(findings)
        && EvidenceOf(report)[k] == EvidenceItem(shown[k].file, shown[k].lineNumber, shown[k].text)
  {
    hide EvidenceIn;
    forall k | 0 <= k < |shown|
      ensures shown[k] in shown
      ensures EvidenceOf(report)[k] == EvidenceItem(shown[k].file, shown[k].lineNumber, shown[k].text)
    {
    }
  }

  ghost predicate AllNamesFit(outputs: seq<CollectedOutput>, dir: string, items: seq<EvidenceItem>) {
    forall k :: 0 <= k < |items| ==> NameFits(outputs, dir, items[k].file)
  }

  /** Such a report passes the grounding check exactly when all the file names it shows fit, which they
      do if no listed name has a slash. */
  lemma NoViolationExactly(show: Show, outputs: seq<CollectedOutput>, dir: string, files: seq<string>,
                           findings: seq<Row>,
                           shown: seq<Evidence>, report: Fields, corpus: string)
    requires AllGood(outputs, dir, files, findings) && Shows(report, shown, findings)
    requires EvidenceOf(report) != [] ==> IsCorpus(show, outputs, corpus)
    ensures (forall v :: !Violates(outputs, corpus, EvidenceOf(report), v))
      <==> AllNamesFit(outputs, dir, EvidenceOf(report))
    ensures (forall f :: f in files ==> NoSlash(f)) ==> AllNamesFit(outputs, dir, EvidenceOf(report))
  {
    var items := EvidenceOf(report);
    ShownItems(report, shown, findings);
    hide AllGood, Shows, IsCorpus, EvidenceOf, EvidenceIn, Accessed, IsGrounded, NoSlash, PathGiven;
    forall k | 0 <= k < |items|
      ensures items[k].file in files && (Accessed(outputs, items[k].file) <==> NameFits(outputs, dir, items[k].file))
      ensures items[k].text != "" ==> IsGrounded(items[k].text, corpus)
    {
      EvidenceSupport(show, outputs, dir, files, findings, corpus, shown[k]);
    }
    NoSlashInNothing();
    hide NameFits;
    if forall v :: !Violates(outputs, corpus, items, v) {
      forall k | 0 <= k < |items|
        ensures NameFits(outputs, dir, items[k].file)
      {
        assert !Violates(outputs, corpus, items, FileNotFound(k));
        EmptyNameFits(outputs, dir);
      }
    }
  }

  lemma NoSlashInNothing()
    ensures NoSlash("")
  {
  }

  lemma EmptyNameFits(outputs: seq<CollectedOutput>, dir: string)
    ensures NameFits(outputs, dir, "")
  {
  }

  /** The composite validator: the report validator, then the grounding validator. Whatever it accepts
      rests on the tools: each word of each evidence text is part of a word some tool returned, and each
      evidence file was given to some tool. One invented word or file is enough to be rejected. */
  method CheckReport(grounding: GroundingValidator, show: Show, stepID: string, report: Fields)
    returns (accepted: bool, ghost corpus: string)
    requires grounding.collector != null
    ensures EVIDENCE in report && EvidenceOf(report) != [] && (stepID == ANALYZER ==> ValidReport(report)) ==>
      IsCorpus(show, grounding.collector.outputs, corpus)
    ensures accepted <==>
      && (stepID == ANALYZER ==> ValidReport(report))
      && (EVIDENCE in report ==> forall v :: !Violates(grounding.collector.outputs, corpus, EvidenceOf(report), v))
    ensures accepted ==> EvidenceBacked(show, grounding.collector.outputs, report)
    ensures (exists row :: ShowsRow(report, row) && !RowBacked(show, grounding.collector.outputs, row)) ==> !accepted
  {
    hide ValidReport, IsCorpus, Violates, EvidenceOf, ShowsRow, RowBacked;
    corpus := "";
    var error := ValidateReport(stepID, report);
    if error.Some? {
      return false, corpus;
    }
    var violations;
    violations, corpus := grounding.Validate(show, report);
    accepted := |violations| == 0;
    assert |violations| > 0 ==> violations[0] in violations;
    if accepted {
      if EVIDENCE in report {
        NoViolationIsBacked(show, grounding.collector.outputs, corpus, report);
      } else {
        NothingShown(report);
      }
    }
  }

  lemma NothingShown(report: Fields)
    requires EVIDENCE !in report
    ensures forall row :: !ShowsRow(report, row)
  {
  }

  /** No request or step input overrides what the reader found. */
  predicate Untouched(key: string, request: Fields, analyzerStep: Fields) {
    key !in request && key !in analyzerStep
  }

  const TOTAL := "total_matches"

  lemma ScanSeen(tool: Tool, n: nat, dir: string, files: seq<string>, keywords: seq<string>, output: Fields,
                 seen: Fields)
    requires ScanExact(tool, n, dir, files, keywords, output)
    requires "findings" in seen && seen["findings"] == output["findings"]
    requires TOTAL in seen && seen[TOTAL] == output[TOTAL]
    ensures ScanExact(tool, n, dir, files, keywords, seen)
  {
    hide FindingsExact, AllHonest, SumSizes;
  }

  lemma ScanFields(tool: Tool, n: nat, dir: string, files: seq<string>, keywords: seq<string>, output: Fields)
    requires ScanExact(tool, n, dir, files, keywords, output)
    ensures "findings" in output && output["findings"].Rows? && TOTAL in output
    ensures FindingsOf(output) == output["findings"].rows
  {
    hide FindingsExact, AllHonest, SumSizes;
  }

  /** The first step, merged into Vars, and the second step's effective input. */
  method ReadLogs(collector: ToolCallCollector, request: Fields, readerStep: Fields, analyzerStep: Fields)
    returns (analyzerInput: Option<Fields>, ghost findings: seq<Row>)
    requires Untouched("findings", request, analyzerStep)
    modifies collector
    ensures var dir := DirectoryOf(request + readerStep);
      var listing := collector.inner(old(collector.issued), ListCall(dir));
      && (analyzerInput.Some? <==> listing.Ok?)
      && (analyzerInput.Some? ==>
            && FindingsOf(analyzerInput.value) == findings
            && AllGood(collector.outputs, dir, ListedFiles(listing), findings)
            && (Untouched(TOTAL, request, analyzerStep) ==>
                  ScanExact(collector.inner, old(collector.issued) + 1, dir, ListedFiles(listing),
                            KeywordsOf(request + readerStep), analyzerInput.value)))
  {
    hide AllGood, Findings, TotalMatches, ScanExact, FindingsOf, ListedFiles, KeywordsOf, DirectoryOf, ScanSummary;
    findings := [];
    var readerInput := Overlay(request, readerStep);
    var scanned := RunWithContext(collector, readerInput);
    if scanned.Err? {
      return None, findings;
    }
    findings := scanned.value["findings"].rows;
    var vars := Overlay(map[], scanned.value);
    var effective := Overlay(vars, request);
    effective := Overlay(effective, analyzerStep);
    assert effective["findings"] == scanned.value["findings"];
    analyzerInput := Some(effective);
    FindingsField(effective, findings);
    ghost var dir := DirectoryOf(request + readerStep);
    ghost var files := ListedFiles(collector.inner(old(collector.issued), ListCall(dir)));
    if Untouched(TOTAL, request, analyzerStep) {
      ScanSeen(collector.inner, old(collector.issued) + 1, dir, files, KeywordsOf(request + readerStep), scanned.value,
               effective);
    }
  }

  lemma FindingsField(input: Fields, findings: seq<Row>)
    requires "findings" in input && input["findings"] == Rows(findings)
    ensures FindingsOf(input) == findings
  {
  }

  /** The second step. */
  method WriteReport(simplify: string -> string, input: Fields) returns (report: Fields, ghost shown: seq<Evidence>)
    ensures ValidReport(report) && Shows(report, shown, FindingsOf(input))
    ensures (forall f :: f in FindingsOf(input) ==> FindingSize(f) > 0) ==>
      (report == AllClear() <==> FindingsOf(input) == [] || IntVal(input, TOTAL) == 0)
  {
    hide ValidReport, EvidenceIn, FindingsOf, IsAnalysis, Shows, AllClear, FindingSize, IntVal;
    ghost var topPattern;
    report, shown, topPattern := Analyze(simplify, input);
    if forall f :: f in FindingsOf(input) ==> FindingSize(f) > 0 {
      AllClearExactly(simplify, FindingsOf(input), IntVal(input, TOTAL), report, shown, topPattern);
    }
  }

  lemma GoodHaveMatches(outputs: seq<CollectedOutput>, dir: string, files: seq<string>, findings: seq<Row>)
    requires AllGood(outputs, dir, files, findings)
    ensures forall f :: f in findings ==> FindingSize(f) > 0
  {
    forall f | f in findings
      ensures FindingSize(f) > 0
    {
      assert GoodFinding(outputs, dir, files, f);
      hide AllBacked, PathOf;
      var file, matches :|
        f == FindingFor(file, matches) && file in files && matches != []
          && AllBacked(outputs, PathOf(dir, file), matches);
      FindingForFields(file, matches);
    }
  }

  /** With honest counts, nothing was found exactly when no grep returned a row. */
  lemma NothingFoundExactly(tool: Tool, n: nat, dir: string, files: seq<string>, keywords: seq<string>, input: Fields)
    requires ScanExact(tool, n, dir, files, keywords, input) && AllHonest(tool, n, dir, files, keywords)
    ensures FindingsOf(input) == [] || IntVal(input, TOTAL) == 0
      <==> NothingReturned(tool, n, dir, files, keywords, |files|)
  {
    ScanFields(tool, n, dir, files, keywords, input);
    hide AllHonest, SumSizes, NothingReturned, OfSomeFile, HasFinding, FromGrep;
  }

  /** Both validators on a report that only shows evidence taken from good findings. */
  method JudgeReport(collector: ToolCallCollector, show: Show, ghost dir: string, ghost files: seq<string>,
                     ghost findings: seq<Row>, ghost shown: seq<Evidence>, report: Fields)
    returns (accepted: bool)
    requires AllGood(collector.outputs, dir, files, findings)
    requires ValidReport(report) && Shows(report, shown, findings)
    ensures accepted <==> AllNamesFit(collector.outputs, dir, EvidenceOf(report))
    ensures (forall f :: f in files ==> NoSlash(f)) ==> accepted
  {
    hide *;
    ShownField(report, shown, findings);
    var grounding := new GroundingValidator();
    grounding.SetCollector(collector);
    ghost var corpus;
    accepted, corpus := CheckReport(grounding, show, ANALYZER, report);
    NoViolationExactly(show, collector.outputs, dir, files, findings, shown, report, corpus);
  }

  lemma ShownField(report: Fields, shown: seq<Evidence>, findings: seq<Row>)
    requires Shows(report, shown, findings)
    ensures EVIDENCE in report
  {
  }

  /** The golden path: the reader scans through the run-level collector, whatever that has logged before
      (by earlier steps, or by failed attempts of the reader); its output is merged into Vars, the
      analyzer runs on the effective input, and the report goes through both validators, possibly after
      further tool calls were collected. For every behaviour of the tools, if the listing succeeds, the
      report is valid, and it is accepted exactly when every file name it shows fits: the current
      directory is scanned, or the name has no slash, or some call was given that very path. So it is
      always accepted when no listed name has a slash. And if the grep answers count their rows, the
      all-clear report is given exactly when no grep of a listed file returned a row. No request or step
      input may override the findings, nor, for the latter, their number. */
  method RunGoldenPath(collector: ToolCallCollector, show: Show, simplify: string -> string, request: Fields,
                       readerStep: Fields, analyzerStep: Fields, later: seq<CollectedOutput>)
    returns (accepted: bool, report: Fields)
    requires Untouched("findings", request, analyzerStep)
    modifies collector
    ensures var dir := DirectoryOf(request + readerStep);
      var listing := collector.inner(old(collector.issued), ListCall(dir));
      if listing.Err? then !accepted
      else
        var n, files, keywords := old(collector.issued) + 1, ListedFiles(listing), KeywordsOf(request + readerStep);
        && ValidReport(report)
        && (Untouched(TOTAL, request, analyzerStep) && AllHonest(collector.inner, n, dir, files, keywords) ==>
              (report == AllClear() <==> NothingReturned(collector.inner, n, dir, files, keywords, |files|)))
        && (accepted <==> AllNamesFit(collector.outputs, dir, EvidenceOf(report)))
        && ((forall f :: f in ListedFiles(listing) ==> NoSlash(f)) ==> accepted)
  {
    hide *;
    ghost var dir := DirectoryOf(request + readerStep);
    ghost var files := ListedFiles(collector.inner(collector.issued, ListCall(dir)));
    ghost var findings;
    var analyzerInput;
    analyzerInput, findings := ReadLogs(collector, request, readerStep, analyzerStep);
    if analyzerInput.None? {
      return false, map[];
    }
    ghost var n, keywords := old(collector.issued) + 1, KeywordsOf(request + readerStep);
    GoodHaveMatches(collector.outputs, dir, files, findings);
    ghost var shown;
    report, shown := WriteReport(simplify, analyzerInput.value);
    if Untouched(TOTAL, request, analyzerStep) && AllHonest(collector.inner, n, dir, files, keywords) {
      NothingFoundExactly(collector.inner, n, dir, files, keywords, analyzerInput.value);
    }
    ghost var logged := collector.outputs;
    for i := 0 to |later|
      invariant logged <= collector.outputs
    {
      collector.AddOutput(later[i]);
    }
    AllGoodGrows(logged, collector.outputs, dir, files, findings);
    accepted := JudgeReport(collector, show, dir, files, findings, shown, report);
  }
}
