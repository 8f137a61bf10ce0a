/** The agent that turns findings into a report (agent/log_analyzer.go), and the validator of that
    report (orchestrator/report_validator.go). */
module LogAnalyzer {
  import opened Decimals
  import opened Grounding
  import opened LogReader
  import opened Values
  import opened Wrappers

  datatype Evidence = Evidence(file: string, lineNumber: int, text: string, keyword: string)

  const MAX_EVIDENCE := 20

  // ----- collecting evidence -----

  function EvidenceFrom(file: string, match_: Row): Evidence {
    Evidence(file, IntVal(match_.fields, "line_number"), StrVal(match_.fields, "text"),
      StrVal(match_.fields, "keyword"))
  }

  function EvidenceInMatches(file: string, matches: seq<Row>): seq<Evidence> {
    seq(|matches|, (i: nat) requires i < |matches| => EvidenceFrom(file, matches[i]))
  }

  function MatchesOf(finding: Row): seq<Row> {
    RowsOf(MatchesField(finding.fields))
  }

  function EvidenceIn(findings: seq<Row>): seq<Evidence> {
    if findings == [] then []
    else
      var last := findings[|findings| - 1];
      EvidenceIn(findings[..|findings| - 1]) + EvidenceInMatches(StrVal(last.fields, "file"), MatchesOf(last))
  }

  /** Every piece of evidence comes from a match of a finding, under that finding's file. */
  lemma {:induction false} EvidenceHasSource(findings: seq<Row>, e: Evidence) returns (f: Row, m: Row)
    requires e in EvidenceIn(findings)
    ensures f in findings && m in MatchesOf(f) && e == EvidenceFrom(StrVal(f.fields, "file"), m)
  {
    var last := findings[|findings| - 1];
    var file := StrVal(last.fields, "file");
    if e in EvidenceInMatches(file, MatchesOf(last)) {
      var i :| 0 <= i < |MatchesOf(last)| && e == EvidenceInMatches(file, MatchesOf(last))[i];
      f, m := last, MatchesOf(last)[i];
    } else {
      f, m := EvidenceHasSource(findings[..|findings| - 1], e);
    }
  }

  method CollectEvidence(findings: seq<Row>) returns (all: seq<Evidence>)
    ensures all == EvidenceIn(findings)
  {
    all := [];
    for i := 0 to |findings|
      invariant all == EvidenceIn(findings[..i])
    {
      assert findings[..i + 1][..i] == findings[..i];
      var file := StrVal(findings[i].fields, "file");
      var matches := ExtractRows(MatchesField(findings[i].fields));
      ghost var before := all;
      for j := 0 to |matches|
        invariant all == before + EvidenceInMatches(file, matches)[..j]
      {
        all := all + [EvidenceFrom(file, matches[j])];
      }
    }
    assert findings[..|findings|] == findings;
  }

  // ----- severity -----

  function SeverityRank(keyword: string): nat {
    var k := Lower(keyword);
    if k == "panic" || k == "fatal" then 3
    else if k == "error" then 2
    else if k == "warn" || k == "warning" then 1
    else 0
  }

  datatype Category = Panic | Error | Warning

  /** Unknown keywords count as errors. */
  function CategoryOf(keyword: string): Category {
    var k := Lower(keyword);
    if k == "panic" || k == "fatal" then Panic
    else if k == "warn" || k == "warning" then Warning
    else Error
  }

  function CountOf(all: seq<Evidence>, c: Category): nat {
    if all == [] then 0 else CountOf(all[..|all| - 1], c) + if CategoryOf(all[|all| - 1].keyword) == c then 1 else 0
  }

  method CountCategories(all: seq<Evidence>) returns (panics: nat, errors: nat, warnings: nat)
    ensures panics == CountOf(all, Panic) && errors == CountOf(all, Error) && warnings == CountOf(all, Warning)
    ensures panics + errors + warnings == |all|
  {
    panics, errors, warnings := 0, 0, 0;
    for i := 0 to |all|
      invariant panics == CountOf(all[..i], Panic) && errors == CountOf(all[..i], Error)
        && warnings == CountOf(all[..i], Warning)
      invariant panics + errors + warnings == i
    {
      assert all[..i + 1][..i] == all[..i];
      match CategoryOf(all[i].keyword) {
        case Panic => panics := panics + 1;
        case Error => errors := errors + 1;
        case Warning => warnings := warnings + 1;
      }
    }
    assert all[..|all|] == all;
  }

  ghost predicate BySeverity(all: seq<Evidence>) {
    forall i, j :: 0 <= i < j < |all| ==> SeverityRank(all[i].keyword) >= SeverityRank(all[j].keyword)
  }

  /** The sort of the library is not stable; only its result being a sorted permutation is used. */
  method SortBySeverity(all: seq<Evidence>) returns (sorted: seq<Evidence>)
    ensures BySeverity(sorted) && multiset(sorted) == multiset(all)
  {
    sorted := [];
    for i := 0 to |all|
      invariant BySeverity(sorted) && multiset(sorted) == multiset(all[..i])
    {
      assert all[..i + 1] == all[..i] + [all[i]];
      sorted := Insert(sorted, all[i]);
    }
    assert all[..|all|] == all;
  }

  method Insert(sorted: seq<Evidence>, e: Evidence) returns (r: seq<Evidence>)
    requires BySeverity(sorted)
    ensures BySeverity(r) && multiset(r) == multiset(sorted) + multiset{e}
  {
    var at := 0;
    while at < |sorted| && SeverityRank(sorted[at].keyword) >= SeverityRank(e.keyword)
      invariant at <= |sorted|
      invariant forall k :: 0 <= k < at ==> SeverityRank(sorted[k].keyword) >= SeverityRank(e.keyword)
    {
      at := at + 1;
    }
    hide SeverityRank;
    InsertedSorted(sorted, e, at);
    Inserted(sorted, e, at);
    r := sorted[..at] + [e] + sorted[at..];
  }

  lemma Inserted<T>(s: seq<T>, x: T, at: nat)
    requires at <= |s|
    ensures multiset(s[..at] + [x] + s[at..]) == multiset(s) + multiset{x}
  {
    assert s == s[..at] + s[at..];
  }

  lemma InsertedSorted(sorted: seq<Evidence>, e: Evidence, at: nat)
    requires BySeverity(sorted) && at <= |sorted|
    requires forall k :: 0 <= k < at ==> SeverityRank(sorted[k].keyword) >= SeverityRank(e.keyword)
    requires at < |sorted| ==> SeverityRank(sorted[at].keyword) < SeverityRank(e.keyword)
    ensures BySeverity(sorted[..at] + [e] + sorted[at..])
  {
    hide SeverityRank;
    var r := sorted[..at] + [e] + sorted[at..];
    forall i, j | 0 <= i < j < |r|
      ensures SeverityRank(r[i].keyword) >= SeverityRank(r[j].keyword)
    {
      assert j > at ==>
        r[j] == sorted[j - 1]
          && (at < |sorted| ==> SeverityRank(sorted[at].keyword) >= SeverityRank(sorted[j - 1].keyword));
      assert i < at ==> r[i] == sorted[i];
      assert i > at ==> r[i] == sorted[i - 1];
    }
  }

  // ----- the most frequent pattern -----

  /** How many of the non-warning texts simplify to the pattern. */
  function PatternCount(simplify: string -> string, all: seq<Evidence>, pattern: string): nat {
    if all == [] then 0
    else
      var last := all[|all| - 1];
      PatternCount(simplify, all[..|all| - 1], pattern) +
        if CategoryOf(last.keyword) != Warning && simplify(last.text) == pattern then 1 else 0
  }

  /** Counts the patterns and picks a most frequent one; ties go to whichever the map yields first. */
  method TopPattern(simplify: string -> string, all: seq<Evidence>) returns (topPattern: string, topCount: nat)
    ensures topCount == PatternCount(simplify, all, topPattern)
    ensures forall p :: PatternCount(simplify, all, p) <= topCount
  {
    var counts: map<string, nat> := map[];
    for i := 0 to |all|
      invariant forall p :: (if p in counts then counts[p] else 0) == PatternCount(simplify, all[..i], p)
    {
      assert all[..i + 1][..i] == all[..i];
      if CategoryOf(all[i].keyword) == Warning {
        continue;
      }
      var pattern := simplify(all[i].text);
      counts := counts[pattern := (if pattern in counts then counts[pattern] else 0) + 1];
    }
    assert all[..|all|] == all;
    topPattern, topCount := "", 0;
    var started := false;
    var rest := counts.Keys;
    while rest != {}
      invariant rest <= counts.Keys
      invariant forall p :: p in counts && p !in rest ==> counts[p] <= topCount
      invariant started ==> topPattern in counts && topCount == counts[topPattern]
      invariant !started ==> topCount == 0 && topPattern == ""
    {
      var p :| p in rest;
      if counts[p] > topCount {
        topPattern, topCount, started := p, counts[p], true;
      }
      rest := rest - {p};
    }
    if !started {
      assert forall p :: p in counts ==> counts[p] <= 0;
    }
  }

  // ----- the report -----

  function FindingsOf(input: Fields): seq<Row> {
    if "findings" in input then RowsOf(input["findings"]) else []
  }

  function NoIssueSummary(): (text: string)
    ensures text != ""
  {
    "No errors or warnings detected in the scanned log files."
  }

  function NoIssueCause(): (text: string)
    ensures text != ""
  {
    "N/A \U{2014} no issues found."
  }

  function AllClear(): (report: Fields)
    ensures EvidenceOf(report) == [] && ValidReport(report)
  {
    ReportOf(NoIssueSummary(), NoIssueCause(), [], "High", ["Continue monitoring logs for future issues."])
  }

  function ReportOf(summary: string, cause: string, rows: seq<Row>, confidence: string,
                    steps: seq<string>): (report: Fields)
    ensures summary != "" && cause != "" && IsConfidence(confidence) && steps != [] ==>
      ValidReport(report)
    ensures EVIDENCE in report && report[EVIDENCE] == Rows(rows)
  {
    map[
      "error_summary" := Str(summary),
      "suspected_root_cause" := Str(cause),
      EVIDENCE := Rows(rows),
      "confidence_level" := Str(confidence),
      "suggested_next_steps" := Strs(steps)]
  }

  function EvidenceRow(e: Evidence): Row {
    Row(map["file" := Str(e.file), "line_number" := Int(e.lineNumber), "text" := Str(e.text)])
  }

  function EvidenceRows(list: seq<Evidence>): seq<Row> {
    seq(|list|, (i: nat) requires i < |list| => EvidenceRow(list[i]))
  }

  function Confidence(panics: nat, topCount: nat, totalMatches: int): (level: string)
    ensures IsConfidence(level)
  {
    if panics > 0 || topCount >= 3 then "High" else if totalMatches <= 2 then "Low" else "Medium"
  }

  /** The evidence shown: the most severe pieces, at most MAX_EVIDENCE of them. */
  ghost predicate TopEvidence(all: seq<Evidence>, shown: seq<Evidence>) {
    exists rest :: BySeverity(shown + rest) && multiset(shown + rest) == multiset(all)
      && |shown| == (if |all| < MAX_EVIDENCE then |all| else MAX_EVIDENCE)
  }

  lemma TopEvidenceIsCollected(all: seq<Evidence>, shown: seq<Evidence>)
    requires TopEvidence(all, shown)
    ensures forall e :: e in shown ==> e in all
  {
    var rest :| BySeverity(shown + rest) && multiset(shown + rest) == multiset(all);
    forall e | e in shown
      ensures e in all
    {
      assert e in shown + rest;
      assert e in multiset(shown + rest);
    }
  }

  function PartsOf(panics: nat, errors: nat, warnings: nat): seq<string> {
    (if panics > 0 then [Decimal(panics) + " panic/fatal events"] else [])
    + (if errors > 0 then [Decimal(errors) + " errors"] else [])
    + (if warnings > 0 then [Decimal(warnings) + " warnings"] else [])
  }

  function Commas(parts: seq<string>): string {
    if parts == [] then ""
    else if |parts| == 1 then parts[0]
    else Commas(parts[..|parts| - 1]) + ", " + parts[|parts| - 1]
  }

  function SummaryOf(panics: nat, errors: nat, warnings: nat, files: nat): (text: string)
    ensures text != ""
  {
    "Detected " + Commas(PartsOf(panics, errors, warnings)) + " across " + Decimal(files) + " log files."
  }

  method SummaryText(panics: nat, errors: nat, warnings: nat, files: nat) returns (text: string)
    ensures text == SummaryOf(panics, errors, warnings, files)
  {
    var parts: seq<string> := [];
    if panics > 0 {
      parts := parts + [Decimal(panics) + " panic/fatal events"];
    }
    if errors > 0 {
      parts := parts + [Decimal(errors) + " errors"];
    }
    if warnings > 0 {
      parts := parts + [Decimal(warnings) + " warnings"];
    }
    assert parts == PartsOf(panics, errors, warnings);
    var joined := JoinWithCommas(parts);
    text := "Detected " + joined + " across " + Decimal(files) + " log files.";
  }

  method JoinWithCommas(parts: seq<string>) returns (joined: string)
    ensures joined == Commas(parts)
  {
    joined := "";
    for i := 0 to |parts|
      invariant joined == Commas(parts[..i])
    {
      assert parts[..i + 1][..i] == parts[..i];
      joined := if i > 0 then joined + ", " + parts[i] else parts[i];
    }
    assert parts[..|parts|] == parts;
  }

  function AdviceOn(c: Category): string {
    match c
    case Panic => "Investigate panic/fatal events immediately \U{2014} these indicate crashes."
    case Error => "Review the most frequent error pattern and trace its origin in the codebase."
    case Warning => "Evaluate warnings for potential issues that could escalate."
  }

  function ClosingAdvice(): string {
    "Check if errors correlate with a recent deployment or configuration change."
  }

  function AdviceFor(panics: nat, errors: nat, warnings: nat): (steps: seq<string>)
    ensures steps != []
  {
    (if panics > 0 then [AdviceOn(Panic)] else []) + (if errors > 0 then [AdviceOn(Error)] else [])
    + (if warnings > 0 then [AdviceOn(Warning)] else []) + [ClosingAdvice()]
  }

  method NextSteps(panics: nat, errors: nat, warnings: nat) returns (steps: seq<string>)
    ensures steps == AdviceFor(panics, errors, warnings)
  {
    hide AdviceOn, ClosingAdvice;
    steps := [];
    if panics > 0 {
      steps := steps + [AdviceOn(Panic)];
    }
    if errors > 0 {
      steps := steps + [AdviceOn(Error)];
    }
    if warnings > 0 {
      steps := steps + [AdviceOn(Warning)];
    }
    steps := steps + [ClosingAdvice()];
  }

  function CauseOf(topPattern: string, count: nat): (text: string)
    ensures text != ""
  {
    if topPattern == "" then "Unable to determine a specific root cause from available evidence."
    else "Most frequent error pattern (" + Decimal(count) + " occurrences): " + topPattern
  }

  /** The first pieces of the sorted evidence, as rows. */
  method ShowTop(all: seq<Evidence>) returns (rows: seq<Row>, ghost shown: seq<Evidence>)
    ensures TopEvidence(all, shown) && rows == EvidenceRows(shown)
  {
    hide BySeverity, EvidenceRow;
    var sorted := SortBySeverity(all);
    SameLength(sorted, all);
    var maxEvidence := MAX_EVIDENCE;
    if |sorted| < maxEvidence {
      maxEvidence := |sorted|;
    }
    shown := sorted[..maxEvidence];
    assert sorted == shown + sorted[maxEvidence..];
    rows := [];
    for i := 0 to maxEvidence
      invariant rows == EvidenceRows(shown)[..i]
    {
      rows := rows + [EvidenceRow(sorted[i])];
    }
  }

  lemma SameLength<T>(a: seq<T>, b: seq<T>)
    requires multiset(a) == multiset(b)
    ensures |a| == |b|
  {
    assert |multiset(a)| == |a| && |multiset(b)| == |b|;
  }

  /** A report that shows evidence collected from these findings. */
  ghost predicate Shows(report: Fields, shown: seq<Evidence>, findings: seq<Row>) {
    && EVIDENCE in report && report[EVIDENCE] == Rows(EvidenceRows(shown))
    && forall e :: e in shown ==> e in EvidenceIn(findings)
  }

  /** Without findings or matches the all-clear report, otherwise the report on these findings that shows
      this evidence and names this most frequent pattern. */
  ghost predicate IsAnalysis(simplify: string -> string, findings: seq<Row>, totalMatches: int, report: Fields,
                             shown: seq<Evidence>, topPattern: string) {
    if findings == [] || totalMatches == 0 then report == AllClear() && shown == []
    else IsDiagnosis(simplify, findings, totalMatches, report, shown, topPattern)
  }

  ghost predicate IsDiagnosis(simplify: string -> string, findings: seq<Row>, totalMatches: int, report: Fields,
                              shown: seq<Evidence>, topPattern: string) {
    var all := EvidenceIn(findings);
    var panics, errors, warnings := CountOf(all, Panic), CountOf(all, Error), CountOf(all, Warning);
    var topCount := PatternCount(simplify, all, topPattern);
    && (forall p :: PatternCount(simplify, all, p) <= topCount)
    && TopEvidence(all, shown)
    && report == ReportOf(
         SummaryOf(panics, errors, warnings, |findings|), CauseOf(topPattern, topCount), EvidenceRows(shown),
         Confidence(panics, topCount, totalMatches), AdviceFor(panics, errors, warnings))
  }

  /** The report. `simplify` is the timestamp-stripping heuristic on log lines. The ghost results are
      the evidence shown and a most frequent pattern. */
  method Analyze(simplify: string -> string, input: Fields)
    returns (report: Fields, ghost shown: seq<Evidence>, ghost topPattern: string)
    ensures IsAnalysis(simplify, FindingsOf(input), IntVal(input, "total_matches"), report, shown, topPattern)
    ensures ValidReport(report) && Shows(report, shown, FindingsOf(input))
  {
    hide ValidReport, EvidenceIn, AllClear, TopEvidence, PatternCount, CountOf, AdviceFor, SummaryOf, CauseOf,
      FindingsOf, IntVal, ReportOf, EvidenceRows, Confidence, IsConfidence;
    var findings := FindingsOf(input);
    var totalMatches := IntVal(input, "total_matches");
    if |findings| == 0 || totalMatches == 0 {
      shown, topPattern := [], "";
      report := AllClear();
      NoEvidenceShown();
      return;
    }
    var all := CollectEvidence(findings);
    var panics, errors, warnings := CountCategories(all);
    var summary := SummaryText(panics, errors, warnings, |findings|);
    var pattern, topCount := TopPattern(simplify, all);
    topPattern := pattern;
    var cause := CauseOf(pattern, topCount);
    var rows;
    rows, shown := ShowTop(all);
    TopEvidenceIsCollected(all, shown);
    var steps := NextSteps(panics, errors, warnings);
    report := ReportOf(summary, cause, rows, Confidence(panics, topCount, totalMatches), steps);
  }

  lemma NoEvidenceShown()
    ensures EVIDENCE in AllClear() && AllClear()[EVIDENCE] == Rows(EvidenceRows([]))
  {
  }

  // ----- the report validator -----

  predicate NonEmptyString(output: Fields, field: string) {
    StrVal(output, field) != ""
  }

  predicate NonEmptyList(v: Value) {
    match v
    case Strs(strs) => strs != []
    case List(items) => items != []
    case _ => false
  }

  predicate IsConfidence(level: string) {
    level in {"Low", "Medium", "High"}
  }

  predicate ValidReport(output: Fields) {
    && NonEmptyString(output, "error_summary") && NonEmptyString(output, "suspected_root_cause")
    && IsConfidence(StrVal(output, "confidence_level"))
    && EVIDENCE in output
    && "suggested_next_steps" in output && NonEmptyList(output["suggested_next_steps"])
  }

  const ANALYZER := "agent.log_analyzer"

  method HasTexts(output: Fields) returns (ok: bool)
    ensures ok <==> NonEmptyString(output, "error_summary") && NonEmptyString(output, "suspected_root_cause")
  {
    var fields := ["error_summary", "suspected_root_cause"];
    assert fields[0] == "error_summary" && fields[1] == "suspected_root_cause";
    hide StrVal;
    for i := 0 to |fields|
      invariant forall k :: 0 <= k < i ==> NonEmptyString(output, fields[k])
    {
      if StrVal(output, fields[i]) == "" {
        assert !NonEmptyString(output, fields[i]);
        return false;
      }
    }
    assert NonEmptyString(output, fields[0]) && NonEmptyString(output, fields[1]);
    ok := true;
  }

  datatype ReportError = TextMissing | ConfidenceMissing | ConfidenceInvalid | EvidenceMissing | StepsMissing

  /** None is acceptance; only the analyzer's output is looked at. */
  method ValidateReport(stepID: string, output: Fields) returns (error: Option<ReportError>)
    ensures error.None? <==> stepID != ANALYZER || ValidReport(output)
  {
    hide StrVal, NonEmptyString, NonEmptyList, IsConfidence;
    if stepID != ANALYZER {
      return None;
    }
    var texts := HasTexts(output);
    if !texts {
      return Some(TextMissing);
    }
    var confidence := StrVal(output, "confidence_level");
    if confidence == "" {
      NoConfidence();
      return Some(ConfidenceMissing);
    }
    if !IsConfidence(confidence) {
      return Some(ConfidenceInvalid);
    }
    if EVIDENCE !in output {
      return Some(EvidenceMissing);
    }
    if "suggested_next_steps" !in output || !NonEmptyList(output["suggested_next_steps"]) {
      return Some(StepsMissing);
    }
    error := None;
  }

  lemma NoConfidence()
    ensures !IsConfidence("")
  {
  }
}
