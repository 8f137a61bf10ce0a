/** What the analyzer's report says of the matches it was given, without reference to how it counts. */
module Diagnosis {
  import opened Grounding
  import opened LogAnalyzer
  import opened LogReader
  import opened Values

  // ----- the evidence -----

  /** The row is among the matches of a finding. */
  ghost predicate MatchOf(finding: Row, m: Row) {
    "matches" in finding.fields && m in RowsOf(finding.fields["matches"])
  }

  ghost predicate Describes(e: Evidence, finding: Row, m: Row) {
    && e.file == StrVal(finding.fields, "file") && e.text == StrVal(m.fields, "text")
    && e.lineNumber == IntVal(m.fields, "line_number") && e.keyword == StrVal(m.fields, "keyword")
  }

  ghost predicate ComesFrom(findings: seq<Row>, e: Evidence) {
    exists finding, m :: finding in findings && MatchOf(finding, m) && Describes(e, finding, m)
  }

  lemma MatchesAre(finding: Row, m: Row)
    ensures m in MatchesOf(finding) <==> MatchOf(finding, m)
    ensures |MatchesOf(finding)| == FindingSize(finding)
  {
  }

  lemma InMatches(file: string, matches: seq<Row>, e: Evidence)
    ensures e in EvidenceInMatches(file, matches) <==> exists m :: m in matches && e == EvidenceFrom(file, m)
  {
    if m :| m in matches && e == EvidenceFrom(file, m) {
      var i :| 0 <= i < |matches| && matches[i] == m;
      assert EvidenceInMatches(file, matches)[i] == e;
    }
  }

  /** Every match of every finding is evidence, nothing else is, and there is as much evidence as there are
      matches. */
  lemma {:induction false} EvidenceExactly(findings: seq<Row>, e: Evidence)
    ensures e in EvidenceIn(findings) <==> ComesFrom(findings, e)
    ensures |EvidenceIn(findings)| == SumSizes(findings)
  {
    if findings != [] {
      var n := |findings| - 1;
      var last := findings[n];
      EvidenceExactly(findings[..n], e);
      InMatches(StrVal(last.fields, "file"), MatchesOf(last), e);
      MatchesAre(last, Row(map[]));
      forall m
        ensures m in MatchesOf(last) <==> MatchOf(last, m)
      {
        MatchesAre(last, m);
      }
      hide MatchesOf, MatchOf;
      assert forall f :: f in findings <==> f in findings[..n] || f == last;
    }
  }

  // ----- counting -----

  predicate IsPanic(keyword: string) {
    Lower(keyword) in {"panic", "fatal"}
  }

  predicate IsWarning(keyword: string) {
    Lower(keyword) in {"warn", "warning"}
  }

  lemma CategoryMeans(keyword: string)
    ensures CategoryOf(keyword) == Panic <==> IsPanic(keyword)
    ensures CategoryOf(keyword) == Warning <==> IsWarning(keyword)
    ensures CategoryOf(keyword) == Error <==> !IsPanic(keyword) && !IsWarning(keyword)
  {
  }

  /** The positions of the evidence that counts as panic, as warning, and as error. */
  function Panics(all: seq<Evidence>): set<int> {
    set i | 0 <= i < |all| && IsPanic(all[i].keyword)
  }

  function Warnings(all: seq<Evidence>): set<int> {
    set i | 0 <= i < |all| && IsWarning(all[i].keyword)
  }

  function Errors(all: seq<Evidence>): set<int> {
    set i | 0 <= i < |all| && !IsPanic(all[i].keyword) && !IsWarning(all[i].keyword)
  }

  function Positions(all: seq<Evidence>, which: Evidence -> bool): set<int> {
    set i | 0 <= i < |all| && which(all[i])
  }

  lemma OneMorePosition(all: seq<Evidence>, e: Evidence, which: Evidence -> bool)
    ensures |Positions(all + [e], which)| == |Positions(all, which)| + if which(e) then 1 else 0
  {
    assert Positions(all + [e], which) == Positions(all, which) + if which(e) then {|all|} else {};
  }

  lemma PanicsGrow(all: seq<Evidence>, e: Evidence)
    ensures |Panics(all + [e])| == |Panics(all)| + if IsPanic(e.keyword) then 1 else 0
  {
    var which := (x: Evidence) => IsPanic(x.keyword);
    hide IsPanic;
    OneMorePosition(all, e, which);
    assert Panics(all) == Positions(all, which) && Panics(all + [e]) == Positions(all + [e], which);
  }

  lemma WarningsGrow(all: seq<Evidence>, e: Evidence)
    ensures |Warnings(all + [e])| == |Warnings(all)| + if IsWarning(e.keyword) then 1 else 0
  {
    var which := (x: Evidence) => IsWarning(x.keyword);
    hide IsWarning;
    OneMorePosition(all, e, which);
    assert Warnings(all) == Positions(all, which) && Warnings(all + [e]) == Positions(all + [e], which);
  }

  lemma ErrorsGrow(all: seq<Evidence>, e: Evidence)
    ensures |Errors(all + [e])| == |Errors(all)| + if !IsPanic(e.keyword) && !IsWarning(e.keyword) then 1 else 0
  {
    var which := (x: Evidence) => !IsPanic(x.keyword) && !IsWarning(x.keyword);
    hide IsPanic, IsWarning;
    OneMorePosition(all, e, which);
    assert Errors(all) == Positions(all, which) && Errors(all + [e]) == Positions(all + [e], which);
  }

  lemma NextCount(all: seq<Evidence>, e: Evidence, c: Category)
    ensures CountOf([], c) == 0
    ensures CountOf(all + [e], c) == CountOf(all, c) + if CategoryOf(e.keyword) == c then 1 else 0
  {
    assert (all + [e])[..|all|] == all;
    hide CategoryOf;
  }

  lemma NoPositions()
    ensures Panics([]) == {} && Warnings([]) == {} && Errors([]) == {}
    ensures CountOf([], Panic) == CountOf([], Warning) == CountOf([], Error) == 0
  {
  }

  /** The three counts of the summary are the numbers of positions of each class. */
  lemma {:induction false} CountsExactly(all: seq<Evidence>)
    ensures CountOf(all, Panic) == |Panics(all)|
    ensures CountOf(all, Warning) == |Warnings(all)|
    ensures CountOf(all, Error) == |Errors(all)|
  {
    hide *;
    if all == [] {
      NoPositions();
    } else {
      var before, last := all[..|all| - 1], all[|all| - 1];
      assert all == before + [last];
      CountsExactly(before);
      CategoryMeans(last.keyword);
      NextCount(before, last, Panic);
      NextCount(before, last, Warning);
      NextCount(before, last, Error);
      PanicsGrow(before, last);
      WarningsGrow(before, last);
      ErrorsGrow(before, last);
    }
  }

  /** The positions, warnings aside, whose line simplifies to the pattern. */
  function WithPattern(simplify: string -> string, all: seq<Evidence>, pattern: string): set<int> {
    set i | 0 <= i < |all| && !IsWarning(all[i].keyword) && simplify(all[i].text) == pattern
  }

  lemma PatternGrows(simplify: string -> string, all: seq<Evidence>, e: Evidence, pattern: string)
    ensures var counts := !IsWarning(e.keyword) && simplify(e.text) == pattern;
      && |WithPattern(simplify, all + [e], pattern)| ==
           |WithPattern(simplify, all, pattern)| + (if counts then 1 else 0)
      && PatternCount(simplify, all + [e], pattern) == PatternCount(simplify, all, pattern) + (if counts then 1 else 0)
  {
    var which := (x: Evidence) => !IsWarning(x.keyword) && simplify(x.text) == pattern;
    CategoryMeans(e.keyword);
    assert (all + [e])[..|all|] == all;
    hide IsWarning, CategoryOf;
    OneMorePosition(all, e, which);
    assert WithPattern(simplify, all, pattern) == Positions(all, which);
    assert WithPattern(simplify, all + [e], pattern) == Positions(all + [e], which);
  }

  lemma NoPattern(simplify: string -> string, pattern: string)
    ensures WithPattern(simplify, [], pattern) == {} && PatternCount(simplify, [], pattern) == 0
  {
  }

  lemma {:induction false} PatternsExactly(simplify: string -> string, all: seq<Evidence>, pattern: string)
    ensures PatternCount(simplify, all, pattern) == |WithPattern(simplify, all, pattern)|
  {
    hide *;
    if all == [] {
      NoPattern(simplify, pattern);
    } else {
      var before, last := all[..|all| - 1], all[|all| - 1];
      assert all == before + [last];
      PatternsExactly(simplify, before, pattern);
      PatternGrows(simplify, before, last, pattern);
    }
  }

  // ----- severity -----

  predicate IsError(keyword: string) {
    Lower(keyword) == "error"
  }

  /** Panics before errors before warnings before anything else. */
  predicate MoreSevere(a: string, b: string) {
    || (IsPanic(a) && !IsPanic(b))
    || (IsError(a) && !IsPanic(b) && !IsError(b))
    || (IsWarning(a) && !IsPanic(b) && !IsError(b) && !IsWarning(b))
  }

  lemma RankMeans(a: string, b: string)
    ensures SeverityRank(a) > SeverityRank(b) <==> MoreSevere(a, b)
  {
  }

  /** The evidence shown is ordered by severity, and nothing left out is more severe than anything shown.
      All of it is shown unless there are more than twenty pieces. */
  lemma TopEvidenceExactly(all: seq<Evidence>, shown: seq<Evidence>) returns (rest: seq<Evidence>)
    requires TopEvidence(all, shown)
    ensures multiset(all) == multiset(shown) + multiset(rest) && |shown| == if |all| < 20 then |all| else 20
    ensures forall i, j :: 0 <= i < j < |shown| ==> !MoreSevere(shown[j].keyword, shown[i].keyword)
    ensures forall i, j :: 0 <= i < |shown| && 0 <= j < |rest| ==> !MoreSevere(rest[j].keyword, shown[i].keyword)
  {
    rest :| BySeverity(shown + rest) && multiset(shown + rest) == multiset(all)
      && |shown| == (if |all| < MAX_EVIDENCE then |all| else MAX_EVIDENCE);
    var whole := shown + rest;
    hide SeverityRank, MoreSevere;
    forall i, j | 0 <= i < j < |whole|
      ensures !MoreSevere(whole[j].keyword, whole[i].keyword)
    {
      RankMeans(whole[j].keyword, whole[i].keyword);
    }
    assert forall i :: 0 <= i < |shown| ==> whole[i] == shown[i];
    forall i, j | 0 <= i < |shown| && 0 <= j < |rest|
      ensures !MoreSevere(rest[j].keyword, shown[i].keyword)
    {
      assert whole[|shown| + j] == rest[j];
    }
  }

  // ----- the report -----

  lemma SomePosition(all: seq<Evidence>)
    ensures |Panics(all)| > 0 <==> exists e :: e in all && IsPanic(e.keyword)
  {
    hide IsPanic;
    if |Panics(all)| > 0 {
      var i :| i in Panics(all);
      assert all[i] in all;
    }
    if e :| e in all && IsPanic(e.keyword) {
      var i :| 0 <= i < |all| && all[i] == e;
      assert i in Panics(all);
    }
  }

  lemma ConfidenceField(report: Fields, summary: string, cause: string, rows: seq<Row>, level: string,
                        steps: seq<string>)
    requires report == ReportOf(summary, cause, rows, level, steps)
    ensures StrVal(report, "confidence_level") == level
  {
  }

  lemma DiagnosisConfidence(simplify: string -> string, findings: seq<Row>, totalMatches: int, report: Fields,
                            shown: seq<Evidence>, topPattern: string)
    requires IsDiagnosis(simplify, findings, totalMatches, report, shown, topPattern)
    ensures var all := EvidenceIn(findings);
      var topCount := PatternCount(simplify, all, topPattern);
      && (forall p :: PatternCount(simplify, all, p) <= topCount)
      && StrVal(report, "confidence_level") == Confidence(CountOf(all, Panic), topCount, totalMatches)
  {
    var all := EvidenceIn(findings);
    var panics, errors, warnings := CountOf(all, Panic), CountOf(all, Error), CountOf(all, Warning);
    var topCount := PatternCount(simplify, all, topPattern);
    hide EvidenceIn, CountOf, PatternCount, SummaryOf, CauseOf, AdviceFor, Confidence, EvidenceRows, ReportOf,
      TopEvidence,
      StrVal;
    ConfidenceField(report, SummaryOf(panics, errors, warnings, |findings|), CauseOf(topPattern, topCount),
                    EvidenceRows(shown), Confidence(panics, topCount, totalMatches),
                    AdviceFor(panics, errors, warnings));
  }

  lemma SomePattern(simplify: string -> string, all: seq<Evidence>, topPattern: string)
    requires forall p :: PatternCount(simplify, all, p) <= PatternCount(simplify, all, topPattern)
    ensures PatternCount(simplify, all, topPattern) >= 3 <==> exists p :: |WithPattern(simplify, all, p)| >= 3
  {
    hide PatternCount, WithPattern;
    PatternsExactly(simplify, all, topPattern);
    if p :| |WithPattern(simplify, all, p)| >= 3 {
      PatternsExactly(simplify, all, p);
    }
  }

  /** The confidence is high exactly when some evidence is a panic or some pattern occurs three times among
      the lines that are not warnings; otherwise it is low exactly when at most two matches were counted. */
  lemma ConfidenceExactly(simplify: string -> string, findings: seq<Row>, totalMatches: int, report: Fields,
                          shown: seq<Evidence>, topPattern: string)
    requires IsDiagnosis(simplify, findings, totalMatches, report, shown, topPattern)
    ensures var all, level := EvidenceIn(findings), StrVal(report, "confidence_level");
      var high := (exists e :: e in all && IsPanic(e.keyword)) || exists p :: |WithPattern(simplify, all, p)| >= 3;
      && (level == "High" <==> high)
      && (level == "Low" <==> !high && totalMatches <= 2)
      && (level == "Medium" <==> !high && totalMatches > 2)
  {
    hide *;
    var all := EvidenceIn(findings);
    DiagnosisConfidence(simplify, findings, totalMatches, report, shown, topPattern);
    CountsExactly(all);
    SomePosition(all);
    SomePattern(simplify, all, topPattern);
    ConfidenceIs(CountOf(all, Panic), PatternCount(simplify, all, topPattern), totalMatches);
  }

  lemma ConfidenceIs(panics: nat, topCount: nat, totalMatches: int)
    ensures var level := Confidence(panics, topCount, totalMatches);
      && (level == "High" <==> panics > 0 || topCount >= 3)
      && (level == "Low" <==> panics == 0 && topCount < 3 && totalMatches <= 2)
      && (level == "Medium" <==> panics == 0 && topCount < 3 && totalMatches > 2)
  {
  }

  /** One piece of advice for each class of evidence present, the gravest first, then the closing one. */
  lemma AdviceExactly(all: seq<Evidence>)
    ensures var steps := AdviceFor(CountOf(all, Panic), CountOf(all, Error), CountOf(all, Warning));
      var panic, error, warning := Panics(all) != {}, Errors(all) != {}, Warnings(all) != {};
      && |steps| == 1 + (if panic then 1 else 0) + (if error then 1 else 0) + (if warning then 1 else 0)
      && steps[|steps| - 1] == ClosingAdvice()
      && (panic ==> steps[0] == AdviceOn(Panic))
      && (error ==> steps[if panic then 1 else 0] == AdviceOn(Error))
      && (warning ==> steps[|steps| - 2] == AdviceOn(Warning))
  {
    CountsExactly(all);
    hide AdviceOn, ClosingAdvice, CountOf, Panics, Errors, Warnings;
  }

  /** The all-clear report is given exactly when there are no findings or no matches were counted, provided
      every finding has a match. */
  lemma AllClearExactly(simplify: string -> string, findings: seq<Row>, totalMatches: int, report: Fields,
                        shown: seq<Evidence>, topPattern: string)
    requires IsAnalysis(simplify, findings, totalMatches, report, shown, topPattern)
    requires Shows(report, shown, findings)
    requires forall f :: f in findings ==> FindingSize(f) > 0
    ensures report == AllClear() <==> findings == [] || totalMatches == 0
  {
    hide AllClear, EvidenceIn, TopEvidence, SummaryOf, CauseOf, AdviceFor, Confidence, EvidenceRow, FindingSize;
    if findings != [] && totalMatches != 0 {
      var n := |findings| - 1;
      assert findings[n] in findings;
      EvidenceExactly(findings, Evidence("", 0, "", ""));
      assert |EvidenceIn(findings)| > 0;
      var _ := TopEvidenceExactly(EvidenceIn(findings), shown);
      assert EvidenceOf(AllClear()) == [];
      assert |EvidenceOf(report)| == |shown|;
    }
  }
}
