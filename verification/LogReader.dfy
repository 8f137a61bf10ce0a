/** The agent that scans a directory for log lines (agent/log_reader.go). */
module LogReader {
  import opened Decimals
  import opened Grounding
  import opened Text
  import opened ToolRecords
  import opened Values
  import opened Wrappers

  const DEFAULT_KEYWORDS := ["error", "ERROR", "panic", "FATAL", "fatal", "warn", "WARN"]

  // ----- reading the request -----

  /** Lower case, as far as comparison with ASCII text can tell: the letters A to Z and the two other
      code points whose lower case is an ASCII letter. */
  function Lower(s: string): (r: string)
    ensures |r| == |s|
  {
    seq(|s|, (i: nat) requires i < |s| => LowerChar(s[i]))
  }

  function LowerChar(c: char): char {
    if 'A' <= c <= 'Z' then (c as int + 32) as char
    else if c == '\U{130}' then 'i'
    else if c == '\U{212A}' then 'k'
    else c
  }

  /** The letters A to Z become a to z; every other ASCII character stays. */
  lemma LowerExactly(s: string, i: nat)
    requires i < |s|
    ensures 'A' <= s[i] <= 'Z' ==> Lower(s)[i] as int - 'a' as int == s[i] as int - 'A' as int
    ensures s[i] as int < 128 && !('A' <= s[i] <= 'Z') ==> Lower(s)[i] == s[i]
  {
  }

  predicate HasSuffix(s: string, suffix: string) {
    |suffix| <= |s| && s[|s| - |suffix|..] == suffix
  }

  function Split(s: string, separator: char): (parts: seq<string>)
    ensures parts != []
  {
    if s == "" then [""]
    else
      var rest := Split(s[1..], separator);
      if s[0] == separator then [""] + rest else [[s[0]] + rest[0]] + rest[1..]
  }

  function TrimSpace(s: string): string
    decreases |s|
  {
    if s == "" then ""
    else if IsSpace(s[0]) then TrimSpace(s[1..])
    else if IsSpace(s[|s| - 1]) then TrimSpace(s[..|s| - 1])
    else s
  }

  function DirectoryOf(input: Fields): string {
    var d := StrVal(input, "directory");
    if d != "" then d else "."
  }

  function KeywordsOf(input: Fields): seq<string> {
    var kw := StrVal(input, "keywords");
    if kw == "" then DEFAULT_KEYWORDS
    else var parts := Split(kw, ','); seq(|parts|, (i: nat) requires i < |parts| => TrimSpace(parts[i]))
  }

  /** parts with the separator between them. */
  function Separated(parts: seq<string>, separator: char): string
    requires parts != []
  {
    if |parts| == 1 then parts[0] else parts[0] + [separator] + Separated(parts[1..], separator)
  }

  /** Splitting undoes separating, and no part holds the separator. */
  lemma {:induction false} SplitExactly(s: string, separator: char)
    ensures Separated(Split(s, separator), separator) == s
    ensures forall part :: part in Split(s, separator) ==> separator !in part
  {
    if s != "" {
      SplitExactly(s[1..], separator);
      var rest, parts := Split(s[1..], separator), Split(s, separator);
      if s[0] == separator {
        assert parts[1..] == rest;
        assert Separated(parts, separator) == "" + [separator] + s[1..];
      } else {
        FirstPartGrows(rest, s[0], separator);
        assert rest[0] in rest;
        assert forall part :: part in rest[1..] ==> part in rest;
      }
    }
  }

  lemma FirstPartGrows(parts: seq<string>, c: char, separator: char)
    requires parts != []
    ensures Separated([[c] + parts[0]] + parts[1..], separator) == [c] + Separated(parts, separator)
  {
    var grown := [[c] + parts[0]] + parts[1..];
    assert grown[1..] == parts[1..];
    if |parts| > 1 {
      var tail := [separator] + Separated(parts[1..], separator);
      assert parts[0] + [separator] + Separated(parts[1..], separator) == parts[0] + tail;
      assert [c] + parts[0] + [separator] + Separated(parts[1..], separator) == [c] + (parts[0] + tail);
    }
  }

  predicate AllSpace(s: string) {
    forall k :: 0 <= k < |s| ==> IsSpace(s[k])
  }

  lemma NoSpace()
    ensures AllSpace("")
  {
  }

  lemma SpaceInFront(c: char, left: string, middle: string, right: string)
    ensures [c] + (left + middle + right) == ([c] + left) + middle + right
    ensures IsSpace(c) && AllSpace(left) ==> AllSpace([c] + left)
  {
    hide IsSpace;
  }

  lemma SpaceBehind(left: string, middle: string, right: string, c: char)
    ensures (left + middle + right) + [c] == left + middle + (right + [c])
    ensures IsSpace(c) && AllSpace(right) ==> AllSpace(right + [c])
  {
    hide IsSpace;
  }

  /** Trimming takes spaces off both ends, and all of them. */
  lemma {:induction false} TrimExactly(s: string) returns (left: string, right: string)
    ensures s == left + TrimSpace(s) + right && AllSpace(left) && AllSpace(right)
    ensures TrimSpace(s) != "" ==> !IsSpace(TrimSpace(s)[0]) && !IsSpace(TrimSpace(s)[|TrimSpace(s)| - 1])
    decreases |s|
  {
    hide IsSpace, AllSpace;
    left, right := "", "";
    NoSpace();
    if s != "" {
      var n := |s| - 1;
      assert s == [s[0]] + s[1..] && s == s[..n] + [s[n]];
      if IsSpace(s[0]) {
        left, right := TrimExactly(s[1..]);
        SpaceInFront(s[0], left, TrimSpace(s[1..]), right);
        left := [s[0]] + left;
      } else if IsSpace(s[n]) {
        left, right := TrimExactly(s[..n]);
        SpaceBehind(left, TrimSpace(s[..n]), right, s[n]);
        right := right + [s[n]];
      }
    }
  }

  /** The directory scanned is the one the request names, else the current one. The keywords searched for
      are the seven standard ones unless the request names some, separated by commas, each of which is then
      searched for without the spaces around it. */
  lemma RequestExactly(input: Fields, names: seq<string>)
    ensures DirectoryOf(input) != "" && forall d :: d != "" && d != "." ==>
      (DirectoryOf(input) == d <==> "directory" in input && input["directory"] == Str(d))
    ensures !("keywords" in input && input["keywords"].Str? && input["keywords"].s != "") ==>
      KeywordsOf(input) == ["error", "ERROR", "panic", "FATAL", "fatal", "warn", "WARN"]
    ensures "keywords" in input && names != [] && (forall name :: name in names ==> ',' !in name)
      && input["keywords"] == Str(Separated(names, ',')) && Separated(names, ',') != ""
      ==> KeywordsOf(input) == Trimmed(names)
  {
    if names != [] && forall name :: name in names ==> ',' !in name {
      SplitIsInverse(names, ',');
      if "keywords" in input && input["keywords"] == Str(Separated(names, ',')) && Separated(names, ',') != "" {
        NamedKeywords(input, names);
      }
    }
    hide Separated, Split, TrimSpace, Trimmed;
  }

  function Trimmed(names: seq<string>): seq<string> {
    seq(|names|, (i: nat) requires i < |names| => TrimSpace(names[i]))
  }

  lemma NamedKeywords(input: Fields, names: seq<string>)
    requires "keywords" in input && input["keywords"].Str? && input["keywords"].s != ""
    requires Split(input["keywords"].s, ',') == names
    ensures KeywordsOf(input) == Trimmed(names)
  {
    hide Split, TrimSpace;
  }

  lemma {:induction false} SplitIsInverse(parts: seq<string>, separator: char)
    requires parts != [] && forall part :: part in parts ==> separator !in part
    ensures Split(Separated(parts, separator), separator) == parts
    decreases |parts|, |parts[0]|
  {
    var whole := Separated(parts, separator);
    assert parts[0] in parts;
    if parts[0] == "" {
      if |parts| > 1 {
        SplitIsInverse(parts[1..], separator);
        assert whole[0] == separator && whole[1..] == Separated(parts[1..], separator);
        assert parts == [""] + parts[1..];
      }
    } else {
      var c, shorter := parts[0][0], [parts[0][1..]] + parts[1..];
      assert c in parts[0] && shorter[1..] == parts[1..];
      assert [c] + parts[0][1..] == parts[0];
      FirstPartGrows(shorter, c, separator);
      assert [[c] + shorter[0]] + shorter[1..] == parts;
      SplitIsInverse(shorter, separator);
      assert whole == [c] + Separated(shorter, separator) && whole[1..] == Separated(shorter, separator);
    }
  }

  predicate IsLogName(name: string) {
    HasSuffix(Lower(name), ".log") || HasSuffix(Lower(name), ".txt") || HasSuffix(Lower(name), ".out") || '.' !in name
  }

  /** The name of an entry to scan: a named file, not a directory, that looks like a log. */
  predicate IsLogEntry(entry: Row) {
    && !("is_dir" in entry.fields && entry.fields["is_dir"].Bool? && entry.fields["is_dir"].b)
    && StrVal(entry.fields, "name") != ""
    && IsLogName(StrVal(entry.fields, "name"))
  }

  function LogFiles(entries: seq<Row>): seq<string> {
    if entries == [] then []
    else
      var last := entries[|entries| - 1];
      LogFiles(entries[..|entries| - 1]) + if IsLogEntry(last) then [StrVal(last.fields, "name")] else []
  }

  /** A name without a dot, or with one of the three extensions in any case. */
  ghost predicate NamesLog(name: string) {
    '.' !in name || exists stem, extension :: name == stem + extension && Lower(extension) in {".log", ".txt", ".out"}
  }

  lemma LowerOfEnd(stem: string, end: string)
    ensures Lower(stem + end)[|stem|..] == Lower(end)
  {
  }

  lemma LogNameMeans(name: string)
    ensures IsLogName(name) <==> NamesLog(name)
  {
    hide Lower;
    if IsLogName(name) && '.' in name {
      var stem, extension := name[..|name| - 4], name[|name| - 4..];
      assert name == stem + extension;
      LowerOfEnd(stem, extension);
    }
    if stem, extension :| name == stem + extension && Lower(extension) in {".log", ".txt", ".out"} {
      LowerOfEnd(stem, extension);
    }
  }

  /** Exactly the named files that look like logs are scanned. */
  lemma {:induction false} LogFilesExactly(entries: seq<Row>, file: string)
    ensures file in LogFiles(entries) <==>
      exists e :: e in entries && "name" in e.fields && e.fields["name"] == Str(file) && file != "" && NamesLog(file)
        && ("is_dir" in e.fields ==> e.fields["is_dir"] != Bool(true))
  {
    if entries != [] {
      var n := |entries| - 1;
      LogFilesExactly(entries[..n], file);
      LogNameMeans(StrVal(entries[n].fields, "name"));
      hide IsLogName, NamesLog;
      assert entries == entries[..n] + [entries[n]];
    }
  }

  // ----- one grep -----

  function PathOf(dir: string, file: string): string {
    if dir != "." then dir + "/" + file else file
  }

  function ListCall(dir: string): ToolCall {
    ToolCall("fs.list_dir", map["path" := Str(dir)])
  }

  function GrepCall(path: string, keyword: string): ToolCall {
    ToolCall("fs.grep_file", map["path" := Str(path), "keyword" := Str(keyword)])
  }

  function Tagged(row: Row, keyword: string): Row {
    Row(row.fields["keyword" := Str(keyword)])
  }

  function TaggedRows(rows: seq<Row>, keyword: string): (tagged: seq<Row>)
    ensures |tagged| == |rows|
  {
    seq(|rows|, (i: nat) requires i < |rows| => Tagged(rows[i], keyword))
  }

  function MatchesField(data: Fields): Value {
    if "matches" in data then data["matches"] else Null
  }

  /** How many matches a grep answer claims. */
  function MatchCount(r: ToolResult): int {
    if r.Ok? then IntVal(r.value, "match_count") else 0
  }

  /** The matches taken from a grep answer, tagged with the keyword. */
  function GrepMatches(r: ToolResult, keyword: string): seq<Row> {
    if MatchCount(r) == 0 then [] else TaggedRows(RowsOf(MatchesField(r.value)), keyword)
  }

  /** Tagging writes through to the maps inside the tool's answer. */
  function TaggedValue(v: Value, keyword: string): Value {
    match v
    case Rows(rows) => Rows(TaggedRows(rows, keyword))
    case List(items) => List(TaggedItems(items, keyword))
    case _ => v
  }

  function TaggedItem(item: Value, keyword: string): Value {
    if item.Obj? then Obj(Tagged(item.row, keyword)) else item
  }

  function TaggedItems(items: seq<Value>, keyword: string): seq<Value> {
    if items == [] then []
    else TaggedItems(items[..|items| - 1], keyword) + [TaggedItem(items[|items| - 1], keyword)]
  }

  lemma {:induction false} TaggedItemsRows(items: seq<Value>, keyword: string)
    ensures ObjectsOf(TaggedItems(items, keyword)) == TaggedRows(ObjectsOf(items), keyword)
  {
    if items != [] {
      var n := |items| - 1;
      TaggedItemsRows(items[..n], keyword);
      var tagged := TaggedItems(items, keyword);
      assert tagged[..|tagged| - 1] == TaggedItems(items[..n], keyword);
    }
  }

  /** The rows read from the collector's log afterwards are the tagged rows. */
  lemma TaggedValueRows(v: Value, keyword: string)
    ensures RowsOf(TaggedValue(v, keyword)) == TaggedRows(RowsOf(v), keyword)
  {
    if v.List? {
      TaggedItemsRows(v.items, keyword);
    }
  }

  // ----- the whole scan -----

  /** The matches of the first k keywords in one file; the file's calls are numbered from n. */
  function FileMatches(tool: Tool, n: nat, path: string, keywords: seq<string>, k: nat): seq<Row>
    requires k <= |keywords|
  {
    if k == 0 then []
    else
      FileMatches(tool, n, path, keywords, k - 1)
      + GrepMatches(tool(n + k - 1, GrepCall(path, keywords[k - 1])), keywords[k - 1])
  }

  function FileTotal(tool: Tool, n: nat, path: string, keywords: seq<string>, k: nat): int
    requires k <= |keywords|
  {
    if k == 0 then 0
    else FileTotal(tool, n, path, keywords, k - 1) + MatchCount(tool(n + k - 1, GrepCall(path, keywords[k - 1])))
  }

  function FindingFor(file: string, matches: seq<Row>): Row {
    Row(map["file" := Str(file), "matches" := Rows(matches), "match_count" := Int(|matches|)])
  }

  function CallNumber(n: nat, perFile: nat, i: nat): nat {
    if i == 0 then n else CallNumber(n, perFile, i - 1) + perFile
  }

  /** The findings of the first i files: one per file with matches. */
  function Findings(tool: Tool, n: nat, dir: string, files: seq<string>, keywords: seq<string>, i: nat): seq<Row>
    requires i <= |files|
  {
    if i == 0 then []
    else
      var matches :=
        FileMatches(tool, CallNumber(n, |keywords|, i - 1), PathOf(dir, files[i - 1]), keywords, |keywords|);
      Findings(tool, n, dir, files, keywords, i - 1) + if matches != [] then [FindingFor(files[i - 1], matches)] else []
  }

  function TotalMatches(tool: Tool, n: nat, dir: string, files: seq<string>, keywords: seq<string>, i: nat): int
    requires i <= |files|
  {
    if i == 0 then 0
    else
      var inFile := FileTotal(tool, CallNumber(n, |keywords|, i - 1), PathOf(dir, files[i - 1]), keywords, |keywords|);
      TotalMatches(tool, n, dir, files, keywords, i - 1) + inFile
  }

  // ----- what the findings say of the grep answers -----

  /** The answer to the grep for keyword k in file i, the greps being numbered from n. */
  function Answer(tool: Tool, n: nat, dir: string, files: seq<string>, keywords: seq<string>, i: nat,
                  k: nat): ToolResult
    requires i < |files| && k < |keywords|
  {
    var path := if dir == "." then files[i] else dir + "/" + files[i];
    tool(n + i * |keywords| + k, ToolCall("fs.grep_file", map["path" := Str(path), "keyword" := Str(keywords[k])]))
  }

  /** The rows of an answer that counts at least one match. */
  predicate Returns(answer: ToolResult, row: Row) {
    && answer.Ok? && "match_count" in answer.value && answer.value["match_count"].Int?
    && answer.value["match_count"].i != 0
    && "matches" in answer.value && row in RowsOf(answer.value["matches"])
  }

  /** The count of an answer is the number of its rows, as the grep tool has it. */
  predicate Honest(answer: ToolResult) {
    answer.Ok? ==>
      && "match_count" in answer.value && "matches" in answer.value
      && answer.value["match_count"] == Int(|RowsOf(answer.value["matches"])|)
  }

  ghost predicate AllHonest(tool: Tool, n: nat, dir: string, files: seq<string>, keywords: seq<string>) {
    forall i, k :: 0 <= i < |files| && 0 <= k < |keywords| ==> Honest(Answer(tool, n, dir, files, keywords, i, k))
  }

  /** The finding is about this file and shows this row. */
  predicate Reports(finding: Row, file: string, row: Row) {
    && "file" in finding.fields && finding.fields["file"] == Str(file)
    && "matches" in finding.fields && finding.fields["matches"].Rows? && row in finding.fields["matches"].rows
  }

  /** The answer returned the row, and the keyword was written into it. */
  ghost predicate FromAnswer(answer: ToolResult, keyword: string, m: Row) {
    exists row :: Returns(answer, row) && m == Row(row.fields["keyword" := Str(keyword)])
  }

  /** Some grep of the file returned the row. */
  ghost predicate FromGrep(tool: Tool, n: nat, dir: string, files: seq<string>, keywords: seq<string>, i: nat, m: Row)
    requires i < |files|
  {
    FromFirst(tool, n, dir, files, keywords, i, |keywords|, m)
  }

  /** One of the first `upTo` greps of the file did. */
  ghost predicate FromFirst(tool: Tool, n: nat, dir: string, files: seq<string>, keywords: seq<string>, i: nat,
                            upTo: nat, m: Row)
    requires i < |files| && upTo <= |keywords|
  {
    exists k: nat :: k < upTo && FromAnswer(Answer(tool, n, dir, files, keywords, i, k), keywords[k], m)
  }

  /** The finding shows rows of one file, and they are exactly the rows its greps returned. */
  ghost predicate FindingExact(tool: Tool, n: nat, dir: string, files: seq<string>, keywords: seq<string>, i: nat,
                               finding: Row)
    requires i < |files|
  {
    forall m :: Reports(finding, files[i], m) <==> FromGrep(tool, n, dir, files, keywords, i, m)
  }

  ghost predicate HasFinding(tool: Tool, n: nat, dir: string, files: seq<string>, keywords: seq<string>, i: nat,
                             findings: seq<Row>)
    requires i < |files|
  {
    exists f :: f in findings && FindingExact(tool, n, dir, files, keywords, i, f)
  }

  /** No grep of the first `upTo` files returned a row. */
  ghost predicate NothingReturned(tool: Tool, n: nat, dir: string, files: seq<string>, keywords: seq<string>, upTo: nat)
    requires upTo <= |files|
  {
    forall i, m :: 0 <= i < upTo ==> !FromGrep(tool, n, dir, files, keywords, i, m)
  }

  function FindingSize(finding: Row): nat {
    if "matches" in finding.fields then |RowsOf(finding.fields["matches"])| else 0
  }

  function SumSizes(findings: seq<Row>): nat {
    if findings == [] then 0 else SumSizes(findings[..|findings| - 1]) + FindingSize(findings[|findings| - 1])
  }

  lemma {:induction false} CallNumberIs(n: nat, perFile: nat, i: nat)
    ensures CallNumber(n, perFile, i) == n + i * perFile
  {
    if i > 0 {
      CallNumberIs(n, perFile, i - 1);
      assert i * perFile == (i - 1) * perFile + perFile;
    }
  }

  lemma AnswerIs(tool: Tool, n: nat, dir: string, files: seq<string>, keywords: seq<string>, i: nat, k: nat)
    requires i < |files| && k < |keywords|
    ensures tool(CallNumber(n, |keywords|, i) + k, GrepCall(PathOf(dir, files[i]), keywords[k])) ==
      Answer(tool, n, dir, files, keywords, i, k)
  {
    CallNumberIs(n, |keywords|, i);
  }

  lemma GrepMatchesExactly(answer: ToolResult, keyword: string, m: Row)
    ensures m in GrepMatches(answer, keyword) <==> FromAnswer(answer, keyword, m)
    ensures Honest(answer) ==> MatchCount(answer) == |GrepMatches(answer, keyword)|
  {
    var matches := GrepMatches(answer, keyword);
    if m in matches {
      var i :| 0 <= i < |matches| && matches[i] == m;
      assert Returns(answer, RowsOf(MatchesField(answer.value))[i]);
    }
    if row :| Returns(answer, row) && m == Row(row.fields["keyword" := Str(keyword)]) {
      var rows := RowsOf(MatchesField(answer.value));
      var i :| 0 <= i < |rows| && rows[i] == row;
      assert matches[i] == m;
    }
  }

  /** The matches found in file i by the first `upTo` greps. */
  ghost function MatchesIn(tool: Tool, n: nat, dir: string, files: seq<string>, keywords: seq<string>, i: nat,
                           upTo: nat): seq<Row>
    requires i < |files| && upTo <= |keywords|
  {
    FileMatches(tool, CallNumber(n, |keywords|, i), PathOf(dir, files[i]), keywords, upTo)
  }

  ghost function TotalIn(tool: Tool, n: nat, dir: string, files: seq<string>, keywords: seq<string>, i: nat,
                         upTo: nat): int
    requires i < |files| && upTo <= |keywords|
  {
    FileTotal(tool, CallNumber(n, |keywords|, i), PathOf(dir, files[i]), keywords, upTo)
  }

  lemma NextMatches(tool: Tool, n: nat, path: string, keywords: seq<string>, k: nat)
    requires k < |keywords|
    ensures var answer := tool(n + k, GrepCall(path, keywords[k]));
      && FileMatches(tool, n, path, keywords, k + 1) ==
           FileMatches(tool, n, path, keywords, k) + GrepMatches(answer, keywords[k])
      && FileTotal(tool, n, path, keywords, k + 1) == FileTotal(tool, n, path, keywords, k) + MatchCount(answer)
  {
    hide GrepMatches, MatchCount, GrepCall;
  }

  lemma NextGrep(tool: Tool, n: nat, dir: string, files: seq<string>, keywords: seq<string>, i: nat, k: nat)
    requires i < |files| && k < |keywords|
    ensures var answer := Answer(tool, n, dir, files, keywords, i, k);
      && MatchesIn(tool, n, dir, files, keywords, i, k + 1) ==
           MatchesIn(tool, n, dir, files, keywords, i, k) + GrepMatches(answer, keywords[k])
      && TotalIn(tool, n, dir, files, keywords, i, k + 1) ==
           TotalIn(tool, n, dir, files, keywords, i, k) + MatchCount(answer)
  {
    hide Answer, GrepMatches, MatchCount, GrepCall, PathOf, CallNumber, FileMatches, FileTotal;
    AnswerIs(tool, n, dir, files, keywords, i, k);
    NextMatches(tool, CallNumber(n, |keywords|, i), PathOf(dir, files[i]), keywords, k);
  }

  lemma NextFrom(tool: Tool, n: nat, dir: string, files: seq<string>, keywords: seq<string>, i: nat, k: nat, m: Row)
    requires i < |files| && k < |keywords|
    ensures !FromFirst(tool, n, dir, files, keywords, i, 0, m)
    ensures FromFirst(tool, n, dir, files, keywords, i, k + 1, m) <==>
      || FromFirst(tool, n, dir, files, keywords, i, k, m)
      || FromAnswer(Answer(tool, n, dir, files, keywords, i, k), keywords[k], m)
  {
    hide Answer, FromAnswer;
  }

  lemma NoGrep(tool: Tool, n: nat, dir: string, files: seq<string>, keywords: seq<string>, i: nat, m: Row)
    requires i < |files|
    ensures MatchesIn(tool, n, dir, files, keywords, i, 0) == [] && !FromFirst(tool, n, dir, files, keywords, i, 0, m)
    ensures TotalIn(tool, n, dir, files, keywords, i, 0) == 0
  {
    hide Answer, PathOf, FromAnswer;
  }

  lemma {:induction false} MatchesExactly(tool: Tool, n: nat, dir: string, files: seq<string>, keywords: seq<string>,
                                          i: nat, upTo: nat, m: Row)
    requires i < |files| && upTo <= |keywords|
    ensures m in MatchesIn(tool, n, dir, files, keywords, i, upTo) <==>
      FromFirst(tool, n, dir, files, keywords, i, upTo, m)
  {
    hide *;
    if upTo == 0 {
      NoGrep(tool, n, dir, files, keywords, i, m);
    } else {
      MatchesExactly(tool, n, dir, files, keywords, i, upTo - 1, m);
      NextGrep(tool, n, dir, files, keywords, i, upTo - 1);
      NextFrom(tool, n, dir, files, keywords, i, upTo - 1, m);
      GrepMatchesExactly(Answer(tool, n, dir, files, keywords, i, upTo - 1), keywords[upTo - 1], m);
    }
  }

  lemma {:induction false} TotalInIsSize(tool: Tool, n: nat, dir: string, files: seq<string>, keywords: seq<string>,
                                         i: nat, upTo: nat)
    requires i < |files| && upTo <= |keywords| && AllHonest(tool, n, dir, files, keywords)
    ensures TotalIn(tool, n, dir, files, keywords, i, upTo) == |MatchesIn(tool, n, dir, files, keywords, i, upTo)|
  {
    hide Answer, MatchesIn, TotalIn, Honest, GrepMatches, MatchCount, FromAnswer;
    if upTo == 0 {
      NoGrep(tool, n, dir, files, keywords, i, Row(map[]));
    } else {
      TotalInIsSize(tool, n, dir, files, keywords, i, upTo - 1);
      NextGrep(tool, n, dir, files, keywords, i, upTo - 1);
      assert Honest(Answer(tool, n, dir, files, keywords, i, upTo - 1));
      GrepMatchesExactly(Answer(tool, n, dir, files, keywords, i, upTo - 1), keywords[upTo - 1], Row(map[]));
    }
  }

  lemma FindingForFields(file: string, matches: seq<Row>)
    ensures FindingSize(FindingFor(file, matches)) == |matches|
    ensures forall m :: Reports(FindingFor(file, matches), file, m) <==> m in matches
  {
  }

  lemma FindingForExact(tool: Tool, n: nat, dir: string, files: seq<string>, keywords: seq<string>, i: nat)
    requires i < |files|
    ensures var matches := MatchesIn(tool, n, dir, files, keywords, i, |keywords|);
      && FindingExact(tool, n, dir, files, keywords, i, FindingFor(files[i], matches))
      && (matches == [] <==> forall m :: !FromGrep(tool, n, dir, files, keywords, i, m))
  {
    var matches := MatchesIn(tool, n, dir, files, keywords, i, |keywords|);
    FindingForFields(files[i], matches);
    hide Reports, FindingFor, MatchesIn, FromFirst;
    forall m
      ensures m in matches <==> FromGrep(tool, n, dir, files, keywords, i, m)
    {
      MatchesExactly(tool, n, dir, files, keywords, i, |keywords|, m);
    }
    if matches != [] {
      assert matches[0] in matches;
    }
  }

  lemma NextFile(tool: Tool, n: nat, dir: string, files: seq<string>, keywords: seq<string>, i: nat)
    requires i < |files|
    ensures var matches := MatchesIn(tool, n, dir, files, keywords, i, |keywords|);
      && Findings(tool, n, dir, files, keywords, i + 1) ==
           Findings(tool, n, dir, files, keywords, i) + (if matches != [] then [FindingFor(files[i], matches)] else [])
      && TotalMatches(tool, n, dir, files, keywords, i + 1) ==
           TotalMatches(tool, n, dir, files, keywords, i) + TotalIn(tool, n, dir, files, keywords, i, |keywords|)
  {
    hide FindingFor, FileMatches, FileTotal, PathOf, CallNumber;
  }

  /** Findings about the first i files, one for each file of which a grep returned a row. */
  ghost predicate FindingsExact(tool: Tool, n: nat, dir: string, files: seq<string>, keywords: seq<string>, i: nat,
                                findings: seq<Row>)
    requires i <= |files|
  {
    && (forall f :: f in findings ==> OfSomeFile(tool, n, dir, files, keywords, i, f))
    && (forall j: nat, m :: j < i && FromGrep(tool, n, dir, files, keywords, j, m) ==>
          HasFinding(tool, n, dir, files, keywords, j, findings))
    && (findings == [] <==> NothingReturned(tool, n, dir, files, keywords, i))
  }

  ghost predicate OfSomeFile(tool: Tool, n: nat, dir: string, files: seq<string>, keywords: seq<string>, i: nat, f: Row)
    requires i <= |files|
  {
    exists j: nat :: j < i && FindingExact(tool, n, dir, files, keywords, j, f)
  }

  lemma FileWithout(tool: Tool, n: nat, dir: string, files: seq<string>, keywords: seq<string>, i: nat,
                    findings: seq<Row>)
    requires i < |files| && FindingsExact(tool, n, dir, files, keywords, i, findings)
    requires forall m :: !FromGrep(tool, n, dir, files, keywords, i, m)
    ensures FindingsExact(tool, n, dir, files, keywords, i + 1, findings)
  {
    hide FromGrep, FindingExact, HasFinding;
  }

  lemma FileWith(tool: Tool, n: nat, dir: string, files: seq<string>, keywords: seq<string>, i: nat, findings: seq<Row>,
                 finding: Row, m: Row)
    requires i < |files| && FindingsExact(tool, n, dir, files, keywords, i, findings)
    requires FindingExact(tool, n, dir, files, keywords, i, finding) && FromGrep(tool, n, dir, files, keywords, i, m)
    ensures FindingsExact(tool, n, dir, files, keywords, i + 1, findings + [finding])
  {
    var longer := findings + [finding];
    hide FromGrep, FindingExact;
    forall f | f in longer
      ensures OfSomeFile(tool, n, dir, files, keywords, i + 1, f)
    {
      assert f in findings || f == finding;
    }
    forall j: nat, m | j < i + 1 && FromGrep(tool, n, dir, files, keywords, j, m)
      ensures HasFinding(tool, n, dir, files, keywords, j, longer)
    {
      if j < i {
        var f :| f in findings && FindingExact(tool, n, dir, files, keywords, j, f);
        assert f in longer;
      } else {
        assert finding in longer;
      }
    }
  }

  lemma {:induction false} FindingsAreExact(tool: Tool, n: nat, dir: string, files: seq<string>, keywords: seq<string>,
                                            i: nat)
    requires i <= |files|
    ensures FindingsExact(tool, n, dir, files, keywords, i, Findings(tool, n, dir, files, keywords, i))
  {
    hide *;
    if i > 0 {
      FindingsAreExact(tool, n, dir, files, keywords, i - 1);
      NextFile(tool, n, dir, files, keywords, i - 1);
      FindingForExact(tool, n, dir, files, keywords, i - 1);
      var shorter := Findings(tool, n, dir, files, keywords, i - 1);
      var matches := MatchesIn(tool, n, dir, files, keywords, i - 1, |keywords|);
      if matches == [] {
        FileWithout(tool, n, dir, files, keywords, i - 1, shorter);
        assert shorter + [] == shorter;
      } else {
        var m :| FromGrep(tool, n, dir, files, keywords, i - 1, m);
        FileWith(tool, n, dir, files, keywords, i - 1, shorter, FindingFor(files[i - 1], matches), m);
      }
    } else {
      NoFile(tool, n, dir, files, keywords);
    }
  }

  lemma NoFile(tool: Tool, n: nat, dir: string, files: seq<string>, keywords: seq<string>)
    ensures Findings(tool, n, dir, files, keywords, 0) == [] && TotalMatches(tool, n, dir, files, keywords, 0) == 0
    ensures FindingsExact(tool, n, dir, files, keywords, 0, []) && SumSizes([]) == 0
  {
    hide FromGrep, FindingExact, MatchesIn, PathOf;
  }

  lemma SumSizesAppended(findings: seq<Row>, finding: Row)
    ensures SumSizes(findings + [finding]) == SumSizes(findings) + FindingSize(finding)
  {
    assert (findings + [finding])[..|findings|] == findings;
    hide FindingSize;
  }

  /** With honest answers the total is the number of rows in the findings. */
  lemma {:induction false} TotalIsSum(tool: Tool, n: nat, dir: string, files: seq<string>, keywords: seq<string>,
                                      i: nat)
    requires i <= |files| && AllHonest(tool, n, dir, files, keywords)
    ensures TotalMatches(tool, n, dir, files, keywords, i) == SumSizes(Findings(tool, n, dir, files, keywords, i))
    ensures SumSizes(Findings(tool, n, dir, files, keywords, i)) == 0
      <==> Findings(tool, n, dir, files, keywords, i) == []
  {
    hide *;
    if i == 0 {
      NoFile(tool, n, dir, files, keywords);
    } else {
      TotalIsSum(tool, n, dir, files, keywords, i - 1);
      TotalInIsSize(tool, n, dir, files, keywords, i - 1, |keywords|);
      NextFile(tool, n, dir, files, keywords, i - 1);
      var shorter := Findings(tool, n, dir, files, keywords, i - 1);
      var matches := MatchesIn(tool, n, dir, files, keywords, i - 1, |keywords|);
      FindingForFields(files[i - 1], matches);
      SumSizesAppended(shorter, FindingFor(files[i - 1], matches));
      assert shorter + [] == shorter;
    }
  }

  /** The output of a scan whose greps are numbered from n. Every row a grep returned is in the finding of
      its file, with its keyword, and nothing else is; with honest answers the total is the number of rows,
      so it is zero exactly when nothing was found. */
  ghost predicate ScanExact(tool: Tool, n: nat, dir: string, files: seq<string>, keywords: seq<string>,
                            output: Fields) {
    && "findings" in output && output["findings"].Rows?
    && "total_matches" in output && output["total_matches"].Int?
    && var findings, total := output["findings"].rows, output["total_matches"].i;
    && FindingsExact(tool, n, dir, files, keywords, |files|, findings)
    && (AllHonest(tool, n, dir, files, keywords) ==> total == SumSizes(findings) && (total == 0 <==> findings == []))
  }

  lemma ScanIsExact(tool: Tool, n: nat, dir: string, files: seq<string>, keywords: seq<string>, output: Fields)
    requires "findings" in output && output["findings"] == Rows(Findings(tool, n, dir, files, keywords, |files|))
    requires "total_matches" in output
      && output["total_matches"] == Int(TotalMatches(tool, n, dir, files, keywords, |files|))
    ensures ScanExact(tool, n, dir, files, keywords, output)
  {
    FindingsAreExact(tool, n, dir, files, keywords, |files|);
    hide Findings, TotalMatches, FindingsExact, AllHonest, SumSizes;
    if AllHonest(tool, n, dir, files, keywords) {
      TotalIsSum(tool, n, dir, files, keywords, |files|);
    }
  }

  // ----- every finding is backed by the collector -----

  /** The collector logged a call on this path whose answer contains this row. */
  ghost predicate BackedBy(outputs: seq<CollectedOutput>, path: string, row: Row, j: nat) {
    && j < |outputs|
    && "path" in outputs[j].input && outputs[j].input["path"] == Str(path)
    && "matches" in outputs[j].output && row in RowsOf(outputs[j].output["matches"])
  }

  ghost predicate Backed(outputs: seq<CollectedOutput>, path: string, row: Row) {
    exists j :: BackedBy(outputs, path, row, j)
  }

  ghost predicate AllBacked(outputs: seq<CollectedOutput>, path: string, rows: seq<Row>) {
    forall row :: row in rows ==> Backed(outputs, path, row)
  }

  /** A finding as the reader makes it, with all its matches backed. */
  ghost predicate GoodFinding(outputs: seq<CollectedOutput>, dir: string, files: seq<string>, finding: Row) {
    exists file, matches ::
      && finding == FindingFor(file, matches) && file in files && matches != []
      && AllBacked(outputs, PathOf(dir, file), matches)
  }

  lemma BackedGrows(outputs: seq<CollectedOutput>, more: seq<CollectedOutput>, path: string, rows: seq<Row>)
    requires AllBacked(outputs, path, rows)
    ensures AllBacked(outputs + more, path, rows)
  {
    forall row | row in rows
      ensures Backed(outputs + more, path, row)
    {
      assert Backed(outputs, path, row);
      var j: nat :| BackedBy(outputs, path, row, j);
      assert BackedBy(outputs + more, path, row, j);
    }
  }

  lemma GoodGrows(outputs: seq<CollectedOutput>, more: seq<CollectedOutput>, dir: string, files: seq<string>,
                  finding: Row)
    requires GoodFinding(outputs, dir, files, finding)
    ensures GoodFinding(outputs + more, dir, files, finding)
  {
    var file, matches :|
      && finding == FindingFor(file, matches) && file in files && matches != []
      && AllBacked(outputs, PathOf(dir, file), matches);
    BackedGrows(outputs, more, PathOf(dir, file), matches);
  }

  // ----- the agent -----

  function TaggedOutput(o: CollectedOutput, keyword: string): CollectedOutput {
    if "matches" in o.output then o.(output := o.output["matches" := TaggedValue(o.output["matches"], keyword)]) else o
  }

  /** The rows of a tool answer are the very maps the collector logged, so tagging them changes the
      log entry too. */
  method TagLogged(collector: ToolCallCollector, keyword: string)
    requires |collector.outputs| > 0
    modifies collector`outputs
    ensures var n := |old(collector.outputs)| - 1;
      collector.outputs == old(collector.outputs)[..n] + [TaggedOutput(old(collector.outputs)[n], keyword)]
  {
    var n := |collector.outputs| - 1;
    collector.outputs := collector.outputs[..n] + [TaggedOutput(collector.outputs[n], keyword)];
  }

  method TagRows(rows: seq<Row>, keyword: string) returns (tagged: seq<Row>)
    ensures tagged == TaggedRows(rows, keyword)
  {
    tagged := [];
    for i := 0 to |rows|
      invariant tagged == TaggedRows(rows, keyword)[..i]
    {
      tagged := tagged + [Tagged(rows[i], keyword)];
    }
  }

  lemma TaggedAreBacked(before: seq<CollectedOutput>, call: ToolCall, path: string, data: Fields, keyword: string)
    requires "path" in call.args && call.args["path"] == Str(path)
    ensures AllBacked(before + [TaggedOutput(CollectedOutput(call.toolName, call.args, data), keyword)], path,
                      TaggedRows(RowsOf(MatchesField(data)), keyword))
  {
    var o := TaggedOutput(CollectedOutput(call.toolName, call.args, data), keyword);
    TaggedValueRows(MatchesField(data), keyword);
    forall row | row in TaggedRows(RowsOf(MatchesField(data)), keyword)
      ensures Backed(before + [o], path, row)
    {
      assert BackedBy(before + [o], path, row, |before|);
    }
  }

  /** One grep: what it adds to the matches of its file. */
  method Grep(collector: ToolCallCollector, path: string, keyword: string) returns (matches: seq<Row>, count: int)
    modifies collector
    ensures var answer := collector.inner(old(collector.issued), GrepCall(path, keyword));
      matches == GrepMatches(answer, keyword) && count == MatchCount(answer)
    ensures collector.issued == old(collector.issued) + 1
    ensures old(collector.outputs) <= collector.outputs && AllBacked(collector.outputs, path, matches)
  {
    var r := collector.Execute(GrepCall(path, keyword));
    if r.Err? {
      return [], 0;
    }
    count := IntVal(r.value, "match_count");
    if count == 0 {
      return [], 0;
    }
    var rows := ExtractRows(MatchesField(r.value));
    matches := TagRows(rows, keyword);
    TagLogged(collector, keyword);
    TaggedAreBacked(old(collector.outputs), GrepCall(path, keyword), path, r.value, keyword);
  }

  method GrepFile(collector: ToolCallCollector, path: string, keywords: seq<string>)
    returns (matches: seq<Row>, total: int)
    modifies collector
    ensures matches == FileMatches(collector.inner, old(collector.issued), path, keywords, |keywords|)
    ensures total == FileTotal(collector.inner, old(collector.issued), path, keywords, |keywords|)
    ensures collector.issued == old(collector.issued) + |keywords|
    ensures old(collector.outputs) <= collector.outputs && AllBacked(collector.outputs, path, matches)
  {
    hide AllBacked, GrepMatches;
    matches, total := [], 0;
    NothingToBack(collector.outputs, path);
    for k := 0 to |keywords|
      invariant matches == FileMatches(collector.inner, old(collector.issued), path, keywords, k)
      invariant total == FileTotal(collector.inner, old(collector.issued), path, keywords, k)
      invariant collector.issued == old(collector.issued) + k
      invariant old(collector.outputs) <= collector.outputs && AllBacked(collector.outputs, path, matches)
    {
      ghost var before := collector.outputs;
      var found, count := Grep(collector, path, keywords[k]);
      BackedTogether(before, collector.outputs, path, matches, found);
      matches := matches + found;
      total := total + count;
    }
  }

  lemma NothingToBack(outputs: seq<CollectedOutput>, path: string)
    ensures AllBacked(outputs, path, [])
  {
  }

  lemma BackedTogether(before: seq<CollectedOutput>, after: seq<CollectedOutput>, path: string, a: seq<Row>,
                       b: seq<Row>)
    requires before <= after && AllBacked(before, path, a) && AllBacked(after, path, b)
    ensures AllBacked(after, path, a + b)
  {
    assert after == before + after[|before|..];
    BackedGrows(before, after[|before|..], path, a);
  }

  ghost predicate AllGood(outputs: seq<CollectedOutput>, dir: string, files: seq<string>, findings: seq<Row>) {
    forall f :: f in findings ==> GoodFinding(outputs, dir, files, f)
  }

  lemma GoodTogether(before: seq<CollectedOutput>, after: seq<CollectedOutput>, dir: string, files: seq<string>,
                     findings: seq<Row>, file: string, matches: seq<Row>)
    requires before <= after && AllGood(before, dir, files, findings) && file in files
    requires matches != [] && AllBacked(after, PathOf(dir, file), matches)
    ensures AllGood(after, dir, files, findings) && AllGood(after, dir, files, findings + [FindingFor(file, matches)])
  {
    AllGoodGrows(before, after, dir, files, findings);
    assert GoodFinding(after, dir, files, FindingFor(file, matches));
  }

  lemma AllGoodGrows(before: seq<CollectedOutput>, after: seq<CollectedOutput>, dir: string, files: seq<string>,
                     findings: seq<Row>)
    requires before <= after && AllGood(before, dir, files, findings)
    ensures AllGood(after, dir, files, findings)
  {
    assert after == before + after[|before|..];
    forall f | f in findings
      ensures GoodFinding(after, dir, files, f)
    {
      GoodGrows(before, after[|before|..], dir, files, f);
    }
  }

  method ScanFiles(collector: ToolCallCollector, dir: string, files: seq<string>, keywords: seq<string>)
    returns (findings: seq<Row>, total: int)
    modifies collector
    ensures findings == Findings(collector.inner, old(collector.issued), dir, files, keywords, |files|)
    ensures total == TotalMatches(collector.inner, old(collector.issued), dir, files, keywords, |files|)
    ensures old(collector.outputs) <= collector.outputs && AllGood(collector.outputs, dir, files, findings)
  {
    hide AllBacked, GoodFinding, FileMatches, FileTotal;
    findings, total := [], 0;
    for i := 0 to |files|
      invariant findings == Findings(collector.inner, old(collector.issued), dir, files, keywords, i)
      invariant total == TotalMatches(collector.inner, old(collector.issued), dir, files, keywords, i)
      invariant collector.issued == CallNumber(old(collector.issued), |keywords|, i)
      invariant old(collector.outputs) <= collector.outputs && AllGood(collector.outputs, dir, files, findings)
    {
      ghost var before := collector.outputs;
      var matches, count := GrepFile(collector, PathOf(dir, files[i]), keywords);
      AllGoodGrows(before, collector.outputs, dir, files, findings);
      if |matches| > 0 {
        GoodTogether(before, collector.outputs, dir, files, findings, files[i], matches);
        findings := findings + [FindingFor(files[i], matches)];
      }
      total := total + count;
    }
  }

  method FilterEntries(entries: seq<Row>) returns (files: seq<string>)
    ensures files == LogFiles(entries)
  {
    files := [];
    for i := 0 to |entries|
      invariant files == LogFiles(entries[..i])
    {
      assert entries[..i + 1][..i] == entries[..i];
      if IsLogEntry(entries[i]) {
        files := files + [StrVal(entries[i].fields, "name")];
      }
    }
    assert entries[..|entries|] == entries;
  }

  function EntriesField(data: Fields): Value {
    if "entries" in data then data["entries"] else Null
  }

  function ListedFiles(listing: ToolResult): seq<string> {
    if listing.Ok? then LogFiles(RowsOf(EntriesField(listing.value))) else []
  }

  function FileLines(findings: seq<Row>): string {
    if findings == [] then ""
    else
      var last := findings[|findings| - 1].fields;
      FileLines(findings[..|findings| - 1])
      + "  - " + StrVal(last, "file") + ": " + SignedDecimal(IntVal(last, "match_count")) + " matches\n"
  }

  function ScanSummary(dir: string, files: nat, total: int, findings: seq<Row>): string {
    "Scanned " + Decimal(files) + " log files in '" + dir + "'. "
    + "Found " + SignedDecimal(total) + " matching lines across " + Decimal(|findings|) + " files.\n"
    + FileLines(findings) + if total == 0 then "No errors or warnings found." else ""
  }

  method ListFindings(findings: seq<Row>) returns (text: string)
    ensures text == FileLines(findings)
  {
    text := "";
    for i := 0 to |findings|
      invariant text == FileLines(findings[..i])
    {
      assert findings[..i + 1][..i] == findings[..i];
      var fields := findings[i].fields;
      text := text + "  - " + StrVal(fields, "file") + ": " + SignedDecimal(IntVal(fields, "match_count"))
        + " matches\n";
    }
    assert findings[..|findings|] == findings;
  }

  method Summarize(dir: string, files: nat, total: int, findings: seq<Row>) returns (summary: string)
    ensures summary == ScanSummary(dir, files, total, findings)
  {
    var list := ListFindings(findings);
    summary := "Scanned " + Decimal(files) + " log files in '" + dir + "'. "
      + "Found " + SignedDecimal(total) + " matching lines across " + Decimal(|findings|) + " files.\n"
      + list + if total == 0 then "No errors or warnings found." else "";
  }

  /** The whole agent: an error without tools or without a listing, otherwise the findings of every
      listed log file, all of them backed by what the collector logged. */
  method RunWithContext(collector: ToolCallCollector?, input: Fields) returns (r: Result<Fields, string>)
    modifies collector
    ensures collector == null ==> r.Err?
    ensures collector != null ==>
      var n, dir, keywords := old(collector.issued), DirectoryOf(input), KeywordsOf(input);
      var listing := collector.inner(n, ListCall(dir));
      var files := ListedFiles(listing);
      var findings := Findings(collector.inner, n + 1, dir, files, keywords, |files|);
      var total := TotalMatches(collector.inner, n + 1, dir, files, keywords, |files|);
      && (r.Ok? <==> listing.Ok?)
      && old(collector.outputs) <= collector.outputs
      && (r.Ok? ==>
            && r.value == map["files_scanned" := Int(|files|),
                              "total_matches" := Int(total),
                              "findings" := Rows(findings),
                              "summary" := Str(ScanSummary(dir, |files|, total, findings))]
            && AllGood(collector.outputs, dir, files, findings)
            && ScanExact(collector.inner, n + 1, dir, files, keywords, r.value))
  {
    if collector == null {
      return Err("LogReaderAgent requires tools (fs.list_dir, fs.grep_file)");
    }
    hide AllGood, Findings, TotalMatches, LogFiles, ScanSummary, ScanExact;
    var dir := DirectoryOf(input);
    var keywords := KeywordsOf(input);
    var listing := collector.Execute(ListCall(dir));
    if listing.Err? {
      return Err("list_dir failed: " + listing.error);
    }
    var entries := ExtractRows(EntriesField(listing.value));
    var logFiles := FilterEntries(entries);
    var allFindings, totalMatches := ScanFiles(collector, dir, logFiles, keywords);
    var summary := Summarize(dir, |logFiles|, totalMatches, allFindings);
    r := Ok(map["files_scanned" := Int(|logFiles|), "total_matches" := Int(totalMatches),
                "findings" := Rows(allFindings), "summary" := Str(summary)]);
    ScanIsExact(collector.inner, old(collector.issued) + 1, dir, logFiles, keywords, r.value);
  }
}
