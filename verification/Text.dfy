/** The string operations grounding relies on: splitting on whitespace, joining with single spaces,
    and substring search. Strings are sequences of Unicode code points. */
module Text {
  /** unicode.IsSpace */
  predicate IsSpace(c: char) {
    || '\t' <= c <= '\r' || c == ' ' || c == '\U{85}' || c == '\U{A0}' || c == '\U{1680}'
    || '\U{2000}' <= c <= '\U{200A}' || c == '\U{2028}' || c == '\U{2029}' || c == '\U{202F}'
    || c == '\U{205F}' || c == '\U{3000}'
  }

  function WordLength(s: string): (n: nat)
    ensures n <= |s|
  {
    if s == "" || IsSpace(s[0]) then 0 else 1 + WordLength(s[1..])
  }

  /** strings.Fields: the maximal runs of non-space characters. */
  function Words(s: string): seq<string>
    decreases |s|
  {
    if s == "" then []
    else if IsSpace(s[0]) then Words(s[1..])
    else [s[..WordLength(s)]] + Words(s[WordLength(s)..])
  }

  function Join(words: seq<string>): string {
    if words == [] then ""
    else if |words| == 1 then words[0]
    else words[0] + " " + Join(words[1..])
  }

  function NormalizeWS(s: string): string {
    Join(Words(s))
  }

  predicate OccursAt(hay: string, needle: string, i: nat) {
    i + |needle| <= |hay| && hay[i..i + |needle|] == needle
  }

  ghost predicate Contains(hay: string, needle: string) {
    exists i: nat :: OccursAt(hay, needle, i)
  }

  // ----- splitting a text at a space -----

  ghost predicate EndsInSpace(s: string) {
    s == "" || IsSpace(s[|s| - 1])
  }

  lemma {:induction false} WordInside(a: string, b: string)
    requires a != "" && EndsInSpace(a)
    ensures WordLength(a) < |a| && WordLength(a + b) == WordLength(a)
  {
    if !IsSpace(a[0]) {
      assert (a + b)[1..] == a[1..] + b;
      WordInside(a[1..], b);
    }
  }

  lemma WordsUnfold(s: string)
    ensures s == "" ==> Words(s) == []
    ensures s != "" && IsSpace(s[0]) ==> Words(s) == Words(s[1..])
    ensures s != "" && !IsSpace(s[0]) ==> Words(s) == [s[..WordLength(s)]] + Words(s[WordLength(s)..])
  {
  }

  /** Words never straddle a space. */
  lemma {:induction false} WordsSplit(a: string, b: string)
    requires EndsInSpace(a)
    ensures Words(a + b) == Words(a) + Words(b)
    decreases |a|
  {
    WordsUnfold(a);
    WordsUnfold(a + b);
    hide Words, WordLength, IsSpace;
    if a == "" {
      assert a + b == b;
    } else if IsSpace(a[0]) {
      assert (a + b)[1..] == a[1..] + b;
      WordsSplit(a[1..], b);
    } else {
      var n := WordLength(a);
      WordInside(a, b);
      assert (a + b)[..n] == a[..n] && (a + b)[n..] == a[n..] + b;
      WordsSplit(a[n..], b);
    }
  }

  lemma {:induction false} WordBeforeSpace(s: string, c: char)
    requires IsSpace(c)
    ensures WordLength(s + [c]) == WordLength(s)
  {
    if s != "" && !IsSpace(s[0]) {
      assert (s + [c])[1..] == s[1..] + [c];
      WordBeforeSpace(s[1..], c);
    }
  }

  lemma {:induction false} TrailingSpace(s: string, c: char)
    requires IsSpace(c)
    ensures Words(s + [c]) == Words(s)
    decreases |s|
  {
    if s == "" {
      assert s + [c] == [c] && [c][1..] == "";
    } else if IsSpace(s[0]) {
      assert (s + [c])[1..] == s[1..] + [c];
      TrailingSpace(s[1..], c);
    } else {
      var n := WordLength(s);
      WordBeforeSpace(s, c);
      assert (s + [c])[..n] == s[..n] && (s + [c])[n..] == s[n..] + [c];
      assert n > 0;
      TrailingSpace(s[n..], c);
    }
  }

  // ----- joining -----

  lemma {:induction false} JoinSplit(a: seq<string>, b: seq<string>)
    requires a != [] && b != []
    ensures Join(a + b) == Join(a) + " " + Join(b)
  {
    assert (a + b)[1..] == a[1..] + b;
    if |a| == 1 {
      assert a[1..] + b == b;
    } else {
      JoinSplit(a[1..], b);
    }
  }

  lemma ContainsMiddle(pre: string, needle: string, post: string)
    ensures Contains(pre + needle + post, needle)
  {
    assert OccursAt(pre + needle + post, needle, |pre|);
  }

  /** Joining more words in front or behind only adds text in front or behind. */
  lemma JoinExtends(a: seq<string>, b: seq<string>) returns (left: string, right: string)
    requires b != []
    ensures Join(a + b) == left + Join(b)
    ensures Join(b + a) == Join(b) + right
  {
    if a == [] {
      assert a + b == b && b + a == b;
      left, right := "", "";
      assert "" + Join(b) == Join(b) && Join(b) + "" == Join(b);
    } else {
      JoinSplit(a, b);
      JoinSplit(b, a);
      left, right := Join(a) + " ", " " + Join(a);
      assert Join(b) + " " + Join(a) == Join(b) + right;
    }
  }

  /** A run of words, joined, is found inside the whole, joined. */
  lemma JoinContains(a: seq<string>, b: seq<string>, c: seq<string>)
    ensures Contains(Join(a + b + c), Join(b))
  {
    hide Join, Contains;
    if b == [] {
      EmptyIsFound(Join(a + b + c));
    } else {
      var left, _ := JoinExtends(a, b);
      var _, right := JoinExtends(c, a + b);
      ContainsMiddle(left, Join(b), right);
    }
  }

  lemma EmptyIsFound(hay: string)
    ensures Contains(hay, Join([]))
  {
    assert OccursAt(hay, Join([]), 0);
  }

  lemma ContainsTransitive(a: string, b: string, c: string)
    requires Contains(a, b) && Contains(b, c)
    ensures Contains(a, c)
  {
    var i: nat :| OccursAt(a, b, i);
    var j: nat :| OccursAt(b, c, j);
    forall k | 0 <= k < |c|
      ensures a[i + j + k] == c[k]
    {
      assert a[i..i + |b|][j + k] == b[j + k] && b[j..j + |c|][k] == c[k];
    }
    assert OccursAt(a, c, i + j);
  }

  // ----- normalised search -----

  /** A line between two line breaks is found by normalised search, whatever surrounds it. */
  lemma LineIsFound(before: string, line: string, after: string)
    requires EndsInSpace(before)
    ensures Contains(NormalizeWS(before + line + "\n" + after), NormalizeWS(line))
  {
    var rest := line + "\n";
    assert before + line + "\n" + after == before + (rest + after);
    WordsSplit(before, rest + after);
    WordsSplit(rest, after);
    TrailingSpace(line, '\n');
    assert Words(before) + (Words(line) + Words(after)) == Words(before) + Words(line) + Words(after);
    JoinContains(Words(before), Words(line), Words(after));
  }

  /** Text found in a corpus that ends in whitespace is still found after more is appended. */
  lemma StaysFound(corpus: string, more: string, text: string)
    requires EndsInSpace(corpus) && Contains(NormalizeWS(corpus), NormalizeWS(text))
    ensures Contains(NormalizeWS(corpus + more), NormalizeWS(text))
  {
    WordsSplit(corpus, more);
    assert [] + Words(corpus) + Words(more) == Words(corpus) + Words(more);
    JoinContains([], Words(corpus), Words(more));
    ContainsTransitive(NormalizeWS(corpus + more), NormalizeWS(corpus), NormalizeWS(text));
  }

  // ----- quoting -----

  ghost predicate StartsWith(s: string, start: string) {
    exists rest :: s == start + rest
  }

  ghost predicate EndsWith(s: string, end: string) {
    exists rest :: s == rest + end
  }

  lemma {:induction false} WordLengthGrows(a: string, b: string)
    ensures WordLength(a) < |a| ==> WordLength(a + b) == WordLength(a)
    ensures WordLength(a) == |a| ==> WordLength(a + b) >= |a|
  {
    if a != "" && !IsSpace(a[0]) {
      assert (a + b)[1..] == a[1..] + b;
      WordLengthGrows(a[1..], b);
    }
  }

  /** What joining puts behind the first word. */
  function Tail(rest: seq<string>): string {
    if rest == [] then "" else " " + Join(rest)
  }

  lemma JoinFront(first: string, rest: seq<string>)
    ensures Join([first] + rest) == first + Tail(rest)
  {
    assert ([first] + rest)[1..] == rest;
  }

  lemma PrependStarts(first: string, s: string, start: string)
    requires StartsWith(s, start)
    ensures StartsWith(first + s, first + start)
  {
    var rest :| s == start + rest;
    assert first + s == (first + start) + rest;
  }

  lemma EmptyStarts(s: string)
    ensures StartsWith(s, "")
  {
    assert s == "" + s;
  }

  lemma TailStarts(shorter: seq<string>, longer: seq<string>)
    requires StartsWith(Join(longer), Join(shorter)) && (shorter != [] ==> longer != [])
    ensures StartsWith(Tail(longer), Tail(shorter))
  {
    hide Join, StartsWith;
    EmptyStarts(Tail(longer));
    PrependStarts(" ", Join(longer), Join(shorter));
  }

  /** The words after the first decide how a joined text goes on. */
  lemma JoinStarts(first: string, shorter: seq<string>, longer: seq<string>)
    requires StartsWith(Join(longer), Join(shorter)) && (shorter != [] ==> longer != [])
    ensures StartsWith(Join([first] + longer), Join([first] + shorter))
  {
    hide *;
    JoinFront(first, shorter);
    JoinFront(first, longer);
    TailStarts(shorter, longer);
    PrependStarts(first, Tail(longer), Tail(shorter));
  }

  lemma FirstWordStarts(first: string, rest: seq<string>, start: string)
    requires StartsWith(first, start)
    ensures StartsWith(Join([first] + rest), start)
  {
    hide Join, Tail;
    JoinFront(first, rest);
    var more :| first == start + more;
    assert Join([first] + rest) == start + (more + Tail(rest));
  }

  /** Whatever follows a text, its normal form is where the normal form of the whole begins. */
  lemma {:induction false} NormalPrefix(a: string, b: string)
    ensures StartsWith(NormalizeWS(a + b), NormalizeWS(a))
    ensures Words(a) != [] ==> Words(a + b) != []
    decreases |a|
  {
    hide Join;
    if a == "" {
      assert NormalizeWS(a + b) == Join(Words(a)) + NormalizeWS(a + b) by {
        NothingJoined();
      }
    } else if IsSpace(a[0]) {
      assert (a + b)[1..] == a[1..] + b;
      NormalPrefix(a[1..], b);
    } else {
      var n := WordLength(a);
      WordLengthGrows(a, b);
      if n < |a| {
        assert (a + b)[..n] == a[..n] && (a + b)[n..] == a[n..] + b;
        NormalPrefix(a[n..], b);
        JoinStarts(a[..n], Words(a[n..]), Words(a[n..] + b));
      } else {
        var m := WordLength(a + b);
        assert a[..n] == a && a[n..] == "";
        assert Words(a) == [a];
        assert (a + b)[..m] == a + (a + b)[|a|..m];
        OneJoined(a);
        FirstWordStarts((a + b)[..m], Words((a + b)[m..]), a);
      }
    }
  }

  lemma NothingJoined()
    ensures Join([]) == ""
  {
  }

  lemma OneJoined(word: string)
    ensures Join([word]) == word
  {
  }

  /** And whatever precedes it, its normal form is where the normal form of the whole ends. */
  lemma {:induction false} NormalSuffix(a: string, b: string)
    ensures EndsWith(NormalizeWS(a + b), NormalizeWS(b))
  {
    if a == "" {
      assert a + b == b;
      assert NormalizeWS(b) == "" + NormalizeWS(b);
    } else {
      NormalSuffix(a[1..], b);
      assert [a[0]] + (a[1..] + b) == a + b;
      OneMoreInFront(a[0], a[1..] + b);
      var before :| NormalizeWS(a[1..] + b) == before + NormalizeWS(b);
      var more :| NormalizeWS(a + b) == more + NormalizeWS(a[1..] + b);
      assert NormalizeWS(a + b) == (more + before) + NormalizeWS(b);
    }
  }

  lemma OneMoreInFront(c: char, s: string)
    ensures EndsWith(NormalizeWS([c] + s), NormalizeWS(s))
  {
    var whole := [c] + s;
    assert whole[1..] == s;
    if IsSpace(c) {
      assert NormalizeWS(whole) == "" + NormalizeWS(s);
    } else if s == "" || IsSpace(s[0]) {
      assert WordLength(whole) == 1;
      assert Words(whole) == [[c]] + Words(s);
      assert NormalizeWS(whole) == (if Words(s) == [] then [c] else [c] + " ") + NormalizeWS(s);
    } else {
      var n := WordLength(s);
      assert WordLength(whole) == n + 1;
      assert whole[..n + 1] == [c] + s[..n] && whole[n + 1..] == s[n..];
      assert Words(whole) == [[c] + s[..n]] + Words(s[n..]);
      assert Words(s) == [s[..n]] + Words(s[n..]);
      assert NormalizeWS(whole) == [c] + NormalizeWS(s);
    }
  }

  /** Any stretch of a text is found in it by normalised search, even one that begins or ends inside a
      word or among spaces. */
  lemma QuoteIsFound(text: string, i: nat, j: nat)
    requires i <= j <= |text|
    ensures Contains(NormalizeWS(text), NormalizeWS(text[i..j]))
  {
    assert text == text[..i] + text[i..] && text[i..] == text[i..j] + text[j..];
    NormalSuffix(text[..i], text[i..]);
    NormalPrefix(text[i..j], text[j..]);
    var before :| NormalizeWS(text) == before + NormalizeWS(text[i..]);
    var after :| NormalizeWS(text[i..]) == NormalizeWS(text[i..j]) + after;
    assert NormalizeWS(text) == before + NormalizeWS(text[i..j]) + after;
    ContainsMiddle(before, NormalizeWS(text[i..j]), after);
  }

  lemma SliceOfSlice(s: string, from: nat, to: nat, i: nat, j: nat)
    requires from <= to <= |s| && i <= j <= to - from
    ensures s[from..to][i..j] == s[from + i..from + j]
  {
    var part := s[from..to];
    assert |part| == to - from && forall k :: 0 <= k < |part| ==> part[k] == s[from + k];
  }

  // ----- normal forms -----

  predicate IsWord(word: string) {
    word != "" && forall k :: 0 <= k < |word| ==> !IsSpace(word[k])
  }

  lemma {:induction false} WordLengthWithin(s: string)
    ensures forall k :: 0 <= k < WordLength(s) ==> !IsSpace(s[k])
    ensures WordLength(s) < |s| ==> IsSpace(s[WordLength(s)])
  {
    if s != "" && !IsSpace(s[0]) {
      WordLengthWithin(s[1..]);
    }
  }

  lemma {:induction false} WordsAreWords(s: string)
    ensures forall w :: w in Words(s) ==> IsWord(w)
    decreases |s|
  {
    if s != "" {
      if IsSpace(s[0]) {
        WordsAreWords(s[1..]);
      } else {
        WordLengthWithin(s);
        WordsAreWords(s[WordLength(s)..]);
      }
    }
  }

  lemma {:induction false} WordIsLong(word: string)
    requires forall k :: 0 <= k < |word| ==> !IsSpace(word[k])
    ensures WordLength(word) == |word|
  {
    if word != "" {
      WordIsLong(word[1..]);
    }
  }

  lemma WordItself(word: string)
    requires IsWord(word)
    ensures Words(word) == [word]
  {
    WordIsLong(word);
    assert word[..|word|] == word && word[|word|..] == "";
  }

  /** Joining and splitting again gives the same words. */
  lemma {:induction false} WordsOfJoin(words: seq<string>)
    requires forall w :: w in words ==> IsWord(w)
    ensures Words(Join(words)) == words
  {
    if |words| == 1 {
      assert words[0] in words;
      WordItself(words[0]);
    } else if |words| > 1 {
      assert words[0] in words;
      WordsOfJoin(words[1..]);
      WordItself(words[0]);
      TrailingSpace(words[0], ' ');
      assert words[0] + [' '] == words[0] + " ";
      WordsSplit(words[0] + " ", Join(words[1..]));
    }
  }

  /** So texts have the same normal form exactly when they have the same words. */
  lemma SameNormalForm(a: string, b: string)
    ensures NormalizeWS(a) == NormalizeWS(b) <==> Words(a) == Words(b)
  {
    WordsAreWords(a);
    WordsAreWords(b);
    WordsOfJoin(Words(a));
    WordsOfJoin(Words(b));
  }

  lemma MutuallyContained(a: string, b: string)
    requires Contains(a, b) && Contains(b, a)
    ensures a == b
  {
    var i: nat :| OccursAt(a, b, i);
    assert a[0..|b|] == a;
  }
}
