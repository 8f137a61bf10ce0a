/** What the order in which maps are ranged over means for grounding. Evidence quoted from one leaf is
    judged the same under every order (module Grounding); other texts need not be. */
module GroundingOrder {
  import opened Corpus
  import opened Grounding
  import opened Text
  import opened ToolRecords
  import opened Values

  // ----- texts of one word -----

  lemma {:induction false} WordInJoin(words: seq<string>, word: string) returns (w: string)
    requires IsWord(word) && Contains(Join(words), word)
    ensures w in words && Contains(w, word)
  {
    var whole := Join(words);
    var i: nat :| OccursAt(whole, word, i);
    if |words| == 1 {
      w := words[0];
    } else {
      var first, rest := words[0], Join(words[1..]);
      assert whole == first + " " + rest && whole[|first|] == ' ';
      assert forall k :: i <= k < i + |word| ==> whole[k] == word[k - i];
      if i + |word| <= |first| {
        w := first;
        assert OccursAt(first, word, i);
      } else {
        assert OccursAt(rest, word, i - |first| - 1);
        w := WordInJoin(words[1..], word);
      }
    }
  }

  lemma {:induction false} WordInChunks(chunks: seq<string>, w: string) returns (chunk: string)
    requires w in Words(Lines(chunks))
    ensures chunk in chunks && w in Words(chunk)
  {
    var before, last := chunks[..|chunks| - 1], chunks[|chunks| - 1];
    LinesEndInSpace(before);
    WordsSplit(Lines(before), last + "\n");
    assert last + "\n" == last + ['\n'];
    TrailingSpace(last, '\n');
    assert Lines(chunks) == Lines(before) + (last + "\n");
    if w in Words(last) {
      chunk := last;
    } else {
      chunk := WordInChunks(before, w);
    }
  }

  lemma WordIsContained(words: seq<string>, w: string)
    requires w in words
    ensures Contains(Join(words), w)
  {
    var i :| 0 <= i < |words| && words[i] == w;
    assert words == words[..i] + [w] + words[i + 1..];
    JoinContains(words[..i], [w], words[i + 1..]);
    OneJoined(w);
  }

  /** A text of at most one word, once grounded, stays grounded when more is collected, and is judged
      the same under every order. */
  lemma OneWordStaysGrounded(show: Show, outputs: seq<CollectedOutput>, more: seq<CollectedOutput>, text: string,
                             corpus: string, later: string)
    requires |Words(text)| <= 1
    requires IsCorpus(show, outputs, corpus) && IsGrounded(text, corpus) && IsCorpus(show, outputs + more, later)
    ensures IsGrounded(text, later)
  {
    if Words(text) == [] {
      EmptyIsFound(NormalizeWS(later));
    } else {
      var word := Words(text)[0];
      assert Words(text) == [word] && word in Words(text);
      OneJoined(word);
      WordsAreWords(text);
      hide Words, Renders, IsCorpus, OutputLeaf;
      var w := WordInJoin(Words(corpus), word);
      var leaf := LeafWith(show, outputs, corpus, w);
      assert leaf[0..|leaf|] == leaf;
      QuotesStayGrounded(show, outputs, more, later, leaf, 0, |leaf|);
      WordIsContained(Words(leaf), w);
      ContainsTransitive(NormalizeWS(leaf), w, word);
      ContainsTransitive(NormalizeWS(later), NormalizeWS(leaf), word);
    }
  }

  lemma LeafWith(show: Show, outputs: seq<CollectedOutput>, corpus: string, w: string) returns (leaf: string)
    requires IsCorpus(show, outputs, corpus) && w in Words(corpus)
    ensures OutputLeaf(show, outputs, leaf) && w in Words(leaf)
  {
    var chunks :| CorpusFrom(show, outputs, corpus, chunks);
    leaf := WordInChunks(chunks, w);
    CorpusLeaves(show, outputs, chunks, leaf);
  }

  // ----- texts of more words -----

  /** One tool output with two entries. */
  function TwoEntries(a: string, b: string): Fields {
    map["a" := Str(a), "b" := Str(b)]
  }

  function TwoStrings(a: string, b: string): seq<CollectedOutput> {
    [CollectedOutput("", map[], TwoEntries(a, b))]
  }

  lemma EntriesRendered(show: Show, row: Row, first: string, second: string, chunks: seq<string>)
    requires first != second && row.fields.Keys == {first, second}
    requires row.fields[first].Str? && row.fields[second].Str?
    requires chunks == [row.fields[first].s, row.fields[second].s]
    ensures KeysRender(show, row, row.fields.Keys, chunks)
  {
    assert KeysRender(show, row, {}, []);
    KeyRendered(show, row, {}, first, [], [row.fields[first].s]);
    KeyRendered(show, row, {} + {first}, second, [] + [row.fields[first].s], [row.fields[second].s]);
    assert {} + {first} + {second} == row.fields.Keys;
    assert [] + [row.fields[first].s] + [row.fields[second].s] == chunks;
  }

  lemma OneOutputRendered(show: Show, outputs: seq<CollectedOutput>, chunks: seq<string>)
    requires |outputs| == 1
    requires KeysRender(show, Row(outputs[0].output), outputs[0].output.Keys, chunks)
    ensures IsCorpus(show, outputs, Lines(chunks))
  {
    hide KeysRender;
    var all := Collected(outputs);
    assert ItemsRender(show, all, 0, []);
    ItemRendered(show, all, 0, [], chunks);
    assert [] + chunks == chunks;
    assert CorpusFrom(show, outputs, Lines(chunks), chunks);
  }

  /** Both orders of the two entries give a corpus. */
  lemma BothOrders(show: Show, a: string, b: string)
    ensures IsCorpus(show, TwoStrings(a, b), a + "\n" + b + "\n")
    ensures IsCorpus(show, TwoStrings(a, b), b + "\n" + a + "\n")
  {
    var row := Row(TwoEntries(a, b));
    EntriesRendered(show, row, "a", "b", [a, b]);
    EntriesRendered(show, row, "b", "a", [b, a]);
    OneOutputRendered(show, TwoStrings(a, b), [a, b]);
    OneOutputRendered(show, TwoStrings(a, b), [b, a]);
    TwoLines(a, b);
    TwoLines(b, a);
  }

  lemma TwoLines(a: string, b: string)
    ensures Lines([a, b]) == a + "\n" + b + "\n"
    ensures Words(a + "\n" + b + "\n") == Words(a) + Words(b)
  {
    assert [a, b][..1] == [a];
    LinesOfOne(a);
    assert a + "\n" == a + ['\n'] && b + "\n" == b + ['\n'];
    TrailingSpace(a, '\n');
    TrailingSpace(b, '\n');
    WordsSplit(a + "\n", b + "\n");
    assert a + "\n" + b + "\n" == (a + "\n") + (b + "\n");
  }

  lemma NotItself(hay: string, needle: string)
    requires |hay| == |needle| && hay != needle
    ensures !Contains(hay, needle)
  {
    assert hay[0..|needle|] == hay;
    assert forall i: nat :: OccursAt(hay, needle, i) ==> i == 0;
  }

  /** What the search compares when the corpus holds two lines. */
  lemma NormalOfTwo(a: string, b: string)
    ensures NormalizeWS(a + "\n" + b + "\n") == Join(Words(a) + Words(b))
  {
    TwoLines(a, b);
  }

  /** A concrete input: "x y" is grounded or not depending on the order in which the two entries of one
      map are visited. So grounding as such is neither independent of the order nor monotone. */
  lemma OrderDecides(show: Show)
    ensures IsCorpus(show, TwoStrings("x", "y"), "x" + "\n" + "y" + "\n")
    ensures IsCorpus(show, TwoStrings("x", "y"), "y" + "\n" + "x" + "\n")
    ensures IsGrounded("x y", "x" + "\n" + "y" + "\n") && !IsGrounded("x y", "y" + "\n" + "x" + "\n")
  {
    hide *;
    BothOrders(show, "x", "y");
    XThenY();
    YThenX();
  }

  lemma XThenY()
    ensures NormalizeWS("x y") == "x y" && IsGrounded("x y", "x" + "\n" + "y" + "\n")
  {
    hide Words;
    WordItself("x");
    WordItself("y");
    JoinFront("x", ["y"]);
    OneJoined("y");
    assert ["x"] + ["y"] == ["x", "y"] && "x" + " " + "y" == "x y";
    WordsOfJoin(["x", "y"]);
    NormalOfTwo("x", "y");
    assert OccursAt("x y", "x y", 0);
  }

  lemma YThenX()
    ensures !IsGrounded("x y", "y" + "\n" + "x" + "\n")
  {
    hide Words, IsGrounded;
    XThenY();
    WordItself("x");
    WordItself("y");
    JoinFront("y", ["x"]);
    OneJoined("x");
    assert ["y"] + ["x"] == ["y", "x"] && "y" + " " + "x" == "y x";
    NormalOfTwo("y", "x");
    NotItself("y x", "x y");
    GroundedMeans("x y", "y" + "\n" + "x" + "\n");
  }

  lemma GroundedMeans(text: string, corpus: string)
    ensures IsGrounded(text, corpus) <==> Contains(NormalizeWS(corpus), NormalizeWS(text))
  {
  }

  /** A word, longer than `length`, that begins otherwise than `a` and ends otherwise than `b`. */
  function Separator(length: nat, a: char, b: char): (z: string)
    ensures IsWord(z) && |z| > length && z[0] != a && z[|z| - 1] != b
  {
    var first, last := if a == 'a' then 'b' else 'a', if b == 'a' then 'b' else 'a';
    [first] + seq(length, _ => 'x') + [last]
  }

  /** Where the second of two texts goes on without a space, the last space of the first lies just
      before it. */
  lemma LastSpaceMeets(hay: string, start: string, last: string, z: string, i: nat, p: nat)
    requires IsWord(last) && IsWord(z)
    requires i <= p < i + |start| + |last| && p + |z| < |hay| && i + |start| + |last| < p + |z|
    requires hay[p] == ' ' && forall k :: 0 <= k < |z| ==> hay[p + 1 + k] == z[k]
    requires forall k :: 0 <= k < |last| ==> hay[i + |start| + 1 + k] == last[k]
    requires hay[i + |start|] == ' '
    ensures z[0] == last[0]
  {
    var s := i + |start|;
    assert forall k :: p < k <= p + |z| ==> hay[k] == z[k - p - 1];
    assert forall k :: s < k <= s + |last| ==> hay[k] == last[k - s - 1];
    assert s == p;
    assert hay[p + 1 + 0] == z[0] && hay[s + 1 + 0] == last[0];
  }

  /** Past the first of three texts, the only space is the one before the third. */
  lemma FirstSpaceMeets(hay: string, before: string, z: string, first: string, i: nat)
    requires IsWord(first) && IsWord(z) && hay == before + " " + z + " " + first
    requires i > |before| && i + |first| < |hay| && hay[i + |first|] == ' '
    requires forall k :: 0 <= k < |first| ==> hay[i + k] == first[k]
    ensures z[|z| - 1] == first[|first| - 1]
  {
    var q := |before| + 1 + |z|;
    assert forall k :: |before| < k < q ==> hay[k] == z[k - |before| - 1];
    assert forall k :: q < k < |hay| ==> hay[k] == first[k - q - 1];
    assert i + |first| == q;
    assert hay[i + (|first| - 1)] == first[|first| - 1];
  }

  /** first + " " + rest, which ends in the word `last`, does not occur in rest + " " + z + " " + first: it
      is too long to miss z, and neither its first nor its last space can lie next to z. */
  lemma Separated(first: string, start: string, last: string, rest: string, z: string)
    requires IsWord(first) && IsWord(last) && IsWord(z)
    requires first + " " + rest == start + " " + last
    requires |z| > |first| + 1 + |rest| && z[0] != last[0] && z[|z| - 1] != first[|first| - 1]
    ensures !Contains(rest + " " + z + " " + first, first + " " + rest)
  {
    var text, hay := first + " " + rest, rest + " " + z + " " + first;
    forall i: nat | OccursAt(hay, text, i)
      ensures false
    {
      Occurrence(hay, text, i);
      if i > |rest| {
        FirstSpaceInside(hay, text, first, rest, z, i);
      } else {
        LastSpaceInside(hay, text, start, last, rest, z, i);
      }
    }
  }

  lemma Occurrence(hay: string, text: string, i: nat)
    requires OccursAt(hay, text, i)
    ensures forall k :: 0 <= k < |text| ==> hay[i + k] == text[k]
  {
    assert forall k :: 0 <= k < |text| ==> hay[i..i + |text|][k] == text[k];
  }

  lemma FirstSpaceInside(hay: string, text: string, first: string, rest: string, z: string, i: nat)
    requires IsWord(first) && IsWord(z) && hay == rest + " " + z + " " + first && text == first + " " + rest
    requires i > |rest| && i + |text| <= |hay| && forall k :: 0 <= k < |text| ==> hay[i + k] == text[k]
    ensures z[|z| - 1] == first[|first| - 1]
  {
    assert hay[i + |first|] == text[|first|] == ' ';
    assert forall k :: 0 <= k < |first| ==> hay[i + k] == text[k] == first[k];
    FirstSpaceMeets(hay, rest, z, first, i);
  }

  lemma LastSpaceInside(hay: string, text: string, start: string, last: string, rest: string, z: string, i: nat)
    requires IsWord(last) && IsWord(z) && text == start + " " + last
    requires rest + " " + z <= hay && |text| < |z|
    requires i <= |rest| && |rest| + 1 < i + |text| && forall k :: 0 <= k < |text| ==> hay[i + k] == text[k]
    ensures z[0] == last[0]
  {
    var begin := rest + " " + z;
    assert forall k :: 0 <= k < |begin| ==> hay[k] == begin[k];
    assert forall k :: 0 <= k < |z| ==> hay[|rest| + 1 + k] == begin[|rest| + 1 + k] == z[k];
    assert hay[|rest|] == begin[|rest|] == ' ';
    assert hay[i + |start|] == text[|start|] == ' ';
    assert forall k :: 0 <= k < |last| ==> hay[i + (|start| + 1 + k)] == text[|start| + 1 + k] == last[k];
    LastSpaceMeets(hay, start, last, z, i, |rest|);
  }

  /** For every text of two words or more there is a map with two entries of which one order grounds it
      and the other does not. */
  lemma OrderMatters(show: Show, text: string) returns (a: string, b: string)
    requires |Words(text)| > 1
    ensures IsCorpus(show, TwoStrings(a, b), a + "\n" + b + "\n") && IsGrounded(text, a + "\n" + b + "\n")
    ensures IsCorpus(show, TwoStrings(a, b), b + "\n" + a + "\n") && !IsGrounded(text, b + "\n" + a + "\n")
  {
    hide Words, Join, IsCorpus, Separator, NormalizeWS;
    var words := Words(text);
    WordsAreWords(text);
    var first, last, rest := words[0], words[|words| - 1], Join(words[1..]);
    assert first in words && last in words;
    var z := Separator(|first| + 1 + |rest|, last[0], first[|first| - 1]);
    a, b := first, rest + " " + z;
    WordItself(a);
    WordsWithSeparator(words[1..], z);
    BothOrders(show, a, b);
    NormalOfTwo(a, b);
    NormalOfTwo(b, a);
    GroundedMeans(text, a + "\n" + b + "\n");
    GroundedMeans(text, b + "\n" + a + "\n");
    assert NormalizeWS(text) == Join(words) by {
      NormalMeans(text);
    }
    assert [] + words + [z] == [first] + (words[1..] + [z]);
    JoinContains([], words, [z]);
    ReadBothWays(words, z);
    Separated(first, Join(words[..|words| - 1]), last, rest, z);
  }

  lemma NormalMeans(text: string)
    ensures NormalizeWS(text) == Join(Words(text))
  {
  }

  lemma WordsWithSeparator(words: seq<string>, z: string)
    requires words != [] && IsWord(z) && forall w :: w in words ==> IsWord(w)
    ensures Words(Join(words) + " " + z) == words + [z]
  {
    JoinSplit(words, [z]);
    OneJoined(z);
    WordsOfJoin(words + [z]);
  }

  lemma JoinBack(words: seq<string>, last: string)
    requires words != []
    ensures Join(words + [last]) == Join(words) + " " + last
  {
    JoinSplit(words, [last]);
    OneJoined(last);
  }

  lemma ReadBothWays(words: seq<string>, z: string)
    requires |words| > 1
    ensures Join(words) == words[0] + " " + Join(words[1..])
    ensures Join(words) == Join(words[..|words| - 1]) + " " + words[|words| - 1]
    ensures Join(words[1..] + [z] + [words[0]]) == Join(words[1..]) + " " + z + " " + words[0]
  {
    hide Join;
    var n := |words| - 1;
    assert [words[0]] + words[1..] == words && words[..n] + [words[n]] == words;
    JoinFront(words[0], words[1..]);
    JoinBack(words[..n], words[n]);
    JoinBack(words[1..], z);
    JoinBack(words[1..] + [z], words[0]);
  }

  /** Whatever was collected before, and whatever is collected afterwards. */
  ghost predicate AlwaysStays(show: Show, text: string) {
    forall outputs, more, corpus, later ::
      IsCorpus(show, outputs, corpus) && IsCorpus(show, outputs + more, later) && IsGrounded(text, corpus)
      ==> IsGrounded(text, later)
  }

  ghost predicate JudgedAlike(show: Show, text: string) {
    forall outputs, corpus, other ::
      IsCorpus(show, outputs, corpus) && IsCorpus(show, outputs, other) && IsGrounded(text, corpus)
      ==> IsGrounded(text, other)
  }

  /** Exactly the texts of at most one word, once grounded, stay grounded whatever else is collected, and
      exactly they are judged the same under every order of every map. */
  lemma StableExactly(show: Show, text: string)
    ensures AlwaysStays(show, text) <==> |Words(text)| <= 1
    ensures JudgedAlike(show, text) <==> |Words(text)| <= 1
  {
    hide IsCorpus, IsGrounded, Words;
    if |Words(text)| <= 1 {
      forall outputs, more, corpus, later |
        IsCorpus(show, outputs, corpus) && IsCorpus(show, outputs + more, later) && IsGrounded(text, corpus)
        ensures IsGrounded(text, later)
      {
        OneWordStaysGrounded(show, outputs, more, text, corpus, later);
      }
      forall outputs, corpus, other |
        IsCorpus(show, outputs, corpus) && IsCorpus(show, outputs, other) && IsGrounded(text, corpus)
        ensures IsGrounded(text, other)
      {
        assert outputs + [] == outputs;
        OneWordStaysGrounded(show, outputs, [], text, corpus, other);
      }
    } else {
      var a, b := OrderMatters(show, text);
      assert TwoStrings(a, b) + [] == TwoStrings(a, b);
    }
  }
}
