/** Outputs for which the order in which maps are ranged over makes no difference to grounding. */
module OrderFreedom {
  import opened Corpus
  import opened Grounding
  import opened GroundingOrder
  import opened Text
  import opened ToolRecords
  import opened Values

  /** The words of a rendering. */
  function Flat(chunks: seq<string>): seq<string> {
    Words(Lines(chunks))
  }

  lemma FlatAppend(a: seq<string>, b: seq<string>)
    ensures Flat(a + b) == Flat(a) + Flat(b)
  {
    LinesAppend(a, b);
    LinesEndInSpace(a);
    WordsSplit(Lines(a), Lines(b));
  }

  lemma FlatOfOne(text: string)
    ensures Flat([text]) == Words(text) && Flat([]) == []
  {
    LinesOfOne(text);
    assert text + "\n" == text + ['\n'];
    TrailingSpace(text, '\n');
  }

  /** The words of a value when the entries of its maps are visited in one particular order. */
  ghost function WordsIn(show: Show, v: Value): seq<string>
    decreases v, 0
  {
    match v
    case Str(s) => Words(s)
    case Strs(strs) => Words(ShowStrs(strs))
    case List(items) => ItemWords(show, v, |items|)
    case Rows(rows) => RowsWords(show, v, |rows|)
    case Obj(row) => KeyWords(show, row, row.fields.Keys)
    case _ => Words(show(v))
  }

  ghost function ItemWords(show: Show, v: Value, n: nat): seq<string>
    requires v.List? && n <= |v.items|
    decreases v, 0, n
  {
    if n == 0 then [] else ItemWords(show, v, n - 1) + WordsIn(show, v.items[n - 1])
  }

  ghost function RowsWords(show: Show, v: Value, n: nat): seq<string>
    requires v.Rows? && n <= |v.rows|
    decreases v, 0, n
  {
    if n == 0 then []
    else RowsWords(show, v, n - 1) + KeyWords(show, v.rows[n - 1], v.rows[n - 1].fields.Keys)
  }

  ghost function KeyWords(show: Show, row: Row, keys: set<string>): seq<string>
    requires keys <= row.fields.Keys
    decreases row, 0, |keys|
  {
    if keys == {} then []
    else
      var k :| k in keys;
      KeyWords(show, row, keys - {k}) + WordsIn(show, row.fields[k])
  }

  /** At every depth, the words of any two entries of one map read the same in either order. */
  ghost predicate OrderFree(show: Show, v: Value)
    decreases v
  {
    match v
    case List(items) => forall i :: 0 <= i < |items| ==> OrderFree(show, items[i])
    case Rows(rows) => forall i :: 0 <= i < |rows| ==> RowOrderFree(show, rows[i])
    case Obj(row) => RowOrderFree(show, row)
    case _ => true
  }

  ghost predicate Commute(show: Show, row: Row, k: string, l: string)
    requires k in row.fields && l in row.fields
  {
    var a, b := WordsIn(show, row.fields[k]), WordsIn(show, row.fields[l]);
    a + b == b + a
  }

  ghost predicate RowOrderFree(show: Show, row: Row)
    decreases row
  {
    && (forall k :: k in row.fields ==> OrderFree(show, row.fields[k]))
    && (forall k, l :: k in row.fields && l in row.fields ==> Commute(show, row, k, l))
  }

  lemma Swap(p: seq<string>, a: seq<string>, b: seq<string>)
    requires a + b == b + a
    ensures p + a + b == p + b + a
  {
    assert p + a + b == p + (a + b) && p + b + a == p + (b + a);
  }

  /** With commuting entries, any entry may come last. */
  lemma {:induction false} KeyLast(show: Show, row: Row, keys: set<string>, x: string)
    requires keys <= row.fields.Keys && x in keys
    requires forall k, l :: k in row.fields && l in row.fields ==> Commute(show, row, k, l)
    ensures KeyWords(show, row, keys) == KeyWords(show, row, keys - {x}) + WordsIn(show, row.fields[x])
    decreases |keys|
  {
    hide WordsIn;
    var t :| t in keys && KeyWords(show, row, keys) == KeyWords(show, row, keys - {t}) + WordsIn(show, row.fields[t]);
    if t != x {
      KeyLast(show, row, keys - {t}, x);
      KeyLast(show, row, keys - {x}, t);
      assert keys - {t} - {x} == keys - {x} - {t};
      assert Commute(show, row, t, x);
      Swap(KeyWords(show, row, keys - {t} - {x}), WordsIn(show, row.fields[x]), WordsIn(show, row.fields[t]));
    }
  }

  lemma FlatCut(chunks: seq<string>, cut: nat)
    requires cut <= |chunks|
    ensures Flat(chunks) == Flat(chunks[..cut]) + Flat(chunks[cut..])
  {
    assert chunks == chunks[..cut] + chunks[cut..];
    FlatAppend(chunks[..cut], chunks[cut..]);
  }

  /** Then every rendering has the same words. */
  lemma {:induction false} OneReading(show: Show, v: Value, chunks: seq<string>)
    requires OrderFree(show, v) && Renders(show, v, chunks)
    ensures Flat(chunks) == WordsIn(show, v)
    decreases v, 0
  {
    match v {
      case List(items) => ItemsOneReading(show, v, |items|, chunks);
      case Rows(rows) => RowsOneReading(show, v, |rows|, chunks);
      case Obj(row) => KeysOneReading(show, row, row.fields.Keys, chunks);
      case _ => FlatOfOne(chunks[0]);
    }
  }

  lemma {:induction false} ItemsOneReading(show: Show, v: Value, n: nat, chunks: seq<string>)
    requires v.List? && n <= |v.items| && OrderFree(show, v) && ItemsRender(show, v, n, chunks)
    ensures Flat(chunks) == ItemWords(show, v, n)
    decreases v, 0, n
  {
    hide Flat;
    if n == 0 {
      FlatOfOne("");
    } else {
      var cut: nat :|
        cut <= |chunks| && ItemsRender(show, v, n - 1, chunks[..cut]) && Renders(show, v.items[n - 1], chunks[cut..]);
      ItemsOneReading(show, v, n - 1, chunks[..cut]);
      OneReading(show, v.items[n - 1], chunks[cut..]);
      FlatCut(chunks, cut);
    }
  }

  lemma {:induction false} RowsOneReading(show: Show, v: Value, n: nat, chunks: seq<string>)
    requires v.Rows? && n <= |v.rows| && OrderFree(show, v) && RowsRender(show, v, n, chunks)
    ensures Flat(chunks) == RowsWords(show, v, n)
    decreases v, 0, n
  {
    hide Flat;
    if n == 0 {
      FlatOfOne("");
    } else {
      var last := v.rows[n - 1];
      var cut: nat :|
        cut <= |chunks| && RowsRender(show, v, n - 1, chunks[..cut])
          && KeysRender(show, last, last.fields.Keys, chunks[cut..]);
      RowsOneReading(show, v, n - 1, chunks[..cut]);
      KeysOneReading(show, last, last.fields.Keys, chunks[cut..]);
      FlatCut(chunks, cut);
    }
  }

  lemma {:induction false} KeysOneReading(show: Show, row: Row, keys: set<string>, chunks: seq<string>)
    requires keys <= row.fields.Keys && RowOrderFree(show, row) && KeysRender(show, row, keys, chunks)
    ensures Flat(chunks) == KeyWords(show, row, keys)
    decreases row, 0, |keys|
  {
    hide Flat;
    if keys == {} {
      FlatOfOne("");
    } else {
      var k, cut: nat :|
        && k in keys && cut <= |chunks| && KeysRender(show, row, keys - {k}, chunks[..cut])
        && Renders(show, row.fields[k], chunks[cut..]);
      KeysOneReading(show, row, keys - {k}, chunks[..cut]);
      OneReading(show, row.fields[k], chunks[cut..]);
      FlatCut(chunks, cut);
      KeyLast(show, row, keys, k);
    }
  }

  /** Every value has a rendering, and one with the words of WordsIn. */
  lemma {:induction false} SomeRendering(show: Show, v: Value) returns (chunks: seq<string>)
    ensures Renders(show, v, chunks) && Flat(chunks) == WordsIn(show, v)
    decreases v, 0
  {
    hide Flat;
    match v {
      case Str(s) =>
        chunks := [s];
        FlatOfOne(s);
      case Strs(strs) =>
        chunks := [ShowStrs(strs)];
        FlatOfOne(ShowStrs(strs));
      case List(items) => chunks := SomeItems(show, v, |items|);
      case Rows(rows) => chunks := SomeRows(show, v, |rows|);
      case Obj(row) => chunks := SomeKeys(show, row, row.fields.Keys);
      case _ =>
        chunks := [show(v)];
        FlatOfOne(show(v));
    }
  }

  lemma {:induction false} SomeItems(show: Show, v: Value, n: nat) returns (chunks: seq<string>)
    requires v.List? && n <= |v.items|
    ensures ItemsRender(show, v, n, chunks) && Flat(chunks) == ItemWords(show, v, n)
    decreases v, 0, n
  {
    hide Flat, Renders;
    chunks := [];
    if n == 0 {
      FlatOfOne("");
    } else {
      var before := SomeItems(show, v, n - 1);
      var more := SomeRendering(show, v.items[n - 1]);
      chunks := before + more;
      ItemRendered(show, v, n - 1, before, more);
      FlatAppend(before, more);
    }
  }

  lemma {:induction false} SomeRows(show: Show, v: Value, n: nat) returns (chunks: seq<string>)
    requires v.Rows? && n <= |v.rows|
    ensures RowsRender(show, v, n, chunks) && Flat(chunks) == RowsWords(show, v, n)
    decreases v, 0, n
  {
    hide Flat, KeysRender;
    chunks := [];
    if n == 0 {
      FlatOfOne("");
    } else {
      var before := SomeRows(show, v, n - 1);
      var more := SomeKeys(show, v.rows[n - 1], v.rows[n - 1].fields.Keys);
      chunks := before + more;
      RowRendered(show, v, n - 1, before, more);
      FlatAppend(before, more);
    }
  }

  lemma {:induction false} SomeKeys(show: Show, row: Row, keys: set<string>) returns (chunks: seq<string>)
    requires keys <= row.fields.Keys
    ensures KeysRender(show, row, keys, chunks) && Flat(chunks) == KeyWords(show, row, keys)
    decreases row, 0, |keys|
  {
    hide Flat, Renders;
    chunks := [];
    if keys == {} {
      FlatOfOne("");
    } else {
      var k :| k in keys && KeyWords(show, row, keys) == KeyWords(show, row, keys - {k}) + WordsIn(show, row.fields[k]);
      var before := SomeKeys(show, row, keys - {k});
      var more := SomeRendering(show, row.fields[k]);
      chunks := before + more;
      KeyRendered(show, row, keys - {k}, k, before, more);
      assert keys - {k} + {k} == keys;
      FlatAppend(before, more);
    }
  }

  ghost predicate ReadsOneWay(show: Show, v: Value) {
    forall a, b :: Renders(show, v, a) && Renders(show, v, b) ==> Flat(a) == Flat(b)
  }

  ghost predicate ItemsReadOneWay(show: Show, v: Value, n: nat)
    requires v.List? && n <= |v.items|
  {
    forall a, b :: ItemsRender(show, v, n, a) && ItemsRender(show, v, n, b) ==> Flat(a) == Flat(b)
  }

  ghost predicate RowsReadOneWay(show: Show, v: Value, n: nat)
    requires v.Rows? && n <= |v.rows|
  {
    forall a, b :: RowsRender(show, v, n, a) && RowsRender(show, v, n, b) ==> Flat(a) == Flat(b)
  }

  ghost predicate RowReadsOneWay(show: Show, row: Row) {
    forall a, b ::
      KeysRender(show, row, row.fields.Keys, a) && KeysRender(show, row, row.fields.Keys, b) ==> Flat(a) == Flat(b)
  }

  lemma CancelFront(p: seq<string>, a: seq<string>, b: seq<string>)
    requires Flat(p + a) == Flat(p + b)
    ensures Flat(a) == Flat(b)
  {
    hide *;
    FlatAppend(p, a);
    FlatAppend(p, b);
    SameRest(Flat(p), Flat(a), Flat(b));
  }

  lemma CancelBack(a: seq<string>, b: seq<string>, r: seq<string>)
    requires Flat(a + r) == Flat(b + r)
    ensures Flat(a) == Flat(b)
  {
    hide *;
    FlatAppend(a, r);
    FlatAppend(b, r);
    SameStart(Flat(a), Flat(b), Flat(r));
  }

  lemma SameRest(p: seq<string>, a: seq<string>, b: seq<string>)
    requires p + a == p + b
    ensures a == b
  {
    assert a == (p + a)[|p|..] && b == (p + b)[|p|..];
  }

  lemma SameStart(a: seq<string>, b: seq<string>, r: seq<string>)
    requires a + r == b + r
    ensures a == b
  {
    assert |a + r| == |b + r|;
    assert a == (a + r)[..|a|] && b == (b + r)[..|b|];
  }

  /** The converse: if all renderings have the same words, all entries commute. */
  lemma {:induction false} OneReadingNeedsFree(show: Show, v: Value)
    requires ReadsOneWay(show, v)
    ensures OrderFree(show, v)
    decreases v, 0
  {
    match v {
      case List(items) => ItemsNeedFree(show, v, |items|);
      case Rows(rows) => RowsNeedFree(show, v, |rows|);
      case Obj(row) => RowNeedsFree(show, row);
      case _ =>
    }
  }

  lemma ItemsOneWay(show: Show, v: Value, n: nat)
    requires v.List? && 0 < n <= |v.items| && ItemsReadOneWay(show, v, n)
    ensures ItemsReadOneWay(show, v, n - 1) && ReadsOneWay(show, v.items[n - 1])
  {
    hide Renders, ItemsRender, Flat, ItemWords, WordsIn;
    var before := SomeItems(show, v, n - 1);
    var more := SomeRendering(show, v.items[n - 1]);
    forall a, b | ItemsRender(show, v, n - 1, a) && ItemsRender(show, v, n - 1, b)
      ensures Flat(a) == Flat(b)
    {
      ItemRendered(show, v, n - 1, a, more);
      ItemRendered(show, v, n - 1, b, more);
      CancelBack(a, b, more);
    }
    forall a, b | Renders(show, v.items[n - 1], a) && Renders(show, v.items[n - 1], b)
      ensures Flat(a) == Flat(b)
    {
      ItemRendered(show, v, n - 1, before, a);
      ItemRendered(show, v, n - 1, before, b);
      CancelFront(before, a, b);
    }
  }

  lemma {:induction false} ItemsNeedFree(show: Show, v: Value, n: nat)
    requires v.List? && n <= |v.items| && ItemsReadOneWay(show, v, n)
    ensures forall i :: 0 <= i < n ==> OrderFree(show, v.items[i])
    decreases v, 0, n
  {
    hide ItemsReadOneWay, ReadsOneWay, OrderFree;
    if n > 0 {
      ItemsOneWay(show, v, n);
      ItemsNeedFree(show, v, n - 1);
      OneReadingNeedsFree(show, v.items[n - 1]);
    }
  }

  lemma RowsOneWay(show: Show, v: Value, n: nat)
    requires v.Rows? && 0 < n <= |v.rows| && RowsReadOneWay(show, v, n)
    ensures RowsReadOneWay(show, v, n - 1) && RowReadsOneWay(show, v.rows[n - 1])
  {
    hide RowsRender, KeysRender, Flat, RowsWords, KeyWords;
    var last := v.rows[n - 1];
    var before := SomeRows(show, v, n - 1);
    var more := SomeKeys(show, last, last.fields.Keys);
    forall a, b | RowsRender(show, v, n - 1, a) && RowsRender(show, v, n - 1, b)
      ensures Flat(a) == Flat(b)
    {
      RowRendered(show, v, n - 1, a, more);
      RowRendered(show, v, n - 1, b, more);
      CancelBack(a, b, more);
    }
    forall a, b | KeysRender(show, last, last.fields.Keys, a) && KeysRender(show, last, last.fields.Keys, b)
      ensures Flat(a) == Flat(b)
    {
      RowRendered(show, v, n - 1, before, a);
      RowRendered(show, v, n - 1, before, b);
      CancelFront(before, a, b);
    }
  }

  lemma {:induction false} RowsNeedFree(show: Show, v: Value, n: nat)
    requires v.Rows? && n <= |v.rows| && RowsReadOneWay(show, v, n)
    ensures forall i :: 0 <= i < n ==> RowOrderFree(show, v.rows[i])
    decreases v, 0, n
  {
    hide RowsReadOneWay, RowReadsOneWay, RowOrderFree;
    if n > 0 {
      RowsOneWay(show, v, n);
      RowsNeedFree(show, v, n - 1);
      RowNeedsFree(show, v.rows[n - 1]);
    }
  }

  lemma {:induction false} RowNeedsFree(show: Show, row: Row)
    requires RowReadsOneWay(show, row)
    ensures RowOrderFree(show, row)
    decreases row, 0
  {
    hide RowReadsOneWay, ReadsOneWay, OrderFree, Commute;
    forall k | k in row.fields
      ensures OrderFree(show, row.fields[k])
    {
      EntryOneWay(show, row, k);
      OneReadingNeedsFree(show, row.fields[k]);
    }
    forall k, l | k in row.fields && l in row.fields
      ensures Commute(show, row, k, l)
    {
      EntriesCommute(show, row, k, l);
    }
  }

  lemma EntryOneWay(show: Show, row: Row, k: string)
    requires RowReadsOneWay(show, row) && k in row.fields
    ensures ReadsOneWay(show, row.fields[k])
  {
    hide KeysRender, Renders, Flat, KeyWords;
    var others := row.fields.Keys - {k};
    assert others + {k} == row.fields.Keys;
    var before := SomeKeys(show, row, others);
    forall a, b | Renders(show, row.fields[k], a) && Renders(show, row.fields[k], b)
      ensures Flat(a) == Flat(b)
    {
      KeyRendered(show, row, others, k, before, a);
      KeyRendered(show, row, others, k, before, b);
      CancelFront(before, a, b);
    }
  }

  lemma TwoKeysRendered(show: Show, row: Row, keys: set<string>, k: string, l: string,
                        before: seq<string>, a: seq<string>, b: seq<string>)
    requires keys <= row.fields.Keys && k in row.fields && l in row.fields && k !in keys && l !in keys && k != l
    requires KeysRender(show, row, keys, before) && Renders(show, row.fields[k], a) && Renders(show, row.fields[l], b)
    ensures KeysRender(show, row, keys + {k, l}, before + (a + b))
  {
    hide *;
    KeyRendered(show, row, keys, k, before, a);
    KeyRendered(show, row, keys + {k}, l, before + a, b);
    assert keys + {k} + {l} == keys + {k, l};
    assert before + a + b == before + (a + b);
  }

  lemma OtherKeys(keys: set<string>, k: string, l: string) returns (others: set<string>)
    requires k in keys && l in keys
    ensures others <= keys && k !in others && l !in others && others + {k, l} == keys
  {
    others := keys - {k, l};
  }

  lemma ReadsSwapped(show: Show, row: Row, x: seq<string>, y: seq<string>)
    requires RowReadsOneWay(show, row)
    requires KeysRender(show, row, row.fields.Keys, x) && KeysRender(show, row, row.fields.Keys, y)
    ensures Flat(x) == Flat(y)
  {
    hide KeysRender, Flat;
  }

  lemma SwapEntries(show: Show, row: Row, k: string, l: string, before: seq<string>, a: seq<string>, b: seq<string>,
                    others: set<string>)
    requires RowReadsOneWay(show, row) && k in row.fields && l in row.fields && k != l
    requires k !in others && l !in others && others + {k, l} == row.fields.Keys
    requires KeysRender(show, row, others, before)
    requires Renders(show, row.fields[k], a) && Renders(show, row.fields[l], b)
    ensures Flat(a) + Flat(b) == Flat(b) + Flat(a)
  {
    hide *;
    TwoKeysRendered(show, row, others, k, l, before, a, b);
    TwoKeysRendered(show, row, others, l, k, before, b, a);
    assert {l, k} == {k, l};
    ReadsSwapped(show, row, before + (a + b), before + (b + a));
    CancelFront(before, a + b, b + a);
    FlatAppend(a, b);
    FlatAppend(b, a);
  }

  lemma EntriesCommute(show: Show, row: Row, k: string, l: string)
    requires RowReadsOneWay(show, row) && k in row.fields && l in row.fields
    ensures Commute(show, row, k, l)
  {
    if k != l {
      hide KeysRender, Renders, Flat, WordsIn, KeyWords, RowReadsOneWay;
      var others := OtherKeys(row.fields.Keys, k, l);
      var before := SomeKeys(show, row, others);
      var a := SomeRendering(show, row.fields[k]);
      var b := SomeRendering(show, row.fields[l]);
      SwapEntries(show, row, k, l, before, a, b, others);
    }
  }

  /** For given outputs: every text whatever is judged the same under every order if and only if, in
      every map of the outputs, the words of any two entries read the same in either order. */
  lemma OrderFreeExactly(show: Show, outputs: seq<CollectedOutput>)
    ensures OrderFree(show, Collected(outputs)) <==>
      forall text, corpus, other ::
        IsCorpus(show, outputs, corpus) && IsCorpus(show, outputs, other) && IsGrounded(text, corpus)
        ==> IsGrounded(text, other)
  {
    hide IsCorpus, IsGrounded, OrderFree, Renders, Flat;
    if OrderFree(show, Collected(outputs)) {
      forall text, corpus, other |
        IsCorpus(show, outputs, corpus) && IsCorpus(show, outputs, other) && IsGrounded(text, corpus)
        ensures IsGrounded(text, other)
      {
        FreeCorpora(show, outputs, corpus, other);
        GroundedMeans(text, corpus);
        GroundedMeans(text, other);
      }
    }
    if forall text, corpus, other ::
        IsCorpus(show, outputs, corpus) && IsCorpus(show, outputs, other) && IsGrounded(text, corpus)
        ==> IsGrounded(text, other) {
      forall a, b | Renders(show, Collected(outputs), a) && Renders(show, Collected(outputs), b)
        ensures Flat(a) == Flat(b)
      {
        RenderedCorpus(show, outputs, a);
        RenderedCorpus(show, outputs, b);
        AlikeCorpora(Lines(a), Lines(b));
        FlatMeans(a);
        FlatMeans(b);
      }
      OneReadingNeedsFree(show, Collected(outputs));
    }
  }

  lemma FreeCorpora(show: Show, outputs: seq<CollectedOutput>, corpus: string, other: string)
    requires OrderFree(show, Collected(outputs)) && IsCorpus(show, outputs, corpus) && IsCorpus(show, outputs, other)
    ensures NormalizeWS(corpus) == NormalizeWS(other)
  {
    hide OrderFree, Renders;
    var a :| CorpusFrom(show, outputs, corpus, a);
    var b :| CorpusFrom(show, outputs, other, b);
    OneReading(show, Collected(outputs), a);
    OneReading(show, Collected(outputs), b);
    SameNormalForm(corpus, other);
  }

  lemma FlatMeans(chunks: seq<string>)
    ensures Flat(chunks) == Words(Lines(chunks))
  {
  }

  lemma RenderedCorpus(show: Show, outputs: seq<CollectedOutput>, chunks: seq<string>)
    requires Renders(show, Collected(outputs), chunks)
    ensures IsCorpus(show, outputs, Lines(chunks))
  {
    assert CorpusFrom(show, outputs, Lines(chunks), chunks);
  }

  lemma AlikeCorpora(corpus: string, other: string)
    requires forall text :: (IsGrounded(text, corpus) <==> IsGrounded(text, other))
    ensures Words(corpus) == Words(other)
  {
    hide Words, NormalizeWS;
    assert OccursAt(NormalizeWS(corpus), NormalizeWS(corpus), 0) && OccursAt(NormalizeWS(other), NormalizeWS(other), 0);
    assert IsGrounded(corpus, corpus) && IsGrounded(other, other);
    assert IsGrounded(corpus, other) && IsGrounded(other, corpus);
    MutuallyContained(NormalizeWS(corpus), NormalizeWS(other));
    SameNormalForm(corpus, other);
  }
}
