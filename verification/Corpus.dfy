/** The text that tool outputs are rendered into (orchestrator/grounding_validator.go, buildCorpus and
    appendValue). Lists keep their order; maps are ranged over in an order that is chosen anew every
    time, so rendering is a relation. */
module Corpus {
  import opened Text
  import opened Values

  /** How fmt renders values that are neither strings nor lists of strings nor collections. */
  type Show = Value -> string

  /** fmt renders a list of strings between brackets. */
  function ShowStrs(strs: seq<string>): string {
    "[" + Join(strs) + "]"
  }

  /** text is what one non-collection value at some depth inside v is rendered to. */
  ghost predicate IsLeaf(show: Show, v: Value, text: string)
    decreases v
  {
    match v
    case Str(s) => text == s
    case Strs(strs) => text == ShowStrs(strs)
    case List(items) => exists i :: 0 <= i < |items| && IsLeaf(show, items[i], text)
    case Rows(rows) => exists i :: 0 <= i < |rows| && RowLeaf(show, rows[i], text)
    case Obj(row) => RowLeaf(show, row, text)
    case _ => text == show(v)
  }

  ghost predicate RowLeaf(show: Show, row: Row, text: string)
    decreases row
  {
    exists k :: k in row.fields && IsLeaf(show, row.fields[k], text)
  }

  // ----- the chunks of a value -----

  /** The chunks v may be rendered to: one for each leaf, list elements in order, map entries in any
      order. */
  ghost predicate Renders(show: Show, v: Value, chunks: seq<string>)
    decreases v, 0
  {
    match v
    case Str(s) => chunks == [s]
    case Strs(strs) => chunks == [ShowStrs(strs)]
    case List(items) => ItemsRender(show, v, |items|, chunks)
    case Rows(rows) => RowsRender(show, v, |rows|, chunks)
    case Obj(row) => KeysRender(show, row, row.fields.Keys, chunks)
    case _ => chunks == [show(v)]
  }

  /** The first n elements of a list, one after the other. */
  ghost predicate ItemsRender(show: Show, v: Value, n: nat, chunks: seq<string>)
    requires v.List? && n <= |v.items|
    decreases v, 0, n
  {
    if n == 0 then chunks == []
    else exists cut: nat ::
      cut <= |chunks| && ItemsRender(show, v, n - 1, chunks[..cut]) && Renders(show, v.items[n - 1], chunks[cut..])
  }

  ghost predicate RowsRender(show: Show, v: Value, n: nat, chunks: seq<string>)
    requires v.Rows? && n <= |v.rows|
    decreases v, 0, n
  {
    if n == 0 then chunks == []
    else exists cut: nat ::
      && cut <= |chunks| && RowsRender(show, v, n - 1, chunks[..cut])
      && KeysRender(show, v.rows[n - 1], v.rows[n - 1].fields.Keys, chunks[cut..])
  }

  /** The given keys of a map, in some order: one of them comes last. */
  ghost predicate KeysRender(show: Show, row: Row, keys: set<string>, chunks: seq<string>)
    requires keys <= row.fields.Keys
    decreases row, 0, |keys|
  {
    if keys == {} then chunks == []
    else exists k, cut: nat ::
      && k in keys && cut <= |chunks| && KeysRender(show, row, keys - {k}, chunks[..cut])
      && Renders(show, row.fields[k], chunks[cut..])
  }

  lemma ItemRendered(show: Show, v: Value, n: nat, before: seq<string>, more: seq<string>)
    requires v.List? && n < |v.items| && ItemsRender(show, v, n, before) && Renders(show, v.items[n], more)
    ensures ItemsRender(show, v, n + 1, before + more)
  {
    hide Renders;
    var all := before + more;
    assert all[..|before|] == before && all[|before|..] == more;
  }

  lemma RowRendered(show: Show, v: Value, n: nat, before: seq<string>, more: seq<string>)
    requires v.Rows? && n < |v.rows| && RowsRender(show, v, n, before)
    requires KeysRender(show, v.rows[n], v.rows[n].fields.Keys, more)
    ensures RowsRender(show, v, n + 1, before + more)
  {
    hide KeysRender;
    var all := before + more;
    assert all[..|before|] == before && all[|before|..] == more;
  }

  lemma KeyRendered(show: Show, row: Row, keys: set<string>, k: string, before: seq<string>, more: seq<string>)
    requires keys <= row.fields.Keys && k in row.fields && k !in keys
    requires KeysRender(show, row, keys, before) && Renders(show, row.fields[k], more)
    ensures KeysRender(show, row, keys + {k}, before + more)
  {
    hide Renders;
    var all := before + more;
    assert all[..|before|] == before && all[|before|..] == more && keys + {k} - {k} == keys;
  }

  // ----- rendering -----

  /** Every chunk is followed by a line break. */
  function Lines(chunks: seq<string>): string {
    if chunks == [] then "" else Lines(chunks[..|chunks| - 1]) + chunks[|chunks| - 1] + "\n"
  }

  lemma {:induction false} LinesAppend(a: seq<string>, b: seq<string>)
    ensures Lines(a + b) == Lines(a) + Lines(b)
  {
    if b == [] {
      assert a + b == a;
    } else {
      var n := |b| - 1;
      assert (a + b)[..|a + b| - 1] == a + b[..n];
      LinesAppend(a, b[..n]);
      assert Lines(a) + Lines(b[..n]) + b[n] + "\n" == Lines(a) + (Lines(b[..n]) + b[n] + "\n");
    }
  }

  lemma LinesOfOne(text: string)
    ensures Lines([text]) == text + "\n" && Lines([]) == ""
  {
    assert [text][..0] == [];
  }

  lemma {:induction false} LinesEndInSpace(chunks: seq<string>)
    ensures EndsInSpace(Lines(chunks))
  {
  }

  /** sb was extended by the lines of some rendering of the keys of a map. */
  ghost predicate RowAppended(show: Show, row: Row, keys: set<string>, sb: string, r: string)
    requires keys <= row.fields.Keys
  {
    exists chunks :: KeysRender(show, row, keys, chunks) && r == sb + Lines(chunks)
  }

  ghost predicate Appended(show: Show, v: Value, sb: string, r: string) {
    exists chunks :: Renders(show, v, chunks) && r == sb + Lines(chunks)
  }

  ghost predicate ItemsAppended(show: Show, v: Value, n: nat, sb: string, r: string)
    requires v.List? && n <= |v.items|
  {
    exists chunks :: ItemsRender(show, v, n, chunks) && r == sb + Lines(chunks)
  }

  ghost predicate RowsAppended(show: Show, v: Value, n: nat, sb: string, r: string)
    requires v.Rows? && n <= |v.rows|
  {
    exists chunks :: RowsRender(show, v, n, chunks) && r == sb + Lines(chunks)
  }

  lemma NothingAppended(show: Show, v: Value, row: Row, sb: string)
    ensures v.List? ==> ItemsAppended(show, v, 0, sb, sb)
    ensures v.Rows? ==> RowsAppended(show, v, 0, sb, sb)
    ensures RowAppended(show, row, {}, sb, sb)
  {
    assert sb == sb + Lines([]);
    assert v.List? ==> ItemsRender(show, v, 0, []);
    assert v.Rows? ==> RowsRender(show, v, 0, []);
    assert KeysRender(show, row, {}, []);
  }

  lemma KeyAppended(show: Show, row: Row, keys: set<string>, k: string, sb: string, mid: string, r: string)
    requires keys <= row.fields.Keys && k in row.fields && k !in keys
    requires RowAppended(show, row, keys, sb, mid) && Appended(show, row.fields[k], mid, r)
    ensures RowAppended(show, row, keys + {k}, sb, r)
  {
    hide KeysRender, Renders, Lines;
    var a :| KeysRender(show, row, keys, a) && mid == sb + Lines(a);
    var b :| Renders(show, row.fields[k], b) && r == mid + Lines(b);
    KeyRendered(show, row, keys, k, a, b);
    LinesAppend(a, b);
    assert r == sb + Lines(a + b);
  }

  lemma ItemAppended(show: Show, v: Value, n: nat, sb: string, mid: string, r: string)
    requires v.List? && n < |v.items| && ItemsAppended(show, v, n, sb, mid) && Appended(show, v.items[n], mid, r)
    ensures ItemsAppended(show, v, n + 1, sb, r)
  {
    hide ItemsRender, Renders, Lines;
    var a :| ItemsRender(show, v, n, a) && mid == sb + Lines(a);
    var b :| Renders(show, v.items[n], b) && r == mid + Lines(b);
    ItemRendered(show, v, n, a, b);
    LinesAppend(a, b);
    assert r == sb + Lines(a + b);
  }

  lemma AnotherRowAppended(show: Show, v: Value, n: nat, sb: string, mid: string, r: string)
    requires v.Rows? && n < |v.rows| && RowsAppended(show, v, n, sb, mid)
    requires RowAppended(show, v.rows[n], v.rows[n].fields.Keys, mid, r)
    ensures RowsAppended(show, v, n + 1, sb, r)
  {
    hide RowsRender, KeysRender, Lines;
    var a :| RowsRender(show, v, n, a) && mid == sb + Lines(a);
    var b :| KeysRender(show, v.rows[n], v.rows[n].fields.Keys, b) && r == mid + Lines(b);
    RowRendered(show, v, n, a, b);
    LinesAppend(a, b);
    assert r == sb + Lines(a + b);
  }

  lemma LineAppended(show: Show, v: Value, sb: string, text: string)
    requires Renders(show, v, [text])
    ensures Appended(show, v, sb, sb + text + "\n")
  {
    LinesOfOne(text);
    hide Renders, Lines;
    assert sb + text + "\n" == sb + Lines([text]);
  }

  lemma AllItemsAppended(show: Show, v: Value, sb: string, r: string)
    requires v.List? && ItemsAppended(show, v, |v.items|, sb, r)
    ensures Appended(show, v, sb, r)
  {
    hide ItemsRender, Lines;
    var chunks :| ItemsRender(show, v, |v.items|, chunks) && r == sb + Lines(chunks);
    assert Renders(show, v, chunks);
  }

  lemma AllRowsAppended(show: Show, v: Value, sb: string, r: string)
    requires v.Rows? && RowsAppended(show, v, |v.rows|, sb, r)
    ensures Appended(show, v, sb, r)
  {
    hide RowsRender, Lines;
    var chunks :| RowsRender(show, v, |v.rows|, chunks) && r == sb + Lines(chunks);
    assert Renders(show, v, chunks);
  }

  lemma AllKeysAppended(show: Show, row: Row, sb: string, r: string)
    requires RowAppended(show, row, row.fields.Keys, sb, r)
    ensures Appended(show, Obj(row), sb, r)
  {
    hide KeysRender, Lines;
    var chunks :| KeysRender(show, row, row.fields.Keys, chunks) && r == sb + Lines(chunks);
    assert Renders(show, Obj(row), chunks);
  }

  /** Ranges over a map in whatever order it yields its keys. */
  method AppendRow(show: Show, sb: string, row: Row) returns (r: string)
    ensures RowAppended(show, row, row.fields.Keys, sb, r)
    decreases row
  {
    hide KeysRender, RowAppended, Appended;
    NothingAppended(show, Null, row, sb);
    r := sb;
    var rest := row.fields.Keys;
    assert row.fields.Keys - rest == {};
    while rest != {}
      invariant rest <= row.fields.Keys && RowAppended(show, row, row.fields.Keys - rest, sb, r)
    {
      var k :| k in rest;
      ghost var visited, mid := row.fields.Keys - rest, r;
      r := AppendValue(show, r, row.fields[k]);
      KeyAppended(show, row, visited, k, sb, mid, r);
      rest := rest - {k};
      assert row.fields.Keys - rest == visited + {k};
    }
    assert row.fields.Keys - rest == row.fields.Keys;
  }

  method AppendValue(show: Show, sb: string, v: Value) returns (r: string)
    ensures Appended(show, v, sb, r)
    decreases v
  {
    hide RowAppended, Appended, ItemsAppended, RowsAppended, KeysRender, ItemsRender, RowsRender;
    NothingAppended(show, v, Row(map[]), sb);
    r := sb;
    match v {
      case Str(s) =>
        r := sb + s + "\n";
        LineAppended(show, v, sb, s);
      case List(items) =>
        for i := 0 to |items|
          invariant ItemsAppended(show, v, i, sb, r)
        {
          ghost var mid := r;
          r := AppendValue(show, r, items[i]);
          ItemAppended(show, v, i, sb, mid, r);
        }
        AllItemsAppended(show, v, sb, r);
      case Rows(rows) =>
        for i := 0 to |rows|
          invariant RowsAppended(show, v, i, sb, r)
        {
          ghost var mid := r;
          r := AppendRow(show, r, rows[i]);
          AnotherRowAppended(show, v, i, sb, mid, r);
        }
        AllRowsAppended(show, v, sb, r);
      case Obj(row) =>
        r := AppendRow(show, sb, row);
        AllKeysAppended(show, row, sb, r);
      case Strs(strs) =>
        r := sb + ShowStrs(strs) + "\n";
        LineAppended(show, v, sb, ShowStrs(strs));
      case _ =>
        r := sb + show(v) + "\n";
        LineAppended(show, v, sb, show(v));
    }
  }

  // ----- what a rendering contains -----

  lemma InEither<T>(chunks: seq<T>, cut: nat, x: T)
    requires cut <= |chunks|
    ensures x in chunks <==> x in chunks[..cut] || x in chunks[cut..]
  {
    assert chunks == chunks[..cut] + chunks[cut..];
  }

  /** The chunks are exactly the leaves, whatever the order. */
  lemma {:induction false} LeavesRendered(show: Show, v: Value, chunks: seq<string>, text: string)
    requires Renders(show, v, chunks)
    ensures text in chunks <==> IsLeaf(show, v, text)
    decreases v, 0
  {
    match v {
      case List(items) => ItemLeaves(show, v, |items|, chunks, text);
      case Rows(rows) => RowsLeaves(show, v, |rows|, chunks, text);
      case Obj(row) => KeyLeaves(show, row, row.fields.Keys, chunks, text);
      case _ =>
    }
  }

  lemma {:induction false} ItemLeaves(show: Show, v: Value, n: nat, chunks: seq<string>, text: string)
    requires v.List? && n <= |v.items| && ItemsRender(show, v, n, chunks)
    ensures text in chunks <==> exists i :: 0 <= i < n && IsLeaf(show, v.items[i], text)
    decreases v, 0, n
  {
    if n > 0 {
      var cut: nat :|
        cut <= |chunks| && ItemsRender(show, v, n - 1, chunks[..cut]) && Renders(show, v.items[n - 1], chunks[cut..]);
      ItemLeaves(show, v, n - 1, chunks[..cut], text);
      LeavesRendered(show, v.items[n - 1], chunks[cut..], text);
      InEither(chunks, cut, text);
    }
  }

  lemma {:induction false} RowsLeaves(show: Show, v: Value, n: nat, chunks: seq<string>, text: string)
    requires v.Rows? && n <= |v.rows| && RowsRender(show, v, n, chunks)
    ensures text in chunks <==> exists i :: 0 <= i < n && RowLeaf(show, v.rows[i], text)
    decreases v, 0, n
  {
    if n > 0 {
      var last := v.rows[n - 1];
      var cut: nat :|
        cut <= |chunks| && RowsRender(show, v, n - 1, chunks[..cut])
          && KeysRender(show, last, last.fields.Keys, chunks[cut..]);
      RowsLeaves(show, v, n - 1, chunks[..cut], text);
      KeyLeaves(show, last, last.fields.Keys, chunks[cut..], text);
      InEither(chunks, cut, text);
    }
  }

  lemma {:induction false} KeyLeaves(show: Show, row: Row, keys: set<string>, chunks: seq<string>, text: string)
    requires keys <= row.fields.Keys && KeysRender(show, row, keys, chunks)
    ensures text in chunks <==> exists k :: k in keys && IsLeaf(show, row.fields[k], text)
    decreases row, 0, |keys|
  {
    if keys != {} {
      var k, cut: nat :|
        && k in keys && cut <= |chunks| && KeysRender(show, row, keys - {k}, chunks[..cut])
        && Renders(show, row.fields[k], chunks[cut..]);
      KeyLeaves(show, row, keys - {k}, chunks[..cut], text);
      LeavesRendered(show, row.fields[k], chunks[cut..], text);
      InEither(chunks, cut, text);
    }
  }
}
