/** What acceptance by the grounding validator guarantees: nothing that no tool returned is let through. */
module GroundingSoundness {
  import opened Corpus
  import opened Grounding
  import opened GroundingOrder
  import opened Text
  import opened ToolRecords
  import opened Values

  // ----- what evidence must rest on -----

  /** The row is shown as evidence, in either form the list may have. */
  ghost predicate ShowsRow(output: Fields, row: Row) {
    EVIDENCE in output &&
    match output[EVIDENCE]
    case Rows(rows) => row in rows
    case List(items) => Obj(row) in items
    case _ => false
  }

  /** The call was given this very path, or one that ends in a slash and this name. */
  ghost predicate GivenAs(input: Fields, file: string) {
    && "path" in input && input["path"].Str?
    && (input["path"].s == file || InFolder(input["path"].s, file))
  }

  ghost predicate FileBacked(outputs: seq<CollectedOutput>, file: string) {
    exists j :: 0 <= j < |outputs| && GivenAs(outputs[j].input, file)
  }

  /** The leaf holds a word of which this one is a part. */
  ghost predicate HasWord(leaf: string, word: string) {
    exists w :: w in Words(leaf) && Contains(w, word)
  }

  ghost predicate WordBacked(show: Show, outputs: seq<CollectedOutput>, word: string) {
    exists leaf :: OutputLeaf(show, outputs, leaf) && HasWord(leaf, word)
  }

  ghost predicate RowBacked(show: Show, outputs: seq<CollectedOutput>, row: Row) {
    && ("file" in row.fields && row.fields["file"].Str? && row.fields["file"].s != "" ==>
          FileBacked(outputs, row.fields["file"].s))
    && ("text" in row.fields && row.fields["text"].Str? ==>
          forall word :: word in Words(row.fields["text"].s) ==> WordBacked(show, outputs, word))
  }

  ghost predicate EvidenceBacked(show: Show, outputs: seq<CollectedOutput>, output: Fields) {
    forall row :: ShowsRow(output, row) ==> RowBacked(show, outputs, row)
  }

  // ----- grounded texts -----

  /** Every word of a grounded text is part of a word of some collected leaf. */
  lemma GroundedWords(show: Show, outputs: seq<CollectedOutput>, corpus: string, text: string, word: string)
    requires IsCorpus(show, outputs, corpus) && IsGrounded(text, corpus) && word in Words(text)
    ensures WordBacked(show, outputs, word)
  {
    hide IsCorpus, OutputLeaf, Words, Join;
    WordsAreWords(text);
    WordIsContained(Words(text), word);
    ContainsTransitive(NormalizeWS(corpus), NormalizeWS(text), word);
    var w := WordInJoin(Words(corpus), word);
    var leaf := LeafWith(show, outputs, corpus, w);
    assert HasWord(leaf, word);
  }

  // ----- accessed files -----

  ghost predicate InFolder(path: string, file: string) {
    '/' !in file && exists folder :: path == folder + "/" + file
  }

  lemma BaseNameInFolder(path: string)
    requires LastSlash(path) >= 0
    ensures InFolder(path, path[LastSlash(path) + 1..])
  {
    hide LastSlash;
    var i := LastSlash(path);
    var base := path[i + 1..];
    assert forall k :: 0 <= k < |base| ==> base[k] == path[i + 1 + k];
    assert path == path[..i] + "/" + base;
  }

  lemma LastSlashOf(folder: string, file: string)
    requires '/' !in file
    ensures LastSlash(folder + "/" + file) == |folder|
  {
    hide LastSlash;
    var path, n := folder + "/" + file, |folder|;
    assert path[n] == '/';
    forall k | n < k < |path|
      ensures path[k] != '/'
    {
      assert path[k] == file[k - n - 1] && file[k - n - 1] in file;
    }
  }

  lemma NamesFileMeans(input: Fields, file: string)
    ensures NamesFile(input, file) <==> GivenAs(input, file)
  {
    hide LastSlash;
    if "path" in input && input["path"].Str? {
      var path := input["path"].s;
      if LastSlash(path) >= 0 {
        BaseNameInFolder(path);
      }
      if InFolder(path, file) {
        var folder :| path == folder + "/" + file;
        LastSlashOf(folder, file);
        assert path[|folder| + 1..] == file;
      }
    }
  }

  lemma AccessedMeans(outputs: seq<CollectedOutput>, file: string)
    ensures Accessed(outputs, file) <==> FileBacked(outputs, file)
  {
    hide NamesFile, GivenAs;
    forall j | 0 <= j < |outputs|
      ensures NamesFile(outputs[j].input, file) <==> GivenAs(outputs[j].input, file)
    {
      NamesFileMeans(outputs[j].input, file);
    }
  }

  // ----- evidence items -----

  /** The maps of a list, and only they, are read. */
  lemma {:induction false} ObjectsExactly(items: seq<Value>, row: Row)
    ensures row in ObjectsOf(items) <==> Obj(row) in items
  {
    if items != [] {
      var n := |items| - 1;
      ObjectsExactly(items[..n], row);
      assert items == items[..n] + [items[n]];
    }
  }

  lemma RowIsItem(output: Fields, row: Row)
    requires ShowsRow(output, row)
    ensures exists i :: 0 <= i < |EvidenceOf(output)| && EvidenceOf(output)[i] == ItemOf(row)
  {
    match output[EVIDENCE] {
      case Rows(rows) =>
      case List(items) => ObjectsExactly(items, row);
    }
    var rows := RowsOf(output[EVIDENCE]);
    var i :| 0 <= i < |rows| && rows[i] == row;
    assert EvidenceOf(output)[i] == ItemOf(row);
  }

  /** If the validator found no fault, all evidence rests on what the tools were given and returned. */
  lemma NoViolationIsBacked(show: Show, outputs: seq<CollectedOutput>, corpus: string, output: Fields)
    requires EvidenceOf(output) != [] ==> IsCorpus(show, outputs, corpus)
    requires forall v :: !Violates(outputs, corpus, EvidenceOf(output), v)
    ensures EvidenceBacked(show, outputs, output)
  {
    hide IsCorpus, EvidenceOf, ShowsRow, IsGrounded, Accessed, WordBacked, FileBacked, Words;
    forall row | ShowsRow(output, row)
      ensures RowBacked(show, outputs, row)
    {
      RowIsItem(output, row);
      var i :| 0 <= i < |EvidenceOf(output)| && EvidenceOf(output)[i] == ItemOf(row);
      assert !Violates(outputs, corpus, EvidenceOf(output), FileNotFound(i));
      assert !Violates(outputs, corpus, EvidenceOf(output), TextNotFound(i));
      ItemBacked(show, outputs, corpus, row);
    }
  }

  lemma ItemBacked(show: Show, outputs: seq<CollectedOutput>, corpus: string, row: Row)
    requires IsCorpus(show, outputs, corpus)
    requires ItemOf(row).file != "" ==> Accessed(outputs, ItemOf(row).file)
    requires ItemOf(row).text != "" ==> IsGrounded(ItemOf(row).text, corpus)
    ensures RowBacked(show, outputs, row)
  {
    hide IsCorpus, IsGrounded, Accessed, WordBacked, FileBacked;
    AccessedMeans(outputs, ItemOf(row).file);
    if "text" in row.fields && row.fields["text"].Str? {
      var text := row.fields["text"].s;
      assert text == ItemOf(row).text;
      forall word | word in Words(text)
        ensures WordBacked(show, outputs, word)
      {
        GroundedWords(show, outputs, corpus, text, word);
      }
    }
  }

  /** A word that is in no leaf, or a file that no call was given, is a fault whatever the order. */
  lemma InventionIsCaught(show: Show, outputs: seq<CollectedOutput>, corpus: string, output: Fields, row: Row)
    requires EvidenceOf(output) != [] ==> IsCorpus(show, outputs, corpus)
    requires ShowsRow(output, row) && !RowBacked(show, outputs, row)
    ensures exists v :: Violates(outputs, corpus, EvidenceOf(output), v)
  {
    hide IsCorpus, EvidenceOf, ShowsRow, RowBacked, Violates;
    if forall v :: !Violates(outputs, corpus, EvidenceOf(output), v) {
      NoViolationIsBacked(show, outputs, corpus, output);
    }
  }
}
