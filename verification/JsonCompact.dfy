/** JSONCompact as a function of its input, and what it promises: it accepts exactly the valid documents
    within the size cap, removes exactly the whitespace between tokens, and cannot be applied twice. */
module JsonCompact {
  import opened JsonSyntax
  import opened JsonReader
  import opened JsonScanner

  const MAX_INPUT: nat := 16 * 1024 * 1024

  /** The bytes (empty unless the status is Ok) and the status. */
  function Compact(input: string): (string, Status) {
    if input == "" then ("", InvalidSyntax)
    else if |input| > MAX_INPUT then ("", TooLarge)
    else match DocumentAt(input)
      case Fail(e) => ("", e)
      case Done(_, _) =>
        var out := Squeeze(input);
        if |out| >= |input| then ("", NotShorter) else (out, Ok)
  }

  ghost predicate Accepts(input: string) {
    Compact(input).1 == Ok || Compact(input).1 == NotShorter
  }

  /** The input is the text of this document and small enough to be looked at. */
  ghost predicate Parses(input: string, doc: Document) {
    |input| <= MAX_INPUT && doc.Valid() && doc.Text() == input
  }

  /** The validator is exact: a text passes just when it is at most 16 MiB and the text of a document
      of the grammar, nested values and member counts within the caps and names distinct once decoded. */
  lemma ValidatorExact(input: string)
    ensures Accepts(input) <==> exists doc :: Parses(input, doc)
  {
    if Accepts(input) {
      var doc := DocumentAt(input).value;
      DocumentExact(input, doc);
      assert Parses(input, doc);
    }
    forall doc | Parses(input, doc) ensures Accepts(input) {
      DocumentExact(input, doc);
      FirstOfValue(doc.v);
    }
  }

  /** A text has at most one syntax tree. */
  lemma Unambiguous(a: Document, b: Document)
    requires a.Valid() && b.Valid() && a.Text() == b.Text()
    ensures a == b
  {
    DocumentExact(a.Text(), a);
    DocumentExact(a.Text(), b);
  }

  // ---- stripping keeps everything but the gaps ----

  lemma {:induction false} StripValue(v: Value)
    requires ValidValue(v)
    ensures ValidValue(Strip(v)) && Nesting(Strip(v)) == Nesting(v) && Strip(Strip(v)) == Strip(v)
  {
    match v
    case Array(items) => StripItemsKeeps(items);
    case Object(ms) => StripMembersKeeps(ms);
    case _ =>
  }

  lemma {:induction false} StripItemsKeeps(items: Items)
    requires ValidItems(items)
    ensures var s := StripItems(items);
            ValidItems(s) && ItemsNesting(s) == ItemsNesting(items) && StripItems(s) == s
  {
    StripValue(items.v);
    if items.Item? {
      StripItemsKeeps(items.rest);
    }
  }

  lemma {:induction false} StripMembersKeeps(ms: Members)
    requires ValidMembers(ms)
    ensures var s := StripMembers(ms);
            && ValidMembers(s) && MembersNesting(s) == MembersNesting(ms) && StripMembers(s) == s
            && Count(s) == Count(ms) && Names(s) == Names(ms)
  {
    StripValue(ms.m.v);
    if ms.Member? {
      StripMembersKeeps(ms.rest);
    }
  }

  /** Nothing shorter comes out just when no byte of the text is a gap. */
  lemma {:induction false} KeepShorter(s: string, ls: seq<Label>)
    requires |s| == |ls|
    ensures |Keep(s, ls)| == |s| <==> Gap !in ls
    ensures Gap !in ls ==> Keep(s, ls) == s
  {
    if s != "" {
      KeepShorter(s[1..], ls[1..]);
      assert ls == [ls[0]] + ls[1..];
      assert s == [s[0]] + s[1..];
    }
  }

  /** What an accepted text turns into. `doc` is its one syntax tree. */
  lemma CompactMeaning(input: string, doc: Document)
    requires Parses(input, doc)
    ensures var small := StripDocument(doc);
            && small.Valid()
            && (Compact(input) == (small.Text(), Ok) || (Compact(input) == ("", NotShorter) && doc == small))
            && (Compact(input).1 == NotShorter <==> Gap !in DocumentLabels(doc))
            && |DocumentLabels(doc)| == |input| && small.Text() == Keep(input, DocumentLabels(doc))
            && Compact(small.Text()) == ("", NotShorter)
  {
    hide Strip, ValueText, ValueLabels, ValidValue, Nesting, Blank, DocumentLabels, StripDocument, Keep, Squeeze, DocumentAt;
    var small := StripDocument(doc);
    SmallIsValid(doc);
    ScannerAgrees(doc);
    DocumentExact(input, doc);
    NotEmpty(doc);
    SqueezeKeeps(input);
    KeepShorter(input, DocumentLabels(doc));
    ScannerAgrees(small);
    DocumentExact(small.Text(), small);
    NotEmpty(small);
    if Gap !in DocumentLabels(doc) {
      Unambiguous(doc, small);
    }
  }

  lemma SmallIsValid(doc: Document)
    requires doc.Valid()
    ensures StripDocument(doc).Valid() && StripDocument(StripDocument(doc)) == StripDocument(doc)
  {
    hide Strip, ValidValue, Nesting;
    StripValue(doc.v);
  }

  lemma NotEmpty(doc: Document)
    requires doc.Valid()
    ensures doc.Text() != ""
  {
    hide ValueText, ValidValue, Nesting;
    FirstOfValue(doc.v);
  }

  lemma SqueezeKeeps(s: string)
    ensures |Labels(s, START)| == |s| && Squeeze(s) == Keep(s, Labels(s, START))
  {
    hide Labels, Keep;
  }
}
