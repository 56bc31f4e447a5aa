/** The cJSON-compatible printer of cjson.go, and its round trip through the strict parser: what is
    printed is a valid document with no removable whitespace, and reading it gives the tree back. */
module JsonPrinter {
  import opened Basics
  import opened Sorting
  import opened Utf8
  import opened JsonTree
  import S = JsonSyntax
  import R = JsonReader
  import C = JsonScanner
  import K = JsonCompact

  // ---- printing ----

  function LowHex(d: int): char
    requires 0 <= d < 16
  {
    if d < 10 then ('0' as int + d) as char else ('a' as int + (d - 10)) as char
  }

  /** One byte inside a literal, in cJSON's escape set. */
  function EscapeByte(c: char): string {
    if c == '"' then "\\\""
    else if c == '\\' then "\\\\"
    else if c == 8 as char then "\\b"
    else if c == 12 as char then "\\f"
    else if c == '\n' then "\\n"
    else if c == '\r' then "\\r"
    else if c == '\t' then "\\t"
    else if c as int < 32 then "\\u" + ['0', '0', LowHex(c as int / 16), LowHex(c as int % 16)]
    else [c]
  }

  function EscapeBytes(s: string): string {
    if s == "" then "" else EscapeByte(s[0]) + EscapeBytes(s[1..])
  }

  function Escape(s: string): string {
    "\"" + (EscapeBytes(s) + "\"")
  }

  function Decimal(n: nat): (s: string)
    ensures |s| > 0
  {
    if n < 10 then [('0' as int + n) as char] else Decimal(n / 10) + [('0' as int + n % 10) as char]
  }

  function Power(b: nat, e: nat): nat {
    if e == 0 then 1 else b * Power(b, e - 1)
  }

  /** A number below a power of ten has at most that many digits. */
  lemma {:induction false} DecimalLength(n: nat, digits: nat)
    requires digits > 0 && n < Power(10, digits)
    ensures |Decimal(n)| <= digits
  {
    if n >= 10 {
      DecimalLength(n / 10, digits - 1);
    }
  }

  /** The integer branch of CJSONNumber; any other number prints as its own spelling. */
  function NumText(n: Num): string {
    match n
    case Int32(i) => if i < 0 then "-" + Decimal(-i) else Decimal(i)
    case Spelled(text) => text
  }

  function Print(v: Json): string {
    match v
    case Null => "null"
    case False => "false"
    case True => "true"
    case Number(n) => NumText(n)
    case String(s) => Escape(s)
    case Array(items) => "[" + (if items == [] then "]" else PrintItems(items))
    case Object(fields) => "{" + (if fields == [] then "}" else PrintFields(fields))
  }

  function PrintItems(items: seq<Json>): string
    requires items != []
  {
    Print(items[0]) + (if |items| == 1 then "]" else "," + PrintItems(items[1..]))
  }

  function PrintFields(fields: seq<Field>): string
    requires fields != []
  {
    (Escape(fields[0].key) + (":" + Print(fields[0].value)))
    + (if |fields| == 1 then "}" else "," + PrintFields(fields[1..]))
  }

  // ---- what a tree must be like to survive the trip ----

  function Keys(fields: seq<Field>): (ks: seq<string>)
    ensures |ks| == |fields|
  {
    if fields == [] then [] else [fields[0].key] + Keys(fields[1..])
  }

  ghost predicate Printable(v: Json) {
    match v
    case Number(n) => n.Int32? && -0x8000_0000 <= n.n < 0x8000_0000
    case String(s) => WellFormed(s)
    case Array(items) => PrintableItems(items)
    case Object(fields) => PrintableFields(fields) && Distinct(Keys(fields)) && |fields| <= S.MAX_MEMBERS
    case _ => true
  }

  ghost predicate PrintableItems(items: seq<Json>) {
    items == [] || (Printable(items[0]) && PrintableItems(items[1..]))
  }

  ghost predicate PrintableFields(fields: seq<Field>) {
    fields == [] || (WellFormed(fields[0].key) && Printable(fields[0].value) && PrintableFields(fields[1..]))
  }

  function Depth(v: Json): nat {
    match v
    case Array(items) => 1 + ItemsDepth(items)
    case Object(fields) => 1 + FieldsDepth(fields)
    case _ => 1
  }

  function ItemsDepth(items: seq<Json>): nat {
    if items == [] then 0 else S.Max(Depth(items[0]), ItemsDepth(items[1..]))
  }

  function FieldsDepth(fields: seq<Field>): nat {
    if fields == [] then 0 else S.Max(Depth(fields[0].value), FieldsDepth(fields[1..]))
  }

  // ---- what a syntax tree says ----

  function DigitsValue(s: string): int {
    if s == "" then 0 else DigitsValue(s[..|s| - 1]) * 10 + (s[|s| - 1] as int - '0' as int)
  }

  function NumMeaning(n: S.Number): Num {
    var v := if n.minus then -DigitsValue(n.whole) else DigitsValue(n.whole);
    if n.frac == "" && n.exp == "" && -0x8000_0000 <= v < 0x8000_0000 then Int32(v) else Spelled(n.Text())
  }

  function Meaning(v: S.Value): Json {
    match v
    case Literal(word) => if word == "true" then True else if word == "false" then False else Null
    case Num(n) => Number(NumMeaning(n))
    case Str(us) => String(S.Decoded(us))
    case EmptyArray(_) => Array([])
    case Array(items) => Array(ItemsMeaning(items))
    case EmptyObject(_) => Object([])
    case Object(ms) => Object(MembersMeaning(ms))
  }

  function ItemsMeaning(items: S.Items): seq<Json> {
    [Meaning(items.v)] + (if items.LastItem? then [] else ItemsMeaning(items.rest))
  }

  function MembersMeaning(ms: S.Members): seq<Field> {
    [Field(S.Decoded(ms.m.key), Meaning(ms.m.v))] + (if ms.LastMember? then [] else MembersMeaning(ms.rest))
  }

  /** Compaction keeps the meaning: gaps say nothing. */
  lemma {:induction false} StripMeans(v: S.Value)
    ensures Meaning(C.Strip(v)) == Meaning(v)
  {
    match v
    case Array(items) => StripItemsMeans(items);
    case Object(ms) => StripMembersMeans(ms);
    case _ =>
  }

  lemma {:induction false} StripItemsMeans(items: S.Items)
    ensures ItemsMeaning(C.StripItems(items)) == ItemsMeaning(items)
  {
    StripMeans(items.v);
    if items.Item? {
      StripItemsMeans(items.rest);
    }
  }

  lemma {:induction false} StripMembersMeans(ms: S.Members)
    ensures MembersMeaning(C.StripMembers(ms)) == MembersMeaning(ms)
  {
    StripMeans(ms.m.v);
    if ms.Member? {
      StripMembersMeans(ms.rest);
    }
  }

  // ---- UTF-8 text as code points ----

  /** The code points of well-formed text; reading stops where it is not. */
  function CodePoints(s: string): seq<Rune>
    decreases |s|
  {
    var n := Sequence(s);
    if n == 0 then []
    else
      DecodeOfSequence(s);
      [Decode(s)] + CodePoints(s[n..])
  }

  lemma {:induction false} CodePointsOfEncoded(cps: seq<Rune>)
    ensures CodePoints(EncodeAll(cps)) == cps
  {
    if cps != [] {
      var s := EncodeAll(cps);
      SequenceOfEncode(cps[0], EncodeAll(cps[1..]));
      assert s[|Encode(cps[0])|..] == EncodeAll(cps[1..]);
      CodePointsOfEncoded(cps[1..]);
    }
  }

  lemma WellFormedDecodes(s: string)
    requires WellFormed(s)
    ensures EncodeAll(CodePoints(s)) == s
  {
    var cps: seq<Rune> :| s == EncodeAll(cps);
    CodePointsOfEncoded(cps);
  }

  // ---- strings ----

  /** The unit the printer writes for one code point. */
  function UnitOf(cp: Rune): S.Unit {
    if cp == '"' as int then S.Short('"')
    else if cp == '\\' as int then S.Short('\\')
    else if cp == 8 then S.Short('b')
    else if cp == 12 then S.Short('f')
    else if cp == 10 then S.Short('n')
    else if cp == 13 then S.Short('r')
    else if cp == 9 then S.Short('t')
    else if cp < 32 then S.Hex(['0', '0', LowHex(cp / 16), LowHex(cp % 16)])
    else S.Raw(cp)
  }

  function UnitsOf(cps: seq<Rune>): (us: seq<S.Unit>)
    ensures |us| == |cps|
  {
    if cps == [] then [] else [UnitOf(cps[0])] + UnitsOf(cps[1..])
  }

  lemma LowHexDigit(d: int)
    requires 0 <= d < 16
    ensures S.HexDigit(LowHex(d)) == d
  {
  }

  lemma UnitOfMeans(cp: Rune)
    ensures UnitOf(cp).Valid() && UnitOf(cp).CodePoint() == cp
  {
    if UnitOf(cp).Hex? {
      LowHexDigit(cp / 16);
      LowHexDigit(cp % 16);
    }
  }

  lemma {:induction false} EscapeHigh(s: string)
    requires forall c <- s :: c as int >= 0x80
    ensures EscapeBytes(s) == s
  {
    if s != "" {
      var c := s[0];
      assert c in s && forall x | x in s[1..] :: x in s;
      assert EscapeByte(c) == [c];
      EscapeHigh(s[1..]);
      assert s == [s[0]] + s[1..];
    }
  }

  lemma UnitOfText(cp: Rune)
    ensures UnitOf(cp).Text() == EscapeBytes(Encode(cp))
  {
    if cp < 0x80 {
      assert Encode(cp) == [cp as char] && Encode(cp)[1..] == "";
      assert EscapeBytes(Encode(cp)) == EscapeByte(cp as char);
    } else {
      EscapeHigh(Encode(cp));
    }
  }

  lemma {:induction false} EscapeJoin(a: string, b: string)
    ensures EscapeBytes(a + b) == EscapeBytes(a) + EscapeBytes(b)
  {
    if a == "" {
      assert a + b == b;
    } else {
      assert (a + b)[1..] == a[1..] + b;
      EscapeJoin(a[1..], b);
    }
  }

  lemma {:induction false} UnitsOfText(cps: seq<Rune>)
    ensures S.ValidUnits(UnitsOf(cps))
    ensures S.UnitsText(UnitsOf(cps)) == EscapeBytes(EncodeAll(cps)) + "\""
    ensures S.Decoded(UnitsOf(cps)) == EncodeAll(cps)
  {
    if cps != [] {
      UnitOfMeans(cps[0]);
      UnitOfText(cps[0]);
      UnitsOfText(cps[1..]);
      EscapeJoin(Encode(cps[0]), EncodeAll(cps[1..]));
      Assoc(EscapeBytes(Encode(cps[0])), EscapeBytes(EncodeAll(cps[1..])), "\"");
    }
  }

  /** The units the printer writes for a string. */
  function StringUnits(s: string): seq<S.Unit> {
    UnitsOf(CodePoints(s))
  }

  lemma StringUnitsMean(s: string)
    requires WellFormed(s)
    ensures var us := StringUnits(s);
            S.ValidUnits(us) && "\"" + S.UnitsText(us) == Escape(s) && S.Decoded(us) == s
  {
    WellFormedDecodes(s);
    UnitsOfText(CodePoints(s));
  }

  /** Reading a printed string consumes the whole literal and decodes to the string. */
  lemma EscapeReadsBack(s: string, rest: string)
    requires WellFormed(s)
    ensures var r := R.StringAt(Escape(s) + rest);
            r.Done? && r.rest == rest && S.Decoded(r.value) == s
  {
    StringUnitsMean(s);
    R.StringComplete(StringUnits(s), rest);
  }

  // ---- numbers ----

  lemma {:induction false} DecimalReads(n: nat)
    ensures DigitsValue(Decimal(n)) == n && S.ValidWhole(Decimal(n)) && (n > 0 ==> Decimal(n)[0] != '0')
  {
    var s := Decimal(n);
    if n < 10 {
      assert s[..0] == "";
      assert DigitsValue(s) == DigitsValue("") * 10 + n;
    } else {
      DecimalReads(n / 10);
      assert s[..|s| - 1] == Decimal(n / 10);
    }
  }

  function NumberOf(n: int): S.Number {
    S.Number(n < 0, Decimal(if n < 0 then -n else n), "", "")
  }

  lemma NumberOfText(n: int)
    ensures NumberOf(n).Text() == NumText(Int32(n))
  {
    var w := NumberOf(n).whole;
    assert w + ("" + "") == w && "" + w == w;
  }

  lemma NumberOfMeans(n: int)
    requires -0x8000_0000 <= n < 0x8000_0000
    ensures NumberOf(n).Valid() && NumMeaning(NumberOf(n)) == Int32(n)
  {
    hide S.ValidWhole, Decimal;
    DecimalReads(if n < 0 then -n else n);
  }

  // ---- trees ----

  /** The syntax tree of the printed text. */
  function Syntax(v: Json): S.Value {
    match v
    case Null => S.Literal("null")
    case False => S.Literal("false")
    case True => S.Literal("true")
    case Number(n) => S.Num(NumberOf(if n.Int32? then n.n else 0))
    case String(s) => S.Str(StringUnits(s))
    case Array(items) => if items == [] then S.EmptyArray("") else S.Array(SyntaxItems(items))
    case Object(fields) => if fields == [] then S.EmptyObject("") else S.Object(SyntaxFields(fields))
  }

  function SyntaxItems(items: seq<Json>): S.Items
    requires items != []
  {
    if |items| == 1 then S.LastItem("", Syntax(items[0]), "")
    else S.Item("", Syntax(items[0]), "", SyntaxItems(items[1..]))
  }

  function SyntaxFields(fields: seq<Field>): S.Members
    requires fields != []
  {
    var m := S.Entry("", StringUnits(fields[0].key), "", "", Syntax(fields[0].value), "");
    if |fields| == 1 then S.LastMember(m) else S.Member(m, SyntaxFields(fields[1..]))
  }

  lemma {:induction false} SyntaxMeans(v: Json)
    requires Printable(v)
    ensures var t := Syntax(v);
            && S.ValidValue(t) && S.Nesting(t) == Depth(v) && C.Strip(t) == t
            && Meaning(t) == v && S.ValueText(t) == Print(v)
  {
    match v
    case Number(n) =>
      NumberOfMeans(n.n);
      NumberOfText(n.n);
    case String(s) => StringUnitsMean(s);
    case Array(items) =>
      if items != [] {
        SyntaxItemsMean(items);
      }
    case Object(fields) =>
      if fields != [] {
        SyntaxFieldsMean(fields);
      }
    case _ =>
  }

  lemma {:induction false} SyntaxItemsMean(items: seq<Json>)
    requires items != [] && PrintableItems(items)
    ensures var t := SyntaxItems(items);
            && S.ValidItems(t) && S.ItemsNesting(t) == ItemsDepth(items) && C.StripItems(t) == t
            && ItemsMeaning(t) == items && S.ItemsText(t) == PrintItems(items)
  {
    SyntaxMeans(items[0]);
    if |items| > 1 {
      SyntaxItemsMean(items[1..]);
    }
    hide *;
    ItemsShape(items);
    ItemsSpelling(items);
  }

  lemma ItemsShape(items: seq<Json>)
    requires items != []
    requires var h := Syntax(items[0]);
             S.ValidValue(h) && S.Nesting(h) == Depth(items[0]) && C.Strip(h) == h && Meaning(h) == items[0]
    requires |items| > 1 ==>
               var t := SyntaxItems(items[1..]);
               && S.ValidItems(t) && S.ItemsNesting(t) == ItemsDepth(items[1..]) && C.StripItems(t) == t
               && ItemsMeaning(t) == items[1..]
    ensures var t := SyntaxItems(items);
            S.ValidItems(t) && S.ItemsNesting(t) == ItemsDepth(items) && C.StripItems(t) == t && ItemsMeaning(t) == items
  {
    hide Syntax, Meaning, Depth, S.ValidValue, C.Strip, S.Nesting;
    if |items| == 1 {
      LastItem(items[0]);
      assert items == [items[0]];
    } else {
      MoreItems(items);
      assert items == [items[0]] + items[1..];
    }
  }

  lemma LastItem(x: Json)
    requires var h := Syntax(x); S.ValidValue(h) && S.Nesting(h) == Depth(x) && C.Strip(h) == h && Meaning(h) == x
    ensures var t := SyntaxItems([x]);
            S.ValidItems(t) && S.ItemsNesting(t) == ItemsDepth([x]) && C.StripItems(t) == t && ItemsMeaning(t) == [x]
  {
    hide Syntax, Meaning, Depth, S.ValidValue, C.Strip, S.Nesting;
    assert [x][1..] == [];
  }

  lemma MoreItems(items: seq<Json>)
    requires |items| > 1
    requires var h := Syntax(items[0]);
             S.ValidValue(h) && S.Nesting(h) == Depth(items[0]) && C.Strip(h) == h && Meaning(h) == items[0]
    requires var t := SyntaxItems(items[1..]);
             && S.ValidItems(t) && S.ItemsNesting(t) == ItemsDepth(items[1..]) && C.StripItems(t) == t
             && ItemsMeaning(t) == items[1..]
    ensures var t := SyntaxItems(items);
            && S.ValidItems(t) && S.ItemsNesting(t) == ItemsDepth(items) && C.StripItems(t) == t
            && ItemsMeaning(t) == [items[0]] + items[1..]
  {
    hide Syntax, Meaning, Depth, S.ValidValue, C.Strip, S.Nesting;
  }

  lemma ItemsSpelling(items: seq<Json>)
    requires items != [] && S.ValueText(Syntax(items[0])) == Print(items[0])
    requires |items| > 1 ==> S.ItemsText(SyntaxItems(items[1..])) == PrintItems(items[1..])
    ensures S.ItemsText(SyntaxItems(items)) == PrintItems(items)
  {
    hide Syntax, Print, S.ValueText;
    var tail := if |items| == 1 then "]" else "," + PrintItems(items[1..]);
    NothingInFront(tail);
    NothingInFront(Print(items[0]) + tail);
  }

  lemma NothingInFront(s: string)
    ensures "" + s == s
  {
  }

  lemma {:induction false} SyntaxFieldMeans(f: Field)
    requires WellFormed(f.key) && Printable(f.value)
    ensures var m := S.Entry("", StringUnits(f.key), "", "", Syntax(f.value), "");
            && S.ValidEntry(m) && S.Nesting(m.v) == Depth(f.value) && C.StripEntry(m) == m
            && S.Decoded(m.key) == f.key && Meaning(m.v) == f.value
            && S.EntryText(m) == Escape(f.key) + (":" + Print(f.value))
  {
    StringUnitsMean(f.key);
    SyntaxMeans(f.value);
    EntryTextBare(StringUnits(f.key), Syntax(f.value));
  }

  lemma EntryTextBare(key: seq<S.Unit>, v: S.Value)
    ensures S.EntryText(S.Entry("", key, "", "", v, "")) == ("\"" + S.UnitsText(key)) + (":" + S.ValueText(v))
  {
    var val := S.ValueText(v);
    assert val + "" == val && "" + val == val && "" + (":" + val) == ":" + val;
    Assoc("\"", S.UnitsText(key), ":" + val);
    var all := "\"" + (S.UnitsText(key) + (":" + val));
    assert "" + all == all;
  }

  lemma {:induction false} SyntaxFieldsMean(fields: seq<Field>)
    requires fields != [] && PrintableFields(fields)
    ensures var t := SyntaxFields(fields);
            && S.ValidMembers(t) && S.MembersNesting(t) == FieldsDepth(fields) && C.StripMembers(t) == t
            && S.Count(t) == |fields| && S.Names(t) == Keys(fields)
            && MembersMeaning(t) == fields && S.MembersText(t) == PrintFields(fields)
  {
    SyntaxFieldMeans(fields[0]);
    if |fields| == 1 {
      assert fields[1..] == [] && fields == [fields[0]];
    } else {
      SyntaxFieldsMean(fields[1..]);
      assert fields == [fields[0]] + fields[1..];
    }
  }

  /** Printing and strict reading undo each other: the printed text is a valid document whose one syntax
      tree means v, and the compactor finds nothing in it to remove. */
  lemma PrintReadsBack(v: Json)
    requires Printable(v) && Depth(v) <= S.MAX_DEPTH && |Print(v)| <= K.MAX_INPUT
    ensures exists doc ::
              && K.Parses(Print(v), doc) && R.DocumentAt(Print(v)) == R.Done(doc, "")
              && Meaning(doc.v) == v && C.Gap !in C.DocumentLabels(doc)
    ensures K.Compact(Print(v)) == ("", R.NotShorter)
  {
    var doc := S.Document("", Syntax(v), "");
    SyntaxMeans(v);
    assert doc.Text() == Print(v) by {
      assert Print(v) + "" == Print(v) && "" + Print(v) == Print(v);
    }
    R.DocumentExact(Print(v), doc);
    K.CompactMeaning(Print(v), doc);
    assert C.StripDocument(doc) == doc;
    assert K.Parses(Print(v), doc);
    C.ScannerAgrees(doc);
  }

  /** The compacted text means what the original text means. */
  lemma CompactKeepsMeaning(input: string, doc: S.Document, small: S.Document)
    requires K.Parses(input, doc) && K.Compact(input).1 == R.Ok
    requires small.Valid() && small.Text() == K.Compact(input).0
    ensures Meaning(small.v) == Meaning(doc.v)
  {
    K.CompactMeaning(input, doc);
    K.Unambiguous(small, C.StripDocument(doc));
    StripMeans(doc.v);
  }

  // ---- the printer as it runs ----

  /** `strings.Builder`. */
  class Builder {
    var text: string

    constructor ()
      ensures text == ""
    {
      text := "";
    }

    method Write(s: string)
      modifies this
      ensures text == old(text) + s
    {
      text := text + s;
    }
  }

  lemma NoBytes(s: string, was: string)
    ensures was + "\"" == was + ("\"" + EscapeBytes(s[..0]))
  {
  }

  lemma NextByte(s: string, i: nat)
    requires i < |s|
    ensures EscapeBytes(s[..i + 1]) == EscapeBytes(s[..i]) + EscapeByte(s[i])
  {
    assert s[..i + 1] == s[..i] + [s[i]] && [s[i]][1..] == [];
    EscapeJoin(s[..i], [s[i]]);
    hide EscapeByte;
    assert EscapeBytes([s[i]]) == EscapeByte(s[i]) + "";
  }

  lemma Quoted(was: string, text: string, more: string)
    ensures was + ("\"" + text) + more == was + ("\"" + (text + more))
  {
  }

  method CjsonEscape(b: Builder, s: string)
    modifies b
    ensures b.text == old(b.text) + Escape(s)
  {
    hide EscapeBytes, EscapeByte;
    ghost var was := b.text;
    b.Write("\"");
    NoBytes(s, was);
    for i := 0 to |s|
      invariant b.text == was + ("\"" + EscapeBytes(s[..i]))
    {
      NextByte(s, i);
      b.Write(EscapeByte(s[i]));
      Quoted(was, EscapeBytes(s[..i]), EscapeByte(s[i]));
    }
    assert s[..|s|] == s;
    b.Write("\"");
    Quoted(was, EscapeBytes(s), "\"");
  }

  method PrintJson(b: Builder, v: Json)
    modifies b
    ensures b.text == old(b.text) + Print(v)
    decreases v, 0
  {
    match v
    case Null => b.Write("null");
    case False => b.Write("false");
    case True => b.Write("true");
    case Number(n) => b.Write(NumText(n));
    case String(s) => CjsonEscape(b, s);
    case Array(items) => PrintArray(b, items);
    case Object(fields) => PrintObject(b, fields);
  }

  method PrintArray(b: Builder, items: seq<Json>)
    modifies b
    ensures b.text == old(b.text) + Print(Array(items))
    decreases items, 1
  {
    b.Write("[");
    for i := 0 to |items|
      invariant b.text + ItemsFrom(items, i) == old(b.text) + Print(Array(items))
    {
      ItemsFromStep(items, i, b.text);
      if i > 0 {
        b.Write(",");
      }
      PrintJson(b, items[i]);
    }
    b.Write("]");
  }

  method PrintObject(b: Builder, fields: seq<Field>)
    modifies b
    ensures b.text == old(b.text) + Print(Object(fields))
    decreases fields, 1
  {
    b.Write("{");
    for i := 0 to |fields|
      invariant b.text + FieldsFrom(fields, i) == old(b.text) + Print(Object(fields))
    {
      FieldsFromStep(fields, i, b.text);
      if i > 0 {
        b.Write(",");
      }
      CjsonEscape(b, fields[i].key);
      b.Write(":");
      PrintJson(b, fields[i].value);
    }
    b.Write("}");
  }

  /** What is still to be written once i elements are out. */
  ghost function ItemsFrom(items: seq<Json>, i: nat): string
    requires i <= |items|
  {
    if i == |items| then "]" else (if i > 0 then "," else "") + PrintItems(items[i..])
  }

  ghost function FieldsFrom(fields: seq<Field>, i: nat): string
    requires i <= |fields|
  {
    if i == |fields| then "}" else (if i > 0 then "," else "") + PrintFields(fields[i..])
  }

  lemma ItemsFromStep(items: seq<Json>, i: nat, text: string)
    requires i < |items|
    ensures text + ItemsFrom(items, i)
         == ((if i > 0 then text + "," else text) + Print(items[i])) + ItemsFrom(items, i + 1)
  {
    var out := if i > 0 then text + "," else text;
    var item, tail := Print(items[i]), ItemsFrom(items, i + 1);
    ItemsTail(items, i);
    hide *;
    Assoc(text, if i > 0 then "," else "", item + tail);
    Assoc(out, item, tail);
  }

  lemma ItemsTail(items: seq<Json>, i: nat)
    requires i < |items|
    ensures ItemsFrom(items, i) == (if i > 0 then "," else "") + (Print(items[i]) + ItemsFrom(items, i + 1))
  {
    hide Print;
    assert items[i..][1..] == items[i + 1..];
  }

  lemma FieldsFromStep(fields: seq<Field>, i: nat, text: string)
    requires i < |fields|
    ensures text + FieldsFrom(fields, i)
         == ((((if i > 0 then text + "," else text) + Escape(fields[i].key)) + ":") + Print(fields[i].value))
            + FieldsFrom(fields, i + 1)
  {
    var out := if i > 0 then text + "," else text;
    var key, val := Escape(fields[i].key), Print(fields[i].value);
    var tail := FieldsFrom(fields, i + 1);
    FieldsTail(fields, i);
    hide *;
    Assoc(text, if i > 0 then "," else "", (key + (":" + val)) + tail);
    Assoc(out, key + (":" + val), tail);
    Assoc(out, key, ":" + val);
    Assoc(out + key, ":", val);
  }

  lemma FieldsTail(fields: seq<Field>, i: nat)
    requires i < |fields|
    ensures FieldsFrom(fields, i) == (if i > 0 then "," else "")
              + ((Escape(fields[i].key) + (":" + Print(fields[i].value))) + FieldsFrom(fields, i + 1))
  {
    hide Escape, Print;
    assert fields[i..][1..] == fields[i + 1..];
  }

  method PrintJSONUnformatted(v: Json) returns (text: string)
    ensures text == Print(v)
  {
    var b := new Builder();
    PrintJson(b, v);
    text := b.text;
  }
}
