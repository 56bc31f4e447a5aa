/** A declarative grammar for sections 2 to 7 of RFC 8259, with the extra limits of json_compact.go.
    A document is a concrete syntax tree: `Text` writes it out with all its whitespace, and the valid
    documents are the trees that meet the side conditions below. No parsing happens here. */
module JsonSyntax {
  import opened Sorting
  import opened Utf8

  const MAX_DEPTH: nat := 64
  const MAX_MEMBERS: nat := 65536

  // ---- lexical grammar ----

  /** The four whitespace bytes of section 2 of RFC 8259. */
  predicate Space(c: char) {
    c == ' ' || c == '\t' || c == '\n' || c == '\r'
  }

  predicate Blank(s: string) {
    forall i | 0 <= i < |s| :: Space(s[i])
  }

  predicate Digit(c: char) {
    '0' <= c <= '9'
  }

  predicate Digits(s: string) {
    forall i | 0 <= i < |s| :: Digit(s[i])
  }

  /** Section 6: optional minus, integer part, optional fraction, optional exponent. */
  datatype Number = Number(minus: bool, whole: string, frac: string, exp: string) {
    predicate Valid() {
      && ValidWhole(whole)
      && (frac == "" || ValidFrac(frac))
      && (exp == "" || ValidExp(exp))
    }

    function Text(): string {
      (if minus then "-" else "") + (whole + (frac + exp))
    }
  }

  predicate ValidWhole(s: string) {
    s == "0" || (|s| > 0 && Digits(s) && s[0] != '0')
  }

  predicate ValidFrac(s: string) {
    |s| > 1 && s[0] == '.' && Digits(s[1..])
  }

  predicate ValidExp(s: string) {
    && |s| > 1
    && (s[0] == 'e' || s[0] == 'E')
    && (Digits(s[1..]) || (|s| > 2 && (s[1] == '+' || s[1] == '-') && Digits(s[2..])))
  }

  /** Section 7: one character of a string literal. */
  datatype Unit =
    | Raw(cp: Rune)
    | Short(e: char)
    | Hex(h: string)
    | Pair(high: string, low: string)
  {
    predicate Valid() {
      match this
      case Raw(cp) => cp >= 0x20 && cp != '"' as int && cp != '\\' as int
      case Short(e) => e in "\"\\/bfnrt"
      case Hex(h) => Hex4(h) && Scalar(HexValue(h))
      case Pair(high, low) =>
        Hex4(high) && Hex4(low) && 0xD800 <= HexValue(high) <= 0xDBFF && 0xDC00 <= HexValue(low) <= 0xDFFF
    }

    function Text(): string {
      match this
      case Raw(cp) => Encode(cp)
      case Short(e) => ['\\', e]
      case Hex(h) => ['\\', 'u'] + h
      case Pair(high, low) => (['\\', 'u'] + high) + (['\\', 'u'] + low)
    }

    /** The scalar value a valid unit stands for. */
    function CodePoint(): Rune {
      if !Valid() then 0xFFFD else
      match this
      case Raw(cp) => cp
      case Short(e) => ShortValue(e) as int
      case Hex(h) => HexValue(h)
      case Pair(high, low) => 0x10000 + (HexValue(high) - 0xD800) * 0x400 + (HexValue(low) - 0xDC00)
    }
  }

  function ShortValue(e: char): char {
    match e
    case 'b' => 8 as char
    case 'f' => 12 as char
    case 'n' => '\n'
    case 'r' => '\r'
    case 't' => '\t'
    case _ => e
  }

  /** `hexVal`, with None for the source's -1. */
  function HexDigit(c: char): (v: int)
    ensures -1 <= v < 16
  {
    if '0' <= c <= '9' then c as int - '0' as int
    else if 'a' <= c <= 'f' then c as int - 'a' as int + 10
    else if 'A' <= c <= 'F' then c as int - 'A' as int + 10
    else -1
  }

  predicate Hex4(h: string) {
    |h| == 4 && forall i | 0 <= i < 4 :: HexDigit(h[i]) >= 0
  }

  function HexValue(h: string): (v: int)
    requires Hex4(h)
    ensures 0 <= v < 0x10000
  {
    ((HexDigit(h[0]) * 16 + HexDigit(h[1])) * 16 + HexDigit(h[2])) * 16 + HexDigit(h[3])
  }

  predicate ValidUnits(us: seq<Unit>) {
    forall u <- us :: u.Valid()
  }

  /** The units of a literal and its closing quote. */
  function UnitsText(us: seq<Unit>): string {
    if us == [] then "\"" else us[0].Text() + UnitsText(us[1..])
  }

  /** The decoded bytes of a literal: what two names are compared by. */
  function Decoded(us: seq<Unit>): string {
    if us == [] then "" else Encode(us[0].CodePoint()) + Decoded(us[1..])
  }

  // ---- values ----

  datatype Value =
    | Literal(word: string)
    | Num(number: Number)
    | Str(units: seq<Unit>)
    | EmptyArray(pad: string)
    | Array(items: Items)
    | EmptyObject(pad: string)
    | Object(members: Members)

  /** The elements of a non-empty array, each with the whitespace around it, up to the closing bracket. */
  datatype Items =
    | LastItem(pre: string, v: Value, post: string)
    | Item(pre: string, v: Value, post: string, rest: Items)

  /** One name and value of an object, with the whitespace around its parts. */
  datatype Entry = Entry(pre: string, key: seq<Unit>, mid: string, pad: string, v: Value, post: string)

  /** The members of a non-empty object, up to the closing brace. */
  datatype Members =
    | LastMember(m: Entry)
    | Member(m: Entry, rest: Members)

  /** A whole text: one value with whitespace around it. */
  datatype Document = Document(pre: string, v: Value, post: string) {
    predicate Valid() {
      Blank(pre) && Blank(post) && ValidValue(v) && Nesting(v) <= MAX_DEPTH
    }

    function Text(): string {
      pre + (ValueText(v) + post)
    }
  }

  predicate ValidValue(v: Value) {
    match v
    case Literal(word) => word == "true" || word == "false" || word == "null"
    case Num(n) => n.Valid()
    case Str(us) => ValidUnits(us)
    case EmptyArray(pad) => Blank(pad)
    case Array(items) => ValidItems(items)
    case EmptyObject(pad) => Blank(pad)
    case Object(ms) => ValidMembers(ms) && Count(ms) <= MAX_MEMBERS && Distinct(Names(ms))
  }

  predicate ValidItems(items: Items) {
    Blank(items.pre) && ValidValue(items.v) && Blank(items.post) && (items.LastItem? || ValidItems(items.rest))
  }

  predicate ValidEntry(m: Entry) {
    Blank(m.pre) && ValidUnits(m.key) && Blank(m.mid) && Blank(m.pad) && ValidValue(m.v) && Blank(m.post)
  }

  predicate ValidMembers(ms: Members) {
    ValidEntry(ms.m) && (ms.LastMember? || ValidMembers(ms.rest))
  }

  /** How many values are nested in one another: 1 for a scalar or an empty container. */
  function Nesting(v: Value): (n: nat)
    ensures n >= 1
  {
    match v
    case Array(items) => 1 + ItemsNesting(items)
    case Object(ms) => 1 + MembersNesting(ms)
    case _ => 1
  }

  function Max(a: nat, b: nat): nat {
    if a < b then b else a
  }

  function ItemsNesting(items: Items): nat {
    if items.LastItem? then Nesting(items.v) else Max(Nesting(items.v), ItemsNesting(items.rest))
  }

  function MembersNesting(ms: Members): nat {
    if ms.LastMember? then Nesting(ms.m.v) else Max(Nesting(ms.m.v), MembersNesting(ms.rest))
  }

  function Count(ms: Members): (n: nat)
    ensures n >= 1
  {
    if ms.LastMember? then 1 else 1 + Count(ms.rest)
  }

  /** The decoded names of an object, in order. */
  function Names(ms: Members): (names: seq<string>)
    ensures |names| == Count(ms)
  {
    [Decoded(ms.m.key)] + (if ms.LastMember? then [] else Names(ms.rest))
  }

  // ---- text ----

  function ValueText(v: Value): string {
    match v
    case Literal(word) => word
    case Num(n) => n.Text()
    case Str(us) => "\"" + UnitsText(us)
    case EmptyArray(pad) => "[" + (pad + "]")
    case Array(items) => "[" + ItemsText(items)
    case EmptyObject(pad) => "{" + (pad + "}")
    case Object(ms) => "{" + MembersText(ms)
  }

  function ItemsText(items: Items): string {
    items.pre + (ValueText(items.v) + (items.post +
    (if items.LastItem? then "]" else "," + ItemsText(items.rest))))
  }

  function EntryText(m: Entry): string {
    m.pre + ("\"" + (UnitsText(m.key) + (m.mid + (":" + (m.pad + (ValueText(m.v) + m.post))))))
  }

  function MembersText(ms: Members): string {
    EntryText(ms.m) + (if ms.LastMember? then "}" else "," + MembersText(ms.rest))
  }
}
