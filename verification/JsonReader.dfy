/** The acceptance function of the recursive-descent validator in json_compact.go: the branches of
    parseString, parseNumber, parseArray, parseObject and parseValue, on the text still to be read.
    A success carries the concrete syntax tree that was read. It is proved to be exactly the grammar
    of JsonSyntax: `ValueSound` and `ValueComplete`. */
module JsonReader {
  import opened Basics
  import opened Sorting
  import opened Utf8
  import opened JsonSyntax

  datatype Status =
    | Ok | InvalidArgument | TooLarge | TooDeep | InvalidUtf8 | InvalidSyntax | DuplicateKey | NotShorter

  /** The ways a text can be refused by the parser itself. */
  type Refusal = st: Status | st in {TooDeep, InvalidUtf8, InvalidSyntax, DuplicateKey} witness InvalidSyntax

  /** What reading a prefix of the text gives: a tree and the text left over, or a refusal. */
  datatype Outcome<T> = Done(value: T, rest: string) | Fail(why: Refusal)

  function SkipBlank(s: string): (t: string)
    ensures |t| <= |s| && (t != "" ==> !Space(t[0]))
  {
    if s != "" && Space(s[0]) then SkipBlank(s[1..]) else s
  }

  /** The whitespace SkipBlank steps over. */
  function Lead(s: string): string {
    s[..|s| - |SkipBlank(s)|]
  }

  // ---- strings ----

  function UnitAt(s: string): (r: Outcome<Unit>)
    requires s != ""
    ensures r.Done? ==> |r.rest| < |s|
  {
    if s[0] as int < 0x20 then Fail(InvalidSyntax)
    else if s[0] == '\\' then
      if |s| < 2 then Fail(InvalidSyntax)
      else if s[1] == 'u' then EscapeAt(s)
      else if s[1] in "\"\\/bfnrt" then Done(Short(s[1]), s[2..])
      else Fail(InvalidSyntax)
    else
      var n := Sequence(s);
      if n == 0 then Fail(InvalidUtf8)
      else
        DecodeOfSequence(s);
        Done(Raw(Decode(s)), s[n..])
  }

  function EscapeAt(s: string): (r: Outcome<Unit>)
    requires |s| >= 2
    ensures r.Done? ==> |r.rest| < |s|
  {
    if |s| < 6 || !Hex4(s[2..6]) then Fail(InvalidSyntax)
    else if 0xD800 <= HexValue(s[2..6]) <= 0xDBFF then
      if |s| < 12 || s[6] != '\\' || s[7] != 'u' || !Hex4(s[8..12])
         || !(0xDC00 <= HexValue(s[8..12]) <= 0xDFFF)
      then Fail(InvalidSyntax)
      else Done(Pair(s[2..6], s[8..12]), s[12..])
    else if 0xDC00 <= HexValue(s[2..6]) <= 0xDFFF then Fail(InvalidSyntax)
    else Done(Hex(s[2..6]), s[6..])
  }

  /** What follows an opening quote, up to and including the closing one. */
  function UnitsAt(s: string): (r: Outcome<seq<Unit>>)
    ensures r.Done? ==> |r.rest| < |s|
    decreases |s|
  {
    if s == "" then Fail(InvalidSyntax)
    else if s[0] == '"' then Done([], s[1..])
    else match UnitAt(s)
      case Fail(e) => Fail(e)
      case Done(u, t) => Prepend(u, UnitsAt(t))
  }

  function Prepend<T>(x: T, r: Outcome<seq<T>>): Outcome<seq<T>> {
    match r
    case Fail(e) => Fail(e)
    case Done(xs, t) => Done([x] + xs, t)
  }

  function StringAt(s: string): (r: Outcome<seq<Unit>>)
    ensures r.Done? ==> |r.rest| < |s|
  {
    if s == "" || s[0] != '"' then Fail(InvalidSyntax) else UnitsAt(s[1..])
  }

  // ---- numbers ----

  /** The length of the longest run of digits at the start of s. */
  function Run(s: string): (n: nat)
    ensures n <= |s| && Digits(s[..n]) && (n < |s| ==> !Digit(s[n]))
  {
    if s != "" && Digit(s[0]) then
      var n := 1 + Run(s[1..]);
      assert forall i | 0 < i < n :: s[i] == s[1..][..n - 1][i - 1];
      assert n < |s| ==> s[n] == s[1..][n - 1];
      n
    else 0
  }

  /** The length of the integer part, 0 when there is none. */
  function WholeLen(s: string): (n: nat)
    ensures n <= |s|
  {
    if s != "" && s[0] == '0' then 1 else Run(s)
  }

  /** The length of the fraction; None when a point has no digit after it. */
  function FracLen(s: string): (n: int)
    ensures -1 <= n <= |s|
  {
    if s == "" || s[0] != '.' then 0
    else if Run(s[1..]) == 0 then -1
    else 1 + Run(s[1..])
  }

  function ExpLen(s: string): (n: int)
    ensures -1 <= n <= |s|
  {
    if s == "" || (s[0] != 'e' && s[0] != 'E') then 0
    else
      var k := if |s| > 1 && (s[1] == '+' || s[1] == '-') then 2 else 1;
      if Run(s[k..]) == 0 then -1 else k + Run(s[k..])
  }

  function NumberAt(s: string): (r: Outcome<Number>)
    ensures r.Done? ==> |r.rest| < |s|
  {
    if s != "" && s[0] == '-' then UnsignedAt(s[1..], true) else UnsignedAt(s, false)
  }

  function UnsignedAt(s: string, minus: bool): (r: Outcome<Number>)
    ensures r.Done? ==> |r.rest| < |s|
  {
    var w := WholeLen(s);
    if w == 0 then Fail(InvalidSyntax) else
    var f := FracLen(s[w..]);
    if f < 0 then Fail(InvalidSyntax) else
    var e := ExpLen(s[w..][f..]);
    if e < 0 then Fail(InvalidSyntax) else
    Done(Number(minus, s[..w], s[w..][..f], s[w..][f..][..e]), s[w..][f..][e..])
  }

  // ---- values ----

  function Word(s: string, word: string): (r: Outcome<Value>)
    requires word != ""
    ensures r.Done? ==> |r.rest| < |s|
  {
    if word <= s then Done(Literal(word), s[|word|..]) else Fail(InvalidSyntax)
  }

  function AsNum(r: Outcome<Number>): Outcome<Value> {
    match r
    case Fail(e) => Fail(e)
    case Done(n, t) => Done(Num(n), t)
  }

  function AsStr(r: Outcome<seq<Unit>>): Outcome<Value> {
    match r
    case Fail(e) => Fail(e)
    case Done(us, t) => Done(Str(us), t)
  }

  function ValueAt(s: string, depth: nat): (r: Outcome<Value>)
    ensures r.Done? ==> |r.rest| < |s|
    decreases |s|, 2
  {
    var t := SkipBlank(s);
    if depth >= MAX_DEPTH then Fail(TooDeep)
    else if t == "" then Fail(InvalidSyntax)
    else if t[0] == '{' then ObjectAt(t, depth)
    else if t[0] == '[' then ArrayAt(t, depth)
    else if t[0] == '"' then AsStr(StringAt(t))
    else if t[0] == 't' then Word(t, "true")
    else if t[0] == 'f' then Word(t, "false")
    else if t[0] == 'n' then Word(t, "null")
    else AsNum(NumberAt(t))
  }

  function ArrayAt(s: string, depth: nat): (r: Outcome<Value>)
    requires s != ""
    ensures r.Done? ==> |r.rest| < |s|
    decreases |s|, 1
  {
    var t := SkipBlank(s[1..]);
    if t != "" && t[0] == ']' then Done(EmptyArray(Lead(s[1..])), t[1..])
    else
      match ItemsAt(s[1..], depth)
      case Fail(e) => Fail(e)
      case Done(items, rest) => Done(Array(items), rest)
  }

  function ItemsAt(s: string, depth: nat): (r: Outcome<Items>)
    ensures r.Done? ==> |r.rest| < |s|
    decreases |s|, 5
  {
    match ValueAt(s, depth + 1)
    case Fail(e) => Fail(e)
    case Done(v, t) =>
      var u := SkipBlank(t);
      if u == "" then Fail(InvalidSyntax)
      else if u[0] == ']' then Done(LastItem(Lead(s), v, Lead(t)), u[1..])
      else if u[0] == ',' then
        (match ItemsAt(u[1..], depth)
         case Fail(e) => Fail(e)
         case Done(rest, x) => Done(Item(Lead(s), v, Lead(t), rest), x))
      else Fail(InvalidSyntax)
  }

  function ObjectAt(s: string, depth: nat): (r: Outcome<Value>)
    requires s != ""
    ensures r.Done? ==> |r.rest| < |s|
    decreases |s|, 1
  {
    var t := SkipBlank(s[1..]);
    if t != "" && t[0] == '}' then Done(EmptyObject(Lead(s[1..])), t[1..])
    else
      match MembersAt(s[1..], depth, [])
      case Fail(e) => Fail(e)
      case Done(ms, rest) => Done(Object(ms), rest)
  }

  /** One name and value and the whitespace after them; `count` names came before. */
  function EntryAt(s: string, depth: nat, count: nat): (r: Outcome<Entry>)
    ensures r.Done? ==> |r.rest| < |s|
    decreases |s|, 5
  {
    match StringAt(SkipBlank(s))
    case Fail(e) => Fail(e)
    case Done(key, b) =>
      if count >= MAX_MEMBERS then Fail(TooDeep) else
      var c := SkipBlank(b);
      if c == "" || c[0] != ':' then Fail(InvalidSyntax) else
      match ValueAt(c[1..], depth + 1)
      case Fail(e) => Fail(e)
      case Done(v, d) => Done(Entry(Lead(s), key, Lead(b), Lead(c[1..]), v, Lead(d)), SkipBlank(d))
  }

  /** The members of an object after `seen` names; the whole list of names is checked at the brace. */
  function MembersAt(s: string, depth: nat, seen: seq<string>): (r: Outcome<Members>)
    ensures r.Done? ==> |r.rest| < |s|
    decreases |s|, 6
  {
    match EntryAt(s, depth, |seen|)
    case Fail(e) => Fail(e)
    case Done(m, u) =>
      var names := seen + [Decoded(m.key)];
      if u == "" then Fail(InvalidSyntax)
      else if u[0] == '}' then
        if Distinct(names) then Done(LastMember(m), u[1..]) else Fail(DuplicateKey)
      else if u[0] == ',' then
        (match MembersAt(u[1..], depth, names)
         case Fail(e) => Fail(e)
         case Done(rest, x) => Done(Member(m, rest), x))
      else Fail(InvalidSyntax)
  }

  // ---- cutting and joining text ----

  lemma Cut(s: string, n: nat)
    requires n <= |s|
    ensures s == s[..n] + s[n..]
  {
  }

  lemma CutHead(s: string)
    requires s != ""
    ensures s == [s[0]] + s[1..]
  {
  }

  // ---- reading gives only trees of the grammar, and their text ----

  lemma UnitSound(s: string)
    requires s != "" && s[0] != '"' && UnitAt(s).Done?
    ensures var r := UnitAt(s); r.value.Valid() && s == r.value.Text() + r.rest
  {
    if s[0] != '\\' {
      DecodeOfSequence(s);
      hide Encode, Decode;
      RawScalar(s);
    } else if s[1] == 'u' {
      UnicodeSound(s);
    } else {
      hide Sequence, Encode, Decode;
      assert s == ['\\', s[1]] + s[2..];
    }
  }

  lemma UnicodeSound(s: string)
    requires |s| >= 2 && s[0] == '\\' && s[1] == 'u' && UnitAt(s).Done?
    ensures var r := UnitAt(s); r.value.Valid() && s == r.value.Text() + r.rest
  {
    hide Sequence, Encode, Decode, HexDigit, Hex4, HexValue;
    if 0xD800 <= HexValue(s[2..6]) <= 0xDBFF {
      PairText(s);
    } else {
      HexText(s);
    }
  }

  lemma HexText(s: string)
    requires |s| >= 6 && s[0] == '\\' && s[1] == 'u'
    ensures s == Hex(s[2..6]).Text() + s[6..]
  {
    assert s == ['\\', 'u'] + s[2..6] + s[6..];
  }

  lemma PairText(s: string)
    requires |s| >= 12 && s[0] == '\\' && s[1] == 'u' && s[6] == '\\' && s[7] == 'u'
    ensures s == Pair(s[2..6], s[8..12]).Text() + s[12..]
  {
    var low := ['\\', 'u'] + s[8..12];
    assert s[6..] == low + s[12..];
    assert s == ['\\', 'u'] + s[2..6] + s[6..];
    Assoc(['\\', 'u'] + s[2..6], low, s[12..]);
  }

  /** A sequence that starts with none of the bytes a literal must escape does not decode to one. */
  lemma RawScalar(s: string)
    requires Sequence(s) > 0 && s[0] as int >= 0x20 && s[0] != '"' && s[0] != '\\'
    ensures Decode(s) >= 0x20 && Decode(s) != '"' as int && Decode(s) != '\\' as int
  {
    DecodeOfSequence(s);
    assert Encode(Decode(s))[0] == s[0];
    if Decode(s) < 0x80 {
      assert Encode(Decode(s)) == [Decode(s) as char];
    }
  }

  lemma {:induction false} UnitsSound(s: string)
    requires UnitsAt(s).Done?
    ensures var r := UnitsAt(s); ValidUnits(r.value) && s == UnitsText(r.value) + r.rest
    decreases |s|
  {
    hide UnitAt, Space;
    if s[0] != '"' {
      var u := UnitAt(s);
      UnitSound(s);
      UnitsSound(u.rest);
      UnitsCons(u.value, UnitsAt(u.rest).value);
      Assoc(u.value.Text(), UnitsText(UnitsAt(u.rest).value), UnitsAt(u.rest).rest);
    }
  }

  lemma UnitsCons(u: Unit, us: seq<Unit>)
    requires u.Valid() && ValidUnits(us)
    ensures ValidUnits([u] + us) && UnitsText([u] + us) == u.Text() + UnitsText(us)
  {
    assert ([u] + us)[1..] == us;
  }

  lemma StringSound(s: string)
    requires StringAt(s).Done?
    ensures var r := StringAt(s); ValidUnits(r.value) && s == "\"" + UnitsText(r.value) + r.rest
  {
    UnitsSound(s[1..]);
  }

  lemma {:induction false} SkipSound(s: string)
    ensures Blank(Lead(s)) && s == Lead(s) + SkipBlank(s)
  {
    if s != "" && Space(s[0]) {
      SkipSound(s[1..]);
      assert Lead(s) == [s[0]] + Lead(s[1..]);
    }
  }

  lemma PieceSound(s: string)
    ensures WholeLen(s) > 0 ==> ValidWhole(s[..WholeLen(s)])
    ensures FracLen(s) > 0 ==> ValidFrac(s[..FracLen(s)])
    ensures ExpLen(s) > 0 ==> ValidExp(s[..ExpLen(s)])
  {
    if FracLen(s) > 0 {
      assert s[..FracLen(s)][1..] == s[1..][..Run(s[1..])];
    }
    if ExpLen(s) > 0 {
      var k := if |s| > 1 && (s[1] == '+' || s[1] == '-') then 2 else 1;
      assert s[..ExpLen(s)][k..] == s[k..][..Run(s[k..])];
    }
  }

  lemma UnsignedSound(s: string, minus: bool)
    requires UnsignedAt(s, minus).Done?
    ensures var r := UnsignedAt(s, minus);
            r.value.minus == minus && r.value.Valid() && s == r.value.whole + (r.value.frac + (r.value.exp + r.rest))
  {
    var b := s[WholeLen(s)..];
    var c := b[FracLen(b)..];
    PiecesSound(s, b, c);
  }

  lemma PiecesSound(s: string, b: string, c: string)
    requires b == s[WholeLen(s)..] && 0 <= FracLen(b) && c == b[FracLen(b)..] && 0 <= ExpLen(c) && WholeLen(s) > 0
    ensures Number(false, s[..WholeLen(s)], b[..FracLen(b)], c[..ExpLen(c)]).Valid()
    ensures Number(true, s[..WholeLen(s)], b[..FracLen(b)], c[..ExpLen(c)]).Valid()
    ensures s == s[..WholeLen(s)] + (b[..FracLen(b)] + (c[..ExpLen(c)] + c[ExpLen(c)..]))
  {
    PieceSound(s);
    PieceSound(b);
    PieceSound(c);
    Cut(s, WholeLen(s));
    Cut(b, FracLen(b));
    Cut(c, ExpLen(c));
  }

  lemma NumberSound(s: string)
    requires NumberAt(s).Done?
    ensures var r := NumberAt(s); r.value.Valid() && s == r.value.Text() + r.rest
  {
    var minus := s != "" && s[0] == '-';
    UnsignedSound(if minus then s[1..] else s, minus);
    var r := NumberAt(s);
    NumberRest(r.value, r.rest);
  }

  lemma WordSound(s: string, word: string)
    requires word != "" && Word(s, word).Done?
    ensures s == word + Word(s, word).rest
  {
  }

  /** The value at the head of a text that starts with no whitespace. */
  lemma {:induction false} TokenSound(t: string, depth: nat)
    requires t != "" && !Space(t[0]) && ValueAt(t, depth).Done?
    ensures var r := ValueAt(t, depth);
            ValidValue(r.value) && depth + Nesting(r.value) <= MAX_DEPTH && t == ValueText(r.value) + r.rest
    decreases |t|, 2
  {
    if t[0] == '{' {
      ObjectSound(t, depth);
    } else if t[0] == '[' {
      ArraySound(t, depth);
    } else if t[0] == '"' {
      StringSound(t);
    } else if t[0] == 't' {
      WordSound(t, "true");
    } else if t[0] == 'f' {
      WordSound(t, "false");
    } else if t[0] == 'n' {
      WordSound(t, "null");
    } else {
      NumberSound(t);
    }
  }

  lemma {:induction false} ValueSound(s: string, depth: nat)
    requires ValueAt(s, depth).Done?
    ensures var r := ValueAt(s, depth);
            ValidValue(r.value) && depth + Nesting(r.value) <= MAX_DEPTH && s == Lead(s) + (ValueText(r.value) + r.rest)
    decreases |s|, 4
  {
    var t := SkipBlank(s);
    SkipSound(s);
    assert SkipBlank(t) == t;
    assert ValueAt(s, depth) == ValueAt(t, depth);
    TokenSound(t, depth);
  }

  lemma {:induction false} ArraySound(s: string, depth: nat)
    requires s != "" && s[0] == '[' && depth < MAX_DEPTH && ArrayAt(s, depth).Done?
    ensures var r := ArrayAt(s, depth);
            ValidValue(r.value) && depth + Nesting(r.value) <= MAX_DEPTH && s == ValueText(r.value) + r.rest
    decreases |s|, 1
  {
    CutHead(s);
    SkipSound(s[1..]);
    var t := SkipBlank(s[1..]);
    var r := ArrayAt(s, depth);
    if t != "" && t[0] == ']' {
      CutHead(t);
      Assoc(r.value.pad, "]", r.rest);
      Assoc("[", r.value.pad + "]", r.rest);
    } else {
      ItemsSound(s[1..], depth);
      Assoc("[", ItemsText(r.value.items), r.rest);
    }
  }

  lemma {:induction false} ItemsSound(s: string, depth: nat)
    requires ItemsAt(s, depth).Done?
    ensures var r := ItemsAt(s, depth);
            ValidItems(r.value) && depth + 1 + ItemsNesting(r.value) <= MAX_DEPTH && s == ItemsText(r.value) + r.rest
    decreases |s|, 5
  {
    ValueSound(s, depth + 1);
    SkipSound(s);
    var v := ValueAt(s, depth + 1);
    SkipSound(v.rest);
    var u := SkipBlank(v.rest);
    CutHead(u);
    if u[0] == ',' {
      ItemsSound(u[1..], depth);
    }
    ItemsRest(ItemsAt(s, depth).value, ItemsAt(s, depth).rest);
  }

  lemma {:induction false} ObjectSound(s: string, depth: nat)
    requires s != "" && s[0] == '{' && depth < MAX_DEPTH && ObjectAt(s, depth).Done?
    ensures var r := ObjectAt(s, depth);
            ValidValue(r.value) && depth + Nesting(r.value) <= MAX_DEPTH && s == ValueText(r.value) + r.rest
    decreases |s|, 1
  {
    CutHead(s);
    SkipSound(s[1..]);
    var t := SkipBlank(s[1..]);
    var r := ObjectAt(s, depth);
    if t != "" && t[0] == '}' {
      CutHead(t);
      Assoc(r.value.pad, "}", r.rest);
      Assoc("{", r.value.pad + "}", r.rest);
    } else {
      MembersSound(s[1..], depth, []);
      assert [] + Names(r.value.members) == Names(r.value.members);
      Assoc("{", MembersText(r.value.members), r.rest);
    }
  }

  lemma {:induction false} EntrySound(s: string, depth: nat, count: nat)
    requires EntryAt(s, depth, count).Done?
    ensures var r := EntryAt(s, depth, count);
            && ValidEntry(r.value) && depth + 1 + Nesting(r.value.v) <= MAX_DEPTH && count < MAX_MEMBERS
            && s == EntryText(r.value) + r.rest
    decreases |s|, 5
  {
    var a := SkipBlank(s);
    SkipSound(s);
    StringSound(a);
    var b := StringAt(a).rest;
    var c := SkipBlank(b);
    SkipSound(b);
    CutHead(c);
    ValueSound(c[1..], depth + 1);
    SkipSound(c[1..]);
    var d := ValueAt(c[1..], depth + 1).rest;
    SkipSound(d);
    EntryJoin(EntryAt(s, depth, count).value, s, b, c[1..], d, EntryAt(s, depth, count).rest);
  }

  lemma EntryJoin(m: Entry, s: string, b: string, c: string, d: string, rest: string)
    requires s == m.pre + (("\"" + UnitsText(m.key)) + b) && b == m.mid + (":" + c)
    requires c == m.pad + (ValueText(m.v) + d) && d == m.post + rest
    ensures s == EntryText(m) + rest
  {
    EntryRest(m, rest);
  }

  lemma {:induction false} MembersSound(s: string, depth: nat, seen: seq<string>)
    requires MembersAt(s, depth, seen).Done?
    ensures var r := MembersAt(s, depth, seen);
            && ValidMembers(r.value) && depth + 1 + MembersNesting(r.value) <= MAX_DEPTH
            && |seen| + Count(r.value) <= MAX_MEMBERS && Distinct(seen + Names(r.value))
            && s == MembersText(r.value) + r.rest
    decreases |s|, 6
  {
    EntrySound(s, depth, |seen|);
    var m := EntryAt(s, depth, |seen|).value;
    var u := EntryAt(s, depth, |seen|).rest;
    CutHead(u);
    var names := seen + [Decoded(m.key)];
    var r := MembersAt(s, depth, seen);
    if u[0] == ',' {
      MembersSound(u[1..], depth, names);
      NamesStep(seen, r.value);
    } else {
      assert Names(r.value) == [Decoded(m.key)];
    }
    MembersRest(r.value, r.rest);
  }

  lemma NamesStep(seen: seq<string>, ms: Members)
    requires ms.Member?
    ensures seen + Names(ms) == (seen + [Decoded(ms.m.key)]) + Names(ms.rest)
  {
  }

  // ---- text followed by more text ----

  lemma EntryRest(m: Entry, rest: string)
    ensures EntryText(m) + rest
         == m.pre + (("\"" + UnitsText(m.key)) + (m.mid + (":" + (m.pad + (ValueText(m.v) + (m.post + rest))))))
  {
    var t6 := ValueText(m.v) + m.post;
    var t5 := m.pad + t6;
    var t4 := ":" + t5;
    var t3 := m.mid + t4;
    var t2 := UnitsText(m.key) + t3;
    Assoc(ValueText(m.v), m.post, rest);
    Assoc(m.pad, t6, rest);
    Assoc(":", t5, rest);
    Assoc(m.mid, t4, rest);
    Assoc(UnitsText(m.key), t3, rest);
    Assoc("\"", UnitsText(m.key), t3 + rest);
    Assoc("\"", t2, rest);
    Assoc(m.pre, "\"" + t2, rest);
  }

  lemma MembersRest(ms: Members, rest: string)
    ensures MembersText(ms) + rest
         == EntryText(ms.m) + (if ms.LastMember? then "}" + rest else "," + (MembersText(ms.rest) + rest))
  {
    Assoc(EntryText(ms.m), if ms.LastMember? then "}" else "," + MembersText(ms.rest), rest);
  }

  lemma ItemsRest(items: Items, rest: string)
    ensures ItemsText(items) + rest
         == items.pre + (ValueText(items.v) + (items.post +
            (if items.LastItem? then "]" + rest else "," + (ItemsText(items.rest) + rest))))
  {
    var t3 := if items.LastItem? then "]" else "," + ItemsText(items.rest);
    var t2 := items.post + t3;
    var t1 := ValueText(items.v) + t2;
    assert t3 + rest == if items.LastItem? then "]" + rest else "," + (ItemsText(items.rest) + rest);
    Assoc(items.post, t3, rest);
    Assoc(ValueText(items.v), t2, rest);
    Assoc(items.pre, t1, rest);
  }

  lemma NumberRest(n: Number, rest: string)
    ensures n.Text() + rest == (if n.minus then "-" else "") + (n.whole + (n.frac + (n.exp + rest)))
  {
    Assoc(n.frac, n.exp, rest);
    Assoc(n.whole, n.frac + n.exp, rest);
    Assoc(if n.minus then "-" else "", n.whole + (n.frac + n.exp), rest);
  }

  // ---- every tree of the grammar is read back from its text ----

  lemma {:induction false} SkipComplete(w: string, s: string)
    requires Blank(w) && (s == "" || !Space(s[0]))
    ensures SkipBlank(w + s) == s && Lead(w + s) == w
  {
    if w == "" {
      assert w + s == s;
    } else {
      assert (w + s)[1..] == w[1..] + s;
      SkipComplete(w[1..], s);
    }
  }

  lemma UnitComplete(u: Unit, rest: string)
    requires u.Valid()
    ensures u.Text() != "" && u.Text()[0] != '"' && UnitAt(u.Text() + rest) == Done(u, rest)
  {
    var s := u.Text() + rest;
    match u
    case Raw(cp) =>
      SequenceOfEncode(cp, rest);
      RawFirst(cp);
      assert s[|Encode(cp)|..] == rest;
    case Short(e) =>
      assert s[2..] == rest;
    case Hex(h) =>
      assert s[2..6] == h && s[6..] == rest;
    case Pair(high, low) =>
      assert s[2..6] == high && s[8..12] == low && s[12..] == rest;
  }

  lemma RawFirst(cp: Rune)
    requires Raw(cp).Valid()
    ensures Encode(cp)[0] as int >= 0x20 && Encode(cp)[0] != '"' && Encode(cp)[0] != '\\'
  {
    if cp < 0x80 {
      assert Encode(cp)[0] as int == cp;
    }
  }

  lemma {:induction false} UnitsComplete(us: seq<Unit>, rest: string)
    requires ValidUnits(us)
    ensures UnitsAt(UnitsText(us) + rest) == Done(us, rest)
  {
    if us == [] {
      assert ("\"" + rest)[1..] == rest;
    } else {
      UnitComplete(us[0], UnitsText(us[1..]) + rest);
      Assoc(us[0].Text(), UnitsText(us[1..]), rest);
      UnitsComplete(us[1..], rest);
      assert us == [us[0]] + us[1..];
    }
  }

  lemma StringComplete(us: seq<Unit>, rest: string)
    requires ValidUnits(us)
    ensures StringAt(("\"" + UnitsText(us)) + rest) == Done(us, rest)
  {
    Assoc("\"", UnitsText(us), rest);
    assert (("\"" + UnitsText(us)) + rest)[1..] == UnitsText(us) + rest;
    UnitsComplete(us, rest);
  }

  lemma {:induction false} RunComplete(d: string, rest: string)
    requires Digits(d) && (rest == "" || !Digit(rest[0]))
    ensures Run(d + rest) == |d|
  {
    if d == "" {
      assert d + rest == rest;
    } else {
      assert (d + rest)[1..] == d[1..] + rest;
      RunComplete(d[1..], rest);
    }
  }

  /** What may follow a value: a number is then read to its end. */
  predicate Stops(rest: string) {
    rest == "" || Space(rest[0]) || rest[0] == ',' || rest[0] == ']' || rest[0] == '}'
  }

  lemma ExpComplete(e: string, rest: string)
    requires (e == "" || ValidExp(e)) && Stops(rest)
    ensures ExpLen(e + rest) == |e|
  {
    if e != "" {
      var k := if e[1] == '+' || e[1] == '-' then 2 else 1;
      assert Digits(e[k..]);
      RunComplete(e[k..], rest);
      assert (e + rest)[k..] == e[k..] + rest;
    }
  }

  lemma FracComplete(f: string, rest: string)
    requires f == "" || ValidFrac(f)
    requires rest == "" || (rest[0] != '.' && !Digit(rest[0]))
    ensures FracLen(f + rest) == |f|
  {
    if f != "" {
      RunComplete(f[1..], rest);
      assert (f + rest)[1..] == f[1..] + rest;
    }
  }

  lemma WholeComplete(w: string, rest: string)
    requires ValidWhole(w) && (rest == "" || !Digit(rest[0]))
    ensures WholeLen(w + rest) == |w|
  {
    RunComplete(w, rest);
  }

  lemma CutJoin(x: string, rest: string)
    ensures (x + rest)[..|x|] == x && (x + rest)[|x|..] == rest
  {
  }

  lemma UnsignedComplete(n: Number, rest: string)
    requires n.Valid() && Stops(rest)
    ensures UnsignedAt(n.whole + (n.frac + (n.exp + rest)), n.minus) == Done(n, rest)
  {
    var c := n.exp + rest;
    var b := n.frac + c;
    WholeComplete(n.whole, b);
    FracComplete(n.frac, c);
    ExpComplete(n.exp, rest);
    CutJoin(n.whole, b);
    CutJoin(n.frac, c);
    CutJoin(n.exp, rest);
  }

  lemma NumberComplete(n: Number, rest: string)
    requires n.Valid() && Stops(rest)
    ensures NumberAt(n.Text() + rest) == Done(n, rest)
  {
    NumberRest(n, rest);
    var t := n.whole + (n.frac + (n.exp + rest));
    UnsignedComplete(n, rest);
    CutJoin(if n.minus then "-" else "", t);
  }

  lemma FirstOfNumber(n: Number)
    requires n.Valid()
    ensures n.Text() != "" && (n.Text()[0] == '-' || Digit(n.Text()[0]))
  {
  }

  lemma FirstOfValue(v: Value)
    requires ValidValue(v)
    ensures ValueText(v) != "" && !Space(ValueText(v)[0]) && !Stops(ValueText(v))
    ensures v.Num? ==> ValueText(v)[0] == '-' || Digit(ValueText(v)[0])
  {
    if v.Num? {
      FirstOfNumber(v.number);
    }
  }

  lemma WordComplete(word: string, rest: string)
    requires word != ""
    ensures Word(word + rest, word) == Done(Literal(word), rest)
  {
    CutJoin(word, rest);
  }

  lemma EmptyComplete(open: string, pad: string, close: string, rest: string)
    requires |open| == 1 && |close| == 1 && Blank(pad) && !Space(close[0])
    ensures var s := (open + (pad + close)) + rest;
            s[..1] == open && SkipBlank(s[1..]) == close + rest && Lead(s[1..]) == pad && (close + rest)[1..] == rest
  {
    Assoc(open, pad + close, rest);
    Assoc(pad, close, rest);
    SkipComplete(pad, close + rest);
    CutJoin(open, pad + (close + rest));
    CutJoin(close, rest);
  }

  lemma StopsAfter(post: string, rest: string)
    requires Blank(post) && Stops(rest)
    ensures Stops(post + rest)
  {
    assert post == "" ==> post + rest == rest;
  }

  lemma LiteralComplete(word: string, rest: string, depth: nat)
    requires ValidValue(Literal(word)) && depth < MAX_DEPTH
    ensures ValueAt(word + rest, depth) == Done(Literal(word), rest)
  {
    WordComplete(word, rest);
    assert (word + rest)[0] == word[0];
    assert SkipBlank(word + rest) == word + rest;
  }

  lemma NumDispatch(t: string, depth: nat)
    requires t != "" && (t[0] == '-' || Digit(t[0])) && depth < MAX_DEPTH
    ensures ValueAt(t, depth) == AsNum(NumberAt(t))
  {
    var c := t[0];
    assert c != '{' && c != '[' && c != '"' && c != 't' && c != 'f' && c != 'n' && !Space(c);
    assert SkipBlank(t) == t;
  }

  lemma NumComplete(n: Number, rest: string, depth: nat)
    requires n.Valid() && depth < MAX_DEPTH && Stops(rest)
    ensures ValueAt(n.Text() + rest, depth) == Done(Num(n), rest)
  {
    var t := n.Text() + rest;
    NumberComplete(n, rest);
    FirstOfNumber(n);
    assert t[0] == n.Text()[0];
    NumDispatch(t, depth);
  }

  lemma StrComplete(us: seq<Unit>, rest: string, depth: nat)
    requires ValidUnits(us) && depth < MAX_DEPTH
    ensures ValueAt(("\"" + UnitsText(us)) + rest, depth) == Done(Str(us), rest)
  {
    var t := ("\"" + UnitsText(us)) + rest;
    StringComplete(us, rest);
    assert t[0] == '"';
    assert SkipBlank(t) == t;
  }

  lemma EmptyValueComplete(v: Value, rest: string, depth: nat)
    requires v.EmptyArray? || v.EmptyObject?
    requires ValidValue(v) && depth < MAX_DEPTH
    ensures ValueAt(ValueText(v) + rest, depth) == Done(v, rest)
  {
    var t := ValueText(v) + rest;
    if v.EmptyArray? {
      EmptyComplete("[", v.pad, "]", rest);
      assert t[0] == t[..1][0] == '[';
    } else {
      EmptyComplete("{", v.pad, "}", rest);
      assert t[0] == t[..1][0] == '{';
    }
    assert SkipBlank(t) == t;
  }

  /** Reading a value's text gives that value back and stops right behind it. */
  lemma {:induction false} TokenComplete(v: Value, rest: string, depth: nat)
    requires ValidValue(v) && depth + Nesting(v) <= MAX_DEPTH && Stops(rest)
    ensures ValueAt(ValueText(v) + rest, depth) == Done(v, rest)
    decreases v, 1
  {
    var t := ValueText(v) + rest;
    match v
    case Array(items) =>
      ArrayComplete(items, rest, depth);
      assert t[0] == '[' && SkipBlank(t) == t;
    case Object(ms) =>
      ObjectComplete(ms, rest, depth);
      assert t[0] == '{' && SkipBlank(t) == t;
    case EmptyArray(_) => EmptyValueComplete(v, rest, depth);
    case EmptyObject(_) => EmptyValueComplete(v, rest, depth);
    case Literal(word) => LiteralComplete(word, rest, depth);
    case Num(n) => NumComplete(n, rest, depth);
    case Str(us) => StrComplete(us, rest, depth);
  }

  lemma {:induction false} ValueComplete(pre: string, v: Value, rest: string, depth: nat)
    requires Blank(pre) && ValidValue(v) && depth + Nesting(v) <= MAX_DEPTH && Stops(rest)
    ensures ValueAt(pre + (ValueText(v) + rest), depth) == Done(v, rest)
    ensures Lead(pre + (ValueText(v) + rest)) == pre
    decreases v, 2
  {
    var t := ValueText(v) + rest;
    FirstOfValue(v);
    SkipComplete(pre, t);
    assert SkipBlank(t) == t;
    TokenComplete(v, rest, depth);
  }

  lemma {:induction false} ArrayComplete(items: Items, rest: string, depth: nat)
    requires ValidItems(items) && depth + 1 + ItemsNesting(items) <= MAX_DEPTH
    ensures ArrayAt(("[" + ItemsText(items)) + rest, depth) == Done(Array(items), rest)
    decreases items, 3
  {
    Assoc("[", ItemsText(items), rest);
    CutJoin("[", ItemsText(items) + rest);
    ItemsRest(items, rest);
    FirstOfValue(items.v);
    var tail := items.post + (if items.LastItem? then "]" + rest else "," + (ItemsText(items.rest) + rest));
    SkipComplete(items.pre, ValueText(items.v) + tail);
    ItemsComplete(items, rest, depth);
  }

  lemma {:induction false} ItemsComplete(items: Items, rest: string, depth: nat)
    requires ValidItems(items) && depth + 1 + ItemsNesting(items) <= MAX_DEPTH
    ensures ItemsAt(ItemsText(items) + rest, depth) == Done(items, rest)
    decreases items, 2
  {
    var u := if items.LastItem? then "]" + rest else "," + (ItemsText(items.rest) + rest);
    ItemsRest(items, rest);
    ValueComplete(items.pre, items.v, items.post + u, depth + 1);
    SkipComplete(items.post, u);
    if items.LastItem? {
      CutJoin("]", rest);
    } else {
      CutJoin(",", ItemsText(items.rest) + rest);
      ItemsComplete(items.rest, rest, depth);
    }
  }

  lemma {:induction false} EntryComplete(m: Entry, rest: string, depth: nat, count: nat)
    requires ValidEntry(m) && depth + 1 + Nesting(m.v) <= MAX_DEPTH && count < MAX_MEMBERS
    requires Stops(rest) && rest != "" && !Space(rest[0])
    ensures EntryAt(EntryText(m) + rest, depth, count) == Done(m, rest)
    ensures EntryText(m) + rest != "" && SkipBlank(EntryText(m) + rest) != ""
    ensures SkipBlank(EntryText(m) + rest)[0] == '"'
    decreases m, 3
  {
    EntryValid(m);
    hide *;
    var d := m.post + rest;
    var c := m.pad + (ValueText(m.v) + d);
    var b := m.mid + (":" + c);
    var a := ("\"" + UnitsText(m.key)) + b;
    EntryRest(m, rest);
    QuoteFirst(UnitsText(m.key), b);
    SkipComplete(m.pre, a);
    StringComplete(m.key, b);
    ColonFirst(c);
    SkipComplete(m.mid, ":" + c);
    CutJoin(":", c);
    StopsAfter(m.post, rest);
    ValueComplete(m.pad, m.v, d, depth + 1);
    SkipComplete(m.post, rest);
    EntryByParts(m, a, b, c, d, rest, depth, count);
    NotBlankOnly(m.pre + a);
  }

  lemma EntryValid(m: Entry)
    requires ValidEntry(m)
    ensures Blank(m.pre) && ValidUnits(m.key) && Blank(m.mid) && Blank(m.pad) && ValidValue(m.v) && Blank(m.post)
  {
    hide ValidValue, ValidUnits, Blank;
  }

  lemma QuoteFirst(text: string, rest: string)
    ensures var a := ("\"" + text) + rest; a != "" && a[0] == '"' && !Space(a[0])
  {
  }

  lemma ColonFirst(c: string)
    ensures var a := ":" + c; a != "" && a[0] == ':' && !Space(a[0])
  {
  }

  lemma NotBlankOnly(s: string)
    requires SkipBlank(s) != ""
    ensures s != ""
  {
  }

  /** The entry the reader builds, from what each of its steps finds. */
  lemma EntryByParts(m: Entry, a: string, b: string, c: string, d: string, rest: string, depth: nat, count: nat)
    requires SkipBlank(m.pre + a) == a && Lead(m.pre + a) == m.pre && StringAt(a) == Done(m.key, b) && count < MAX_MEMBERS
    requires SkipBlank(b) == ":" + c && Lead(b) == m.mid && (":" + c)[1..] == c
    requires ValueAt(c, depth + 1) == Done(m.v, d) && Lead(c) == m.pad
    requires SkipBlank(d) == rest && Lead(d) == m.post
    ensures EntryAt(m.pre + a, depth, count) == Done(m, rest)
  {
    hide SkipBlank, StringAt, ValueAt, Lead;
  }

  lemma {:induction false} ObjectComplete(ms: Members, rest: string, depth: nat)
    requires ValidMembers(ms) && depth + 1 + MembersNesting(ms) <= MAX_DEPTH
    requires Count(ms) <= MAX_MEMBERS && Distinct(Names(ms))
    ensures ObjectAt(("{" + MembersText(ms)) + rest, depth) == Done(Object(ms), rest)
    decreases ms, 3
  {
    Assoc("{", MembersText(ms), rest);
    CutJoin("{", MembersText(ms) + rest);
    MembersRest(ms, rest);
    EntryComplete(ms.m, if ms.LastMember? then "}" + rest else "," + (MembersText(ms.rest) + rest), depth, 0);
    assert [] + Names(ms) == Names(ms);
    MembersComplete(ms, rest, depth, []);
  }

  lemma {:induction false} MembersComplete(ms: Members, rest: string, depth: nat, seen: seq<string>)
    requires ValidMembers(ms) && depth + 1 + MembersNesting(ms) <= MAX_DEPTH
    requires |seen| + Count(ms) <= MAX_MEMBERS && Distinct(seen + Names(ms))
    ensures MembersAt(MembersText(ms) + rest, depth, seen) == Done(ms, rest)
    decreases ms, 2
  {
    var u := if ms.LastMember? then "}" + rest else "," + (MembersText(ms.rest) + rest);
    MembersRest(ms, rest);
    EntryComplete(ms.m, u, depth, |seen|);
    if ms.LastMember? {
      CutJoin("}", rest);
      assert seen + Names(ms) == seen + [Decoded(ms.m.key)];
    } else {
      CutJoin(",", MembersText(ms.rest) + rest);
      NamesStep(seen, ms);
      MembersComplete(ms.rest, rest, depth, seen + [Decoded(ms.m.key)]);
    }
  }

  // ---- whole documents ----

  /** The reading of a whole text: one value, whitespace, and nothing else. */
  function DocumentAt(s: string): Outcome<Document> {
    match ValueAt(s, 0)
    case Fail(e) => Fail(e)
    case Done(v, t) =>
      if SkipBlank(t) == "" then Done(Document(Lead(s), v, t), "") else Fail(InvalidSyntax)
  }

  /** A text is accepted just when it is the text of a valid document, and that document is unique. */
  lemma DocumentExact(s: string, doc: Document)
    ensures DocumentAt(s) == Done(doc, "") <==> doc.Valid() && doc.Text() == s
  {
    if DocumentAt(s).Done? {
      var v := ValueAt(s, 0);
      ValueSound(s, 0);
      SkipSound(v.rest);
      SkipSound(s);
      assert Lead(v.rest) == v.rest;
    }
    if doc.Valid() && doc.Text() == s {
      ValueComplete(doc.pre, doc.v, doc.post, 0);
      assert doc.post + "" == doc.post;
      SkipComplete(doc.post, "");
    }
  }
}
