/** json_compact.go in its own form: a parser object whose cursor every parse method advances, the
    neighbour check on sorted names, and the copy loop. Each method is proved against JsonReader and
    JsonScanner, and so against the grammar. */
module JsonParsing {
  import opened Basics
  import opened Sorting
  import opened Utf8
  import opened JsonSyntax
  import opened JsonReader
  import opened JsonScanner
  import opened JsonCompact

  /** The result of reading with `first` already read in front. */
  function Following<T>(first: seq<T>, r: Outcome<seq<T>>): Outcome<seq<T>> {
    match r
    case Fail(e) => Fail(e)
    case Done(xs, t) => Done(first + xs, t)
  }

  lemma {:induction false} DecodedJoin(a: seq<Unit>, b: seq<Unit>)
    ensures Decoded(a + b) == Decoded(a) + Decoded(b)
  {
    if a == [] {
      assert a + b == b;
    } else {
      assert (a + b)[1..] == a[1..] + b;
      DecodedJoin(a[1..], b);
    }
  }

  lemma FollowingNothing<T>(r: Outcome<seq<T>>)
    ensures Following([], r) == r
  {
    if r.Done? {
      assert [] + r.value == r.value;
    }
  }

  lemma FollowingStep<T>(first: seq<T>, x: T, r: Outcome<seq<T>>)
    ensures Following(first, Prepend(x, r)) == Following(first + [x], r)
  {
    if r.Done? {
      assert first + ([x] + r.value) == (first + [x]) + r.value;
    }
  }

  lemma DecodedStep(us: seq<Unit>, u: Unit)
    ensures Decoded(us + [u]) == Decoded(us) + Encode(u.CodePoint())
  {
    DecodedJoin(us, [u]);
    assert Decoded([u]) == Encode(u.CodePoint()) + "";
  }

  /** A slice of what is left is a slice of the whole. */
  lemma Slices(s: string, p: nat, i: nat, j: nat)
    requires p <= |s| && i <= j <= |s| - p
    ensures s[p..][i..j] == s[p + i..p + j] && s[p..][j..] == s[p + j..]
  {
  }

  /** A low surrogate escape stands at index p of s. */
  predicate LowHalfAt(s: string, p: nat) {
    && |s| - p >= 6 && s[p] == '\\' && s[p + 1] == 'u' && Hex4(s[p + 2..p + 6])
    && 0xDC00 <= HexValue(s[p + 2..p + 6]) <= 0xDFFF
  }

  lemma Further(s: string, i: nat, j: nat)
    requires i <= j <= |s|
    ensures s[i..][j - i..] == s[j..]
  {
  }

  lemma SomeRun(s: string)
    requires s != "" && Digit(s[0])
    ensures Run(s) > 0
  {
  }

  /** The escape branches of UnitAt. */
  lemma EscapedUnit(t: string)
    requires t != "" && t[0] == '\\'
    ensures UnitAt(t) ==
            if |t| < 2 then Fail(InvalidSyntax)
            else if t[1] == 'u' then EscapeAt(t)
            else if t[1] in "\"\\/bfnrt" then Done(Short(t[1]), t[2..])
            else Fail(InvalidSyntax)
    ensures |t| >= 2 && t[1] in "\"\\/bfnrt" ==> Encode(Short(t[1]).CodePoint()) == [ShortValue(t[1])]
  {
    hide EscapeAt, Sequence, Decode;
  }

  /** EscapeAt two bytes before index p, on indices of the whole text. */
  lemma EscapeHere(s: string, p: nat)
    requires 2 <= p <= |s|
    ensures EscapeAt(s[p - 2..]) ==
            if |s| - p < 4 || !Hex4(s[p..p + 4]) then Fail(InvalidSyntax)
            else if 0xD800 <= HexValue(s[p..p + 4]) <= 0xDBFF then
              if LowHalfAt(s, p + 4) then Done(Pair(s[p..p + 4], s[p + 6..p + 10]), s[p + 10..])
              else Fail(InvalidSyntax)
            else if 0xDC00 <= HexValue(s[p..p + 4]) <= 0xDFFF then Fail(InvalidSyntax)
            else Done(Hex(s[p..p + 4]), s[p + 4..])
  {
    if |s| - p >= 4 {
      Slices(s, p - 2, 2, 6);
    }
    if |s| - p >= 10 {
      Slices(s, p - 2, 8, 12);
    }
  }

  /** What the two escapes stand for. */
  lemma PointsHere(s: string, p: nat)
    ensures |s| - p >= 4 && Hex4(s[p..p + 4]) && !(0xD800 <= HexValue(s[p..p + 4]) <= 0xDFFF) ==>
              Hex(s[p..p + 4]).CodePoint() == HexValue(s[p..p + 4])
    ensures |s| - p >= 4 && Hex4(s[p..p + 4]) && 0xD800 <= HexValue(s[p..p + 4]) <= 0xDBFF && LowHalfAt(s, p + 4) ==>
              && |s| - p >= 10
              && Pair(s[p..p + 4], s[p + 6..p + 10]).CodePoint()
                 == 0x10000 + (HexValue(s[p..p + 4]) - 0xD800) * 0x400 + (HexValue(s[p + 6..p + 10]) - 0xDC00)
  {
    hide Hex4, HexValue;
  }

  class JsonParser {
    const s: string
    var p: nat

    constructor (input: string)
      ensures s == input && p == 0
    {
      s, p := input, 0;
    }

    ghost predicate Valid()
      reads this
    {
      p <= |s|
    }

    /** The text behind the cursor. */
    ghost function Rest(): string
      requires Valid()
      reads this
    {
      s[p..]
    }

    method SkipWS()
      requires Valid()
      modifies this`p
      ensures Valid() && p >= old(p) && Rest() == SkipBlank(old(Rest()))
    {
      while p < |s| && Space(s[p])
        invariant old(p) <= p <= |s|
        invariant SkipBlank(old(s[p..])) == SkipBlank(s[p..])
      {
        p := p + 1;
      }
    }

    method ReadHex4() returns (v: int, ok: bool)
      requires Valid()
      modifies this`p
      ensures Valid() && (ok <==> |s| - old(p) >= 4 && Hex4(s[old(p)..old(p) + 4]))
      ensures if ok then v == HexValue(s[old(p)..old(p) + 4]) && p == old(p) + 4 else p == old(p)
    {
      if |s| - p < 4 {
        return 0, false;
      }
      v := 0;
      ghost var h := s[p..p + 4];
      var i := 0;
      while i < 4
        invariant 0 <= i <= 4 && p == old(p)
        invariant forall j | 0 <= j < i :: HexDigit(h[j]) >= 0
        invariant v == Value(h, i)
      {
        var d := HexDigit(s[p + i]);
        assert s[p + i] == h[i];
        if d < 0 {
          return 0, false;
        }
        v := v * 16 + d;
        i := i + 1;
      }
      p := p + 4;
      assert Value(h, 3) == Value(h, 2) * 16 + HexDigit(h[2]) && Value(h, 1) == HexDigit(h[0]);
      return v, true;
    }

    /** The value of the first n digits of h. */
    static ghost function Value(h: string, n: nat): int
      requires n <= |h|
    {
      if n == 0 then 0 else Value(h, n - 1) * 16 + HexDigit(h[n - 1])
    }

    /** The escape branch of parseString: the cursor is on the backslash. */
    method ParseEscape() returns (text: string, r: Status)
      requires Valid() && p < |s| && s[p] == '\\'
      modifies this`p
      ensures Valid()
      ensures match UnitAt(old(Rest()))
              case Fail(e) => r == e
              case Done(u, t) => r == Ok && p > old(p) && Rest() == t && text == Encode(u.CodePoint())
    {
      hide EscapeAt, Sequence, Decode, Encode, ShortValue;
      ghost var t := s[p..];
      EscapedUnit(t);
      hide UnitAt;
      text := "";
      p := p + 1;
      if p >= |s| {
        return text, InvalidSyntax;
      }
      var e := s[p];
      assert e == t[1];
      p := p + 1;
      if e == 'u' {
        text, r := ParseUnicode();
      } else if e in "\"\\/bfnrt" {
        text, r := [ShortValue(e)], Ok;
        assert s[p..] == t[2..];
      } else {
        r := InvalidSyntax;
      }
    }

    /** A \u escape, and its low half when it is a high surrogate: the cursor is behind the u. */
    method ParseUnicode() returns (text: string, r: Status)
      requires Valid() && p >= 2
      modifies this`p
      ensures Valid()
      ensures match EscapeAt(s[old(p) - 2..])
              case Fail(e) => r == e
              case Done(u, t) => r == Ok && p > old(p) && Rest() == t && text == Encode(u.CodePoint())
    {
      EscapeHere(s, p);
      PointsHere(s, p);
      hide *;
      text := "";
      var cp, ok := ReadHex4();
      if !ok {
        return text, InvalidSyntax;
      }
      if 0xD800 <= cp <= 0xDBFF {
        var low;
        low, r := ParseLowHalf();
        if r != Ok {
          return text, InvalidSyntax;
        }
        cp := 0x10000 + (cp - 0xD800) * 0x400 + (low - 0xDC00);
      } else if 0xDC00 <= cp <= 0xDFFF {
        return text, InvalidSyntax;
      }
      return Encode(cp), Ok;
    }

    /** The second escape of a surrogate pair; the cursor is behind the first. */
    method ParseLowHalf() returns (low: int, r: Status)
      requires Valid()
      modifies this`p
      ensures Valid()
      ensures if LowHalfAt(s, old(p)) then r == Ok && low == HexValue(s[old(p) + 2..old(p) + 6]) && p == old(p) + 6
              else r == InvalidSyntax
    {
      low := 0;
      if |s| - p < 6 || s[p] != '\\' || s[p + 1] != 'u' {
        return low, InvalidSyntax;
      }
      p := p + 2;
      var ok;
      low, ok := ReadHex4();
      if !ok || low < 0xDC00 || low > 0xDFFF {
        return low, InvalidSyntax;
      }
      return low, Ok;
    }

    /** One unit of a literal: an escape, or one raw sequence. */
    method ParseUnit() returns (text: string, r: Status)
      requires Valid() && p < |s| && s[p] != '"'
      modifies this`p
      ensures Valid()
      ensures match UnitAt(old(Rest()))
              case Fail(e) => r == e
              case Done(u, t) => r == Ok && p > old(p) && Rest() == t && text == Encode(u.CodePoint())
    {
      text := "";
      ghost var here := s[p..];
      if s[p] as int < 0x20 {
        return text, InvalidSyntax;
      }
      if s[p] == '\\' {
        text, r := ParseEscape();
        return;
      }
      var n := Sequence(s[p..]);
      if n == 0 {
        return text, InvalidUtf8;
      }
      text := s[p..p + n];
      DecodeOfSequence(here);
      RawScalar(here);
      assert text == here[..n];
      p := p + n;
      r := Ok;
    }

    method ParseString(decode: bool) returns (out: string, r: Status)
      requires Valid()
      modifies this`p
      ensures Valid()
      ensures match StringAt(old(Rest()))
              case Fail(e) => r == e
              case Done(us, t) => r == Ok && p > old(p) && Rest() == t && out == if decode then Decoded(us) else ""
    {
      out := "";
      if p >= |s| || s[p] != '"' {
        return out, InvalidSyntax;
      }
      p := p + 1;
      ghost var us: seq<Unit> := [];
      ghost var all := UnitsAt(s[p..]);
      FollowingNothing(all);
      while p < |s|
        invariant old(p) < p <= |s|
        invariant all == Following(us, UnitsAt(s[p..]))
        invariant out == if decode then Decoded(us) else ""
      {
        ghost var here := s[p..];
        if s[p] == '"' {
          p := p + 1;
          assert us + [] == us;
          return out, Ok;
        }
        var text;
        text, r := ParseUnit();
        if r != Ok {
          return out, r;
        }
        if decode {
          out := out + text;
        }
        ghost var u := UnitAt(here).value;
        DecodedStep(us, u);
        FollowingStep(us, u, UnitsAt(s[p..]));
        us := us + [u];
      }
      return out, InvalidSyntax;
    }

    /** One of the digit loops of parseNumber. */
    method Digits(from: nat) returns (i: nat)
      requires from <= |s|
      ensures from <= i <= |s| && i == from + Run(s[from..])
    {
      i := from;
      while i < |s| && Digit(s[i])
        invariant from <= i <= |s|
        invariant from + Run(s[from..]) == i + Run(s[i..])
      {
        assert s[i..][1..] == s[i + 1..];
        i := i + 1;
      }
    }

    method ParseNumber() returns (r: Status)
      requires Valid()
      modifies this`p
      ensures Valid()
      ensures match NumberAt(old(Rest()))
              case Fail(e) => r == e
              case Done(_, t) => r == Ok && p > old(p) && Rest() == t
    {
      var i := p;
      if i < |s| && s[i] == '-' {
        i := i + 1;
        assert s[i..] == s[p..][1..];
      }
      var ok;
      i, ok := ParseUnsigned(i, i > p);
      if !ok {
        return InvalidSyntax;
      }
      p := i;
      return Ok;
    }

    method ParseUnsigned(from: nat, ghost minus: bool) returns (i: nat, ok: bool)
      requires from <= |s|
      ensures match UnsignedAt(s[from..], minus)
              case Fail(e) => !ok && e == InvalidSyntax
              case Done(_, t) => ok && from < i <= |s| && s[i..] == t
    {
      hide WholeLen, FracLen, ExpLen;
      i, ok := ParseWhole(from);
      if !ok {
        return i, false;
      }
      Further(s, from, i);
      ghost var w := i;
      i, ok := ParseFrac(i);
      if !ok {
        return i, false;
      }
      Further(s, w, i);
      ghost var f := i;
      i, ok := ParseExp(i);
      if !ok {
        return i, false;
      }
      Further(s, f, i);
    }

    /** The integer part: a single 0, or digits that do not start with one. */
    method ParseWhole(from: nat) returns (i: nat, ok: bool)
      requires from <= |s|
      ensures ok <==> WholeLen(s[from..]) > 0
      ensures ok ==> from < i <= |s| && i == from + WholeLen(s[from..])
    {
      hide Run;
      i := from;
      if i >= |s| {
        return i, false;
      }
      assert s[from..][0] == s[i];
      if s[i] == '0' {
        return i + 1, true;
      }
      if '1' <= s[i] <= '9' {
        SomeRun(s[from..]);
        i := Digits(i);
        return i, true;
      }
      ok := false;
    }

    method ParseFrac(from: nat) returns (i: nat, ok: bool)
      requires from <= |s|
      ensures ok <==> FracLen(s[from..]) >= 0
      ensures ok ==> i == from + FracLen(s[from..]) <= |s|
    {
      i := from;
      if i < |s| && s[i] == '.' {
        i := i + 1;
        assert s[i..] == s[from..][1..];
        if i >= |s| || !Digit(s[i]) {
          return i, false;
        }
        i := Digits(i);
      }
      return i, true;
    }

    method ParseExp(from: nat) returns (i: nat, ok: bool)
      requires from <= |s|
      ensures ok <==> ExpLen(s[from..]) >= 0
      ensures ok ==> i == from + ExpLen(s[from..]) <= |s|
    {
      i := from;
      if i < |s| && (s[i] == 'e' || s[i] == 'E') {
        i := i + 1;
        if i < |s| && (s[i] == '+' || s[i] == '-') {
          i := i + 1;
        }
        assert s[i..] == s[from..][i - from..];
        if i >= |s| || !Digit(s[i]) {
          return i, false;
        }
        i := Digits(i);
      }
      return i, true;
    }

    method Lit(word: string) returns (r: Status)
      requires Valid() && word != ""
      modifies this`p
      ensures Valid()
      ensures match Word(old(Rest()), word)
              case Fail(e) => r == e
              case Done(_, t) => r == Ok && p > old(p) && Rest() == t
    {
      if |s| - p < |word| || s[p..p + |word|] != word {
        return InvalidSyntax;
      }
      assert s[p..p + |word|] == s[p..][..|word|];
      p := p + |word|;
      return Ok;
    }

    method ParseValue(depth: nat) returns (r: Status)
      requires Valid()
      modifies this`p
      ensures Valid()
      ensures match ValueAt(old(Rest()), depth)
              case Fail(e) => r == e
              case Done(_, t) => r == Ok && p > old(p) && Rest() == t
      decreases MAX_DEPTH - depth, 3
    {
      if depth >= MAX_DEPTH {
        return TooDeep;
      }
      SkipWS();
      if p >= |s| {
        return InvalidSyntax;
      }
      var c := s[p];
      if c == '{' {
        r := ParseObject(depth);
      } else if c == '[' {
        r := ParseArray(depth);
      } else if c == '"' {
        var ignored;
        ignored, r := ParseString(false);
      } else if c == 't' {
        r := Lit("true");
      } else if c == 'f' {
        r := Lit("false");
      } else if c == 'n' {
        r := Lit("null");
      } else {
        r := ParseNumber();
      }
    }

    method ParseArray(depth: nat) returns (r: Status)
      requires Valid() && p < |s| && s[p] == '[' && depth < MAX_DEPTH
      modifies this`p
      ensures Valid()
      ensures match ArrayAt(old(Rest()), depth)
              case Fail(e) => r == e
              case Done(_, t) => r == Ok && p > old(p) && Rest() == t
      decreases MAX_DEPTH - depth, 1
    {
      hide ValueAt, ArrayAt, ItemsAt, SkipBlank;
      ghost var all := ArrayAt(s[p..], depth);
      ArrayStart(s[p..], depth);
      p := p + 1;
      SkipWS();
      if p < |s| && s[p] == ']' {
        p := p + 1;
        return Ok;
      }
      while true
        invariant old(p) < p <= |s|
        invariant SameEnd(all, ItemsAt(s[p..], depth))
        decreases |s| - p
      {
        var more;
        r, more := ParseItem(depth);
        if r != Ok || !more {
          return r;
        }
      }
    }

    /** One element and what follows it: a comma and the next, or the end. */
    method ParseItem(depth: nat) returns (r: Status, more: bool)
      requires Valid() && depth < MAX_DEPTH
      modifies this`p
      ensures Valid()
      ensures match ItemsAt(old(Rest()), depth)
              case Fail(e) => r == e || (r == Ok && more && p > old(p) && ItemsAt(Rest(), depth) == Fail(e))
              case Done(_, t) =>
                && r == Ok && p > old(p)
                && if more then ItemsAt(Rest(), depth).Done? && ItemsAt(Rest(), depth).rest == t else Rest() == t
      ensures r == Ok ==> more || ItemsAt(old(Rest()), depth).Done?
      decreases MAX_DEPTH - depth, 0
    {
      hide ValueAt, ItemsAt, SkipBlank;
      ItemsStep(s[p..], depth);
      more := false;
      r := ParseValue(depth + 1);
      if r != Ok {
        return;
      }
      SkipWS();
      if p >= |s| {
        return InvalidSyntax, false;
      }
      if s[p] == ',' {
        p := p + 1;
        SkipWS();
        return Ok, true;
      }
      if s[p] == ']' {
        p := p + 1;
        return Ok, false;
      }
      r := InvalidSyntax;
    }

    method ParseObject(depth: nat) returns (r: Status)
      requires Valid() && p < |s| && s[p] == '{' && depth < MAX_DEPTH
      modifies this`p
      ensures Valid()
      ensures match ObjectAt(old(Rest()), depth)
              case Fail(e) => r == e
              case Done(_, t) => r == Ok && p > old(p) && Rest() == t
      decreases MAX_DEPTH - depth, 2
    {
      hide ObjectAt, MembersAt, EntryAt, SkipBlank;
      ghost var all := ObjectAt(s[p..], depth);
      ObjectStart(s[p..], depth);
      p := p + 1;
      SkipWS();
      if p < |s| && s[p] == '}' {
        p := p + 1;
        return Ok;
      }
      var keys: seq<string> := [];
      while true
        invariant old(p) < p <= |s|
        invariant SameEnd(all, MembersAt(s[p..], depth, keys))
        decreases |s| - p
      {
        var more;
        r, more, keys := ParseField(depth, keys);
        if r != Ok || !more {
          return r;
        }
      }
    }

    /** One member and what follows it: a comma and the next, or the end with the check on all names. */
    method ParseField(depth: nat, keys: seq<string>) returns (r: Status, more: bool, names: seq<string>)
      requires Valid() && depth < MAX_DEPTH
      modifies this`p
      ensures Valid()
      ensures match MembersAt(old(Rest()), depth, keys)
              case Fail(e) => r == e || (r == Ok && more && p > old(p) && MembersAt(Rest(), depth, names) == Fail(e))
              case Done(_, t) =>
                && r == Ok && p > old(p)
                && if more then MembersAt(Rest(), depth, names).Done? && MembersAt(Rest(), depth, names).rest == t
                   else Rest() == t
      ensures r == Ok ==> more || MembersAt(old(Rest()), depth, keys).Done?
      decreases MAX_DEPTH - depth, 1
    {
      hide MembersAt, EntryAt, Distinct;
      MembersStep(s[p..], depth, keys);
      more, names := false, keys;
      var name;
      name, r := ParseMember(depth, |keys|);
      if r != Ok {
        return;
      }
      names := keys + [name];
      if p >= |s| {
        return InvalidSyntax, false, names;
      }
      if s[p] == ',' {
        p := p + 1;
        return Ok, true, names;
      }
      if s[p] != '}' {
        return InvalidSyntax, false, names;
      }
      p := p + 1;
      var unique := KeysUnique(names);
      r := if unique then Ok else DuplicateKey;
    }

    /** One turn of parseObject's loop up to the delimiter: `count` names came before. */
    method ParseMember(depth: nat, count: nat) returns (name: string, r: Status)
      requires Valid() && depth < MAX_DEPTH
      modifies this`p
      ensures Valid()
      ensures match EntryAt(old(Rest()), depth, count)
              case Fail(e) => r == e
              case Done(m, t) => r == Ok && p > old(p) && Rest() == t && name == Decoded(m.key)
      decreases MAX_DEPTH - depth, 0
    {
      hide ValueAt, StringAt, SkipBlank, Decoded;
      SkipWS();
      name, r := ParseString(true);
      if r != Ok {
        return;
      }
      if count >= MAX_MEMBERS {
        return name, TooDeep;
      }
      SkipWS();
      if p >= |s| || s[p] != ':' {
        return name, InvalidSyntax;
      }
      p := p + 1;
      r := ParseMemberValue(depth);
    }

    /** The value of a member and the blanks around it. */
    method ParseMemberValue(depth: nat) returns (r: Status)
      requires Valid() && depth < MAX_DEPTH
      modifies this`p
      ensures Valid()
      ensures match ValueAt(old(Rest()), depth + 1)
              case Fail(e) => r == e
              case Done(v, d) => r == Ok && Rest() == SkipBlank(d)
      decreases MAX_DEPTH - depth, 0, 0
    {
      hide ValueAt, SkipBlank;
      ghost var start := Rest();
      SkipWS();
      ValueSkip(start, depth + 1);
      r := ParseValue(depth + 1);
      if r != Ok {
        return;
      }
      SkipWS();
    }
  }

  /** Two readings stop at the same place with the same status. */
  ghost predicate SameEnd<T, U>(a: Outcome<T>, b: Outcome<U>) {
    match a
    case Fail(e) => b.Fail? && b.why == e
    case Done(_, t) => b.Done? && b.rest == t
  }

  lemma {:induction false} SkipTwice(s: string)
    ensures SkipBlank(SkipBlank(s)) == SkipBlank(s)
  {
  }

  lemma ValueSkip(s: string, depth: nat)
    ensures ValueAt(SkipBlank(s), depth) == ValueAt(s, depth)
  {
    SkipTwice(s);
  }

  lemma ItemsSkip(s: string, depth: nat)
    ensures SameEnd(ItemsAt(s, depth), ItemsAt(SkipBlank(s), depth))
  {
    ValueSkip(s, depth + 1);
  }

  lemma EntrySkip(s: string, depth: nat, count: nat)
    ensures var a, b := EntryAt(s, depth, count), EntryAt(SkipBlank(s), depth, count);
            SameEnd(a, b) && (a.Done? ==> a.value.key == b.value.key)
  {
    SkipTwice(s);
  }

  lemma MembersSkip(s: string, depth: nat, seen: seq<string>)
    ensures SameEnd(MembersAt(s, depth, seen), MembersAt(SkipBlank(s), depth, seen))
  {
    EntrySkip(s, depth, |seen|);
  }

  /** One turn of parseArray's loop. */
  lemma ItemsStep(s: string, depth: nat)
    ensures var v := ValueAt(s, depth + 1);
            if v.Fail? then ItemsAt(s, depth) == Fail(v.why)
            else
              var u := SkipBlank(v.rest);
              if u == "" || (u[0] != ',' && u[0] != ']') then ItemsAt(s, depth) == Fail(InvalidSyntax)
              else if u[0] == ',' then SameEnd(ItemsAt(s, depth), ItemsAt(SkipBlank(u[1..]), depth))
              else ItemsAt(s, depth).Done? && ItemsAt(s, depth).rest == u[1..]
  {
    if ValueAt(s, depth + 1).Done? {
      var u := SkipBlank(ValueAt(s, depth + 1).rest);
      if u != "" && u[0] == ',' {
        ItemsSkip(u[1..], depth);
      }
    }
  }

  /** One turn of parseObject's loop. */
  lemma MembersStep(s: string, depth: nat, seen: seq<string>)
    ensures var m := EntryAt(s, depth, |seen|);
            if m.Fail? then MembersAt(s, depth, seen) == Fail(m.why)
            else
              var u := m.rest;
              var names := seen + [Decoded(m.value.key)];
              if u == "" || (u[0] != ',' && u[0] != '}') then MembersAt(s, depth, seen) == Fail(InvalidSyntax)
              else if u[0] == ',' then SameEnd(MembersAt(s, depth, seen), MembersAt(u[1..], depth, names))
              else if !Distinct(names) then MembersAt(s, depth, seen) == Fail(DuplicateKey)
              else MembersAt(s, depth, seen).Done? && MembersAt(s, depth, seen).rest == u[1..]
  {
  }

  /** parseArray, by its two ways in. */
  lemma ArrayStart(s: string, depth: nat)
    requires s != ""
    ensures var t := SkipBlank(s[1..]);
            if t != "" && t[0] == ']' then ArrayAt(s, depth).Done? && ArrayAt(s, depth).rest == t[1..]
            else SameEnd(ArrayAt(s, depth), ItemsAt(t, depth))
  {
    ItemsSkip(s[1..], depth);
  }

  lemma ObjectStart(s: string, depth: nat)
    requires s != ""
    ensures var t := SkipBlank(s[1..]);
            if t != "" && t[0] == '}' then ObjectAt(s, depth).Done? && ObjectAt(s, depth).rest == t[1..]
            else SameEnd(ObjectAt(s, depth), MembersAt(t, depth, []))
  {
    MembersSkip(s[1..], depth, []);
  }

  lemma NeighboursOfNames(keys: seq<string>)
    ensures var sorted := Sort(keys, Below);
            NoTwins(sorted) <==> Distinct(keys)
  {
    BelowStrictOrder();
    StrictIsWeak(Below);
    SortSorted(keys, Below);
    SortDistinct(keys, Below);
    NeighboursTell(Sort(keys, Below), Below);
  }

  /** Sort, then compare neighbours: true just when no two names are equal. */
  method KeysUnique(keys: seq<string>) returns (unique: bool)
    ensures unique <==> Distinct(keys)
  {
    if |keys| < 2 {
      return true;
    }
    hide *;
    var sorted := Sort(keys, Below);
    NeighboursOfNames(keys);
    unique := NeighboursDiffer(sorted);
  }

  method NeighboursDiffer(sorted: seq<string>) returns (differ: bool)
    requires |sorted| > 0
    ensures differ <==> NoTwins(sorted)
  {
    for i := 1 to |sorted|
      invariant forall j | 0 < j < i :: sorted[j] != sorted[j - 1]
    {
      if sorted[i] == sorted[i - 1] {
        return false;
      }
    }
    return true;
  }

  /** Validate the whole text first, then copy every byte that is not whitespace outside a literal. */
  method JSONCompact(input: string) returns (out: string, r: Status)
    ensures (out, r) == Compact(input)
  {
    hide Squeeze;
    if |input| == 0 {
      return "", InvalidSyntax;
    }
    if |input| > MAX_INPUT {
      return "", TooLarge;
    }
    var parser := new JsonParser(input);
    assert input[0..] == input;
    r := parser.ParseValue(0);
    if r != Ok {
      return "", r;
    }
    parser.SkipWS();
    if parser.p != |parser.s| {
      return "", InvalidSyntax;
    }
    out := CopyTokens(input);
    if |out| >= |input| {
      return "", NotShorter;
    }
    return out, Ok;
  }

  /** The copy loop of JSONCompact. */
  method CopyTokens(input: string) returns (out: string)
    ensures out == Squeeze(input)
  {
    out := "";
    var inString, escaped := false, false;
    var i := 0;
    while i < |input|
      invariant 0 <= i <= |input|
      invariant Squeeze(input) == out + Keep(input[i..], Labels(input[i..], Scanner(inString, escaped)))
    {
      var c := input[i];
      CopyStep(input[i..], Scanner(inString, escaped), out);
      assert input[i..][1..] == input[i + 1..];
      i := i + 1;
      if !inString && Space(c) {
        continue;
      }
      out := out + [c];
      if inString {
        if escaped {
          escaped := false;
        } else if c == '\\' {
          escaped := true;
        } else if c == '"' {
          inString := false;
        }
      } else if c == '"' {
        inString := true;
      }
    }
  }

  lemma CopyStep(s: string, st: Scanner, out: string)
    requires s != ""
    ensures var next := Step(st, s[0]);
            var taken := if LabelOf(st, s[0]) == Gap then out else out + [s[0]];
            out + Keep(s, Labels(s, st)) == taken + Keep(s[1..], Labels(s[1..], next))
  {
    var rest := Keep(s[1..], Labels(s[1..], Step(st, s[0])));
    assert Labels(s, st)[1..] == Labels(s[1..], Step(st, s[0]));
    if LabelOf(st, s[0]) == Gap {
      assert Keep(s, Labels(s, st)) == rest;
    } else {
      Assoc(out, [s[0]], rest);
    }
  }
}
