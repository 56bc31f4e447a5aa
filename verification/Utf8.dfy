/** UTF-8 as section 3 of RFC 3629 defines it: the encoding of one Unicode scalar value, and the
    byte ranges that `utf8Sequence` spells out to recognise exactly those encodings.
    A byte is a `char` below 256 throughout. */
module Utf8 {

  /** A Unicode scalar value. */
  type Rune = cp: int | 0 <= cp < 0xD800 || 0xE000 <= cp <= 0x10FFFF

  predicate Scalar(cp: int) {
    0 <= cp <= 0x10FFFF && !(0xD800 <= cp <= 0xDFFF)
  }

  /** The bytes of one scalar value, as `utf8.AppendRune` writes them. */
  function Encode(cp: Rune): (s: string)
    ensures 1 <= |s| <= 4
  {
    if cp < 0x80 then
      [cp as char]
    else if cp < 0x800 then
      [(0xC0 + cp / 0x40) as char, (0x80 + cp % 0x40) as char]
    else if cp < 0x10000 then
      [(0xE0 + cp / 0x1000) as char, (0x80 + cp / 0x40 % 0x40) as char, (0x80 + cp % 0x40) as char]
    else
      [(0xF0 + cp / 0x40000) as char, (0x80 + cp / 0x1000 % 0x40) as char,
       (0x80 + cp / 0x40 % 0x40) as char, (0x80 + cp % 0x40) as char]
  }

  function EncodeAll(cps: seq<Rune>): string {
    if cps == [] then "" else Encode(cps[0]) + EncodeAll(cps[1..])
  }

  /** Well-formed UTF-8: the encoding of some sequence of scalar values. */
  ghost predicate WellFormed(s: string) {
    exists cps: seq<Rune> :: s == EncodeAll(cps)
  }

  predicate Between(s: string, i: nat, lo: int, hi: int) {
    i < |s| && lo <= s[i] as int <= hi
  }

  predicate Cont(s: string, i: nat) {
    Between(s, i, 0x80, 0xBF)
  }

  /** `utf8Sequence`: the length of the sequence at the start of s, or 0 when it is not valid. */
  function Sequence(s: string): (n: nat)
    ensures n <= |s| && n <= 4
  {
    if s == "" then 0 else
    var a := s[0] as int;
    if a < 0x80 then 1
    else if 0xC2 <= a <= 0xDF && Cont(s, 1) then 2
    else if a == 0xE0 && Between(s, 1, 0xA0, 0xBF) && Cont(s, 2) then 3
    else if 0xE1 <= a <= 0xEC && Cont(s, 1) && Cont(s, 2) then 3
    else if a == 0xED && Between(s, 1, 0x80, 0x9F) && Cont(s, 2) then 3
    else if 0xEE <= a <= 0xEF && Cont(s, 1) && Cont(s, 2) then 3
    else if a == 0xF0 && Between(s, 1, 0x90, 0xBF) && Cont(s, 2) && Cont(s, 3) then 4
    else if 0xF1 <= a <= 0xF3 && Cont(s, 1) && Cont(s, 2) && Cont(s, 3) then 4
    else if a == 0xF4 && Between(s, 1, 0x80, 0x8F) && Cont(s, 2) && Cont(s, 3) then 4
    else 0
  }

  /** The value the bits of the sequence at the start of s spell. */
  function Decode(s: string): int {
    var n := Sequence(s);
    if n == 0 then 0
    else if n == 1 then s[0] as int
    else if n == 2 then Join(s[0] as int - 0xC0, s[1] as int)
    else if n == 3 then Join(Join(s[0] as int - 0xE0, s[1] as int), s[2] as int)
    else Join(Join(Join(s[0] as int - 0xF0, s[1] as int), s[2] as int), s[3] as int)
  }

  /** Appends the six payload bits of a continuation byte. */
  function Join(high: int, cont: int): int {
    high * 0x40 + (cont - 0x80)
  }

  lemma JoinSplits(high: int, cont: int)
    requires 0x80 <= cont <= 0xBF
    ensures Join(high, cont) / 0x40 == high && 0x80 + Join(high, cont) % 0x40 == cont
  {
  }

  lemma DecodeOfSequence(s: string)
    requires Sequence(s) > 0
    ensures Scalar(Decode(s)) && Encode(Decode(s)) == s[..Sequence(s)]
  {
    var n := Sequence(s);
    if n == 2 {
      JoinSplits(s[0] as int - 0xC0, s[1] as int);
    } else if n == 3 {
      DecodeOfThree(s);
    } else if n == 4 {
      DecodeOfFour(s);
    }
  }

  lemma DecodeOfThree(s: string)
    requires Sequence(s) == 3
    ensures Scalar(Decode(s)) && Encode(Decode(s)) == s[..3]
  {
    var a, b, c := s[0] as int - 0xE0, s[1] as int, s[2] as int;
    var ab := Join(a, b);
    var cp := Join(ab, c);
    JoinSplits(a, b);
    JoinSplits(ab, c);
    assert cp / 0x1000 == ab / 0x40;
    assert 0x800 <= cp < 0x10000;
  }

  lemma DecodeOfFour(s: string)
    requires Sequence(s) == 4
    ensures Scalar(Decode(s)) && Encode(Decode(s)) == s[..4]
  {
    var a, b, c, d := s[0] as int - 0xF0, s[1] as int, s[2] as int, s[3] as int;
    var ab := Join(a, b);
    var abc := Join(ab, c);
    var cp := Join(abc, d);
    JoinSplits(a, b);
    JoinSplits(ab, c);
    JoinSplits(abc, d);
    assert cp / 0x1000 == abc / 0x40 == ab;
    assert cp / 0x40000 == ab / 0x40;
    assert 0x10000 <= cp <= 0x10FFFF;
  }

  /** The byte ranges accept every encoding and read its length and value back, whatever follows. */
  lemma SequenceOfEncode(cp: Rune, rest: string)
    ensures Sequence(Encode(cp) + rest) == |Encode(cp)|
    ensures Decode(Encode(cp) + rest) == cp
  {
    var s := Encode(cp) + rest;
    if cp >= 0x10000 {
      SequenceOfFour(cp, s);
    } else if cp >= 0x800 {
      SequenceOfThree(cp, s);
    }
  }

  lemma SequenceOfThree(cp: Rune, s: string)
    requires 0x800 <= cp < 0x10000 && Encode(cp) <= s
    ensures Sequence(s) == 3 && Decode(s) == cp
  {
    var q := cp / 0x40;
    assert s[0] == Encode(cp)[0] && s[1] == Encode(cp)[1] && s[2] == Encode(cp)[2];
    assert cp / 0x1000 == q / 0x40;
    assert s[0] as int == 0xE0 + q / 0x40 && s[1] as int == 0x80 + q % 0x40 && s[2] as int == 0x80 + cp % 0x40;
  }

  lemma SequenceOfFour(cp: Rune, s: string)
    requires 0x10000 <= cp && Encode(cp) <= s
    ensures Sequence(s) == 4 && Decode(s) == cp
  {
    var q := cp / 0x40;
    var r := q / 0x40;
    assert s[0] == Encode(cp)[0] && s[1] == Encode(cp)[1] && s[2] == Encode(cp)[2] && s[3] == Encode(cp)[3];
    assert cp / 0x1000 == r && cp / 0x40000 == r / 0x40;
    assert s[0] as int == 0xF0 + r / 0x40 && s[1] as int == 0x80 + r % 0x40;
    assert s[2] as int == 0x80 + q % 0x40 && s[3] as int == 0x80 + cp % 0x40;
  }

  /** `utf8Sequence` is exact: it reports n > 0 just when some scalar value's n-byte encoding is a
      prefix of the input, so overlong forms, encoded surrogates and values past U+10FFFF all fail. */
  lemma SequenceExact(s: string, n: nat)
    ensures n > 0 && Sequence(s) == n
       <==> exists cp: Rune :: |Encode(cp)| == n && Encode(cp) <= s
  {
    hide Encode, Sequence, Decode;
    if n > 0 && Sequence(s) == n {
      DecodeOfSequence(s);
      assert Encode(Decode(s)) <= s;
    }
    forall cp: Rune | |Encode(cp)| == n && Encode(cp) <= s
      ensures n > 0 && Sequence(s) == n
    {
      SequenceOfPrefix(s, cp);
    }
  }

  lemma SequenceOfPrefix(s: string, cp: Rune)
    requires Encode(cp) <= s
    ensures Sequence(s) == |Encode(cp)| > 0
  {
    hide Encode, Sequence;
    var n := |Encode(cp)|;
    assert s == Encode(cp) + s[n..];
    SequenceOfEncode(cp, s[n..]);
  }
}
