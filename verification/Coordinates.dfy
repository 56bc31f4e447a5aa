/** Verbatim coordinates in a text, the matchers and the scan of closet.go: where an identifier starts, how far
    it reaches, and the set the matches are collected in. */
module Coordinates {

  // ---- ASCII classes ----

  predicate Alpha(c: char) {
    'a' <= c <= 'z' || 'A' <= c <= 'Z'
  }

  predicate Digit(c: char) {
    '0' <= c <= '9'
  }

  predicate Alnum(c: char) {
    Alpha(c) || Digit(c)
  }

  predicate IsHex(c: char) {
    Digit(c) || 'a' <= c <= 'f' || 'A' <= c <= 'F'
  }

  function Lower(c: char): char {
    if 'A' <= c <= 'Z' then (c as int + 32) as char else c
  }

  function LowerAll(s: string): string {
    seq(|s|, i requires 0 <= i < |s| => Lower(s[i]))
  }

  /** May not be part of an identifier, so one may start behind it. */
  predicate Boundary(c: char) {
    !(Alnum(c) || c == '_' || c == '-' || c == '.' || c == '/' || c == ':')
  }

  predicate Continues(c: char) {
    Alnum(c) || c == '_' || c == '-'
  }

  predicate IdChar(c: char) {
    Alnum(c) || c == '_' || c == '-'
  }

  predicate KeyChar(c: char) {
    Alnum(c) || c == '_'
  }

  predicate ValueChar(c: char) {
    Alnum(c) || c == '.' || c == '-' || c == ':' || c == '_'
  }

  predicate PathChar(c: char) {
    Alnum(c) || c == '/' || c == '.' || c == '_' || c == '-'
  }

  predicate Slash(c: char) {
    c == '/'
  }

  // ---- runs ----

  /** How far a class of characters reaches from the start. */
  function Span(s: string, p: char -> bool): (n: nat)
    ensures n <= |s| && (n < |s| ==> !p(s[n]))
    ensures forall i | 0 <= i < n :: p(s[i])
  {
    if s == "" || !p(s[0]) then 0 else 1 + Span(s[1..], p)
  }

  lemma SpanIs(s: string, p: char -> bool, n: nat)
    requires n <= |s| && (n < |s| ==> !p(s[n])) && forall i | 0 <= i < n :: p(s[i])
    ensures Span(s, p) == n
  {
  }

  predicate Any(s: string, p: char -> bool) {
    exists i | 0 <= i < |s| :: p(s[i])
  }

  function CountOf(s: string, p: char -> bool): nat {
    if s == "" then 0 else CountOf(s[..|s| - 1], p) + if p(s[|s| - 1]) then 1 else 0
  }

  /** The length without trailing dots. */
  function Trimmed(s: string, n: nat, floor: nat): (m: nat)
    requires floor <= n <= |s|
    ensures floor <= m <= n && (m > floor ==> s[m - 1] != '.')
    ensures forall i | m <= i < n :: s[i] == '.'
  {
    if n > floor && s[n - 1] == '.' then Trimmed(s, n - 1, floor) else n
  }

  // ---- the matchers: the length matched at the start, or 0 ----

  predicate HexRun(s: string, at: nat, n: nat) {
    at + n <= |s| && forall i | at <= i < at + n :: IsHex(s[i])
  }

  /** 8-4-4-4-12 hex digits with hyphens between, not the front of a longer token. */
  predicate IsUuid(s: string) {
    && HexRun(s, 0, 8) && |s| > 8 && s[8] == '-'
    && HexRun(s, 9, 4) && |s| > 13 && s[13] == '-'
    && HexRun(s, 14, 4) && |s| > 18 && s[18] == '-'
    && HexRun(s, 19, 4) && |s| > 23 && s[23] == '-'
    && HexRun(s, 24, 12) && (|s| > 36 ==> !Continues(s[36]))
  }

  function UuidLen(s: string): (n: nat)
    ensures n <= |s|
  {
    if IsUuid(s) then 36 else 0
  }

  /** A handle behind its prefix. */
  function HandleLen(s: string, prefix: string): (n: nat)
    ensures n <= |s|
  {
    if !(prefix <= s) then 0
    else
      var id := Span(s[|prefix|..], IdChar);
      if id == 0 then 0 else |prefix| + id
  }

  datatype Match = Match(len: nat, from: nat, to: nat, name: string, kind: Kind)

  datatype Kind = Uuid | Sha | Path | KeyValue | Ref | Handle

  const NO_MATCH := Match(0, 0, 0, "", Uuid)

  function MatchHandle(s: string): Match {
    if HandleLen(s, "handle:") > 0 then Match(HandleLen(s, "handle:"), 0, HandleLen(s, "handle:"), "handle", Handle)
    else if HandleLen(s, "memory:") > 0 then Match(HandleLen(s, "memory:"), 0, HandleLen(s, "memory:"), "memory", Handle)
    else NO_MATCH
  }

  /** key=value with a digit in the value; trailing dots are not part of the value. */
  function MatchKV(s: string): Match {
    if s == "" || !(Alpha(s[0]) || s[0] == '_') then NO_MATCH
    else
      var k := Span(s, KeyChar);
      if k >= |s| || s[k] != '=' then NO_MATCH else ValueMatch(s, k)
  }

  /** The rest of a key=value whose key is k long. */
  function ValueMatch(s: string, k: nat): Match
    requires k < |s|
  {
    var v := Span(s[k + 1..], ValueChar);
    if v == 0 || !Any(s[k + 1..k + 1 + v], Digit) then NO_MATCH
    else Match(k + 1 + v, k + 1, Trimmed(s, k + 1 + v, k + 1), LowerAll(s[..k]), KeyValue)
  }

  predicate Anchored(s: string) {
    || (|s| > 0 && s[0] == '/')
    || (|s| >= 2 && s[0] == '.' && s[1] == '/')
    || (|s| >= 3 && s[0] == '.' && s[1] == '.' && s[2] == '/')
  }

  /** The last slash before n, 0 when there is none. */
  function LastSlash(s: string, n: nat): (i: nat)
    requires n <= |s|
    ensures i <= n
    ensures Any(s[..n], Slash) ==> i < n && s[i] == '/' && forall j | i < j < n :: s[j] != '/'
  {
    if n == 0 then 0
    else if s[n - 1] == '/' then n - 1
    else
      assert s[..n - 1] == s[..n][..n - 1];
      LastSlash(s, n - 1)
  }

  /** An anchored path, or a bare one that cannot be prose: a letter, and a dot in the last segment or two
      slashes. */
  function PathLen(s: string): (n: nat)
    ensures n <= |s|
  {
    var run := Span(s, PathChar);
    var slashes := CountOf(s[..run], Slash);
    if slashes < 1 || run < 3 then 0
    else
      var end, last := Trimmed(s, run, 0), LastSlash(s, run);
      if Anchored(s) then end
      else if CountOf(s[..run], Alpha) == 0 then 0
      else if !(exists i | last < i < end :: s[i] == '.') && slashes < 2 then 0
      else end
  }

  /** 7 to 64 hex digits, one of them a letter, not the front of a longer token. */
  function ShaLen(s: string): (n: nat)
    ensures n <= |s|
  {
    var run := Span(s, IsHex);
    if run < 7 || run > 64 || !Any(s[..run], Alpha) then 0
    else if run < |s| && Continues(s[run]) then 0
    else run
  }

  function RefLen(s: string): (n: nat)
    ensures n <= |s|
  {
    if |s| < 2 || s[0] != '#' || !Digit(s[1]) then 0 else 1 + Span(s[1..], Digit)
  }

  /** The matchers in their fixed order; the first that matches decides. */
  function MatchAt(s: string): Match {
    if UuidLen(s) > 0 then Match(UuidLen(s), 0, UuidLen(s), "uuid", Uuid)
    else if MatchHandle(s).len > 0 then MatchHandle(s)
    else if MatchKV(s).len > 0 then MatchKV(s)
    else if PathLen(s) > 0 then Match(PathLen(s), 0, PathLen(s), "path", Path)
    else if ShaLen(s) > 0 then Match(ShaLen(s), 0, ShaLen(s), "sha", Sha)
    else if RefLen(s) > 0 then Match(RefLen(s), 0, RefLen(s), "ref", Ref)
    else NO_MATCH
  }

  lemma KVNamesSomething(s: string)
    requires MatchKV(s).len > 0
    ensures var m := MatchKV(s); 0 < m.from < m.to <= m.len <= |s|
  {
    var k := Span(s, KeyChar);
    hide Span, Trimmed, LowerAll, KeyChar, ValueChar;
    TrimKeepsDigit(s, k + 1, k + 1 + Span(s[k + 1..], ValueChar));
  }

  lemma TrimKeepsDigit(s: string, from: nat, to: nat)
    requires from <= to <= |s| && Any(s[from..to], Digit)
    ensures Trimmed(s, to, from) > from
  {
    var i :| 0 <= i < to - from && Digit(s[from..to][i]);
    assert s[from..to][i] == s[from + i];
  }

  /** Whatever matches has a value, inside the match, and the match is inside the text. */
  lemma MatchNamesSomething(s: string)
    requires MatchAt(s).len > 0
    ensures var m := MatchAt(s); m.from < m.to <= m.len <= |s|
  {
    if UuidLen(s) == 0 && MatchHandle(s).len == 0 && MatchKV(s).len > 0 {
      KVNamesSomething(s);
    }
    hide MatchKV, PathLen, ShaLen, RefLen, UuidLen, HandleLen;
  }

  // ---- the scan ----

  /** A match at its place in the text. */
  datatype Hit = Hit(at: nat, m: Match)
  {
    function End(): nat {
      at + m.len
    }
  }

  predicate Start(raw: string, i: nat)
    requires i <= |raw|
  {
    i == 0 || Boundary(raw[i - 1])
  }

  /** Left to right: at a boundary the first matcher that matches is taken and the scan goes on behind it. */
  function Scan(raw: string, i: nat): seq<Hit>
    requires i <= |raw|
    decreases |raw| - i
  {
    if i == |raw| then []
    else if !Start(raw, i) then Scan(raw, i + 1)
    else
      var m := MatchAt(raw[i..]);
      if 0 < m.len <= |raw| - i then [Hit(i, m)] + Scan(raw, i + m.len) else Scan(raw, i + 1)
  }

  /** The position lies inside a match that starts before it. */
  predicate Inside(hits: seq<Hit>, i: nat) {
    exists h <- hits :: h.at < i < h.End()
  }

  /** A match starts there, or the position lies inside one. */
  predicate Accounted(hits: seq<Hit>, i: nat) {
    Inside(hits, i) || exists h <- hits :: h.at == i
  }

  /** The scan finds exactly the leftmost matches: they stand apart and in order, each at a boundary with what
      the matchers say there; and every boundary that is in none of them and starts none matches nothing. */
  ghost predicate Leftmost(raw: string, hits: seq<Hit>, from: nat)
  {
    && (forall h <- hits :: from <= h.at && h.End() <= |raw| && Start(raw, h.at) && h.m.len > 0 && h.m == MatchAt(raw[h.at..]))
    && (forall j, k | 0 <= j < k < |hits| :: hits[j].End() <= hits[k].at)
    && (forall i | from <= i < |raw| && Start(raw, i) && MatchAt(raw[i..]).len > 0 ::
          Accounted(hits, i))
  }

  lemma {:induction false} ScanIsLeftmost(raw: string, i: nat)
    requires i <= |raw|
    ensures Leftmost(raw, Scan(raw, i), i)
    decreases |raw| - i
  {
    hide *;
    if i == |raw| {
      ScanEnds(raw);
    } else if Start(raw, i) && MatchAt(raw[i..]).len > 0 {
      ScanTakes(raw, i);
      var h := Hit(i, MatchAt(raw[i..]));
      ScanIsLeftmost(raw, h.at + h.m.len);
      LeftmostCons(raw, h, Scan(raw, h.at + h.m.len));
    } else {
      ScanSkips(raw, i);
      ScanIsLeftmost(raw, i + 1);
      LeftmostLater(raw, Scan(raw, i + 1), i);
    }
  }

  lemma ScanEnds(raw: string)
    ensures Leftmost(raw, Scan(raw, |raw|), |raw|)
  {
    hide MatchAt;
  }

  lemma ScanTakes(raw: string, i: nat)
    requires i < |raw| && Start(raw, i) && MatchAt(raw[i..]).len > 0
    ensures var m := MatchAt(raw[i..]); i + m.len <= |raw| && Scan(raw, i) == [Hit(i, m)] + Scan(raw, i + m.len)
  {
    MatchNamesSomething(raw[i..]);
    hide MatchAt, Start;
  }

  lemma ScanSkips(raw: string, i: nat)
    requires i < |raw| && !(Start(raw, i) && MatchAt(raw[i..]).len > 0)
    ensures Scan(raw, i) == Scan(raw, i + 1)
  {
    hide MatchAt, Start;
  }

  lemma LeftmostLater(raw: string, hits: seq<Hit>, i: nat)
    requires i < |raw| && Leftmost(raw, hits, i + 1) && !(Start(raw, i) && MatchAt(raw[i..]).len > 0)
    ensures Leftmost(raw, hits, i)
  {
    hide MatchAt, Start;
  }

  lemma LeftmostCons(raw: string, h: Hit, rest: seq<Hit>)
    requires h.at + h.m.len <= |raw| && Start(raw, h.at) && h.m.len > 0 && h.m == MatchAt(raw[h.at..])
    requires Leftmost(raw, rest, h.at + h.m.len)
    ensures Leftmost(raw, [h] + rest, h.at)
  {
    hide MatchAt, Start, Accounted;
    var hits := [h] + rest;
    forall x | x in hits
      ensures h.at <= x.at && x.End() <= |raw| && Start(raw, x.at) && x.m.len > 0 && x.m == MatchAt(raw[x.at..])
    {
      assert x == h || x in rest;
    }
    InOrderCons(h, rest);
    forall i | h.at <= i < |raw| && Start(raw, i) && MatchAt(raw[i..]).len > 0 ensures Accounted(hits, i) {
      AccountedCons(h, rest, i);
    }
  }

  lemma InOrderCons(h: Hit, rest: seq<Hit>)
    requires forall x <- rest :: h.End() <= x.at
    requires forall j, k | 0 <= j < k < |rest| :: rest[j].End() <= rest[k].at
    ensures var hits := [h] + rest; forall j, k | 0 <= j < k < |hits| :: hits[j].End() <= hits[k].at
  {
    var hits := [h] + rest;
    forall j, k | 0 <= j < k < |hits| ensures hits[j].End() <= hits[k].at {
      assert hits[k] == rest[k - 1] && rest[k - 1] in rest;
    }
  }

  lemma AccountedCons(h: Hit, rest: seq<Hit>, i: nat)
    requires h.at <= i && (i >= h.End() ==> Accounted(rest, i))
    ensures Accounted([h] + rest, i)
  {
    var hits := [h] + rest;
    assert h in hits && forall x <- rest :: x in hits;
  }

  // ---- the matchers as they run ----

  method HexGroup(s: string, at: nat, n: nat) returns (ok: bool)
    ensures ok <==> HexRun(s, at, n)
  {
    var off := at;
    while off < at + n
      invariant at <= off <= at + n && (off > at ==> off <= |s|)
      invariant forall i | at <= i < off :: i < |s| && IsHex(s[i])
    {
      if off >= |s| || !IsHex(s[off]) {
        return false;
      }
      off := off + 1;
    }
    ok := at + n <= |s|;
  }

  method MatchUuid(s: string) returns (n: nat)
    ensures n == UuidLen(s)
  {
    hide HexRun;
    var a := HexGroup(s, 0, 8);
    var b := HexGroup(s, 9, 4);
    var c := HexGroup(s, 14, 4);
    var d := HexGroup(s, 19, 4);
    var e := HexGroup(s, 24, 12);
    UuidReaches(s);
    n := if a && b && c && d && e && s[8] == '-' && s[13] == '-' && s[18] == '-' && s[23] == '-'
            && (|s| == 36 || !Continues(s[36])) then 36 else 0;
  }

  lemma UuidReaches(s: string)
    ensures HexRun(s, 24, 12) ==> |s| >= 36
  {
  }

  /** How far path characters reach, and what is among them. */
  method ScanPath(s: string) returns (off: nat, slashes: nat, letters: nat, last: nat)
    ensures off == Span(s, PathChar) && slashes == CountOf(s[..off], Slash)
    ensures letters == CountOf(s[..off], Alpha) && last == LastSlash(s, off)
  {
    off, slashes, letters, last := 0, 0, 0, 0;
    while off < |s| && PathChar(s[off])
      invariant off <= |s| && forall i | 0 <= i < off :: PathChar(s[i])
      invariant slashes == CountOf(s[..off], Slash) && letters == CountOf(s[..off], Alpha)
      invariant last == LastSlash(s, off)
    {
      assert s[..off + 1][..off] == s[..off];
      if s[off] == '/' {
        last, slashes := off, slashes + 1;
      } else if Alpha(s[off]) {
        letters := letters + 1;
      }
      off := off + 1;
    }
    SpanIs(s, PathChar, off);
  }

  method MatchPath(s: string) returns (n: nat)
    ensures n == PathLen(s)
  {
    hide PathChar, CountOf, LastSlash, Span;
    var run, slashes, letters, last := ScanPath(s);
    var off := run;
    if slashes < 1 || run < 3 {
      return 0;
    }
    while off > 0 && s[off - 1] == '.'
      invariant 0 <= off <= run && Trimmed(s, run, 0) == Trimmed(s, off, 0)
    {
      off := off - 1;
    }
    if !Anchored(s) {
      var dot, i := false, last + 1;
      while i < off
        invariant i > last && (dot <==> exists j | last < j < i && j < off :: s[j] == '.')
      {
        if s[i] == '.' {
          dot := true;
        }
        i := i + 1;
      }
      if letters == 0 || (!dot && slashes < 2) {
        return 0;
      }
    }
    n := off;
  }

  method MatchSha(s: string) returns (n: nat)
    ensures n == ShaLen(s)
  {
    var off, alpha := 0, false;
    while off < |s| && off <= 64 && IsHex(s[off])
      invariant off <= |s| && off <= 65 && forall i | 0 <= i < off :: IsHex(s[i])
      invariant alpha <==> Any(s[..off], Alpha)
    {
      AnyNext(s, off, Alpha);
      if !Digit(s[off]) {
        alpha := true;
      }
      off := off + 1;
    }
    if off > 64 {
      assert Span(s, IsHex) > 64;
      return 0;
    }
    SpanIs(s, IsHex, off);
    if off < 7 || !alpha || (off < |s| && Continues(s[off])) {
      return 0;
    }
    n := off;
  }

  lemma AnyNext(s: string, i: nat, p: char -> bool)
    requires i < |s|
    ensures Any(s[..i + 1], p) <==> Any(s[..i], p) || p(s[i])
  {
    if Any(s[..i], p) {
      var j :| 0 <= j < i && p(s[..i][j]);
      assert s[..i + 1][j] == s[..i][j];
    }
    assert s[..i + 1][i] == s[i];
    if Any(s[..i + 1], p) && !p(s[i]) {
      var j :| 0 <= j < i + 1 && p(s[..i + 1][j]);
      assert s[..i][j] == s[..i + 1][j];
    }
  }

  method MatchRef(s: string) returns (n: nat)
    ensures n == RefLen(s)
  {
    if |s| < 2 || s[0] != '#' || !Digit(s[1]) {
      return 0;
    }
    n := 1;
    while n < |s| && Digit(s[n])
      invariant 1 <= n <= |s| && forall i | 1 <= i < n :: Digit(s[i])
    {
      n := n + 1;
    }
    SpanIs(s[1..], Digit, n - 1);
  }

  method MatchPrefix(s: string, prefix: string) returns (n: nat)
    ensures n == HandleLen(s, prefix)
  {
    if !(prefix <= s) {
      return 0;
    }
    var off := |prefix|;
    while off < |s| && IdChar(s[off])
      invariant |prefix| <= off <= |s| && forall i | |prefix| <= i < off :: IdChar(s[i])
    {
      off := off + 1;
    }
    SpanIs(s[|prefix|..], IdChar, off - |prefix|);
    n := if off > |prefix| then off else 0;
  }

  method MatchKeyValue(s: string) returns (m: Match)
    ensures m == MatchKV(s)
  {
    if s == "" || !(Alpha(s[0]) || s[0] == '_') {
      return NO_MATCH;
    }
    var off := 0;
    while off < |s| && KeyChar(s[off])
      invariant off <= |s| && forall i | 0 <= i < off :: KeyChar(s[i])
    {
      off := off + 1;
    }
    SpanIs(s, KeyChar, off);
    if off >= |s| || s[off] != '=' {
      return NO_MATCH;
    }
    hide ValueMatch;
    m := MatchBehind(s, off);
  }

  method MatchBehind(s: string, k: nat) returns (m: Match)
    requires k < |s|
    ensures m == ValueMatch(s, k)
  {
    hide Span, Trimmed, Any, ValueChar, LowerAll, Digit;
    var end, trimmed, digit := MatchValue(s, k + 1);
    m := if end == k + 1 || !digit then NO_MATCH else Match(end, k + 1, trimmed, LowerAll(s[..k]), KeyValue);
  }

  method MatchValue(s: string, start: nat) returns (end: nat, trimmed: nat, digit: bool)
    requires start <= |s|
    ensures start <= end <= |s| && end == start + Span(s[start..], ValueChar)
    ensures digit <==> Any(s[start..end], Digit)
    ensures trimmed == Trimmed(s, end, start)
  {
    end, digit := MatchChars(s, start);
    hide Span, Any, ValueChar, Digit;
    trimmed := end;
    while trimmed > start && s[trimmed - 1] == '.'
      invariant start <= trimmed <= end && Trimmed(s, end, start) == Trimmed(s, trimmed, start)
    {
      trimmed := trimmed - 1;
    }
  }

  /** The run of value characters, and whether a digit is among them. */
  method MatchChars(s: string, start: nat) returns (end: nat, digit: bool)
    requires start <= |s|
    ensures start <= end <= |s| && end == start + Span(s[start..], ValueChar)
    ensures digit <==> Any(s[start..end], Digit)
  {
    hide Span, Any, ValueChar, Digit;
    end, digit := start, false;
    assert s[start..][..0] == [];
    NoneIs(Digit);
    while end < |s| && ValueChar(s[end])
      invariant start <= end <= |s| && forall i | start <= i < end :: ValueChar(s[i])
      invariant digit <==> Any(s[start..][..end - start], Digit)
    {
      AnyNext(s[start..], end - start, Digit);
      if Digit(s[end]) {
        digit := true;
      }
      end := end + 1;
    }
    SpanIs(s[start..], ValueChar, end - start);
    assert s[start..][..end - start] == s[start..end];
  }

  lemma NoneIs(p: char -> bool)
    ensures !Any([], p)
  {
  }

  method FindMatch(s: string) returns (m: Match)
    ensures m == MatchAt(s)
  {
    hide UuidLen, HandleLen, MatchKV, PathLen, ShaLen, RefLen;
    var n := MatchUuid(s);
    if n > 0 {
      return Match(n, 0, n, "uuid", Uuid);
    }
    n := MatchPrefix(s, "handle:");
    if n > 0 {
      return Match(n, 0, n, "handle", Handle);
    }
    n := MatchPrefix(s, "memory:");
    if n > 0 {
      return Match(n, 0, n, "memory", Handle);
    }
    m := MatchKeyValue(s);
    if m.len > 0 {
      return;
    }
    n := MatchPath(s);
    if n > 0 {
      return Match(n, 0, n, "path", Path);
    }
    n := MatchSha(s);
    if n > 0 {
      return Match(n, 0, n, "sha", Sha);
    }
    n := MatchRef(s);
    m := if n > 0 then Match(n, 0, n, "ref", Ref) else NO_MATCH;
  }

  // ---- collecting ----

  datatype Lane = Agent | User

  /** Unknown numbers are -1. */
  datatype Provenance = Provenance(lane: Lane, turn: int, call: int, result: int)

  datatype Coord = Coord(value: string, name: string, kind: Kind, prov: Provenance, offset: int)

  /** One entry per lane and value, and none empty. */
  predicate Deduped(items: seq<Coord>) {
    && (forall c <- items :: c.value != "")
    && (forall i, j | 0 <= i < j < |items| :: items[i].prov.lane != items[j].prov.lane || items[i].value != items[j].value)
  }

  predicate Holds(items: seq<Coord>, value: string, lane: Lane) {
    exists c <- items :: c.value == value && c.prov.lane == lane
  }

  function With(items: seq<Coord>, c: Coord): seq<Coord> {
    if c.value == "" || Holds(items, c.value, c.prov.lane) then items else items + [c]
  }

  function CoordOf(raw: string, h: Hit, prov: Provenance): Coord
    requires h.m.from <= h.m.to <= |raw| - h.at && h.at <= |raw|
  {
    Coord(raw[h.at..][h.m.from..h.m.to], h.m.name, h.m.kind, prov, h.at)
  }

  predicate Within(raw: string, hits: seq<Hit>) {
    forall h <- hits :: h.m.from < h.m.to && h.m.to <= h.m.len && h.End() <= |raw|
  }

  function Collected(items: seq<Coord>, raw: string, hits: seq<Hit>, prov: Provenance): seq<Coord>
    requires Within(raw, hits)
    decreases |hits|
  {
    if hits == [] then items
    else
      assert forall h <- hits[1..] :: h in hits;
      Collected(With(items, CoordOf(raw, hits[0], prov)), raw, hits[1..], prov)
  }

  lemma ScanWithin(raw: string, i: nat)
    requires i <= |raw|
    ensures Within(raw, Scan(raw, i))
  {
    ScanIsLeftmost(raw, i);
    hide MatchAt, Scan;
    forall h | h in Scan(raw, i) ensures h.m.from < h.m.to && h.m.to <= h.m.len {
      MatchNamesSomething(raw[h.at..]);
    }
  }

  /** What the scan adds from a place in the text on. */
  function NominatedFrom(items: seq<Coord>, raw: string, i: nat, prov: Provenance): seq<Coord>
    requires i <= |raw|
  {
    ScanWithin(raw, i);
    Collected(items, raw, Scan(raw, i), prov)
  }

  function Nominated(items: seq<Coord>, raw: string, prov: Provenance): seq<Coord> {
    NominatedFrom(items, raw, 0, prov)
  }

  lemma SkipPlace(items: seq<Coord>, raw: string, i: nat, prov: Provenance)
    requires i < |raw| && (!Start(raw, i) || MatchAt(raw[i..]).len == 0)
    ensures NominatedFrom(items, raw, i, prov) == NominatedFrom(items, raw, i + 1, prov)
  {
    hide MatchAt, Start, Collected;
  }

  lemma TakeHit(items: seq<Coord>, raw: string, i: nat, prov: Provenance)
    requires i < |raw| && Start(raw, i) && MatchAt(raw[i..]).len > 0
    ensures var h := Hit(i, MatchAt(raw[i..]));
            && h.End() <= |raw| && h.m.from < h.m.to <= h.m.len
            && NominatedFrom(items, raw, i, prov) == NominatedFrom(With(items, CoordOf(raw, h, prov)), raw, h.End(), prov)
  {
    MatchNamesSomething(raw[i..]);
    ScanWithin(raw, i);
    hide MatchAt, With, CoordOf;
    var h := Hit(i, MatchAt(raw[i..]));
    var rest := Scan(raw, h.End());
    assert Scan(raw, i) == [h] + rest;
    assert ([h] + rest)[1..] == rest;
  }

  /** One text: everything a matcher finds ends up in the set, and nothing else does. */
  lemma NominationConserves(items: seq<Coord>, raw: string, prov: Provenance)
    requires Deduped(items)
    ensures var all, hits := Nominated(items, raw, prov), Scan(raw, 0);
            && Deduped(all) && items <= all && Leftmost(raw, hits, 0) && Within(raw, hits)
            && (forall h <- hits :: Holds(all, CoordOf(raw, h, prov).value, prov.lane))
            && (forall i | |items| <= i < |all| :: exists h <- hits :: all[i] == CoordOf(raw, h, prov))
  {
    ScanIsLeftmost(raw, 0);
    ScanWithin(raw, 0);
    CollectedConserves(items, raw, Scan(raw, 0), prov);
    hide Scan, Collected, Leftmost, Deduped, Holds;
  }

  lemma WithFacts(items: seq<Coord>, c: Coord)
    requires Deduped(items) && c.value != ""
    ensures Deduped(With(items, c)) && items <= With(items, c) && Holds(With(items, c), c.value, c.prov.lane)
  {
    var all := With(items, c);
    if !Holds(items, c.value, c.prov.lane) {
      assert all[|items|] == c && c in all;
      forall i | 0 <= i < |items| ensures items[i].prov.lane != c.prov.lane || items[i].value != c.value {
        assert items[i] in items;
      }
    }
  }

  /** Nothing that matched is missing, nothing is there twice, nothing that was there moves, and what is new is
      copied byte for byte from a match. */
  lemma {:induction false} CollectedConserves(items: seq<Coord>, raw: string, hits: seq<Hit>, prov: Provenance)
    requires Deduped(items) && Within(raw, hits)
    ensures var all := Collected(items, raw, hits, prov);
            && Deduped(all) && items <= all
            && (forall h <- hits :: Holds(all, CoordOf(raw, h, prov).value, prov.lane))
            && (forall i | |items| <= i < |all| :: exists h <- hits :: all[i] == CoordOf(raw, h, prov))
    decreases |hits|
  {
    if hits != [] {
      var c := CoordOf(raw, hits[0], prov);
      var next := With(items, c);
      WithinParts(raw, hits);
      WithFacts(items, c);
      CollectedStep(items, raw, hits, prov);
      hide *;
      CollectedConserves(next, raw, hits[1..], prov);
      var all := Collected(items, raw, hits, prov);
      HoldsStays(next, all, c.value, prov.lane);
      HitFirst(hits);
      forall h <- hits ensures Holds(all, CoordOf(raw, h, prov).value, prov.lane) {
      }
      forall i | |items| <= i < |all| ensures exists h <- hits :: all[i] == CoordOf(raw, h, prov) {
        if i < |next| {
          assert all[i] == next[i] == c;
        }
      }
    }
  }

  lemma HitFirst(hits: seq<Hit>)
    requires hits != []
    ensures forall h :: h in hits <==> h == hits[0] || h in hits[1..]
  {
    assert hits == [hits[0]] + hits[1..];
  }

  lemma WithinParts(raw: string, hits: seq<Hit>)
    requires Within(raw, hits) && hits != []
    ensures Within(raw, hits[..1]) && Within(raw, hits[1..]) && hits[0] in hits && forall h <- hits[1..] :: h in hits
  {
  }

  lemma CollectedStep(items: seq<Coord>, raw: string, hits: seq<Hit>, prov: Provenance)
    requires Within(raw, hits) && hits != []
    ensures Within(raw, hits[1..])
    ensures Collected(items, raw, hits, prov) == Collected(With(items, CoordOf(raw, hits[0], prov)), raw, hits[1..], prov)
  {
    WithinParts(raw, hits);
    hide With, CoordOf;
  }

  lemma HoldsStays(items: seq<Coord>, all: seq<Coord>, value: string, lane: Lane)
    requires items <= all && Holds(items, value, lane)
    ensures Holds(all, value, lane)
  {
    assert forall c <- items :: c in all;
  }

  /** c comes from the k-th match, and no match before it has its value. */
  predicate IsFirst(raw: string, hits: seq<Hit>, prov: Provenance, c: Coord, k: nat)
    requires Within(raw, hits) && k < |hits|
  {
    && hits[k] in hits && c == CoordOf(raw, hits[k], prov)
    && forall j | 0 <= j < k :: hits[j] in hits && CoordOf(raw, hits[j], prov).value != c.value
  }

  /** What stands for a value is its first occurrence. */
  lemma {:induction false} FirstOccurrence(items: seq<Coord>, raw: string, hits: seq<Hit>, prov: Provenance, i: nat)
    requires Deduped(items) && Within(raw, hits) && |items| <= i < |Collected(items, raw, hits, prov)|
    ensures exists k | 0 <= k < |hits| :: IsFirst(raw, hits, prov, Collected(items, raw, hits, prov)[i], k)
    decreases |hits|
  {
    var c, rest := CoordOf(raw, hits[0], prov), hits[1..];
    var next, all := With(items, c), Collected(items, raw, hits, prov);
    WithinParts(raw, hits);
    WithFacts(items, c);
    CollectedStep(items, raw, hits, prov);
    hide *;
    CollectedConserves(next, raw, rest, prov);
    if i < |next| {
      NextIs(items, c);
      assert all[i] == next[i] == c;
      FirstIsFirst(raw, hits, prov);
    } else {
      FirstOccurrence(next, raw, rest, prov, i);
      var k :| 0 <= k < |rest| && IsFirst(raw, rest, prov, all[i], k);
      SameProvenance(raw, rest, prov, all[i], k);
      SameProvenance(raw, hits, prov, c, 0);
      NotAgain(next, all, c, i);
      FirstShift(raw, hits, prov, all[i], k);
    }
  }

  lemma FirstIsFirst(raw: string, hits: seq<Hit>, prov: Provenance)
    requires Within(raw, hits) && hits != []
    ensures hits[0] in hits && IsFirst(raw, hits, prov, CoordOf(raw, hits[0], prov), 0)
  {
    hide CoordOf;
  }

  lemma SameProvenance(raw: string, hits: seq<Hit>, prov: Provenance, c: Coord, k: nat)
    requires Within(raw, hits) && k < |hits|
    ensures c == CoordOf(raw, hits[k], prov) || IsFirst(raw, hits, prov, c, k) ==> c.prov == prov
  {
  }

  lemma NextIs(items: seq<Coord>, c: Coord)
    ensures |With(items, c)| > |items| ==> With(items, c) == items + [c]
  {
  }

  lemma FirstShift(raw: string, hits: seq<Hit>, prov: Provenance, c: Coord, k: nat)
    requires Within(raw, hits) && hits != [] && Within(raw, hits[1..]) && k < |hits| - 1
    requires IsFirst(raw, hits[1..], prov, c, k) && hits[0] in hits && CoordOf(raw, hits[0], prov).value != c.value
    ensures IsFirst(raw, hits, prov, c, k + 1)
  {
    hide CoordOf;
    assert hits[1..][k] == hits[k + 1];
    forall j | 0 <= j < k + 1 ensures hits[j] in hits && CoordOf(raw, hits[j], prov).value != c.value {
      if j > 0 {
        assert hits[1..][j - 1] == hits[j];
      }
    }
  }

  lemma NotAgain(next: seq<Coord>, all: seq<Coord>, c: Coord, i: nat)
    requires Deduped(all) && next <= all && |next| <= i < |all| && Holds(next, c.value, c.prov.lane)
    requires all[i].prov == c.prov
    ensures all[i].value != c.value
  {
    var x :| x in next && x.value == c.value && x.prov.lane == c.prov.lane;
    var m :| 0 <= m < |next| && next[m] == x;
    assert all[m] == x;
  }
}
