/** The page table of recall.go: coordinates that left the prompt, in the order they left, each with the turn
    it was last brought up again (-1 for never). */
module Recall {
  import opened Sorting

  const DEFAULT_TTL := 6

  datatype Entry = Entry(key: string, last: int)

  /** Every key is there once, and none is empty. */
  predicate Sound(t: seq<Entry>) {
    && (forall e <- t :: e.key != "")
    && (forall i, j | 0 <= i < j < |t| :: t[i].key != t[j].key)
  }

  predicate Has(t: seq<Entry>, key: string) {
    exists e <- t :: e.key == key
  }

  function Added(t: seq<Entry>, key: string): seq<Entry> {
    if key == "" || Has(t, key) then t else t + [Entry(key, -1)]
  }

  function LastOf(t: seq<Entry>, key: string): int {
    if t == [] then -1 else if t[0].key == key then t[0].last else LastOf(t[1..], key)
  }

  function WithLast(t: seq<Entry>, key: string, turn: int): (r: seq<Entry>)
    ensures |r| == |t|
    ensures forall i | 0 <= i < |t| :: r[i] == if t[i].key == key then Entry(key, turn) else t[i]
  {
    seq(|t|, i requires 0 <= i < |t| => if t[i].key == key then Entry(key, turn) else t[i])
  }

  // ---- whole-token containment ----

  predicate CoordChar(c: char) {
    'A' <= c <= 'Z' || 'a' <= c <= 'z' || '0' <= c <= '9' || c in "/._-:"
  }

  predicate OccursAt(hay: string, key: string, i: nat) {
    i + |key| <= |hay| && hay[i..i + |key|] == key
  }

  /** The key, with no coordinate character on either side to make it part of a longer one. */
  predicate TokenAt(hay: string, key: string, i: nat) {
    && OccursAt(hay, key, i)
    && (i == 0 || !CoordChar(hay[i - 1]))
    && (i + |key| == |hay| || !CoordChar(hay[i + |key|]))
  }

  predicate ContainsToken(hay: string, key: string) {
    key != "" && exists i | 0 <= i <= |hay| :: TokenAt(hay, key, i)
  }

  /** strings.Index from an offset on. */
  method Index(hay: string, key: string, off: nat) returns (i: int)
    requires off <= |hay|
    ensures i == -1 || off <= i
    ensures i == -1 <==> forall j | off <= j <= |hay| :: !OccursAt(hay, key, j)
    ensures i != -1 ==> OccursAt(hay, key, i) && forall j | off <= j < i :: !OccursAt(hay, key, j)
  {
    i := off;
    while i + |key| <= |hay|
      invariant off <= i
      invariant forall j | off <= j < i :: !OccursAt(hay, key, j)
      decreases |hay| - i
    {
      if hay[i..i + |key|] == key {
        assert OccursAt(hay, key, i);
        return;
      }
      i := i + 1;
    }
    i := -1;
  }

  method FindToken(hay: string, key: string) returns (found: bool)
    ensures found <==> ContainsToken(hay, key)
  {
    if key == "" {
      return false;
    }
    var off := 0;
    while true
      invariant 0 <= off <= |hay|
      invariant forall j | 0 <= j < off :: !TokenAt(hay, key, j)
      decreases |hay| - off
    {
      var i := Index(hay, key, off);
      if i == -1 {
        assert forall j | 0 <= j <= |hay| :: TokenAt(hay, key, j) ==> OccursAt(hay, key, j);
        return false;
      }
      var end := i + |key|;
      if (i == 0 || !CoordChar(hay[i - 1])) && (end >= |hay| || !CoordChar(hay[end])) {
        assert TokenAt(hay, key, i);
        return true;
      }
      off := i + 1;
    }
  }

  // ---- surfacing ----

  function Ttl(turns: int): (n: nat)
    ensures n > 0
  {
    if turns <= 0 then DEFAULT_TTL else turns
  }

  predicate Surfaces(e: Entry, text: string, turn: int, ttl: int) {
    text != "" && ContainsToken(text, e.key) && !(e.last >= 0 && turn - e.last < Ttl(ttl))
  }

  /** The table after a turn. */
  function Detected(t: seq<Entry>, text: string, turn: int, ttl: int): (r: seq<Entry>)
    ensures |r| == |t|
    ensures forall i | 0 <= i < |t| :: r[i] == if Surfaces(t[i], text, turn, ttl) then Entry(t[i].key, turn) else t[i]
  {
    seq(|t|, i requires 0 <= i < |t| => if Surfaces(t[i], text, turn, ttl) then Entry(t[i].key, turn) else t[i])
  }

  function Hints(t: seq<Entry>, text: string, turn: int, ttl: int): seq<string> {
    if t == [] then []
    else
      var before := Hints(t[..|t| - 1], text, turn, ttl);
      if Surfaces(t[|t| - 1], text, turn, ttl) then before + [t[|t| - 1].key] else before
  }

  const FOLDED_AWAY := " was folded \U{e2}\U{80}\U{94} page it back in via code_span_get/memory_get\n"

  function HintLine(key: string): string {
    "  recall: " + key + FOLDED_AWAY
  }

  /** The hint: one line for each key brought up. */
  function HintText(keys: seq<string>): string {
    if keys == [] then "" else HintText(keys[..|keys| - 1]) + HintLine(keys[|keys| - 1])
  }

  class RecallIndex {
    var keys: seq<string>
    var lastTurn: map<string, int>

    ghost predicate Valid()
      reads this
    {
      && "" !in keys && Distinct(keys)
      && (forall k :: k in lastTurn <==> k in keys)
    }

    /** The table in insertion order. */
    ghost function Table(): (t: seq<Entry>)
      requires Valid()
      reads this
      ensures Sound(t)
    {
      seq(|keys|, i requires 0 <= i < |keys| && Valid() reads this => Entry(keys[i], lastTurn[keys[i]]))
    }

    constructor ()
      ensures Valid() && Table() == []
    {
      keys, lastTurn := [], map[];
    }

    /** A key already there keeps its residency, so that leaving again cannot restart its clock. */
    method Add(key: string)
      requires Valid()
      modifies this
      ensures Valid() && Table() == Added(old(Table()), key)
    {
      ghost var was := Table();
      KeyIn(was, key);
      if key == "" || key in lastTurn {
        return;
      }
      keys := keys + [key];
      lastTurn := lastTurn[key := -1];
      assert Table() == was + [Entry(key, -1)];
    }

    lemma KeyIn(t: seq<Entry>, key: string)
      requires Valid() && t == Table()
      ensures key in lastTurn <==> Has(t, key)
    {
      if key in lastTurn {
        var i :| 0 <= i < |keys| && keys[i] == key;
        assert t[i] in t && t[i].key == key;
      }
    }

    method LastTurn(key: string) returns (turn: int)
      requires Valid()
      ensures turn == LastOf(Table(), key)
    {
      ghost var t := Table();
      if key in lastTurn {
        ghost var i :| 0 <= i < |keys| && keys[i] == key;
        LastAt(t, i);
        return lastTurn[key];
      }
      LastMissing(t, key);
      turn := -1;
    }

    method SetLastTurn(key: string, turn: int)
      requires Valid()
      modifies this
      ensures Valid() && Table() == WithLast(old(Table()), key, turn)
    {
      if key in lastTurn {
        lastTurn := lastTurn[key := turn];
      }
    }

    /** The keys in the order they were recorded, each with its last turn. */
    method Rows() returns (t: seq<Entry>)
      requires Valid()
      ensures t == Table()
    {
      t := [];
      while |t| < |keys|
        invariant |t| <= |keys|
        invariant forall i | 0 <= i < |t| :: t[i] == Table()[i]
      {
        t := t + [Entry(keys[|t|], lastTurn[keys[|t|]])];
      }
    }

    /** Whether the i-th coordinate is brought up; if so its residency starts now. */
    method DetectOne(i: nat, text: string, turn: int, ttl: int) returns (hit: bool)
      requires Valid() && i < |keys|
      modifies this`lastTurn
      ensures Valid() && hit == Surfaces(old(Table())[i], text, turn, ttl)
      ensures Table() == if hit then old(Table())[i := Entry(keys[i], turn)] else old(Table())
    {
      var key := keys[i];
      var mentioned := FindToken(text, key);
      hit := text != "" && mentioned && !(lastTurn[key] >= 0 && turn - lastTurn[key] < Ttl(ttl));
      hide ContainsToken, Sound, Ttl;
      if hit {
        lastTurn := lastTurn[key := turn];
      }
    }

    /** Brings up every tracked coordinate the text mentions as a whole token, except those brought up fewer
        than ttl turns ago. */
    method Detect(text: string, turn: int, ttl: int) returns (surfaced: nat, out: string)
      requires Valid()
      modifies this
      ensures Valid() && Table() == Detected(old(Table()), text, turn, ttl)
      ensures var hints := Hints(old(Table()), text, turn, ttl); surfaced == |hints| && out == HintText(hints)
    {
      NoHints(text, turn, ttl);
      hide Surfaces, Hints, HintText, HintLine, Detected;
      surfaced, out := 0, "";
      ghost var hints: seq<string> := [];
      ghost var was := Table();
      var i := 0;
      while i < |keys|
        invariant 0 <= i <= |keys| == |was| && keys == old(keys) && Valid()
        invariant forall j | 0 <= j < |keys| ::
          Table()[j] == if j < i && Surfaces(was[j], text, turn, ttl) then Entry(was[j].key, turn) else was[j]
        invariant hints == Hints(was[..i], text, turn, ttl) && surfaced == |hints| && out == HintText(hints)
      {
        ghost var row := Table()[i];
        assert row == was[i];
        HintsNext(was, i, text, turn, ttl);
        var hit := DetectOne(i, text, turn, ttl);
        if hit {
          NextLine(hints, keys[i]);
          hints := hints + [keys[i]];
          surfaced, out := surfaced + 1, out + HintLine(keys[i]);
        }
        i := i + 1;
      }
      assert was[..i] == was;
      AllDetected(was, Table(), text, turn, ttl);
    }
  }

  lemma NoHints(text: string, turn: int, ttl: int)
    ensures Hints([], text, turn, ttl) == [] && HintText([]) == ""
  {
  }

  lemma AllDetected(was: seq<Entry>, now: seq<Entry>, text: string, turn: int, ttl: int)
    requires |now| == |was|
    requires forall i | 0 <= i < |was| :: now[i] == if Surfaces(was[i], text, turn, ttl) then Entry(was[i].key, turn) else was[i]
    ensures now == Detected(was, text, turn, ttl)
  {
    hide Surfaces;
  }

  lemma NextLine(keys: seq<string>, key: string)
    ensures HintText(keys + [key]) == HintText(keys) + HintLine(key)
  {
    assert (keys + [key])[..|keys|] == keys;
  }

  lemma HintsNext(t: seq<Entry>, i: nat, text: string, turn: int, ttl: int)
    requires i < |t|
    ensures Hints(t[..i + 1], text, turn, ttl)
            == Hints(t[..i], text, turn, ttl) + if Surfaces(t[i], text, turn, ttl) then [t[i].key] else []
  {
    hide Surfaces;
    assert t[..i + 1][..i] == t[..i];
  }

  lemma {:induction false} LastAt(t: seq<Entry>, i: nat)
    requires Sound(t) && i < |t|
    ensures LastOf(t, t[i].key) == t[i].last
  {
    if i > 0 {
      assert forall j, k | 0 <= j < k < |t[1..]| :: t[1..][j].key != t[1..][k].key by {
        assert forall j | 0 <= j < |t[1..]| :: t[1..][j] == t[j + 1];
      }
      LastAt(t[1..], i - 1);
    }
  }

  lemma {:induction false} LastMissing(t: seq<Entry>, key: string)
    requires !Has(t, key)
    ensures LastOf(t, key) == -1
  {
    if t != [] {
      assert t[0] in t && forall e <- t[1..] :: e in t;
      LastMissing(t[1..], key);
    }
  }

  // ---- whole conversations ----

  datatype Op = Evict(key: string) | Turn(text: string, turn: int)

  function After(t: seq<Entry>, op: Op, ttl: int): seq<Entry> {
    match op
    case Evict(key) => Added(t, key)
    case Turn(text, turn) => Detected(t, text, turn, ttl)
  }

  /** Turn numbers never go back. */
  predicate Rising(ops: seq<Op>, from: int)
    decreases |ops|
  {
    ops == [] || (if ops[0].Turn? then ops[0].turn >= from && Rising(ops[1..], ops[0].turn) else Rising(ops[1..], from))
  }

  /** The turns on which a key is brought up. */
  function Surfacings(t: seq<Entry>, ops: seq<Op>, key: string, ttl: int): seq<int>
    decreases |ops|
  {
    if ops == [] then []
    else
      var later := Surfacings(After(t, ops[0], ttl), ops[1..], key, ttl);
      if ops[0].Turn? && key in Hints(t, ops[0].text, ops[0].turn, ttl) then [ops[0].turn] + later else later
  }

  lemma {:induction false} HintIn(t: seq<Entry>, text: string, turn: int, ttl: int, key: string)
    requires Sound(t)
    ensures key in Hints(t, text, turn, ttl) <==> Has(t, key) && Surfaces(Entry(key, LastOf(t, key)), text, turn, ttl)
  {
    hide Surfaces;
    if t != [] {
      var front, e := t[..|t| - 1], t[|t| - 1];
      HintIn(front, text, turn, ttl, key);
      FrontOf(t, key);
      hide LastOf, Sound;
    }
  }

  /** The last entry is about its own key, and the others say the same without it. */
  lemma FrontOf(t: seq<Entry>, key: string)
    requires Sound(t) && t != []
    ensures var front, e := t[..|t| - 1], t[|t| - 1];
            && Sound(front) && (Has(t, key) <==> Has(front, key) || e.key == key) && !(Has(front, key) && e.key == key)
            && (e.key == key ==> LastOf(t, key) == e.last) && (Has(front, key) ==> LastOf(t, key) == LastOf(front, key))
            && e == Entry(e.key, e.last)
  {
    var front, e := t[..|t| - 1], t[|t| - 1];
    FrontKeys(t, key);
    hide LastOf;
    LastAt(t, |t| - 1);
    if Has(front, key) {
      var i := Where(front, key);
      LastAt(front, i);
      LastAt(t, i);
    }
  }

  lemma FrontKeys(t: seq<Entry>, key: string)
    requires Sound(t) && t != []
    ensures var front, e := t[..|t| - 1], t[|t| - 1];
            Sound(front) && (Has(t, key) <==> Has(front, key) || e.key == key) && !(Has(front, key) && e.key == key)
  {
    var front, e := t[..|t| - 1], t[|t| - 1];
    assert t == front + [e];
    assert e in t;
    if Has(front, key) {
      var i := Where(front, key);
      assert t[i] == front[i] && t[i] in t;
    }
  }

  lemma Where(t: seq<Entry>, key: string) returns (i: nat)
    requires Has(t, key)
    ensures i < |t| && t[i].key == key
  {
    i :| 0 <= i < |t| && t[i].key == key;
  }

  lemma {:induction false} LastOfDetected(t: seq<Entry>, text: string, turn: int, ttl: int, key: string)
    requires Has(t, key)
    ensures Has(Detected(t, text, turn, ttl), key)
    ensures LastOf(Detected(t, text, turn, ttl), key)
            == if Surfaces(Entry(key, LastOf(t, key)), text, turn, ttl) then turn else LastOf(t, key)
  {
    var u := Detected(t, text, turn, ttl);
    hide Surfaces, Detected;
    assert t[0] in t && u[0] in u;
    if t[0].key != key {
      TailHas(t, key);
      LastOfDetected(t[1..], text, turn, ttl, key);
      assert u[1..] == Detected(t[1..], text, turn, ttl);
      TailHas(u, key);
    }
  }

  lemma TailHas(t: seq<Entry>, key: string)
    requires t != [] && t[0].key != key
    ensures Has(t, key) <==> Has(t[1..], key)
  {
    assert t == [t[0]] + t[1..];
  }

  lemma LastOfAdded(t: seq<Entry>, added: string, key: string)
    ensures LastOf(Added(t, added), key) == LastOf(t, key)
    ensures Has(t, key) ==> Has(Added(t, added), key)
    ensures Sound(t) ==> Sound(Added(t, added))
  {
    if added != "" && !Has(t, added) {
      LastOfJoin(t, Entry(added, -1), key);
      assert forall e <- t :: e in t + [Entry(added, -1)];
      assert forall i | 0 <= i < |t| :: t[i] in t;
    }
  }

  lemma {:induction false} LastOfJoin(t: seq<Entry>, e: Entry, key: string)
    requires e.last == -1
    ensures LastOf(t + [e], key) == LastOf(t, key)
  {
    if t != [] {
      assert (t + [e])[1..] == t[1..] + [e];
      LastOfJoin(t[1..], e, key);
    }
  }

  lemma MissingIsQuiet(t: seq<Entry>, text: string, turn: int, ttl: int, key: string)
    requires !Has(t, key)
    ensures !Has(Detected(t, text, turn, ttl), key)
  {
    var u := Detected(t, text, turn, ttl);
    forall i | 0 <= i < |u| ensures u[i].key != key {
      assert t[i] in t;
    }
  }

  predicate Spaced(s: seq<int>, gap: nat) {
    forall i | 0 < i < |s| :: s[i] - s[i - 1] >= gap
  }

  lemma SpacedFrom(x: int, s: seq<int>, gap: nat)
    requires Spaced(s, gap) && (s != [] ==> s[0] - x >= gap)
    ensures Spaced([x] + s, gap)
  {
  }

  /** In any conversation whose turn numbers never go back, a coordinate is brought up again only after its
      residency is over: the turns it surfaces on are ttl apart, and ttl after the last one before. */
  lemma {:induction false} SurfacingsAreSpaced(t: seq<Entry>, ops: seq<Op>, key: string, ttl: int, from: int)
    requires Sound(t) && 0 <= from && Rising(ops, from) && LastOf(t, key) <= from
    ensures var s := Surfacings(t, ops, key, ttl);
            Spaced(s, Ttl(ttl)) && (s != [] ==> s[0] >= from && (LastOf(t, key) >= 0 ==> s[0] - LastOf(t, key) >= Ttl(ttl)))
    decreases |ops|
  {
    if ops != [] {
      var u := After(t, ops[0], ttl);
      match ops[0]
      case Evict(k) =>
        LastOfAdded(t, k, key);
        SurfacingsAreSpaced(u, ops[1..], key, ttl, from);
      case Turn(text, turn) =>
        NextTurn(t, text, turn, key, ttl);
        SoundStays(t, text, turn, ttl);
        hide Hints, Surfaces, Detected, Has, Sound, Spaced, LastOf;
        SurfacingsAreSpaced(u, ops[1..], key, ttl, turn);
        var later := Surfacings(u, ops[1..], key, ttl);
        if key in Hints(t, text, turn, ttl) {
          SpacedFrom(turn, later, Ttl(ttl));
        }
    }
  }

  /** One turn: a key is brought up only out of its residency, and its residency then starts afresh. */
  lemma NextTurn(t: seq<Entry>, text: string, turn: int, key: string, ttl: int)
    requires Sound(t) && LastOf(t, key) <= turn
    ensures var hit, u := key in Hints(t, text, turn, ttl), Detected(t, text, turn, ttl);
            && LastOf(u, key) == (if hit then turn else LastOf(t, key))
            && (hit && LastOf(t, key) >= 0 ==> turn - LastOf(t, key) >= Ttl(ttl))
  {
    HintIn(t, text, turn, ttl, key);
    if Has(t, key) {
      LastOfDetected(t, text, turn, ttl, key);
    } else {
      MissingIsQuiet(t, text, turn, ttl, key);
      LastMissing(t, key);
      LastMissing(Detected(t, text, turn, ttl), key);
    }
    hide Hints, Detected, Has, Sound, LastOf, ContainsToken;
  }

  lemma SoundStays(t: seq<Entry>, text: string, turn: int, ttl: int)
    requires Sound(t)
    ensures Sound(Detected(t, text, turn, ttl))
  {
    assert forall i | 0 <= i < |t| :: t[i] in t;
  }
}
