/** What gets into the page table, AddFromText of recall.go: only paths and handles, so every key it ever holds
    is in the coordinate alphabet and the state of a conversation can always be persisted. */
module Harvest {
  import opened Basics
  import opened Recall
  import C = Coordinates
  import T = StateStore
  import L = Closet
  import Utf8

  const UNKNOWN := C.Provenance(C.Agent, -1, -1, -1)

  predicate IsAddress(c: C.Coord) {
    c.kind.Path? || c.kind.Handle?
  }

  /** The entries one after another, addresses only. */
  function Taken(t: seq<Entry>, found: seq<C.Coord>): seq<Entry>
    decreases |found|
  {
    if found == [] then t else Taken(if IsAddress(found[0]) then Added(t, found[0].value) else t, found[1..])
  }

  function Harvested(t: seq<Entry>, text: string): seq<Entry> {
    Taken(t, C.Nominated([], text, UNKNOWN))
  }

  predicate Coordinate(s: string) {
    forall c <- s :: CoordChar(c)
  }

  /** Every key is written in the coordinate alphabet. */
  predicate Addresses(t: seq<Entry>) {
    forall e <- t :: Coordinate(e.key)
  }

  lemma PathIsCoordinate(s: string)
    ensures Coordinate(s[..C.PathLen(s)])
  {
    var n := C.PathLen(s);
    assert n <= C.Span(s, C.PathChar);
    forall c | c in s[..n] ensures CoordChar(c) {
      var i :| 0 <= i < n && s[..n][i] == c;
      assert C.PathChar(s[i]);
    }
  }

  lemma HandleIsCoordinate(s: string, prefix: string)
    requires Coordinate(prefix)
    ensures Coordinate(s[..C.HandleLen(s, prefix)])
  {
    var n := C.HandleLen(s, prefix);
    forall c | c in s[..n] ensures CoordChar(c) {
      var i :| 0 <= i < n && s[..n][i] == c;
      if i < |prefix| {
        assert prefix[i] == s[i] && prefix[i] in prefix;
      } else {
        assert C.IdChar(s[|prefix|..][i - |prefix|]);
      }
    }
  }

  lemma MatchIsCoordinate(s: string)
    requires C.MatchAt(s).len > 0 && (C.MatchAt(s).kind.Path? || C.MatchAt(s).kind.Handle?)
    ensures var m := C.MatchAt(s); m.from < m.to <= |s| && Coordinate(s[m.from..m.to])
  {
    C.MatchNamesSomething(s);
    PathIsCoordinate(s);
    HandleIsCoordinate(s, "handle:");
    HandleIsCoordinate(s, "memory:");
    hide C.PathLen, C.HandleLen, C.UuidLen, C.ShaLen, C.RefLen, Coordinate;
  }

  /** Whatever is nominated as a path or a handle is a non-empty text in the coordinate alphabet. */
  lemma AddressIsCoordinate(text: string, c: C.Coord)
    requires c in C.Nominated([], text, UNKNOWN) && IsAddress(c)
    ensures Coordinate(c.value) && c.value != ""
  {
    var all, hits := C.Nominated([], text, UNKNOWN), C.Scan(text, 0);
    C.NominationConserves([], text, UNKNOWN);
    var i :| 0 <= i < |all| && all[i] == c;
    var h :| h in hits && c == C.CoordOf(text, h, UNKNOWN);
    hide C.Scan, C.Nominated, C.MatchAt, Coordinate;
    MatchIsCoordinate(text[h.at..]);
  }

  lemma {:induction false} TakenKeeps(t: seq<Entry>, found: seq<C.Coord>)
    requires Sound(t) && Addresses(t) && forall c <- found | IsAddress(c) :: Coordinate(c.value)
    ensures Sound(Taken(t, found)) && Addresses(Taken(t, found)) && t <= Taken(t, found)
    decreases |found|
  {
    if found != [] {
      assert found[0] in found && forall c <- found[1..] :: c in found;
      if IsAddress(found[0]) {
        LastOfAdded(t, found[0].value, "");
        AddedKeeps(t, found[0].value);
        TakenKeeps(Added(t, found[0].value), found[1..]);
      } else {
        TakenKeeps(t, found[1..]);
      }
    }
  }

  lemma AddedKeeps(t: seq<Entry>, key: string)
    requires Addresses(t) && Coordinate(key)
    ensures Addresses(Added(t, key)) && t <= Added(t, key)
  {
    hide Coordinate;
  }

  /** Harvesting only ever adds, and only addresses. */
  lemma HarvestKeeps(t: seq<Entry>, text: string)
    requires Sound(t) && Addresses(t)
    ensures Sound(Harvested(t, text)) && Addresses(Harvested(t, text)) && t <= Harvested(t, text)
  {
    var found := C.Nominated([], text, UNKNOWN);
    forall c | c in found && IsAddress(c) ensures Coordinate(c.value) {
      AddressIsCoordinate(text, c);
    }
    hide Coordinate, IsAddress, C.Nominated;
    TakenKeeps(t, found);
  }

  // ---- conversations ----

  /** What happens to the table: evicted text is harvested, and a turn brings keys up again. */
  datatype Event = Evicted(text: string) | Said(text: string, turn: int)

  function After(t: seq<Entry>, e: Event, ttl: int): seq<Entry> {
    match e
    case Evicted(text) => Harvested(t, text)
    case Said(text, turn) => Detected(t, text, turn, ttl)
  }

  function Run(t: seq<Entry>, events: seq<Event>, ttl: int): seq<Entry>
    decreases |events|
  {
    if events == [] then t else Run(After(t, events[0], ttl), events[1..], ttl)
  }

  lemma SaidKeeps(t: seq<Entry>, text: string, turn: int, ttl: int)
    requires Sound(t) && Addresses(t)
    ensures Sound(Detected(t, text, turn, ttl)) && Addresses(Detected(t, text, turn, ttl))
  {
    SoundStays(t, text, turn, ttl);
    hide Coordinate, Surfaces;
    assert forall i | 0 <= i < |t| :: t[i] in t;
  }

  lemma {:induction false} RunKeeps(t: seq<Entry>, events: seq<Event>, ttl: int)
    requires Sound(t) && Addresses(t)
    ensures Sound(Run(t, events, ttl)) && Addresses(Run(t, events, ttl))
    decreases |events|
  {
    if events != [] {
      match events[0]
      case Evicted(text) =>
        HarvestKeeps(t, text);
        RunKeeps(Harvested(t, text), events[1..], ttl);
      case Said(text, turn) =>
        SaidKeeps(t, text, turn, ttl);
        RunKeeps(Detected(t, text, turn, ttl), events[1..], ttl);
    }
  }

  lemma AddressesArePlain(t: seq<Entry>)
    requires Sound(t) && Addresses(t)
    ensures T.PlainKeys(t) && T.Spellable(t)
  {
    forall e | e in t ensures e.key != "" && T.Plain(e.key) && Utf8.WellFormed(e.key) {
      T.CoordinatesArePlain(e.key);
    }
  }

  /** Whatever a conversation harvested and brought up, its state is persisted within the bound and comes back
      with its turn, its freeze and the kept keys. */
  lemma EveryConversationSurvives(events: seq<Event>, ttl: int, st: T.ReduceState, fl: T.Floats)
    requires st.table == Run([], events, ttl) && T.Ranged(st)
    ensures T.Serialize(st).Some? && |T.Serialize(st).value| <= T.MAX_SERIAL
    ensures T.Restore(T.Serialize(st).value, fl) == Some(T.ReduceState(st.turn, st.freeze, false, T.Kept(st)))
  {
    RunKeeps([], events, ttl);
    AddressesArePlain(st.table);
    T.StateAlwaysFits(st);
    T.StateSurvives(st, fl);
    hide T.Document, T.Kept, T.Restore, Run;
  }

  // ---- as it runs ----

  method AddFromText(index: RecallIndex, text: string) returns (added: int)
    requires index.Valid()
    modifies index
    ensures index.Valid() && index.Table() == Harvested(old(index.Table()), text)
    ensures added == |index.keys| - |old(index.keys)|
  {
    var before := |index.keys|;
    var gathered := new L.CoordSet();
    var n := gathered.NominateInto(text, UNKNOWN);
    var found, i := gathered.items, 0;
    while i < |found|
      invariant 0 <= i <= |found| && index.Valid()
      invariant Taken(index.Table(), found[i..]) == Harvested(old(index.Table()), text)
    {
      assert found[i..][1..] == found[i + 1..] && found[i..][0] == found[i];
      if IsAddress(found[i]) {
        index.Add(found[i].value);
      }
      i := i + 1;
    }
    added := |index.keys| - before;
  }
}
