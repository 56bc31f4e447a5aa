/** Reducer state persistence, state.go: the state as one bounded JSON document, coldest coordinates dropped
    first, and what comes back out of it. */
module StateStore {
  import opened Basics
  import opened JsonTree
  import opened JsonPrinter
  import opened Recall
  import opened Utf8
  import Sorting
  import Fold
  import S = JsonSyntax
  import R = JsonReader

  const MAX_SERIAL: nat := 6144

  /** Set aside for an entry's own punctuation and for growth of the two trailing counters. */
  const ALLOWANCE: nat := 48

  datatype ReduceState = ReduceState(turn: int, freeze: Fold.Freeze, reduced: bool, table: seq<Entry>)

  // ---- the digest travels as hex ----

  function Hex(n: nat): (s: string)
    ensures |s| > 0
  {
    if n < 16 then [LowHex(n)] else Hex(n / 16) + [LowHex(n % 16)]
  }

  /** strconv.ParseUint base 16 to 64 bits, its error dropped: 0 for bad syntax, all ones when out of range. */
  function ParseHex(s: string): nat {
    if s == "" then 0 else ParseHexFrom(s, 0)
  }

  function ParseHexFrom(s: string, n: nat): nat {
    if s == "" then n
    else if S.HexDigit(s[0]) < 0 then 0
    else if n >= 0x1000_0000_0000_0000 then 0xFFFF_FFFF_FFFF_FFFF
    else ParseHexFrom(s[1..], n * 16 + S.HexDigit(s[0]))
  }

  lemma {:induction false} HexReads(n: nat, rest: string)
    requires n < 0x1_0000_0000_0000_0000
    ensures ParseHexFrom(Hex(n) + rest, 0) == ParseHexFrom(rest, n)
  {
    if n < 16 {
      assert ([LowHex(n)] + rest)[1..] == rest;
    } else {
      var tail := [LowHex(n % 16)] + rest;
      HexReads(n / 16, tail);
      assert Hex(n) + rest == Hex(n / 16) + tail;
      assert tail[1..] == rest;
    }
  }

  /** All 64 bits survive. */
  lemma HexRoundTrip(n: nat)
    requires n < 0x1_0000_0000_0000_0000
    ensures ParseHex(Hex(n)) == n
  {
    HexReads(n, "");
    assert Hex(n) + "" == Hex(n);
  }

  lemma {:induction false} HexLength(n: nat, digits: nat, bound: nat)
    requires digits > 0 && n < bound && bound == Power(16, digits)
    ensures |Hex(n)| <= digits
  {
    if n >= 16 {
      HexLength(n / 16, digits - 1, Power(16, digits - 1));
    }
  }

  predicate Int32Range(n: int) {
    -0x8000_0000 <= n < 0x8000_0000
  }

  lemma NumberLength(n: int)
    requires Int32Range(n)
    ensures 1 <= |NumText(Int32(n))| <= 11 && (n >= 0 ==> |NumText(Int32(n))| <= 10)
  {
    assert Power(10, 10) == 10_000_000_000 by {
      assert Power(10, 5) == 100_000;
      assert Power(10, 10) == 10 * (10 * (10 * (10 * (10 * Power(10, 5)))));
    }
    DecimalLength(if n < 0 then -n else n, 10);
  }

  lemma DigestLength(n: nat)
    requires n < 0x1_0000_0000_0000_0000
    ensures |Hex(n)| <= 16
  {
    assert Power(16, 16) == 0x1_0000_0000_0000_0000 by {
      assert Power(16, 4) == 0x1_0000;
      assert Power(16, 8) == 0x1_0000_0000 by {
        assert Power(16, 8) == 16 * (16 * (16 * (16 * Power(16, 4))));
      }
      assert Power(16, 12) == 0x1_0000_0000_0000 by {
        assert Power(16, 12) == 16 * (16 * (16 * (16 * Power(16, 8))));
      }
      assert Power(16, 16) == 16 * (16 * (16 * (16 * Power(16, 12))));
    }
    HexLength(n, 16, Power(16, 16));
  }

  // ---- the document ----

  function Int(n: int): Json {
    Number(Int32(n))
  }

  function EntryJson(e: Entry): Json {
    Object([Field("k", String(e.key)), Field("t", Int(e.last))])
  }

  function Entries(es: seq<Entry>): (r: seq<Json>)
    ensures |r| == |es| && forall i | 0 <= i < |es| :: r[i] == EntryJson(es[i])
  {
    seq(|es|, i requires 0 <= i < |es| => EntryJson(es[i]))
  }

  function FreezeJson(f: Fold.Freeze): Json {
    Object([
      Field("active", Int(if f.active then 1 else 0)),
      Field("frozen_split", Int(f.frozenSplit)),
      Field("tail_cap_msgs", Int(f.tailCapMsgs)),
      Field("epochs", Int(f.epochs)),
      Field("prefix_digest", String(Hex(if f.prefixDigest < 0 then 0 else f.prefixDigest)))])
  }

  function Root(st: ReduceState, kept: seq<Entry>, k: int, d: int): Json {
    Object([
      Field("turn", Int(st.turn)),
      Field("freeze", FreezeJson(st.freeze)),
      Field("recall", Array(Entries(kept))),
      Field("recall_kept", Int(k)),
      Field("recall_dropped", Int(d))])
  }

  // ---- how long it is ----

  function FieldRoom(f: Field): nat {
    |Escape(f.key)| + |Print(f.value)| + 2
  }

  function FieldsRoom(fields: seq<Field>): nat {
    if fields == [] then 0 else FieldRoom(fields[0]) + FieldsRoom(fields[1..])
  }

  function ItemsRoom(items: seq<Json>): nat {
    if items == [] then 0 else |Print(items[0])| + 1 + ItemsRoom(items[1..])
  }

  lemma {:induction false} FieldsLength(fields: seq<Field>)
    requires fields != []
    ensures |PrintFields(fields)| == FieldsRoom(fields)
  {
    if |fields| > 1 {
      FieldsLength(fields[1..]);
    } else {
      assert fields[1..] == [];
    }
  }

  lemma {:induction false} ItemsLength(items: seq<Json>)
    requires items != []
    ensures |PrintItems(items)| == ItemsRoom(items)
  {
    if |items| > 1 {
      ItemsLength(items[1..]);
    } else {
      assert items[1..] == [];
    }
  }

  lemma {:induction false} ItemsRoomGrows(items: seq<Json>, x: Json)
    ensures ItemsRoom(items + [x]) == ItemsRoom(items) + |Print(x)| + 1
  {
    if items != [] {
      assert (items + [x])[1..] == items[1..] + [x];
      ItemsRoomGrows(items[1..], x);
    }
  }

  /** The array's own share of the document. */
  function ArrayRoom(items: seq<Json>): nat {
    if items == [] then 2 else 1 + ItemsRoom(items)
  }

  lemma ArrayLength(items: seq<Json>)
    ensures |Print(Array(items))| == ArrayRoom(items)
  {
    if items != [] {
      ItemsLength(items);
    }
  }

  /** A key the printer writes byte for byte. */
  predicate Plain(s: string) {
    forall c <- s :: c as int >= 32 && c != '"' && c != '\\'
  }

  lemma {:induction false} PlainEscape(s: string)
    requires Plain(s)
    ensures |Escape(s)| == |s| + 2
  {
    PlainBytes(s);
  }

  lemma {:induction false} PlainBytes(s: string)
    requires Plain(s)
    ensures EscapeBytes(s) == s
  {
    if s != "" {
      assert s[0] in s && forall c <- s[1..] :: c in s;
      PlainBytes(s[1..]);
      assert EscapeByte(s[0]) == [s[0]];
      hide EscapeByte;
      assert s == [s[0]] + s[1..];
    }
  }

  /** All of the document but the entries and the two counters. */
  function Frame(st: ReduceState): nat {
    |Print(Int(st.turn))| + |Print(FreezeJson(st.freeze))| + 62
  }

  lemma RoomCons(f: Field, rest: seq<Field>)
    ensures FieldsRoom([f] + rest) == FieldRoom(f) + FieldsRoom(rest)
  {
    assert ([f] + rest)[1..] == rest;
  }

  lemma FiveRoom(a: Field, b: Field, c: Field, d: Field, e: Field)
    ensures |Print(Object([a, b, c, d, e]))| == 1 + FieldRoom(a) + FieldRoom(b) + FieldRoom(c) + FieldRoom(d) + FieldRoom(e)
  {
    FieldsLength([a, b, c, d, e]);
    assert Print(Object([a, b, c, d, e])) == "{" + PrintFields([a, b, c, d, e]);
    FiveRooms(a, b, c, d, e);
    hide *;
  }

  lemma FiveRooms(a: Field, b: Field, c: Field, d: Field, e: Field)
    ensures FieldsRoom([a, b, c, d, e]) == FieldRoom(a) + FieldRoom(b) + FieldRoom(c) + FieldRoom(d) + FieldRoom(e)
  {
    NoRoom();
    hide *;
    RoomCons(a, [b, c, d, e]);
    RoomCons(b, [c, d, e]);
    RoomCons(c, [d, e]);
    RoomCons(d, [e]);
    RoomCons(e, []);
    assert [a, b, c, d, e] == [a] + [b, c, d, e] && [b, c, d, e] == [b] + [c, d, e];
    assert [c, d, e] == [c] + [d, e] && [d, e] == [d] + [e] && [e] == [e] + [];
  }

  lemma NoRoom()
    ensures FieldsRoom([]) == 0
  {
  }

  lemma RootKeys()
    ensures |Escape("turn")| == 6 && |Escape("freeze")| == 8 && |Escape("recall")| == 8
    ensures |Escape("recall_kept")| == 13 && |Escape("recall_dropped")| == 16
  {
    hide Escape;
    PlainEscape("turn");
    PlainEscape("freeze");
    PlainEscape("recall");
    PlainEscape("recall_kept");
    PlainEscape("recall_dropped");
  }

  lemma FreezeKeys()
    ensures |Escape("active")| == 8 && |Escape("frozen_split")| == 14 && |Escape("tail_cap_msgs")| == 15
    ensures |Escape("epochs")| == 8 && |Escape("prefix_digest")| == 15
  {
    hide Escape;
    PlainEscape("active");
    PlainEscape("frozen_split");
    PlainEscape("tail_cap_msgs");
    PlainEscape("epochs");
    PlainEscape("prefix_digest");
  }

  lemma IntText(n: int)
    ensures Print(Int(n)) == NumText(Int32(n))
  {
  }

  lemma RootLength(st: ReduceState, kept: seq<Entry>, k: int, d: int)
    ensures |Print(Root(st, kept, k, d))|
            == Frame(st) + ArrayRoom(Entries(kept)) + |NumText(Int32(k))| + |NumText(Int32(d))|
  {
    RootKeys();
    ArrayLength(Entries(kept));
    IntText(k);
    IntText(d);
    FiveRoom(Field("turn", Int(st.turn)), Field("freeze", FreezeJson(st.freeze)), Field("recall", Array(Entries(kept))),
             Field("recall_kept", Int(k)), Field("recall_dropped", Int(d)));
    hide Escape, FreezeJson, ArrayRoom, Print, Int, NumText, Entries;
  }

  /** The figures a state is made of are int32, and the digest 64 bits. */
  predicate Ranged(st: ReduceState) {
    && Int32Range(st.turn) && Int32Range(st.freeze.frozenSplit) && Int32Range(st.freeze.tailCapMsgs)
    && Int32Range(st.freeze.epochs) && 0 <= st.freeze.prefixDigest < 0x1_0000_0000_0000_0000
    && |st.table| < 0x8000_0000 && forall e <- st.table :: Int32Range(e.last)
  }

  lemma IntLength(n: int)
    requires Int32Range(n)
    ensures |Print(Int(n))| <= 11
  {
    NumberLength(n);
  }

  lemma DigestText(n: nat)
    requires n < 0x1_0000_0000_0000_0000
    ensures |Print(String(Hex(n)))| <= 18
  {
    DigestLength(n);
    HexIsPlain(n);
    PlainEscape(Hex(n));
  }

  lemma FrameLength(st: ReduceState)
    requires Ranged(st)
    ensures Frame(st) <= 210
  {
    var f := st.freeze;
    var bit := if f.active then 1 else 0;
    FreezeKeys();
    hide Escape, Hex, Print, Int;
    IntLength(st.turn);
    IntLength(bit);
    IntLength(f.frozenSplit);
    IntLength(f.tailCapMsgs);
    IntLength(f.epochs);
    DigestText(f.prefixDigest);
    FiveRoom(Field("active", Int(bit)), Field("frozen_split", Int(f.frozenSplit)),
             Field("tail_cap_msgs", Int(f.tailCapMsgs)), Field("epochs", Int(f.epochs)),
             Field("prefix_digest", String(Hex(f.prefixDigest))));
  }

  lemma {:induction false} HexIsPlain(n: nat)
    ensures Plain(Hex(n)) && forall c <- Hex(n) :: c as int < 0x80
  {
    if n >= 16 {
      HexIsPlain(n / 16);
    }
  }

  // ---- what is kept ----

  predicate Hotter(a: Entry, b: Entry) {
    a.last > b.last
  }

  /** Most recently surfaced first, the older entry first where they tie; never surfaced (-1) sinks. */
  function Order(table: seq<Entry>): (r: seq<Entry>)
    ensures |r| == |table| && multiset(r) == multiset(table)
  {
    Sorting.Sort(table, Hotter)
  }

  predicate Fits(st: ReduceState, kept: seq<Entry>, e: Entry) {
    |Print(Root(st, kept, 0, 0))| + |e.key| + ALLOWANCE <= MAX_SERIAL
  }

  /** The entries that go in, and how many do not. */
  function Fill(st: ReduceState, order: seq<Entry>, kept: seq<Entry>): (seq<Entry>, nat)
    decreases |order|
  {
    if order == [] then (kept, 0)
    else if order[0].key == "" then Fill(st, order[1..], kept)
    else if !Fits(st, kept, order[0]) then (kept, |order|)
    else Fill(st, order[1..], kept + [order[0]])
  }

  function Kept(st: ReduceState): seq<Entry> {
    Fill(st, Order(st.table), []).0
  }

  function Dropped(st: ReduceState): nat {
    Fill(st, Order(st.table), []).1
  }

  function Document(st: ReduceState): string {
    Print(Root(st, Kept(st), |Kept(st)|, Dropped(st)))
  }

  function Serialize(st: ReduceState): Option<string> {
    if |Document(st)| > MAX_SERIAL then None else Some(Document(st))
  }

  /** Keys as the page table holds them, none of which the printer has to escape. */
  predicate PlainKeys(es: seq<Entry>) {
    forall e <- es :: e.key != "" && Plain(e.key)
  }

  /** What Fill keeps is a run from the front of the order, and it stops only at an entry that does not fit. */
  lemma {:induction false} FillIsPrefix(st: ReduceState, order: seq<Entry>, kept: seq<Entry>)
    requires forall e <- order :: e.key != ""
    ensures var (all, dropped) := Fill(st, order, kept);
            && dropped <= |order| && all == kept + order[..|order| - dropped]
            && (dropped > 0 ==> !Fits(st, all, order[|order| - dropped]))
    decreases |order|
  {
    hide Fits;
    if order != [] {
      assert order[0] in order;
      if Fits(st, kept, order[0]) {
        assert forall e <- order[1..] :: e in order;
        FillIsPrefix(st, order[1..], kept + [order[0]]);
        FrontAgain(kept, order, Fill(st, order[1..], kept + [order[0]]).1);
        hide *;
        FillTakes(st, order, kept);
      } else {
        assert kept + order[..0] == kept;
      }
    } else {
      assert kept + order[..0] == kept;
    }
  }

  lemma FillTakes(st: ReduceState, order: seq<Entry>, kept: seq<Entry>)
    requires order != [] && order[0].key != "" && Fits(st, kept, order[0])
    ensures Fill(st, order, kept) == Fill(st, order[1..], kept + [order[0]])
  {
    hide Fits;
  }

  lemma FrontAgain<T>(kept: seq<T>, s: seq<T>, dropped: nat)
    requires s != [] && dropped < |s|
    ensures (kept + [s[0]]) + s[1..][..|s[1..]| - dropped] == kept + s[..|s| - dropped]
    ensures dropped > 0 ==> s[1..][|s[1..]| - dropped] == s[|s| - dropped]
  {
  }

  // ---- when the document does not fit ----

  /** What an entry takes: its key as printed, its residency, and 14 bytes around them. */
  function Spans(es: seq<Entry>): nat {
    if es == [] then 0
    else Spans(es[..|es| - 1]) + |EscapeBytes(es[|es| - 1].key)| + |NumText(Int32(es[|es| - 1].last))| + 14
  }

  /** All of the document but the two counters. */
  function Size(st: ReduceState, es: seq<Entry>): nat {
    Frame(st) + if es == [] then 2 else 1 + Spans(es)
  }

  lemma EntryExact(e: Entry)
    ensures |Print(EntryJson(e))| == |EscapeBytes(e.key)| + |NumText(Int32(e.last))| + 13
  {
    PlainEscape("k");
    PlainEscape("t");
    var fields := [Field("k", String(e.key)), Field("t", Int(e.last))];
    FieldsLength(fields);
    TwoRoom(fields[0], fields[1]);
    IntText(e.last);
    hide EscapeBytes, NumText, FieldsRoom;
  }

  lemma TwoRoom(a: Field, b: Field)
    ensures FieldsRoom([a, b]) == FieldRoom(a) + FieldRoom(b)
  {
    RoomCons(a, [b]);
    RoomCons(b, []);
    NoRoom();
    hide FieldRoom, FieldsRoom;
    assert [a, b] == [a] + [b] && [b] == [b] + [];
  }

  lemma {:induction false} EntriesRoom(es: seq<Entry>)
    ensures ItemsRoom(Entries(es)) == Spans(es)
  {
    hide EntryJson, Print, EscapeBytes, NumText;
    if es != [] {
      var front, e := es[..|es| - 1], es[|es| - 1];
      EntriesRoom(front);
      EntriesGrow(front, e);
      assert es == front + [e];
      ItemsRoomGrows(Entries(front), EntryJson(e));
      EntryExact(e);
      hide Entries, ItemsRoom;
    }
  }

  lemma EntriesGrow(front: seq<Entry>, e: Entry)
    ensures Entries(front + [e]) == Entries(front) + [EntryJson(e)]
  {
    hide EntryJson;
  }

  lemma DocumentSize(st: ReduceState, kept: seq<Entry>, k: int, d: int)
    ensures |Print(Root(st, kept, k, d))| == Size(st, kept) + |NumText(Int32(k))| + |NumText(Int32(d))|
  {
    hide Print, Root, Frame, Spans, Entries, NumText, ItemsRoom;
    RootLength(st, kept, k, d);
    EntriesRoom(kept);
  }

  /** The budget check in figures: the key counts unescaped. */
  lemma FitsMeans(st: ReduceState, es: seq<Entry>, e: Entry)
    ensures Fits(st, es, e) <==> Size(st, es) + 2 + |e.key| + ALLOWANCE <= MAX_SERIAL
  {
    hide Print, Root, Size;
    DocumentSize(st, es, 0, 0);
  }

  lemma SizeGrows(st: ReduceState, es: seq<Entry>, e: Entry)
    ensures Size(st, es + [e]) <= Size(st, es) + |EscapeBytes(e.key)| + |NumText(Int32(e.last))| + 14
    ensures Size(st, es) <= Size(st, es + [e])
  {
    hide EscapeBytes, NumText, Frame;
    assert (es + [e])[..|es|] == es;
  }

  /** Entry n of the rank order passes the check, as everything ahead of it does, and with it the document is too
      long. */
  predicate Overflows(st: ReduceState, n: nat)
    requires n < |Order(st.table)|
  {
    var order := Order(st.table);
    && (forall k | 0 <= k <= n :: Size(st, order[..k]) + 2 + |order[k].key| + ALLOWANCE <= MAX_SERIAL)
    && Size(st, order[..n + 1]) + |NumText(Int32(n + 1))| + |NumText(Int32(|order| - n - 1))| > MAX_SERIAL
  }

  lemma {:induction false} FillFits(st: ReduceState, order: seq<Entry>, kept: seq<Entry>, k: nat)
    requires (forall e <- order :: e.key != "") && k < |order| - Fill(st, order, kept).1
    ensures Fits(st, kept + order[..k], order[k])
    decreases |order|
  {
    hide Fits;
    assert order[0] in order;
    if k == 0 {
      assert kept + order[..0] == kept;
    } else {
      assert forall e <- order[1..] :: e in order;
      FillFits(st, order[1..], kept + [order[0]], k - 1);
      assert kept + [order[0]] + order[1..][..k - 1] == kept + order[..k];
    }
  }

  /** How far the entries go in. */
  lemma KeptRun(st: ReduceState)
    requires forall e <- st.table :: e.key != ""
    ensures var order, n := Order(st.table), |Kept(st)|;
            && n <= |order| && Kept(st) == order[..n] && Dropped(st) == |order| - n
            && (forall k | 0 <= k < n :: Size(st, order[..k]) + 2 + |order[k].key| + ALLOWANCE <= MAX_SERIAL)
            && (n < |order| ==> Size(st, order[..n]) + 2 + |order[n].key| + ALLOWANCE > MAX_SERIAL)
  {
    var order, n := Order(st.table), |Order(st.table)| - Dropped(st);
    OrderKeeps(st.table);
    hide Order, Fits, Size, Fill;
    FillIsPrefix(st, order, []);
    assert [] + order[..n] == order[..n];
    forall k | 0 <= k < n ensures Size(st, order[..k]) + 2 + |order[k].key| + ALLOWANCE <= MAX_SERIAL {
      FillFits(st, order, [], k);
      assert [] + order[..k] == order[..k];
      FitsMeans(st, order[..k], order[k]);
    }
    if n < |order| {
      FitsMeans(st, order[..n], order[n]);
    }
  }

  /** Exactly which states are not persisted: those in whose rank order some entry, let in by the length of its
      key, makes the document too long once the key is escaped. It is the last entry let in: the check measures
      every earlier one as printed. */
  lemma RefusedExactly(st: ReduceState)
    requires Ranged(st) && forall e <- st.table :: e.key != ""
    ensures Serialize(st).None? <==> exists n | 0 <= n < |Order(st.table)| :: Overflows(st, n)
  {
    hide Kept, Dropped, Order, Print, Root, Size, NumText, Overflows, Document;
    var order, n := Order(st.table), |Kept(st)|;
    KeptRun(st);
    SerializedSize(st);
    CounterLengths(st);
    EmptyFits(st);
    if Serialize(st).None? && n > 0 {
      LastOverflows(st, n - 1);
    }
    if m :| 0 <= m < |order| && Overflows(st, m) {
      LastLetIn(st, n, m);
      OverflowIsLong(st, m);
    }
  }

  lemma SerializedSize(st: ReduceState)
    ensures Serialize(st).None? <==>
              Size(st, Kept(st)) + |NumText(Int32(|Kept(st)|))| + |NumText(Int32(Dropped(st)))| > MAX_SERIAL
  {
    hide Kept, Dropped, Print, Root, Size, NumText;
    DocumentSize(st, Kept(st), |Kept(st)|, Dropped(st));
  }

  /** With no entry at all the document fits. */
  lemma EmptyFits(st: ReduceState)
    requires Ranged(st)
    ensures Size(st, Order(st.table)[..0]) <= 212
  {
    FrameLength(st);
    hide Frame, Order;
  }

  lemma LastOverflows(st: ReduceState, n: nat)
    requires n < |Order(st.table)|
    requires var order := Order(st.table);
             && (forall k | 0 <= k <= n :: Size(st, order[..k]) + 2 + |order[k].key| + ALLOWANCE <= MAX_SERIAL)
             && Size(st, order[..n + 1]) + |NumText(Int32(n + 1))| + |NumText(Int32(|order| - n - 1))| > MAX_SERIAL
    ensures Overflows(st, n)
  {
    hide Order, Size, NumText;
  }

  lemma OverflowIsLong(st: ReduceState, n: nat)
    requires n < |Order(st.table)| && Overflows(st, n)
    ensures var order := Order(st.table);
            Size(st, order[..n + 1]) + |NumText(Int32(n + 1))| + |NumText(Int32(|order| - n - 1))| > MAX_SERIAL
  {
    hide Order, Size, NumText;
  }

  lemma CounterLengths(st: ReduceState)
    requires Ranged(st)
    ensures forall k | 0 <= k <= |Order(st.table)| :: 1 <= |NumText(Int32(k))| <= 10
  {
    forall k | 0 <= k <= |Order(st.table)| ensures 1 <= |NumText(Int32(k))| <= 10 {
      NumberLength(k);
    }
  }

  lemma LastLetIn(st: ReduceState, n: nat, m: nat)
    requires n <= |Order(st.table)| && m < |Order(st.table)| && Overflows(st, m)
    requires forall k | 0 <= k <= |Order(st.table)| :: |NumText(Int32(k))| <= 10
    requires var order := Order(st.table);
             && (forall k | 0 <= k < n :: Size(st, order[..k]) + 2 + |order[k].key| + ALLOWANCE <= MAX_SERIAL)
             && (n < |order| ==> Size(st, order[..n]) + 2 + |order[n].key| + ALLOWANCE > MAX_SERIAL)
    ensures n == m + 1
  {
    hide Order, Size, NumText;
  }

  /** How much longer a key gets when it is printed. */
  function Escaping(e: Entry): int {
    |EscapeBytes(e.key)| - |e.key|
  }

  lemma {:induction false} KeysTakeRoom(es: seq<Entry>)
    ensures Spans(es) >= 15 * |es|
  {
    hide EscapeBytes;
    if es != [] {
      TextTakesRoom(es[|es| - 1].last);
      KeysTakeRoom(es[..|es| - 1]);
    }
  }

  lemma TextTakesRoom(n: int)
    ensures |NumText(Int32(n))| >= 1
  {
  }

  /** The state always fits the row it is written to as long as printing lengthens no key by more than 12 bytes:
      the allowance pays for that, the residency and both counters. */
  lemma NearlyPlainFits(st: ReduceState)
    requires Ranged(st) && (forall e <- st.table :: e.key != "" && Escaping(e) <= 12)
    ensures Serialize(st) == Some(Document(st)) && |Document(st)| <= MAX_SERIAL
  {
    var order := Order(st.table);
    RefusedExactly(st);
    OrderKeeps(st.table);
    hide Order, Overflows, Document;
    if n :| 0 <= n < |order| && Overflows(st, n) {
      assert order[n] in order;
      NoOverflow(st, n);
    }
  }

  lemma NoOverflow(st: ReduceState, n: nat)
    requires Ranged(st) && n < |Order(st.table)|
    requires Escaping(Order(st.table)[n]) <= 12 && Int32Range(Order(st.table)[n].last)
    ensures !Overflows(st, n)
  {
    hide Order, EscapeBytes, NumText, Spans, Frame, Size;
    var order := Order(st.table);
    var e := order[n];
    assert order[..n + 1] == order[..n] + [e];
    SizeGrows(st, order[..n], e);
    NumberLength(e.last);
    CounterLengths(st);
    SizeTakesRoom(st, order[..n]);
    if n + 1 < 1000 {
      ThreeDigits(n + 1);
    }
  }

  lemma SizeTakesRoom(st: ReduceState, es: seq<Entry>)
    ensures Size(st, es) >= 15 * |es|
  {
    hide Spans, Frame;
    KeysTakeRoom(es);
  }

  lemma ThreeDigits(n: nat)
    requires n < 1000
    ensures |NumText(Int32(n))| <= 3
  {
    assert Power(10, 3) == 1000;
    DecimalLength(n, 3);
  }

  /** In particular for keys that need no escaping. */
  lemma StateAlwaysFits(st: ReduceState)
    requires Ranged(st) && PlainKeys(st.table)
    ensures Serialize(st) == Some(Document(st)) && |Document(st)| <= MAX_SERIAL
  {
    forall e <- st.table ensures Escaping(e) == 0 {
      PlainBytes(e.key);
    }
    hide *;
    PlainIsNearly(st);
    NearlyPlainFits(st);
  }

  lemma PlainIsNearly(st: ReduceState)
    requires PlainKeys(st.table) && forall e <- st.table :: Escaping(e) == 0
    ensures forall e <- st.table :: e.key != "" && Escaping(e) <= 12
  {
    hide Plain, Escaping;
  }

  lemma OrderKeeps(table: seq<Entry>)
    ensures forall e <- Order(table) :: e in table
    ensures forall e <- table :: e in Order(table)
  {
    forall e | e in Order(table) ensures e in table {
      assert e in multiset(Order(table));
    }
    forall e | e in table ensures e in Order(table) {
      assert e in multiset(table);
    }
  }

  // ---- what the cap drops ----

  /** Nothing goes uncounted: what is kept and what is dropped make up the table; what is kept is the front of
      the table in rank order, so no dropped key is warmer than a kept one; and the first key dropped did not
      fit any more. */
  lemma KeptAndDropped(st: ReduceState)
    requires forall e <- st.table :: e.key != ""
    ensures var order, n := Order(st.table), |Kept(st)|;
            && n + Dropped(st) == |st.table| && Kept(st) == order[..n]
            && multiset(order) == multiset(st.table)
            && (forall i, j | 0 <= i < n <= j < |order| :: order[i].last >= order[j].last)
            && (Dropped(st) > 0 ==> !Fits(st, Kept(st), order[n]))
  {
    var order := Order(st.table);
    hide Fits, Fill;
    OrderKeeps(st.table);
    FillIsPrefix(st, order, []);
    assert [] + order[..|order| - Dropped(st)] == order[..|order| - Dropped(st)];
    RankOrder(st.table);
    hide Order;
  }

  lemma RankOrder(table: seq<Entry>)
    ensures forall i, j | 0 <= i < j < |Order(table)| :: Order(table)[i].last >= Order(table)[j].last
  {
    Sorting.SortSorted(table, Hotter);
    hide Sorting.Sort;
  }

  function Residency(e: Entry): int {
    e.last
  }

  /** Keys surfaced on the same turn keep the order they were recorded in. */
  lemma TiesKeepTheirOrder(table: seq<Entry>, turn: int)
    ensures Sorting.Class(Order(table), Residency, turn) == Sorting.Class(table, Residency, turn)
  {
    Sorting.SortStable(table, Hotter, Residency, turn);
  }

  // ---- back again ----

  /** What a float parser makes of spellings that are no int32: the value truncated to int, and whether it is 0. */
  datatype Floats = Floats(whole: string -> int, zero: string -> bool)

  function Whole(n: Num, fl: Floats): int {
    match n
    case Int32(i) => i
    case Spelled(text) => fl.whole(text)
  }

  function NumberField(v: Json, key: string, fl: Floats): int {
    match Get(v, key)
    case Some(Number(n)) => Whole(n, fl)
    case _ => 0
  }

  predicate NonZero(v: Json, key: string, fl: Floats) {
    match Get(v, key)
    case Some(Number(Int32(i))) => i != 0
    case Some(Number(Spelled(text))) => !fl.zero(text)
    case _ => false
  }

  function RestoreFreeze(v: Json, fl: Floats): Fold.Freeze {
    Fold.Freeze(NonZero(v, "active", fl), NumberField(v, "frozen_split", fl), NumberField(v, "tail_cap_msgs", fl),
                NumberField(v, "epochs", fl),
                match StringField(v, "prefix_digest") case Some(s) => ParseHex(s) case None => 0)
  }

  function Loaded(t: seq<Entry>, item: Json, fl: Floats): seq<Entry> {
    match StringField(item, "k")
    case None => t
    case Some(k) =>
      if k == "" then t
      else
        match Get(item, "t")
        case Some(Number(n)) => WithLast(Added(t, k), k, Whole(n, fl))
        case _ => Added(t, k)
  }

  function Load(items: seq<Json>, t: seq<Entry>, fl: Floats): seq<Entry>
    decreases |items|
  {
    if items == [] then t else Load(items[1..], Loaded(t, items[0], fl), fl)
  }

  /** The document's one tree, as the strict reader finds it; None for anything that is no document. */
  function Read(blob: string): Option<Json> {
    var r := R.DocumentAt(blob);
    if r.Done? && r.rest == "" then Some(Meaning(r.value.v)) else None
  }

  function Restored(root: Json, fl: Floats): ReduceState {
    ReduceState(
      NumberField(root, "turn", fl),
      if Get(root, "freeze").Some? && Get(root, "freeze").value.Object?
        then RestoreFreeze(Get(root, "freeze").value, fl) else Fold.Freeze(false, 0, 0, 0, 0),
      false,
      match GetItems(root, "recall") case Some(items) => Load(items, [], fl) case None => [])
  }

  /** None is the error, which leaves the state alone. */
  function Restore(blob: string, fl: Floats): Option<ReduceState> {
    if blob == "" then None
    else
      match Read(blob)
      case Some(root) => if root.Object? then Some(Restored(root, fl)) else None
      case None => None
  }

  lemma {:induction false} AsciiWellFormed(s: string)
    requires forall c <- s :: c as int < 0x80
    ensures WellFormed(s)
  {
    if s == "" {
      assert EncodeAll([]) == "";
    } else {
      assert s[0] in s && forall c <- s[1..] :: c in s;
      AsciiWellFormed(s[1..]);
      var cps: seq<Rune> :| s[1..] == EncodeAll(cps);
      var all: seq<Rune> := [s[0] as int] + cps;
      assert all[1..] == cps && s == [s[0]] + s[1..];
      assert s == EncodeAll(all);
    }
  }

  lemma FindAt(fields: seq<Field>, key: string, i: nat)
    requires i < |fields| && fields[i].key == key && forall j | 0 <= j < i :: fields[j].key != key
    ensures Get(Object(fields), key) == Some(fields[i].value)
  {
    FindUnique(fields, key, i);
  }

  lemma RootGets(st: ReduceState, kept: seq<Entry>, k: int, d: int)
    ensures var r := Root(st, kept, k, d);
            && Get(r, "turn") == Some(Int(st.turn)) && Get(r, "freeze") == Some(FreezeJson(st.freeze))
            && Get(r, "recall") == Some(Array(Entries(kept)))
  {
    hide Get, Find, FreezeJson, Entries;
    var fields := Root(st, kept, k, d).fields;
    FindAt(fields, "turn", 0);
    FindAt(fields, "freeze", 1);
    assert "freeze"[0] != "recall"[0];
    FindAt(fields, "recall", 2);
  }

  lemma FreezeGets(f: Fold.Freeze)
    requires f.prefixDigest >= 0
    ensures var v := FreezeJson(f);
            && Get(v, "active") == Some(Int(if f.active then 1 else 0)) && Get(v, "frozen_split") == Some(Int(f.frozenSplit))
            && Get(v, "tail_cap_msgs") == Some(Int(f.tailCapMsgs)) && Get(v, "epochs") == Some(Int(f.epochs))
            && Get(v, "prefix_digest") == Some(String(Hex(f.prefixDigest)))
  {
    hide Get, Find, Hex;
    var fields := FreezeJson(f).fields;
    assert "active"[0] != "epochs"[0] && "tail_cap_msgs"[0] != "prefix_digest"[0];
    FindAt(fields, "active", 0);
    FindAt(fields, "frozen_split", 1);
    FindAt(fields, "tail_cap_msgs", 2);
    FindAt(fields, "epochs", 3);
    FindAt(fields, "prefix_digest", 4);
  }

  lemma FreezeReturns(f: Fold.Freeze, fl: Floats)
    requires 0 <= f.prefixDigest < 0x1_0000_0000_0000_0000
    ensures RestoreFreeze(FreezeJson(f), fl) == f
  {
    FreezeGets(f);
    HexRoundTrip(f.prefixDigest);
    hide Get, FreezeJson, Hex, ParseHex;
  }

  lemma EntryGets(e: Entry)
    ensures Get(EntryJson(e), "k") == Some(String(e.key)) && Get(EntryJson(e), "t") == Some(Int(e.last))
  {
    hide Get, Find;
    var fields := EntryJson(e).fields;
    FindAt(fields, "k", 0);
    FindAt(fields, "t", 1);
  }

  lemma LoadOne(t: seq<Entry>, e: Entry, fl: Floats)
    requires e.key != "" && !Has(t, e.key)
    ensures Loaded(t, EntryJson(e), fl) == t + [e]
  {
    EntryGets(e);
    hide Get, EntryJson;
    assert Added(t, e.key) == t + [Entry(e.key, -1)];
    forall i | 0 <= i < |t| ensures t[i].key != e.key {
      assert t[i] in t;
    }
    assert WithLast(t + [Entry(e.key, -1)], e.key, e.last) == t + [e];
  }

  lemma NextIsNew(t: seq<Entry>, es: seq<Entry>)
    requires Sound(t + es) && es != []
    ensures es[0].key != "" && !Has(t, es[0].key) && (t + [es[0]]) + es[1..] == t + es
  {
    var all := t + es;
    assert all[|t|] == es[0] && es[0] in all;
    forall x | x in t ensures x.key != es[0].key {
      var i :| 0 <= i < |t| && t[i] == x;
      assert all[i].key != all[|t|].key;
    }
  }

  lemma LoadStep(t: seq<Entry>, es: seq<Entry>, fl: Floats)
    requires es != []
    ensures Load(Entries(es), t, fl) == Load(Entries(es[1..]), Loaded(t, EntryJson(es[0]), fl), fl)
  {
    hide Loaded, EntryJson;
    assert Entries(es)[1..] == Entries(es[1..]);
  }

  lemma {:induction false} LoadAll(t: seq<Entry>, es: seq<Entry>, fl: Floats)
    requires Sound(t + es)
    ensures Load(Entries(es), t, fl) == t + es
    decreases |es|
  {
    if es == [] {
      assert t + es == t;
    } else {
      hide *;
      NextIsNew(t, es);
      LoadOne(t, es[0], fl);
      LoadStep(t, es, fl);
      LoadAll(t + [es[0]], es[1..], fl);
    }
  }

  // ---- the document can be read ----

  predicate Readable(es: seq<Entry>) {
    forall e <- es :: Int32Range(e.last)
  }

  ghost predicate Spellable(es: seq<Entry>) {
    forall e <- es :: WellFormed(e.key)
  }

  lemma {:induction false} KeysAre(fields: seq<Field>)
    ensures |Keys(fields)| == |fields| && forall i | 0 <= i < |fields| :: Keys(fields)[i] == fields[i].key
  {
    if fields != [] {
      KeysAre(fields[1..]);
    }
  }

  /** Fields of printable values with distinct names make a printable object, one level deeper. */
  lemma ObjectPrintable(fields: seq<Field>, depth: nat)
    requires forall f <- fields :: WellFormed(f.key) && Printable(f.value) && Depth(f.value) <= depth
    requires forall i, j | 0 <= i < j < |fields| :: fields[i].key != fields[j].key
    requires |fields| <= S.MAX_MEMBERS
    ensures Printable(Object(fields)) && Depth(Object(fields)) <= depth + 1
  {
    KeysAre(fields);
    FieldsPrintable(fields, depth);
  }

  lemma {:induction false} FieldsPrintable(fields: seq<Field>, depth: nat)
    requires forall f <- fields :: WellFormed(f.key) && Printable(f.value) && Depth(f.value) <= depth
    ensures PrintableFields(fields) && FieldsDepth(fields) <= depth
  {
    if fields != [] {
      assert fields[0] in fields && forall f <- fields[1..] :: f in fields;
      hide WellFormed, Printable, Depth;
      FieldsPrintable(fields[1..], depth);
    }
  }

  lemma EntryPrintable(e: Entry)
    requires WellFormed(e.key) && Int32Range(e.last)
    ensures Printable(EntryJson(e)) && Depth(EntryJson(e)) <= 2
  {
    AsciiWellFormed("k");
    AsciiWellFormed("t");
    hide WellFormed;
    ObjectPrintable([Field("k", String(e.key)), Field("t", Int(e.last))], 1);
  }

  lemma {:induction false} EntriesPrintable(es: seq<Entry>)
    requires Readable(es) && Spellable(es)
    ensures PrintableItems(Entries(es)) && ItemsDepth(Entries(es)) <= 2
  {
    if es != [] {
      assert es[0] in es && forall e <- es[1..] :: e in es;
      EntryPrintable(es[0]);
      assert Entries(es)[1..] == Entries(es[1..]) && Entries(es)[0] == EntryJson(es[0]);
      EntriesPrintable(es[1..]);
    }
  }

  lemma LeavesPrintable(n: int, s: string)
    requires Int32Range(n) && WellFormed(s)
    ensures Printable(Int(n)) && Depth(Int(n)) == 1 && Printable(String(s)) && Depth(String(s)) == 1
  {
  }

  lemma ArrayPrintable(items: seq<Json>)
    requires PrintableItems(items) && ItemsDepth(items) <= 2
    ensures Printable(Array(items)) && Depth(Array(items)) <= 3
  {
  }

  predicate Shallow(f: Field, depth: nat) {
    Depth(f.value) <= depth
  }

  lemma FivePrintable(a: Field, b: Field, c: Field, d: Field, e: Field, depth: nat)
    requires WellFormed(a.key) && WellFormed(b.key) && WellFormed(c.key) && WellFormed(d.key) && WellFormed(e.key)
    requires Printable(a.value) && Printable(b.value) && Printable(c.value) && Printable(d.value) && Printable(e.value)
    requires Shallow(a, depth) && Shallow(b, depth) && Shallow(c, depth) && Shallow(d, depth) && Shallow(e, depth)
    requires a.key != b.key && a.key != c.key && a.key != d.key && a.key != e.key && b.key != c.key
    requires b.key != d.key && b.key != e.key && c.key != d.key && c.key != e.key && d.key != e.key
    ensures Printable(Object([a, b, c, d, e])) && Depth(Object([a, b, c, d, e])) <= depth + 1
  {
    hide WellFormed, Printable, Depth;
    ObjectPrintable([a, b, c, d, e], depth);
  }

  lemma FreezeNames()
    ensures WellFormed("active") && WellFormed("frozen_split") && WellFormed("tail_cap_msgs") && WellFormed("epochs")
    ensures WellFormed("prefix_digest")
    ensures "active" != "epochs" && "tail_cap_msgs" != "prefix_digest"
  {
    AsciiWellFormed("active");
    AsciiWellFormed("frozen_split");
    AsciiWellFormed("tail_cap_msgs");
    AsciiWellFormed("epochs");
    AsciiWellFormed("prefix_digest");
    assert "active"[0] != "epochs"[0] && "tail_cap_msgs"[0] != "prefix_digest"[0];
  }

  lemma FreezePrintable(st: ReduceState)
    requires Ranged(st)
    ensures Printable(FreezeJson(st.freeze)) && Depth(FreezeJson(st.freeze)) <= 2
  {
    FreezeNames();
    var f := st.freeze;
    var bit := if f.active then 1 else 0;
    HexIsPlain(f.prefixDigest);
    AsciiWellFormed(Hex(f.prefixDigest));
    LeavesPrintable(bit, Hex(f.prefixDigest));
    LeavesPrintable(f.frozenSplit, Hex(f.prefixDigest));
    LeavesPrintable(f.tailCapMsgs, Hex(f.prefixDigest));
    LeavesPrintable(f.epochs, Hex(f.prefixDigest));
    hide WellFormed, Hex, Printable, Depth, Int;
    FivePrintable(Field("active", Int(bit)), Field("frozen_split", Int(f.frozenSplit)), Field("tail_cap_msgs", Int(f.tailCapMsgs)),
                  Field("epochs", Int(f.epochs)), Field("prefix_digest", String(Hex(f.prefixDigest))), 1);
  }

  lemma RootNames()
    ensures WellFormed("turn") && WellFormed("freeze") && WellFormed("recall") && WellFormed("recall_kept")
    ensures WellFormed("recall_dropped") && "freeze" != "recall"
  {
    AsciiWellFormed("turn");
    AsciiWellFormed("freeze");
    AsciiWellFormed("recall");
    AsciiWellFormed("recall_kept");
    AsciiWellFormed("recall_dropped");
    assert "freeze"[0] != "recall"[0];
  }

  lemma RootPrintable(st: ReduceState, kept: seq<Entry>, k: int, d: int)
    requires Ranged(st) && Readable(kept) && Spellable(kept) && Int32Range(k) && Int32Range(d)
    ensures Printable(Root(st, kept, k, d)) && Depth(Root(st, kept, k, d)) <= S.MAX_DEPTH
  {
    RootNames();
    FreezePrintable(st);
    EntriesPrintable(kept);
    ArrayPrintable(Entries(kept));
    LeavesPrintable(st.turn, "turn");
    LeavesPrintable(k, "turn");
    LeavesPrintable(d, "turn");
    hide WellFormed, FreezeJson, Entries, Printable, Depth, Int;
    FivePrintable(Field("turn", Int(st.turn)), Field("freeze", FreezeJson(st.freeze)), Field("recall", Array(Entries(kept))),
                  Field("recall_kept", Int(k)), Field("recall_dropped", Int(d)), 3);
  }

  // ---- the round trip ----

  lemma KeptIsSound(st: ReduceState)
    requires Sound(st.table)
    ensures Sound(Kept(st)) && forall e <- Kept(st) :: e in st.table
  {
    var order := Order(st.table);
    KeptAndDropped(st);
    OrderKeeps(st.table);
    forall i, j | 0 <= i < j < |st.table| ensures st.table[i] != st.table[j] {
      assert st.table[i].key != st.table[j].key;
    }
    Sorting.SortDistinct(st.table, Hotter);
    assert forall i | 0 <= i < |Kept(st)| :: Kept(st)[i] == order[i] && order[i] in order;
    hide Fill, Order;
    forall i, j | 0 <= i < j < |Kept(st)| ensures Kept(st)[i].key != Kept(st)[j].key {
      OneEntry(st.table, order[i], order[j]);
    }
  }

  lemma OneEntry(t: seq<Entry>, a: Entry, b: Entry)
    requires Sound(t) && a in t && b in t && a != b
    ensures a.key != b.key
  {
  }

  /** Whatever is written comes back: the turn, the freeze with all 64 bits of its digest, and exactly the kept
      keys in rank order, each with its residency. `reduced` is per request and comes back false. */
  lemma StateSurvives(st: ReduceState, fl: Floats)
    requires Ranged(st) && Sound(st.table) && Spellable(st.table) && Serialize(st).Some?
    ensures Restore(Serialize(st).value, fl) == Some(ReduceState(st.turn, st.freeze, false, Kept(st)))
  {
    var k, d := |Kept(st)|, Dropped(st);
    KeptAndDropped(st);
    KeptIsSound(st);
    RootPrintable(st, Kept(st), k, d);
    PrintReadsBack(Root(st, Kept(st), k, d));
    RootGets(st, Kept(st), k, d);
    FreezeReturns(st.freeze, fl);
    assert [] + Kept(st) == Kept(st);
    LoadAll([], Kept(st), fl);
    DocumentStarts(st);
    hide *;
    Restores(st, Kept(st), k, d, fl);
  }

  lemma DocumentStarts(st: ReduceState)
    ensures Document(st) != ""
  {
    hide PrintFields;
  }

  lemma Restores(st: ReduceState, kept: seq<Entry>, k: int, d: int, fl: Floats)
    requires Read(Print(Root(st, kept, k, d))) == Some(Root(st, kept, k, d)) && Print(Root(st, kept, k, d)) != ""
    requires var r := Root(st, kept, k, d);
             && Get(r, "turn") == Some(Int(st.turn)) && Get(r, "freeze") == Some(FreezeJson(st.freeze))
             && Get(r, "recall") == Some(Array(Entries(kept)))
    requires RestoreFreeze(FreezeJson(st.freeze), fl) == st.freeze && Load(Entries(kept), [], fl) == kept
    ensures Restore(Print(Root(st, kept, k, d)), fl) == Some(ReduceState(st.turn, st.freeze, false, kept))
  {
    hide Get, Find, Load, Entries, Print, Read, RestoreFreeze;
  }

  /** Every key the page table harvests, a path or a handle, is written byte for byte. */
  lemma CoordinatesArePlain(s: string)
    requires forall c <- s :: CoordChar(c)
    ensures Plain(s) && WellFormed(s)
  {
    AsciiWellFormed(s);
    hide WellFormed;
  }

  // ---- a key that has to be escaped ----

  function Repeated(c: char, n: nat): string {
    if n == 0 then "" else [c] + Repeated(c, n - 1)
  }

  lemma {:induction false} RepeatedEscapes(n: nat)
    ensures |Repeated(1 as char, n)| == n && |EscapeBytes(Repeated(1 as char, n))| == 6 * n
  {
    if n > 0 {
      RepeatedEscapes(n - 1);
      assert Repeated(1 as char, n)[1..] == Repeated(1 as char, n - 1);
    }
  }

  /** The budget counts a key's bytes before escaping: one long key of control characters passes the check and
      the document then does not fit, so the whole state, freeze included, is not persisted. */
  lemma EscapedKeyIsRefused()
    ensures exists st :: Ranged(st) && Sound(st.table) && Serialize(st) == None
  {
    RepeatedEscapes(2000);
    var e := Entry(Repeated(1 as char, 2000), -1);
    var st := ReduceState(0, Fold.Freeze(false, 0, 0, 0, 0), false, [e]);
    FrameLength(st);
    RootLength(st, [], 0, 0);
    RootLength(st, [e], 1, 0);
    LongEntry(e);
    NumberLength(0);
    hide EscapeBytes, Repeated, Print, Root, NumText, Frame;
    assert Order([e]) == [e] by {
      assert [e][1..] == [];
    }
    assert Fits(st, [], e);
    OneFits(st, e);
    assert Entries([e]) == [EntryJson(e)];
    assert ItemsRoom([EntryJson(e)]) == |Print(EntryJson(e))| + 1 + ItemsRoom([EntryJson(e)][1..]);
  }

  lemma OneFits(st: ReduceState, e: Entry)
    requires e.key != "" && Fits(st, [], e) && Order(st.table) == [e]
    ensures Kept(st) == [e] && Dropped(st) == 0
  {
    hide Fits, Order;
    assert [e][1..] == [] && [] + [e] == [e];
    assert Fill(st, [e], []) == Fill(st, [], [e]);
  }

  lemma LongEntry(e: Entry)
    ensures |Print(EntryJson(e))| > |EscapeBytes(e.key)|
  {
    var fields := EntryJson(e).fields;
    FieldsLength(fields);
    assert FieldsRoom(fields) == FieldRoom(fields[0]) + FieldsRoom(fields[1..]);
  }

  // ---- the state in place ----

  class ReducerState {
    var turn: int
    var freeze: Fold.Freeze
    var reduced: bool
    var recall: RecallIndex?

    ghost predicate Valid()
      reads this, recall
    {
      recall != null ==> recall.Valid()
    }

    ghost function View(): ReduceState
      requires Valid()
      reads this, recall
    {
      ReduceState(turn, freeze, reduced, if recall == null then [] else recall.Table())
    }

    constructor ()
      ensures Valid() && View() == ReduceState(0, Fold.Freeze(false, 0, 0, 0, 0), false, [])
    {
      turn, freeze, reduced, recall := 0, Fold.Freeze(false, 0, 0, 0, 0), false, null;
    }

    /** Ranks the keys and adds them while the document so far, the key and the allowance stay within bounds. */
    method SerializeState() returns (out: Option<string>)
      requires Valid()
      ensures out == Serialize(View())
    {
      ghost var st := View();
      var table: seq<Entry> := [];
      if recall != null {
        table := recall.Rows();
      }
      var bare := ReduceState(turn, freeze, reduced, table);
      assert bare == st;
      var order := Order(table);
      var kept, dropped, i := [], 0, 0;
      while i < |order|
        invariant 0 <= i <= |order|
        invariant Fill(st, order, []) == Fill(st, order[i..], kept)
        invariant dropped == 0
        decreases |order| - i
      {
        assert order[i..][1..] == order[i + 1..] && order[i..][0] == order[i];
        if order[i].key != "" {
          if !Fits(bare, kept, order[i]) {
            dropped := |order| - i;
            break;
          }
          kept := kept + [order[i]];
        }
        i := i + 1;
      }
      hide Fits, Order, Print, Root;
      assert (kept, dropped) == Fill(st, order, []);
      var text := Print(Root(bare, kept, |kept|, dropped));
      out := if |text| > MAX_SERIAL then None else Some(text);
    }

    /** All or nothing: a blob that is refused leaves every field as it was. */
    method RestoreState(blob: string, fl: Floats) returns (ok: bool)
      requires Valid()
      modifies this
      ensures Valid() && (ok <==> Restore(blob, fl).Some?)
      ensures ok ==> View() == Restore(blob, fl).value && fresh(recall)
      ensures !ok ==> unchanged(this)
    {
      hide Read, Load, GetItems, Get, RestoreFreeze, NumberField;
      if blob == "" {
        return false;
      }
      var root := Read(blob);
      if root.None? || !root.value.Object? {
        return false;
      }
      var index := new RecallIndex();
      var items := GetItems(root.value, "recall");
      if items.Some? {
        LoadInto(index, items.value, fl);
      }
      var all := Restored(root.value, fl);
      turn, freeze, reduced, recall := all.turn, all.freeze, false, index;
      ok := true;
    }
  }

  method LoadInto(index: RecallIndex, items: seq<Json>, fl: Floats)
    requires index.Valid()
    modifies index
    ensures index.Valid() && index.Table() == Load(items, old(index.Table()), fl)
  {
    var i := 0;
    while i < |items|
      invariant 0 <= i <= |items| && index.Valid()
      invariant Load(items, old(index.Table()), fl) == Load(items[i..], index.Table(), fl)
    {
      assert items[i..][1..] == items[i + 1..] && items[i..][0] == items[i];
      LoadEntry(index, items[i], fl);
      i := i + 1;
    }
  }

  method LoadEntry(index: RecallIndex, item: Json, fl: Floats)
    requires index.Valid()
    modifies index
    ensures index.Valid() && index.Table() == Loaded(old(index.Table()), item, fl)
  {
    var k := StringField(item, "k");
    if k.None? || k.value == "" {
      return;
    }
    index.Add(k.value);
    var t := Get(item, "t");
    if t.Some? && t.value.Number? {
      index.SetLastTurn(k.value, Whole(t.value.num, fl));
    }
  }
}
