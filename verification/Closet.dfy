/** The Coordinate Closet of closet.go: a bounded block that carries identifiers forward, in an order that
    depends on nothing but what is in the set. What counts as a secret is a predicate nothing here looks into. */
module Closet {
  import opened Basics
  import opened Coordinates
  import opened Sorting

  const DEFAULT_BUDGET := 2048
  const DEFAULT_RATIO := 100

  const HEADER := "Coordinate Closet (conserved from folded turns):\n"
  const HEADER_PARTIAL := "Coordinate Closet (partial" + " \U{e2}\U{80}\U{94} some identifiers omitted, raise budget):\n"
  const DIVIDER := "  -- user-supplied (untrusted) --\n"
  const NOTE := "  [...additional identifiers omitted...]\n"

  /** `redact` is IsSecret on the value under the denylist, or labelIsSensitive on the label. */
  datatype Config = Config(enabled: bool, budgetBytes: int, maxRatioPct: int, redact: (string, string) -> bool)

  datatype Evict = EvictNone | EvictFail

  // ---- the order ----

  function LaneRank(l: Lane): int {
    if l.Agent? then 0 else 1
  }

  /** entryLess. */
  predicate Less(x: Coord, y: Coord) {
    if x.prov.lane != y.prov.lane then LaneRank(x.prov.lane) < LaneRank(y.prov.lane)
    else if x.name != y.name then Below(x.name, y.name)
    else if x.offset != y.offset then x.offset < y.offset
    else if x.prov.turn != y.prov.turn then x.prov.turn < y.prov.turn
    else if x.prov.call != y.prov.call then x.prov.call < y.prov.call
    else if x.prov.result != y.prov.result then x.prov.result < y.prov.result
    else Below(x.value, y.value)
  }

  /** The order leaves the kind out, and is otherwise total: what ties agrees in everything but its kind. */
  lemma LessTies(x: Coord, y: Coord)
    ensures !(Less(x, y) && Less(y, x))
    ensures Less(x, y) || Less(y, x) || x == y.(kind := x.kind)
  {
    BelowTies(x.name, y.name);
    BelowTies(x.value, y.value);
    hide Below;
  }

  lemma BelowTies(a: string, b: string)
    ensures !(Below(a, b) && Below(b, a)) && (Below(a, b) || Below(b, a) || a == b)
  {
    BelowTotal(a, b);
    if Below(a, b) && Below(b, a) {
      BelowTransitive(a, b, a);
      BelowIrreflexive(a);
    }
    hide Below;
  }

  lemma LessSplits(x: Coord, y: Coord, z: Coord)
    requires Less(x, z)
    ensures Less(x, y) || Less(y, z)
  {
    BelowStrictOrder();
    StrictIsWeak(Below);
  }

  lemma LessOrders(items: seq<Coord>)
    requires Deduped(items)
    ensures WeakOrder(Less) && TotalOn(items, Less)
  {
    hide Less;
    forall x, y | Less(x, y) ensures !Less(y, x) {
      LessTies(x, y);
    }
    forall x, y, z | Less(x, z) ensures Less(x, y) || Less(y, z) {
      LessSplits(x, y, z);
    }
    forall x, y | x in items && y in items ensures Less(x, y) || Less(y, x) || x == y {
      LessTies(x, y);
    }
  }

  // ---- the text ----

  function Line(c: Coord, cfg: Config): string {
    var suffix := if c.prov.lane.User? then " (untrusted)" else "";
    (if cfg.redact(c.value, c.name) then "  [redacted:" + c.name + "]" else "  " + c.value)
    + " \U{e2}\U{9f}\U{a6}" + c.name + "\U{e2}\U{9f}\U{a7}" + suffix + "\n"
  }

  function Divider(c: Coord, divided: bool): string {
    if c.prov.lane.User? && !divided then DIVIDER else ""
  }

  /** The lines of some entries, a divider ahead of the first user entry unless there is one already. */
  function Lines(items: seq<Coord>, divided: bool, cfg: Config): string {
    if items == [] then ""
    else Divider(items[0], divided) + Line(items[0], cfg) + Lines(items[1..], divided || items[0].prov.lane.User?, cfg)
  }

  /** How many entries fit when `total` bytes are spent; room for the note is always kept. */
  function Fit(items: seq<Coord>, divided: bool, total: int, cap: int, cfg: Config): (n: nat)
    ensures n <= |items|
  {
    if items == [] then 0
    else
      var add := |Divider(items[0], divided)| + |Line(items[0], cfg)|;
      if total + add + |NOTE| + 1 > cap then 0
      else 1 + Fit(items[1..], divided || items[0].prov.lane.User?, total + add, cap, cfg)
  }

  function Cap(cfg: Config, rawLen: int): int {
    var budget := if cfg.budgetBytes <= 0 then DEFAULT_BUDGET else cfg.budgetBytes;
    var ratio := if cfg.maxRatioPct <= 0 then DEFAULT_RATIO else cfg.maxRatioPct;
    var ratioCap := if ratio < 100 then rawLen * ratio / 100 else rawLen;
    if ratioCap < budget then ratioCap else budget
  }

  function InOrder(items: seq<Coord>): seq<Coord> {
    Sort(items, Less)
  }

  function Shown(items: seq<Coord>, cfg: Config, rawLen: int): (n: nat)
    ensures n <= |items|
  {
    Fit(InOrder(items), false, |HEADER_PARTIAL|, Cap(cfg, rawLen), cfg)
  }

  function Render(items: seq<Coord>, cfg: Config, rawLen: int): (string, Evict) {
    if items == [] || !cfg.enabled then ("", EvictNone)
    else
      var n := Shown(items, cfg, rawLen);
      var lines := Lines(InOrder(items)[..n], false, cfg);
      if n == 0 then ("", EvictFail)
      else if n < |items| then (HEADER_PARTIAL + lines + NOTE, EvictFail)
      else (HEADER + lines, EvictNone)
  }

  // ---- deterministic ----

  lemma DedupedIsASet(a: seq<Coord>, b: seq<Coord>)
    requires Deduped(a) && multiset(a) == multiset(b)
    ensures TotalOn(InOrder(a), Less)
  {
    LessOrders(a);
    forall x, y | x in InOrder(a) && y in InOrder(a) ensures Less(x, y) || Less(y, x) || x == y {
      assert x in multiset(InOrder(a)) && y in multiset(InOrder(a));
    }
  }

  /** The rendered block depends on the set alone, not on the order its entries were added in. */
  lemma RenderIsOrderFree(a: seq<Coord>, b: seq<Coord>, cfg: Config, rawLen: int)
    requires Deduped(a) && multiset(a) == multiset(b)
    ensures Render(a, cfg, rawLen) == Render(b, cfg, rawLen)
  {
    LessOrders(a);
    SortSorted(a, Less);
    SortSorted(b, Less);
    DedupedIsASet(a, b);
    SortedUnique(InOrder(a), InOrder(b), Less);
    assert |multiset(a)| == |a| && |multiset(b)| == |b|;
    hide Fit, Lines, Less, Cap, Deduped;
  }

  // ---- bounded ----

  lemma LinesStep(items: seq<Coord>, divided: bool, n: nat, cfg: Config)
    requires n < |items|
    ensures |Lines(items[..n + 1], divided, cfg)| == |Divider(items[0], divided)| + |Line(items[0], cfg)|
            + |Lines(items[1..][..n], divided || items[0].prov.lane.User?, cfg)|
  {
    assert items[..n + 1][1..] == items[1..][..n];
    hide Divider, Line;
  }

  lemma FitStep(items: seq<Coord>, divided: bool, total: int, cap: int, cfg: Config)
    requires items != []
    ensures var add := |Divider(items[0], divided)| + |Line(items[0], cfg)|;
            Fit(items, divided, total, cap, cfg) ==
            if total + add + |NOTE| + 1 > cap then 0
            else 1 + Fit(items[1..], divided || items[0].prov.lane.User?, total + add, cap, cfg)
  {
    hide Divider, Line;
  }

  lemma FitNothing(divided: bool, total: int, cap: int, cfg: Config)
    ensures Fit([], divided, total, cap, cfg) == 0
  {
  }

  lemma {:induction false} FitIsWithin(items: seq<Coord>, divided: bool, total: int, cap: int, cfg: Config)
    ensures var n := Fit(items, divided, total, cap, cfg);
            && (n > 0 ==> total + |Lines(items[..n], divided, cfg)| + |NOTE| + 1 <= cap)
            && (n < |items| ==> total + |Lines(items[..n + 1], divided, cfg)| + |NOTE| + 1 > cap)
  {
    hide *;
    if items == [] {
      FitNothing(divided, total, cap, cfg);
    } else {
      var later := divided || items[0].prov.lane.User?;
      var add := |Divider(items[0], divided)| + |Line(items[0], cfg)|;
      var n := Fit(items, divided, total, cap, cfg);
      FitStep(items, divided, total, cap, cfg);
      NoLines(items[1..], later, cfg);
      if n > 0 {
        LinesStep(items, divided, n - 1, cfg);
        FitIsWithin(items[1..], later, total + add, cap, cfg);
      }
      if n < |items| {
        LinesStep(items, divided, n, cfg);
      }
    }
  }

  lemma NoLines(items: seq<Coord>, divided: bool, cfg: Config)
    ensures Lines(items[..0], divided, cfg) == ""
  {
  }

  /** For a source of any length the block is within the smaller of budget and ratio. */
  lemma RenderIsBounded(items: seq<Coord>, cfg: Config, rawLen: nat)
    ensures |Render(items, cfg, rawLen).0| <= Cap(cfg, rawLen)
  {
    var n := Shown(items, cfg, rawLen);
    FitIsWithin(InOrder(items), false, |HEADER_PARTIAL|, Cap(cfg, rawLen), cfg);
    assert |HEADER| <= |HEADER_PARTIAL|;
    hide Fit, Lines, Sort;
  }

  // ---- nothing silently lost ----

  predicate Agents(items: seq<Coord>) {
    forall c <- items :: c.prov.lane.Agent?
  }

  predicate Users(items: seq<Coord>) {
    forall c <- items :: c.prov.lane.User?
  }

  /** The plain lines, one entry after another. */
  function Plain(items: seq<Coord>, cfg: Config): string {
    if items == [] then "" else Line(items[0], cfg) + Plain(items[1..], cfg)
  }

  lemma LinesHead(items: seq<Coord>, divided: bool, cfg: Config)
    requires items != []
    ensures Divider(items[0], divided) == if items[0].prov.lane.User? && !divided then DIVIDER else ""
    ensures Lines(items, divided, cfg) ==
            Divider(items[0], divided) + Line(items[0], cfg) + Lines(items[1..], divided || items[0].prov.lane.User?, cfg)
  {
    hide Line;
  }

  lemma PlainHead(items: seq<Coord>, cfg: Config)
    requires items != []
    ensures Plain(items, cfg) == Line(items[0], cfg) + Plain(items[1..], cfg)
  {
    hide Line;
  }

  lemma Bare(s: string)
    ensures "" + s == s
  {
  }

  lemma {:induction false} UserLines(items: seq<Coord>, cfg: Config)
    requires Users(items)
    ensures Lines(items, true, cfg) == Plain(items, cfg)
    ensures Lines(items, false, cfg) == if items == [] then "" else DIVIDER + Plain(items, cfg)
  {
    if items != [] {
      assert items[0] in items && forall c <- items[1..] :: c in items;
      UserLines(items[1..], cfg);
      var l, rest := Line(items[0], cfg), Plain(items[1..], cfg);
      LinesHead(items, true, cfg);
      LinesHead(items, false, cfg);
      PlainHead(items, cfg);
      hide *;
      Bare(l);
      Assoc(DIVIDER, l, rest);
    }
  }

  lemma {:induction false} AgentLines(agents: seq<Coord>, users: seq<Coord>, cfg: Config)
    requires Agents(agents)
    ensures Lines(agents + users, false, cfg) == Plain(agents, cfg) + Lines(users, false, cfg)
  {
    if agents == [] {
      assert agents + users == users && Plain(agents, cfg) == "";
      Bare(Lines(users, false, cfg));
    } else {
      assert agents[0] in agents && forall c <- agents[1..] :: c in agents;
      assert (agents + users)[1..] == agents[1..] + users;
      AgentLines(agents[1..], users, cfg);
      LinesHead(agents + users, false, cfg);
      PlainHead(agents, cfg);
      hide *;
      Bare(Line(agents[0], cfg));
      Assoc(Line(agents[0], cfg), Plain(agents[1..], cfg), Lines(users, false, cfg));
    }
  }

  /** Where the user's entries begin. */
  function Agented(items: seq<Coord>): (m: nat)
    ensures m <= |items| && (m < |items| ==> items[m].prov.lane.User?)
    ensures Agents(items[..m])
  {
    if items == [] || items[0].prov.lane.User? then 0
    else
      var m := 1 + Agented(items[1..]);
      assert items[..m] == [items[0]] + items[1..][..m - 1];
      m
  }

  /** The lines of a front of the ordered set: the agent's, then one divider and the user's if there are any. */
  lemma OneDivider(items: seq<Coord>, n: nat, cfg: Config)
    requires n <= |items|
    ensures var front, m := InOrder(items)[..n], Agented(InOrder(items)[..n]);
            && Agents(front[..m]) && Users(front[m..])
            && Lines(front, false, cfg) == Plain(front[..m], cfg) + (if m == n then "" else DIVIDER + Plain(front[m..], cfg))
  {
    var front := InOrder(items)[..n];
    var m := Agented(front);
    AgentsFirst(items, n);
    assert front == front[..m] + front[m..];
    hide InOrder, Lines, Plain, Agented, Agents, Users;
    AgentLines(front[..m], front[m..], cfg);
    UserLines(front[m..], cfg);
  }

  lemma AgentsFirst(items: seq<Coord>, n: nat)
    requires n <= |items|
    ensures var front, m := InOrder(items)[..n], Agented(InOrder(items)[..n]);
            Agents(front[..m]) && Users(front[m..])
  {
    var sorted, front := InOrder(items), InOrder(items)[..n];
    var m := Agented(front);
    LessIsWeak();
    SortSorted(items, Less);
    hide Sort;
    forall i | m <= i < n ensures front[i].prov.lane.User? {
      if i > m {
        assert !Less(sorted[i], sorted[m]);
      }
    }
  }

  lemma LessIsWeak()
    ensures WeakOrder(Less)
  {
    assert Deduped([]);
    LessOrders([]);
  }

  lemma HeadersDiffer()
    ensures |HEADER| > 19 && |HEADER_PARTIAL| > 19 && HEADER[19] != HEADER_PARTIAL[19]
  {
    assert "Coordinate Closet (partial"[19] == 'p';
    assert HEADER[19] == 'c';
  }

  /** Every entry's line is there exactly when nothing was evicted, and an eviction is always announced: by the
      header and the note, or by there being no block at all. The block is cut only where the next entry would
      no longer fit. */
  lemma NothingSilentlyLost(items: seq<Coord>, cfg: Config, rawLen: int)
    requires cfg.enabled && items != []
    ensures var (text, evict) := Render(items, cfg, rawLen);
            var n := Shown(items, cfg, rawLen);
            && (evict == EvictNone <==> text == HEADER + Lines(InOrder(items), false, cfg))
            && (evict == EvictNone <==> n == |items|)
            && (evict == EvictFail <==> text == "" || text == HEADER_PARTIAL + Lines(InOrder(items)[..n], false, cfg) + NOTE)
            && (n < |items| ==>
                  |HEADER_PARTIAL| + |Lines(InOrder(items)[..n + 1], false, cfg)| + |NOTE| + 1 > Cap(cfg, rawLen))
  {
    var sorted, n := InOrder(items), Shown(items, cfg, rawLen);
    FitIsWithin(sorted, false, |HEADER_PARTIAL|, Cap(cfg, rawLen), cfg);
    assert sorted[..|sorted|] == sorted;
    var whole, part := HEADER + Lines(sorted, false, cfg), HEADER_PARTIAL + Lines(sorted[..n], false, cfg) + NOTE;
    HeadersDiffer();
    assert whole[19] == HEADER[19] && part[19] == HEADER_PARTIAL[19];
    hide Fit, Lines, Sort, Cap;
  }

  // ---- the set and the renderer as they run ----

  class CoordSet {
    var items: seq<Coord>
    var seen: set<string>

    ghost predicate Valid()
      reads this
    {
      && Deduped(items)
      && forall l, v :: Key(l, v) in seen <==> Holds(items, v, l)
    }

    constructor ()
      ensures Valid() && items == []
    {
      items, seen := [], {};
    }

    /** The first occurrence is kept; later ones are ignored. */
    method Add(c: Coord)
      requires Valid()
      modifies this
      ensures Valid() && items == With(old(items), c)
    {
      if c.value == "" || Key(c.prov.lane, c.value) in seen {
        return;
      }
      WithFacts(items, c);
      ghost var was := items;
      seen := seen + {Key(c.prov.lane, c.value)};
      items := items + [c];
      forall l, v ensures Key(l, v) in seen <==> Holds(items, v, l) {
        KeyTells(l, v, c.prov.lane, c.value);
        HoldsNext(was, c, v, l);
      }
    }

    /** One place of the scan; the next place to look at comes back. */
    method Place(raw: string, i: nat, prov: Provenance) returns (next: nat)
      requires Valid() && i < |raw|
      modifies this
      ensures Valid() && i < next <= |raw|
      ensures NominatedFrom(items, raw, next, prov) == NominatedFrom(old(items), raw, i, prov)
    {
      hide Valid, NominatedFrom, MatchAt, CoordOf, Boundary;
      next := i + 1;
      if !(i == 0 || Boundary(raw[i - 1])) {
        SkipPlace(items, raw, i, prov);
        return;
      }
      var m := FindMatch(raw[i..]);
      if m.len > 0 {
        TakeHit(items, raw, i, prov);
        Add(CoordOf(raw, Hit(i, m), prov));
        next := i + m.len;
      } else {
        SkipPlace(items, raw, i, prov);
      }
    }

    /** Scans the text and adds what it finds; the number is that of the new entries. */
    method NominateInto(raw: string, prov: Provenance) returns (added: nat)
      requires Valid()
      modifies this
      ensures Valid() && items == Nominated(old(items), raw, prov)
      ensures added == |items| - |old(items)|
    {
      var before, i := |items|, 0;
      while i < |raw|
        invariant i <= |raw| && Valid()
        invariant NominatedFrom(items, raw, i, prov) == Nominated(old(items), raw, prov)
        decreases |raw| - i
      {
        hide *;
        i := Place(raw, i, prov);
      }
      NominationConserves(old(items), raw, prov);
      added := |items| - before;
    }
  }

  function Key(lane: Lane, value: string): string {
    [if lane.Agent? then '0' else '1', 0 as char] + value
  }

  lemma KeyTells(l: Lane, v: string, m: Lane, w: string)
    ensures Key(l, v) == Key(m, w) <==> l == m && v == w
  {
    assert Key(l, v)[2..] == v && Key(m, w)[2..] == w;
    assert Key(l, v)[0] == if l.Agent? then '0' else '1';
  }

  lemma HoldsNext(items: seq<Coord>, c: Coord, value: string, lane: Lane)
    ensures Holds(items + [c], value, lane) <==> Holds(items, value, lane) || (c.value == value && c.prov.lane == lane)
  {
    assert forall x <- items :: x in items + [c];
    assert c in items + [c];
  }

  method RenderCloset(items: seq<Coord>, cfg: Config, rawLen: int) returns (text: string, evict: Evict)
    ensures (text, evict) == Render(items, cfg, rawLen)
  {
    if items == [] || !cfg.enabled {
      return "", EvictNone;
    }
    var cap := Cap(cfg, rawLen);
    var sorted := Sort(items, Less);
    var fit := CountFit(sorted, cap, cfg);
    hide *;
    if fit == 0 {
      return "", EvictFail;
    }
    var body := WriteLines(sorted[..fit], cfg);
    if fit < |sorted| {
      return HEADER_PARTIAL + body + NOTE, EvictFail;
    }
    return HEADER + body, EvictNone;
  }

  method CountFit(sorted: seq<Coord>, cap: int, cfg: Config) returns (fit: nat)
    ensures fit == Fit(sorted, false, |HEADER_PARTIAL|, cap, cfg)
  {
    var total, divided := |HEADER_PARTIAL|, false;
    fit := 0;
    while fit < |sorted|
      invariant fit <= |sorted|
      invariant Fit(sorted, false, |HEADER_PARTIAL|, cap, cfg) == fit + Fit(sorted[fit..], divided, total, cap, cfg)
    {
      hide *;
      FitStep(sorted[fit..], divided, total, cap, cfg);
      assert sorted[fit..][0] == sorted[fit] && sorted[fit..][1..] == sorted[fit + 1..];
      var add := |Divider(sorted[fit], divided)| + |Line(sorted[fit], cfg)|;
      if total + add + |NOTE| + 1 > cap {
        return;
      }
      total := total + add;
      divided := divided || sorted[fit].prov.lane.User?;
      fit := fit + 1;
    }
  }

  method WriteLines(items: seq<Coord>, cfg: Config) returns (text: string)
    ensures text == Lines(items, false, cfg)
  {
    text := "";
    var divided, i := false, 0;
    while i < |items|
      invariant i <= |items|
      invariant Lines(items, false, cfg) == text + Lines(items[i..], divided, cfg)
    {
      assert items[i..][0] == items[i] && items[i..][1..] == items[i + 1..];
      var d, l := Divider(items[i], divided), Line(items[i], cfg);
      ghost var rest := Lines(items[i + 1..], divided || items[i].prov.lane.User?, cfg);
      assert Lines(items[i..], divided, cfg) == d + l + rest;
      AssocFour(text, d, l, rest);
      hide *;
      text := text + d + l;
      divided := divided || items[i].prov.lane.User?;
      i := i + 1;
    }
  }
}
