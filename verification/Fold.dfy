/** The fold of fold.go and its freeze: where a transcript may be split, when a pinned boundary is reused,
    and what the emitted view consists of. The rendering of the folded prefix and its digest are
    functions of the prefix that nothing here looks into. */
module Fold {
  import opened Basics
  import opened JsonTree
  import opened Repair
  import opened RepairProofs

  const DEFAULT_RETAINED: nat := 8
  const DEFAULT_MIN_FOLD: nat := 4
  const DEFAULT_TAIL_CAP: nat := 24

  const ACK := "Understood \U{e2}\U{80}\U{94} continuing from the folded summary above."

  /** A user turn that carries no tool result: the only place a fold may split. */
  predicate IsCleanUserTurn(m: Json) {
    && Role(m) == "user"
    && match Get(m, "content")
       case Some(String(_)) => true
       case Some(Array(items)) => forall b <- items :: Type(b) != "tool_result"
       case _ => false
  }

  /** `skeleton` renders a folded prefix, `digest` fingerprints it. */
  datatype Config = Config(
    enabled: bool,
    retainedMsgs: int,
    minFoldMsgs: int,
    skeleton: seq<Json> -> string,
    digest: seq<Json> -> int)
  {
    function Retained(): (n: nat)
      ensures n > 0
    {
      if retainedMsgs <= 0 then DEFAULT_RETAINED else retainedMsgs
    }

    function MinFold(): (n: nat)
      ensures n > 0
    {
      if minFoldMsgs <= 0 then DEFAULT_MIN_FOLD else minFoldMsgs
    }
  }

  datatype Freeze = Freeze(active: bool, frozenSplit: int, tailCapMsgs: int, epochs: int, prefixDigest: int)

  datatype View = View(messages: seq<Json>, split: nat, reused: bool)

  function TailCap(cfg: Config, fz: Freeze): nat {
    var cap := if fz.tailCapMsgs > 0 then fz.tailCapMsgs else DEFAULT_TAIL_CAP;
    if cap < cfg.Retained() then cfg.Retained() else cap
  }

  predicate TooShort(msgs: seq<Json>, cfg: Config) {
    cfg.Retained() >= |msgs| || |msgs| - cfg.Retained() < cfg.MinFold()
  }

  /** The pinned boundary still holds: clean, close enough to the end, and the prefix unchanged. */
  predicate Reusable(msgs: seq<Json>, cfg: Config, fz: Freeze) {
    && fz.active && cfg.MinFold() <= fz.frozenSplit < |msgs| && |msgs| - fz.frozenSplit <= TailCap(cfg, fz)
    && IsCleanUserTurn(msgs[fz.frozenSplit]) && cfg.digest(msgs[..fz.frozenSplit]) == fz.prefixDigest
  }

  /** The last clean user turn in [low, high], or -1. */
  function LastClean(msgs: seq<Json>, low: nat, high: int): (s: int)
    requires high < |msgs|
    ensures s == -1 || (low <= s <= high && IsCleanUserTurn(msgs[s]))
    ensures forall k | low <= k <= high && k > s :: !IsCleanUserTurn(msgs[k])
    decreases high - low + 1
  {
    if high < low then -1 else if IsCleanUserTurn(msgs[high]) then high else LastClean(msgs, low, high - 1)
  }

  function UserText(text: string): Json {
    Object([Field("role", String("user")), Field("content", String(text))])
  }

  function AssistantText(text: string): Json {
    Object([Field("role", String("assistant")), Field("content", String(text))])
  }

  /** The view for one boundary: the rendered prefix, an acknowledgement, the rest verbatim. */
  function ViewAt(msgs: seq<Json>, cfg: Config, split: nat): seq<Json>
    requires split <= |msgs|
  {
    [UserText(cfg.skeleton(msgs[..split])), AssistantText(ACK)] + msgs[split..]
  }

  /** The boundary of this turn, -1 when the view stays unfolded. */
  function Boundary(msgs: seq<Json>, cfg: Config, fz: Freeze): (s: int)
    ensures -1 <= s < |msgs|
  {
    if !cfg.enabled || TooShort(msgs, cfg) then -1
    else if Reusable(msgs, cfg, fz) then fz.frozenSplit
    else LastClean(msgs, cfg.MinFold(), |msgs| - cfg.Retained())
  }

  /** FoldView with a freeze: the view, if any, and the freeze afterwards. */
  function FoldView(msgs: seq<Json>, cfg: Config, fz: Freeze): (Option<View>, Freeze) {
    var s := Boundary(msgs, cfg, fz);
    if s < 0 then (None, fz)
    else
      var reused := Reusable(msgs, cfg, fz);
      var dig := cfg.digest(msgs[..s]);
      var advanced := !reused && (!fz.active || fz.frozenSplit != s || fz.prefixDigest != dig);
      (Some(View(ViewAt(msgs, cfg, s), s, reused)),
       Freeze(true, s, fz.tailCapMsgs, fz.epochs + if advanced then 1 else 0, dig))
  }

  // ---- one turn after another ----

  /** What a pinned freeze knows of the transcript it was pinned on. */
  ghost predicate Pinned(msgs: seq<Json>, cfg: Config, fz: Freeze) {
    && cfg.enabled && !TooShort(msgs, cfg) && fz.active
    && cfg.MinFold() <= fz.frozenSplit <= |msgs| - cfg.Retained()
    && IsCleanUserTurn(msgs[fz.frozenSplit]) && fz.prefixDigest == cfg.digest(msgs[..fz.frozenSplit])
  }

  /** The first fold, and every fold after it, pins. */
  lemma FoldPins(msgs: seq<Json>, cfg: Config, fz: Freeze)
    requires fz.active ==> exists before :: before <= msgs && Pinned(before, cfg, fz)
    requires FoldView(msgs, cfg, fz).0.Some?
    ensures Pinned(msgs, cfg, FoldView(msgs, cfg, fz).1)
  {
    if fz.active {
      var before :| before <= msgs && Pinned(before, cfg, fz);
      assert msgs[..fz.frozenSplit] == before[..fz.frozenSplit];
    }
  }

  /** Once pinned, a longer transcript folds again, at the same boundary or a later one; the epoch counter
      moves exactly when the boundary does. */
  lemma PinnedTurn(before: seq<Json>, msgs: seq<Json>, cfg: Config, fz: Freeze)
    requires Pinned(before, cfg, fz) && before <= msgs
    ensures var (view, next) := FoldView(msgs, cfg, fz);
            && view.Some? && Pinned(msgs, cfg, next) && next.tailCapMsgs == fz.tailCapMsgs
            && view.value.split == next.frozenSplit && view.value.messages == ViewAt(msgs, cfg, next.frozenSplit)
            && fz.frozenSplit <= next.frozenSplit
            && next.epochs == fz.epochs + if fz.frozenSplit < next.frozenSplit then 1 else 0
  {
    var s := fz.frozenSplit;
    assert before[..s] == msgs[..s] && msgs[s] == before[s];
    FoldPins(msgs, cfg, fz);
  }

  /** The view at a fixed boundary grows by exactly what the transcript grew by. */
  lemma ViewGrows(before: seq<Json>, msgs: seq<Json>, cfg: Config, split: nat)
    requires before <= msgs && split <= |before|
    ensures ViewAt(before, cfg, split) <= ViewAt(msgs, cfg, split)
  {
    assert before[..split] == msgs[..split];
    assert msgs[split..] == before[split..] + msgs[|before|..];
  }

  // ---- whole runs ----

  /** The transcript only ever grows. */
  ghost predicate AppendOnly(turns: seq<seq<Json>>) {
    forall i, j | 0 <= i <= j < |turns| :: turns[i] <= turns[j]
  }

  /** The freeze before turn n. */
  function FreezeAt(turns: seq<seq<Json>>, cfg: Config, start: Freeze, n: nat): Freeze
    requires n <= |turns|
  {
    if n == 0 then start else FoldView(turns[n - 1], cfg, FreezeAt(turns, cfg, start, n - 1)).1
  }

  /** What turn n emits. */
  function ViewOf(turns: seq<seq<Json>>, cfg: Config, start: Freeze, n: nat): Option<View>
    requires n < |turns|
  {
    FoldView(turns[n], cfg, FreezeAt(turns, cfg, start, n)).0
  }

  /** Until the first fold the freeze is untouched; from then on it is pinned on the last transcript. */
  lemma {:induction false} RunPinned(turns: seq<seq<Json>>, cfg: Config, start: Freeze, n: nat)
    requires AppendOnly(turns) && !start.active && n <= |turns|
    ensures var fz := FreezeAt(turns, cfg, start, n);
            if fz.active then n > 0 && Pinned(turns[n - 1], cfg, fz) else fz == start
  {
    if n > 0 {
      RunPinned(turns, cfg, start, n - 1);
      var fz := FreezeAt(turns, cfg, start, n - 1);
      if fz.active {
        PinnedTurn(turns[n - 2], turns[n - 1], cfg, fz);
      } else if FoldView(turns[n - 1], cfg, fz).0.Some? {
        FoldPins(turns[n - 1], cfg, fz);
      }
    }
  }

  lemma FoldedIsPinned(turns: seq<seq<Json>>, cfg: Config, start: Freeze, i: nat)
    requires AppendOnly(turns) && !start.active && i < |turns| && ViewOf(turns, cfg, start, i).Some?
    ensures var fz := FreezeAt(turns, cfg, start, i + 1);
            && Pinned(turns[i], cfg, fz) && ViewOf(turns, cfg, start, i).value.split == fz.frozenSplit
            && ViewOf(turns, cfg, start, i).value.messages == ViewAt(turns[i], cfg, fz.frozenSplit)
  {
    RunPinned(turns, cfg, start, i);
    RunPinned(turns, cfg, start, i + 1);
    assert FreezeAt(turns, cfg, start, i + 1).active;
  }

  /** From a folding turn to the next one. */
  lemma NextTurn(turns: seq<seq<Json>>, cfg: Config, start: Freeze, j: nat)
    requires AppendOnly(turns) && !start.active && j + 1 < |turns| && ViewOf(turns, cfg, start, j).Some?
    ensures ViewOf(turns, cfg, start, j + 1).Some?
    ensures var (a, b) := (FreezeAt(turns, cfg, start, j + 1), FreezeAt(turns, cfg, start, j + 2));
            var (u, v) := (ViewOf(turns, cfg, start, j).value, ViewOf(turns, cfg, start, j + 1).value);
            u.split <= v.split && b.epochs == a.epochs + if u.split < v.split then 1 else 0
  {
    FoldedIsPinned(turns, cfg, start, j);
    PinnedTurn(turns[j], turns[j + 1], cfg, FreezeAt(turns, cfg, start, j + 1));
  }

  /** Freeze safety over a whole run of an append-only transcript under one configuration. Once a turn
      folds, every later turn folds; the boundary never moves back; from one turn to the next the epoch
      counter advances exactly when the boundary strictly increases; and between two turns with equal
      epochs the earlier emitted list is a prefix of the later one. */
  lemma {:induction false} FreezeSafety(turns: seq<seq<Json>>, cfg: Config, start: Freeze, i: nat, j: nat)
    requires AppendOnly(turns) && !start.active && i <= j < |turns| && ViewOf(turns, cfg, start, i).Some?
    ensures ViewOf(turns, cfg, start, j).Some?
    ensures var (a, b) := (FreezeAt(turns, cfg, start, i + 1), FreezeAt(turns, cfg, start, j + 1));
            var (u, v) := (ViewOf(turns, cfg, start, i).value, ViewOf(turns, cfg, start, j).value);
            && u.split <= v.split && a.epochs <= b.epochs
            && (j == i + 1 ==> b.epochs == a.epochs + if u.split < v.split then 1 else 0)
            && (a.epochs == b.epochs <==> u.split == v.split)
            && (a.epochs == b.epochs ==> u.messages <= v.messages)
    decreases j - i
  {
    hide ViewOf, FreezeAt, Pinned, ViewAt, AppendOnly;
    if i < j {
      FreezeSafety(turns, cfg, start, i, j - 1);
      NextTurn(turns, cfg, start, j - 1);
      SameSplitPrefix(turns, cfg, start, i, j);
    }
  }

  lemma SameSplitPrefix(turns: seq<seq<Json>>, cfg: Config, start: Freeze, i: nat, j: nat)
    requires AppendOnly(turns) && !start.active && i <= j < |turns|
    requires ViewOf(turns, cfg, start, i).Some? && ViewOf(turns, cfg, start, j).Some?
    ensures var (u, v) := (ViewOf(turns, cfg, start, i).value, ViewOf(turns, cfg, start, j).value);
            u.split == v.split ==> u.messages <= v.messages
  {
    hide ViewOf, FreezeAt, ViewAt;
    FoldedIsPinned(turns, cfg, start, i);
    FoldedIsPinned(turns, cfg, start, j);
    var split := ViewOf(turns, cfg, start, i).value.split;
    assert turns[i] <= turns[j];
    ViewGrows(turns[i], turns[j], cfg, split);
  }

  // ---- the fold keeps tool pairs ----

  /** Nothing a fold could split at stands behind i up to and including j. */
  predicate Tied(msgs: seq<Json>, i: nat, j: nat)
    requires j < |msgs|
  {
    i <= j && forall k | i < k <= j :: !IsCleanUserTurn(msgs[k])
  }

  /** Every call has a result, and every result a call, with no clean user turn after the call up to and
      including the result. */
  ghost predicate PairsTied(msgs: seq<Json>) {
    && (forall i, x | 0 <= i < |msgs| && x in CallsOf(msgs[i]) ::
          exists j | i <= j < |msgs| :: x in ResultsOf(msgs[j]) && Tied(msgs, i, j))
    && (forall j, x | 0 <= j < |msgs| && x in ResultsOf(msgs[j]) ::
          exists i | 0 <= i <= j :: x in CallsOf(msgs[i]) && Tied(msgs, i, j))
  }

  lemma CallAt(msgs: seq<Json>, x: string)
    ensures IsCall(msgs, x) <==> exists i :: 0 <= i < |msgs| && x in CallsOf(msgs[i])
  {
    FlatIn(CallsOf, msgs, x);
  }

  lemma ResultAt(msgs: seq<Json>, x: string)
    ensures IsResult(msgs, x) <==> exists i :: 0 <= i < |msgs| && x in ResultsOf(msgs[i])
  {
    FlatIn(ResultsOf, msgs, x);
  }

  /** Cutting a tied transcript at a clean user turn leaves both ends of every pair on one side. */
  lemma TailPaired(msgs: seq<Json>, s: nat)
    requires s < |msgs| && PairsTied(msgs) && IsCleanUserTurn(msgs[s])
    ensures Paired(msgs[s..])
  {
    hide CallsOf, ResultsOf, IsCleanUserTurn, IsCall, IsResult, PairsTied, Tied;
    forall x ensures IsCall(msgs[s..], x) <==> IsResult(msgs[s..], x) {
      if IsCall(msgs[s..], x) {
        CallHasResult(msgs, s, x);
      }
      if IsResult(msgs[s..], x) {
        ResultHasCall(msgs, s, x);
      }
    }
  }

  lemma CallHasResult(msgs: seq<Json>, s: nat, x: string)
    requires s < |msgs| && PairsTied(msgs) && IsCall(msgs[s..], x)
    ensures IsResult(msgs[s..], x)
  {
    hide CallsOf, ResultsOf, IsCleanUserTurn, IsCall, IsResult, Tied, PairsTied;
    var tail := msgs[s..];
    CallAt(tail, x);
    ResultAt(tail, x);
    var i :| 0 <= i < |tail| && x in CallsOf(tail[i]);
    assert msgs[s + i] == tail[i];
    var j := TiedResult(msgs, s + i, x);
    assert tail[j - s] == msgs[j];
  }

  lemma TiedResult(msgs: seq<Json>, i: nat, x: string) returns (j: nat)
    requires i < |msgs| && PairsTied(msgs) && x in CallsOf(msgs[i])
    ensures i <= j < |msgs| && x in ResultsOf(msgs[j]) && Tied(msgs, i, j)
  {
    hide CallsOf, ResultsOf, Tied;
    j :| i <= j < |msgs| && x in ResultsOf(msgs[j]) && Tied(msgs, i, j);
  }

  lemma TiedCall(msgs: seq<Json>, j: nat, x: string) returns (i: nat)
    requires j < |msgs| && PairsTied(msgs) && x in ResultsOf(msgs[j])
    ensures i <= j && x in CallsOf(msgs[i]) && Tied(msgs, i, j)
  {
    hide CallsOf, ResultsOf, Tied;
    i :| 0 <= i <= j && x in CallsOf(msgs[i]) && Tied(msgs, i, j);
  }

  lemma ResultHasCall(msgs: seq<Json>, s: nat, x: string)
    requires s < |msgs| && PairsTied(msgs) && IsCleanUserTurn(msgs[s]) && IsResult(msgs[s..], x)
    ensures IsCall(msgs[s..], x)
  {
    hide CallsOf, ResultsOf, IsCleanUserTurn, IsCall, IsResult, PairsTied;
    var tail := msgs[s..];
    CallAt(tail, x);
    ResultAt(tail, x);
    var j :| 0 <= j < |tail| && x in ResultsOf(tail[j]);
    assert msgs[s + j] == tail[j];
    var i := TiedCall(msgs, s + j, x);
    assert i >= s;
    assert tail[i - s] == msgs[i];
  }

  lemma TextCarriesNothing(text: string)
    ensures CallsOf(UserText(text)) == [] && ResultsOf(UserText(text)) == []
    ensures CallsOf(AssistantText(text)) == [] && ResultsOf(AssistantText(text)) == []
  {
    hide CallsOf, ResultsOf;
    TextGets("user", text);
    TextGets("assistant", text);
    TextReads(UserText(text));
    TextReads(AssistantText(text));
  }

  lemma TextReads(m: Json)
    requires Get(m, "role") == Some(String("user")) || Get(m, "role") == Some(String("assistant"))
    requires Get(m, "type") == None && Get(m, "tool_calls") == None && GetItems(m, "content") == None
    ensures CallsOf(m) == [] && ResultsOf(m) == []
  {
  }

  lemma TextGets(role: string, text: string)
    ensures var m := Object([Field("role", String(role)), Field("content", String(text))]);
            && Get(m, "role") == Some(String(role)) && Get(m, "content") == Some(String(text))
            && Get(m, "type") == None && Get(m, "tool_calls") == None
  {
    var fields := [Field("role", String(role)), Field("content", String(text))];
    FindUnique(fields, "role", 0);
    FindUnique(fields, "content", 1);
    FindUnique(fields, "type", 2);
    FindUnique(fields, "tool_calls", 2);
  }

  /** When no clean user turn separates a call from its result, the folded view needs no repair: the
      structural check before a request is sent passes. */
  lemma FoldKeepsPairs(msgs: seq<Json>, cfg: Config, fz: Freeze, parses: string -> bool)
    requires PairsTied(msgs) && FoldView(msgs, cfg, fz).0.Some?
    ensures Paired(FoldView(msgs, cfg, fz).0.value.messages)
    ensures Repaired(FoldView(msgs, cfg, fz).0.value.messages, parses).1 == 0
  {
    var s := Boundary(msgs, cfg, fz);
    TailPaired(msgs, s);
    hide CallsOf, ResultsOf, IsCleanUserTurn, Boundary, PairsTied, UserText, AssistantText, Reusable, Paired, Repaired;
    HeadedIsPaired(cfg.skeleton(msgs[..s]), msgs[s..]);
    PairedNeedsNothing([UserText(cfg.skeleton(msgs[..s])), AssistantText(ACK)] + msgs[s..], parses);
  }

  /** The two turns a fold puts in front belong to no pair. */
  lemma HeadedIsPaired(text: string, tail: seq<Json>)
    requires Paired(tail)
    ensures Paired([UserText(text), AssistantText(ACK)] + tail)
  {
    TextCarriesNothing(text);
    TextCarriesNothing(ACK);
    hide CallsOf, ResultsOf, UserText, AssistantText;
    var head := [UserText(text), AssistantText(ACK)];
    assert head[1..] == [AssistantText(ACK)] && head[1..][1..] == [];
    forall x ensures IsCall(head + tail, x) <==> IsCall(tail, x)
             ensures IsResult(head + tail, x) <==> IsResult(tail, x)
    {
      FlatJoin(CallsOf, head, tail);
      FlatJoin(ResultsOf, head, tail);
    }
  }

  // ---- the freeze in place ----

  class FoldFreeze {
    var active: bool
    var frozenSplit: int
    var tailCapMsgs: int
    var epochs: int
    var prefixDigest: int

    function State(): Freeze
      reads this
    {
      Freeze(active, frozenSplit, tailCapMsgs, epochs, prefixDigest)
    }

    constructor (tailCapMsgs: int)
      ensures State() == Freeze(false, 0, tailCapMsgs, 0, 0)
    {
      active, frozenSplit, this.tailCapMsgs, epochs, prefixDigest := false, 0, tailCapMsgs, 0, 0;
    }
  }

  /** FoldView with a non-nil freeze, which it commits only after a view was built. */
  method RunFold(msgs: seq<Json>, cfg: Config, freeze: FoldFreeze) returns (view: Option<View>)
    modifies freeze
    ensures (view, freeze.State()) == FoldView(msgs, cfg, old(freeze.State()))
  {
    hide IsCleanUserTurn, ViewAt, LastClean;
    if !cfg.enabled {
      return None;
    }
    var count, retained, minFold := |msgs|, cfg.Retained(), cfg.MinFold();
    if count <= 0 || retained >= count || count - retained < minFold {
      return None;
    }
    var tailCap := DEFAULT_TAIL_CAP;
    if freeze.tailCapMsgs > 0 {
      tailCap := freeze.tailCapMsgs;
    }
    if tailCap < retained {
      tailCap := retained;
    }
    var split, reused, dig := -1, false, 0;
    if freeze.active {
      var fs := freeze.frozenSplit;
      if minFold <= fs < count && count - fs <= tailCap && IsCleanUserTurn(msgs[fs]) {
        dig := cfg.digest(msgs[..fs]);
        if dig == freeze.prefixDigest {
          split, reused := fs, true;
        }
      }
    }
    if !reused {
      split := FindBoundary(msgs, minFold, count - retained);
      if split < minFold {
        return None;
      }
      dig := cfg.digest(msgs[..split]);
    }
    var arr := BuildView(msgs, cfg, split);
    var advanced := !reused && (!freeze.active || freeze.frozenSplit != split || freeze.prefixDigest != dig);
    freeze.active, freeze.frozenSplit, freeze.prefixDigest := true, split, dig;
    if advanced {
      freeze.epochs := freeze.epochs + 1;
    }
    return Some(View(arr, split, reused));
  }

  /** The backward search for a fresh boundary. */
  method FindBoundary(msgs: seq<Json>, minFold: nat, desired: nat) returns (s: int)
    requires minFold > 0 && desired < |msgs|
    ensures s == LastClean(msgs, minFold, desired) || (s < minFold && LastClean(msgs, minFold, desired) == -1)
  {
    hide IsCleanUserTurn;
    s := desired;
    while s >= minFold && !IsCleanUserTurn(msgs[s])
      invariant s <= desired
      invariant LastClean(msgs, minFold, desired) == LastClean(msgs, minFold, s)
    {
      s := s - 1;
    }
  }

  method BuildView(msgs: seq<Json>, cfg: Config, split: nat) returns (arr: seq<Json>)
    requires split <= |msgs|
    ensures arr == ViewAt(msgs, cfg, split)
  {
    hide UserText, AssistantText;
    arr := [UserText(cfg.skeleton(msgs[..split]))];
    arr := arr + [AssistantText(ACK)];
    for i := split to |msgs|
      invariant arr == [UserText(cfg.skeleton(msgs[..split])), AssistantText(ACK)] + msgs[split..i]
    {
      assert msgs[split..i + 1] == msgs[split..i] + [msgs[i]];
      arr := arr + [msgs[i]];
    }
    assert msgs[split..|msgs|] == msgs[split..];
  }
}
