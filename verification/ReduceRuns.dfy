/** Reduce over the turns of one conversation: an append-only transcript, one configuration, the fold as the
    only lever, and the state handed from turn to turn with its provenance flag cleared. The cost guard may
    refuse to pin, and then the freeze promises less than it does alone. */
module ReduceRuns {
  import opened Basics
  import opened JsonTree
  import opened Fold
  import opened Reduce
  import Compress
  import JsonPrinter

  datatype Request = Request(messages: seq<Json>, system: string, hint: string)

  ghost predicate FoldOnly(seam: Seam, cfg: Reduce.Config) {
    SeamOn(seam, cfg) && cfg.historyFold && !cfg.compress && !cfg.measureOnly
  }

  ghost predicate Growing(reqs: seq<Request>) {
    forall i, j | 0 <= i <= j < |reqs| :: reqs[i].messages <= reqs[j].messages
  }

  /** The run starts without a freeze, or with one pinned on an earlier state of the same transcript. */
  ghost predicate Resumes(reqs: seq<Request>, cfg: Reduce.Config, start: Freeze) {
    start.active && reqs != [] ==>
      exists before :: before <= reqs[0].messages && Pinned(before, Opened(cfg), start)
  }

  function Call(r: Request, seam: Seam, cfg: Reduce.Config, fz: Freeze): (Result, Option<State>) {
    Reduce.Reduce(r.messages, r.system, r.hint, seam, cfg, Some(State(fz, false)))
  }

  /** The freeze in the state before turn n. */
  function FreezeBefore(reqs: seq<Request>, seam: Seam, cfg: Reduce.Config, start: Freeze, n: nat): Freeze
    requires n <= |reqs|
  {
    if n == 0 then start else Call(reqs[n - 1], seam, cfg, FreezeBefore(reqs, seam, cfg, start, n - 1)).1.value.freeze
  }

  /** What turn n publishes. */
  function Published(reqs: seq<Request>, seam: Seam, cfg: Reduce.Config, start: Freeze, n: nat): Option<seq<Json>>
    requires n < |reqs|
  {
    Call(reqs[n], seam, cfg, FreezeBefore(reqs, seam, cfg, start, n)).0.messages
  }

  /** The guard lets this turn pin. */
  predicate Allowed(msgs: seq<Json>, cfg: Reduce.Config) {
    !cfg.guard || GuardAllows(cfg.rates, Foldable(msgs, cfg), cfg.horizon)
  }

  function Opened(cfg: Reduce.Config): Fold.Config {
    cfg.fold.(enabled := true)
  }

  /** Where a call splits, -1 when it does not fold. */
  function SplitOf(msgs: seq<Json>, cfg: Reduce.Config, fz: Freeze): (s: int)
    ensures -1 <= s < |msgs|
  {
    if FoldRuns(msgs, cfg) then Boundary(msgs, Opened(cfg), if Allowed(msgs, cfg) then fz else COLD) else -1
  }

  function SplitAt(reqs: seq<Request>, seam: Seam, cfg: Reduce.Config, start: Freeze, n: nat): (s: int)
    requires n < |reqs|
    ensures -1 <= s < |reqs[n].messages|
  {
    SplitOf(reqs[n].messages, cfg, FreezeBefore(reqs, seam, cfg, start, n))
  }

  // ---- one call ----

  /** A call publishes the view at its boundary, hint behind it, and remembers it when the guard allows. */
  lemma OneCall(r: Request, seam: Seam, cfg: Reduce.Config, fz: Freeze)
    requires FoldOnly(seam, cfg)
    ensures var (res, st) := Call(r, seam, cfg, fz);
            var s := SplitOf(r.messages, cfg, fz);
            && st.Some?
            && res.messages == (if s < 0 then None
                                else Some(ViewAt(r.messages, Opened(cfg), s)
                                          + Notice(r.hint, cfg, Some(State(fz, false)))))
            && st.value.freeze == if s >= 0 && Allowed(r.messages, cfg) then FoldView(r.messages, Opened(cfg), fz).1 else fz
  {
    hide Foldable, GuardAllows, ViewAt, Boundary, Notice, Reusable, UserText;
  }

  // ---- what growing does to the gates ----

  lemma {:induction false} TotalLengthJoins(a: seq<Json>, b: seq<Json>)
    ensures TotalLength(a + b) == TotalLength(a) + TotalLength(b)
  {
    if a == [] {
      assert a + b == b;
    } else {
      assert (a + b)[1..] == a[1..] + b;
      TotalLengthJoins(a[1..], b);
    }
  }

  lemma FoldableGrows(before: seq<Json>, msgs: seq<Json>, cfg: Reduce.Config)
    requires before <= msgs
    ensures Foldable(before, cfg) <= Foldable(msgs, cfg)
  {
    var r := cfg.fold.Retained();
    if |before| > r {
      var n, m := |before| - r, |msgs| - r;
      assert msgs[..m] == before[..n] + msgs[n..m];
      TotalLengthJoins(before[..n], msgs[n..m]);
    }
  }

  /** Once the fold runs it keeps running, and once the guard refuses it keeps refusing. */
  lemma GatesOnlyMoveOnce(before: seq<Json>, msgs: seq<Json>, cfg: Reduce.Config)
    requires before <= msgs
    ensures FoldRuns(before, cfg) ==> FoldRuns(msgs, cfg)
    ensures Allowed(msgs, cfg) ==> Allowed(before, cfg)
  {
    FoldableGrows(before, msgs, cfg);
    hide Foldable, FavorableRates;
  }

  // ---- the boundary of a single turn ----

  /** A place a fold may have split at. */
  ghost predicate Splits(msgs: seq<Json>, cfg: Fold.Config, s: int) {
    !TooShort(msgs, cfg) && cfg.MinFold() <= s <= |msgs| - cfg.Retained() && IsCleanUserTurn(msgs[s])
  }

  /** No later clean user turn is far enough from the end. */
  predicate NoneBehind(msgs: seq<Json>, cfg: Fold.Config, s: nat) {
    forall k | s < k <= |msgs| - cfg.Retained() :: !IsCleanUserTurn(msgs[k])
  }

  lemma SplitsLater(before: seq<Json>, msgs: seq<Json>, cfg: Fold.Config, s: int)
    requires before <= msgs && Splits(before, cfg, s)
    ensures Splits(msgs, cfg, s)
  {
    assert msgs[s] == before[s];
    hide IsCleanUserTurn;
  }

  /** A boundary derived afresh stands at an earlier one or behind it, and behind it exactly when there is a
      later clean user turn to stand at. */
  lemma FreshBoundary(msgs: seq<Json>, cfg: Fold.Config, s: int)
    requires cfg.enabled && Splits(msgs, cfg, s)
    ensures var t := Boundary(msgs, cfg, COLD);
            s <= t && Splits(msgs, cfg, t) && (t == s <==> NoneBehind(msgs, cfg, s))
  {
    hide IsCleanUserTurn;
  }

  lemma ColdSplits(msgs: seq<Json>, cfg: Fold.Config)
    requires cfg.enabled && Boundary(msgs, cfg, COLD) >= 0
    ensures Splits(msgs, cfg, Boundary(msgs, cfg, COLD))
  {
    hide IsCleanUserTurn;
  }

  /** What a run knows of its freeze: nothing yet, or pinned on some earlier turn. */
  ghost predicate Known(msgs: seq<Json>, cfg: Fold.Config, start: Freeze, fz: Freeze) {
    if fz.active then exists before :: before <= msgs && Pinned(before, cfg, fz) else fz == start
  }

  /** One folding turn under a known freeze. */
  lemma FoldingTurn(msgs: seq<Json>, cfg: Reduce.Config, start: Freeze, fz: Freeze)
    requires Known(msgs, Opened(cfg), start, fz) && SplitOf(msgs, cfg, fz) >= 0
    ensures Splits(msgs, Opened(cfg), SplitOf(msgs, cfg, fz))
    ensures Allowed(msgs, cfg) ==>
              var next := FoldView(msgs, Opened(cfg), fz).1;
              Pinned(msgs, Opened(cfg), next) && next.frozenSplit == SplitOf(msgs, cfg, fz)
  {
    hide Foldable, IsCleanUserTurn, GuardAllows;
    if !Allowed(msgs, cfg) {
      ColdSplits(msgs, Opened(cfg));
    } else {
      FoldPins(msgs, Opened(cfg), fz);
    }
  }

  lemma KnownLater(before: seq<Json>, msgs: seq<Json>, cfg: Fold.Config, start: Freeze, fz: Freeze)
    requires before <= msgs && Known(before, cfg, start, fz)
    ensures Known(msgs, cfg, start, fz)
  {
    hide Pinned;
    if fz.active {
      var first :| first <= before && Pinned(first, cfg, fz);
      assert first <= msgs;
    }
  }

  // ---- the run ----

  lemma {:induction false} RunKnown(reqs: seq<Request>, seam: Seam, cfg: Reduce.Config, start: Freeze, n: nat)
    requires FoldOnly(seam, cfg) && Growing(reqs) && Resumes(reqs, cfg, start) && n < |reqs|
    ensures Known(reqs[n].messages, Opened(cfg), start, FreezeBefore(reqs, seam, cfg, start, n))
  {
    if n > 0 {
      var before, msgs := reqs[n - 1].messages, reqs[n].messages;
      var fz := FreezeBefore(reqs, seam, cfg, start, n - 1);
      RunKnown(reqs, seam, cfg, start, n - 1);
      OneCall(reqs[n - 1], seam, cfg, fz);
      hide Call, FoldOnly, SplitOf, Allowed, Pinned, FoldView;
      if SplitOf(before, cfg, fz) >= 0 {
        FoldingTurn(before, cfg, start, fz);
      }
      KnownLater(before, msgs, Opened(cfg), start, FreezeBefore(reqs, seam, cfg, start, n));
    }
  }

  /** The freeze after a turn: pinned on it when it folds and is allowed, untouched otherwise. */
  lemma TurnPins(reqs: seq<Request>, seam: Seam, cfg: Reduce.Config, start: Freeze, n: nat)
    requires FoldOnly(seam, cfg) && Growing(reqs) && Resumes(reqs, cfg, start) && n < |reqs|
    ensures var s, fz := SplitAt(reqs, seam, cfg, start, n), FreezeBefore(reqs, seam, cfg, start, n + 1);
            && (s >= 0 ==> Splits(reqs[n].messages, Opened(cfg), s))
            && (s >= 0 && Allowed(reqs[n].messages, cfg) ==>
                  Pinned(reqs[n].messages, Opened(cfg), fz) && fz.frozenSplit == s)
            && (s < 0 || !Allowed(reqs[n].messages, cfg) ==> fz == FreezeBefore(reqs, seam, cfg, start, n))
  {
    var fz := FreezeBefore(reqs, seam, cfg, start, n);
    RunKnown(reqs, seam, cfg, start, n);
    OneCall(reqs[n], seam, cfg, fz);
    hide Call, FoldOnly, SplitOf, Allowed, Pinned, FoldView, Splits, Known, Growing;
    if SplitOf(reqs[n].messages, cfg, fz) >= 0 {
      FoldingTurn(reqs[n].messages, cfg, start, fz);
    }
  }

  /** From a folding turn to the next, both allowed. */
  lemma NextAllowed(reqs: seq<Request>, seam: Seam, cfg: Reduce.Config, start: Freeze, n: nat)
    requires FoldOnly(seam, cfg) && Growing(reqs) && Resumes(reqs, cfg, start) && n + 1 < |reqs|
    requires SplitAt(reqs, seam, cfg, start, n) >= 0 && Allowed(reqs[n + 1].messages, cfg)
    ensures var (a, b) := (FreezeBefore(reqs, seam, cfg, start, n + 1), FreezeBefore(reqs, seam, cfg, start, n + 2));
            var (s, t) := (SplitAt(reqs, seam, cfg, start, n), SplitAt(reqs, seam, cfg, start, n + 1));
            Allowed(reqs[n].messages, cfg) && s <= t && b.epochs == a.epochs + if s < t then 1 else 0
  {
    var before, msgs := reqs[n].messages, reqs[n + 1].messages;
    var a := FreezeBefore(reqs, seam, cfg, start, n + 1);
    GatesOnlyMoveOnce(before, msgs, cfg);
    TurnPins(reqs, seam, cfg, start, n);
    TurnFolds(before, msgs, cfg, a);
    OneCall(reqs[n + 1], seam, cfg, a);
    hide Call, FoldOnly, SplitOf, Allowed, Pinned, FoldView, Splits, Growing;
  }

  lemma TurnFolds(before: seq<Json>, msgs: seq<Json>, cfg: Reduce.Config, fz: Freeze)
    requires before <= msgs && Pinned(before, Opened(cfg), fz) && Allowed(msgs, cfg) && FoldRuns(msgs, cfg)
    ensures var t, next := SplitOf(msgs, cfg, fz), FoldView(msgs, Opened(cfg), fz).1;
            && fz.frozenSplit <= t
            && next.epochs == fz.epochs + if fz.frozenSplit < t then 1 else 0
  {
    PinnedTurn(before, msgs, Opened(cfg), fz);
    hide Pinned, FoldRuns, Allowed, Reusable;
  }

  /** Through an allowed turn, every turn since the first that folded was allowed, the boundary only moved on,
      and the epoch counter moved exactly with it. */
  lemma {:induction false} AllowedRun(reqs: seq<Request>, seam: Seam, cfg: Reduce.Config, start: Freeze, i: nat, j: nat)
    requires FoldOnly(seam, cfg) && Growing(reqs) && Resumes(reqs, cfg, start) && i <= j < |reqs|
    requires SplitAt(reqs, seam, cfg, start, i) >= 0 && Allowed(reqs[j].messages, cfg)
    ensures var (a, b) := (FreezeBefore(reqs, seam, cfg, start, i + 1), FreezeBefore(reqs, seam, cfg, start, j + 1));
            var (s, t) := (SplitAt(reqs, seam, cfg, start, i), SplitAt(reqs, seam, cfg, start, j));
            && s <= t && a.epochs <= b.epochs && (a.epochs == b.epochs <==> s == t)
            && (j == i + 1 ==> b.epochs == a.epochs + if s < t then 1 else 0)
    decreases j - i
  {
    hide FreezeBefore, SplitAt, Allowed, FoldOnly;
    if i < j {
      GatesOnlyMoveOnce(reqs[j - 1].messages, reqs[j].messages, cfg);
      AllowedRun(reqs, seam, cfg, start, i, j - 1);
      NextAllowed(reqs, seam, cfg, start, j - 1);
    }
  }

  /** A refused turn derives its boundary afresh and remembers nothing. */
  lemma RefusedTurn(reqs: seq<Request>, seam: Seam, cfg: Reduce.Config, start: Freeze, i: nat, j: nat)
    requires FoldOnly(seam, cfg) && Growing(reqs) && Resumes(reqs, cfg, start) && i <= j < |reqs|
    requires SplitAt(reqs, seam, cfg, start, i) >= 0 && !Allowed(reqs[j].messages, cfg)
    ensures FreezeBefore(reqs, seam, cfg, start, j + 1) == FreezeBefore(reqs, seam, cfg, start, j)
    ensures var (s, t) := (SplitAt(reqs, seam, cfg, start, i), SplitAt(reqs, seam, cfg, start, j));
            s <= t && (s == t <==> NoneBehind(reqs[j].messages, Opened(cfg), s))
  {
    var s := SplitAt(reqs, seam, cfg, start, i);
    TurnPins(reqs, seam, cfg, start, i);
    TurnPins(reqs, seam, cfg, start, j);
    GatesOnlyMoveOnce(reqs[i].messages, reqs[j].messages, cfg);
    hide FreezeBefore, Allowed, FoldOnly, Splits, Growing, NoneBehind, Boundary, Pinned;
    SplitsLater(reqs[i].messages, reqs[j].messages, Opened(cfg), s);
    FreshBoundary(reqs[j].messages, Opened(cfg), s);
  }

  // ---- the rendered prefix says how many messages it stands for ----

  const FOLDED := "[folded "

  /** The head of every skeleton: the number of folded messages in decimal, up to a blank. */
  ghost predicate Counted(skeleton: seq<Json> -> string) {
    forall p :: exists rest :: skeleton(p) == FOLDED + JsonPrinter.Decimal(|p|) + (" " + rest)
  }

  predicate Digits(s: string) {
    forall c <- s :: '0' <= c <= '9'
  }

  lemma {:induction false} DecimalDigits(n: nat)
    ensures Digits(JsonPrinter.Decimal(n))
  {
    if n >= 10 {
      DecimalDigits(n / 10);
    }
  }

  lemma DigitAt(a: string, x: string, k: nat)
    requires Digits(a) && k < |a|
    ensures (a + x)[k] != ' '
  {
    assert (a + x)[k] == a[k] && a[k] in a;
  }

  lemma BlankBehind(a: string, b: string, x: string, y: string)
    requires Digits(b) && a + (" " + x) == b + (" " + y)
    ensures |b| <= |a|
  {
    assert (a + (" " + x))[|a|] == ' ';
    if |a| < |b| {
      DigitAt(b, " " + y, |a|);
    }
  }

  lemma UpToBlank(a: string, b: string, x: string, y: string)
    requires Digits(a) && Digits(b) && FOLDED + a + (" " + x) == FOLDED + b + (" " + y)
    ensures a == b
  {
    var s, t := a + (" " + x), b + (" " + y);
    assert FOLDED + a + (" " + x) == FOLDED + s && FOLDED + b + (" " + y) == FOLDED + t;
    assert s == (FOLDED + s)[|FOLDED|..] && t == (FOLDED + t)[|FOLDED|..];
    BlankBehind(a, b, x, y);
    BlankBehind(b, a, y, x);
    assert a == s[..|a|] && b == t[..|b|];
  }

  lemma CountsDiffer(m: nat, n: nat, x: string, y: string)
    requires FOLDED + JsonPrinter.Decimal(m) + (" " + x) == FOLDED + JsonPrinter.Decimal(n) + (" " + y)
    ensures m == n
  {
    DecimalDigits(m);
    DecimalDigits(n);
    JsonPrinter.DecimalReads(m);
    JsonPrinter.DecimalReads(n);
    hide *;
    UpToBlank(JsonPrinter.Decimal(m), JsonPrinter.Decimal(n), x, y);
  }

  lemma SkeletonsDiffer(skeleton: seq<Json> -> string, p: seq<Json>, q: seq<Json>)
    requires Counted(skeleton) && |p| != |q|
    ensures skeleton(p) != skeleton(q)
  {
    hide JsonPrinter.Decimal;
    var x :| skeleton(p) == FOLDED + JsonPrinter.Decimal(|p|) + (" " + x);
    var y :| skeleton(q) == FOLDED + JsonPrinter.Decimal(|q|) + (" " + y);
    if skeleton(p) == skeleton(q) {
      CountsDiffer(|p|, |q|, x, y);
    }
  }

  // ---- two published views ----

  lemma SamePrefix<T>(head: seq<T>, a: seq<T>, b: seq<T>)
    ensures head + a <= head + b <==> a <= b
  {
    if head + a <= head + b {
      assert a == (head + a)[|head|..] && b == (head + b)[|head|..];
      assert forall k | 0 <= k < |a| :: a[k] == (head + a)[|head| + k] && b[k] == (head + b)[|head| + k];
    }
  }

  /** At one boundary the earlier view is the beginning of the later one exactly when what was put behind it
      is what the transcript went on with. */
  lemma ViewsAtOneSplit(before: seq<Json>, msgs: seq<Json>, cfg: Fold.Config, s: nat, m: seq<Json>, n: seq<Json>)
    requires before <= msgs && s <= |before|
    ensures ViewAt(before, cfg, s) + m <= ViewAt(msgs, cfg, s) + n <==> m <= msgs[|before|..] + n
  {
    var rest := msgs[|before|..];
    assert before[..s] == msgs[..s];
    assert msgs[s..] == before[s..] + rest;
    var view := ViewAt(before, cfg, s);
    assert ViewAt(msgs, cfg, s) == view + rest;
    hide ViewAt;
    assert (view + rest) + n == view + (rest + n);
    SamePrefix(view, m, rest + n);
  }

  lemma ViewsAtTwoSplits(before: seq<Json>, msgs: seq<Json>, cfg: Fold.Config, s: nat, t: nat, m: seq<Json>, n: seq<Json>)
    requires Counted(cfg.skeleton) && s <= |before| && t <= |msgs| && s != t
    ensures !(ViewAt(before, cfg, s) + m <= ViewAt(msgs, cfg, t) + n)
  {
    SkeletonsDiffer(cfg.skeleton, before[..s], msgs[..t]);
    hide Counted;
    TextsDiffer(cfg.skeleton(before[..s]), cfg.skeleton(msgs[..t]));
    var u, v := ViewAt(before, cfg, s) + m, ViewAt(msgs, cfg, t) + n;
    assert u[0] == UserText(cfg.skeleton(before[..s])) && v[0] == UserText(cfg.skeleton(msgs[..t]));
  }

  /** What of the earlier request's view must still be in the later transcript besides the fold. */
  predicate NoticeStands(r: Request, later: Request, cfg: Reduce.Config)
    requires |r.messages| <= |later.messages|
  {
    var st := Some(State(COLD, false));
    Notice(r.hint, cfg, st) <= later.messages[|r.messages|..] + Notice(later.hint, cfg, st)
  }

  /** Where the boundary of turn j still is that of turn i: when the guard allows turn j, exactly when the epoch
      did not move; when it refuses, exactly when no clean user turn has come far enough from the end. */
  ghost predicate BoundaryStands(reqs: seq<Request>, seam: Seam, cfg: Reduce.Config, start: Freeze, i: nat, j: nat)
    requires i <= j < |reqs| && SplitAt(reqs, seam, cfg, start, i) >= 0
  {
    if Allowed(reqs[j].messages, cfg) then
      FreezeBefore(reqs, seam, cfg, start, i + 1).epochs == FreezeBefore(reqs, seam, cfg, start, j + 1).epochs
    else NoneBehind(reqs[j].messages, Opened(cfg), SplitAt(reqs, seam, cfg, start, i))
  }

  /** Freeze safety of whole runs of Reduce. Once a turn has published a folded view every later turn does; its
      boundary never moves back; the epoch counter never moves back, and on a turn the guard refuses the freeze
      stays as it was. The earlier view is a prefix of the later one exactly when the boundary stands, which
      equal epochs say only on turns the guard allows, and a hint behind it was not overtaken. */
  lemma ReduceFreezeSafety(reqs: seq<Request>, seam: Seam, cfg: Reduce.Config, start: Freeze, i: nat, j: nat)
    requires FoldOnly(seam, cfg) && Growing(reqs) && Resumes(reqs, cfg, start) && i <= j < |reqs|
    requires Published(reqs, seam, cfg, start, i).Some?
    ensures Published(reqs, seam, cfg, start, j).Some?
    ensures 0 <= SplitAt(reqs, seam, cfg, start, i) <= SplitAt(reqs, seam, cfg, start, j)
    ensures var (a, b) := (FreezeBefore(reqs, seam, cfg, start, j), FreezeBefore(reqs, seam, cfg, start, j + 1));
            if !Allowed(reqs[j].messages, cfg) then b == a
            else i + 1 == j ==>
              (b.epochs == a.epochs + if SplitAt(reqs, seam, cfg, start, i) < SplitAt(reqs, seam, cfg, start, j) then 1 else 0)
    ensures BoundaryStands(reqs, seam, cfg, start, i, j) <==>
              SplitAt(reqs, seam, cfg, start, i) == SplitAt(reqs, seam, cfg, start, j)
    ensures var (u, v) := (Published(reqs, seam, cfg, start, i).value, Published(reqs, seam, cfg, start, j).value);
            && (BoundaryStands(reqs, seam, cfg, start, i, j) && NoticeStands(reqs[i], reqs[j], cfg) ==> u <= v)
            && (Counted(cfg.fold.skeleton) ==>
                  (u <= v <==> BoundaryStands(reqs, seam, cfg, start, i, j) && NoticeStands(reqs[i], reqs[j], cfg)))
  {
    OneCall(reqs[i], seam, cfg, FreezeBefore(reqs, seam, cfg, start, i));
    OneCall(reqs[j], seam, cfg, FreezeBefore(reqs, seam, cfg, start, j));
    hide FreezeBefore, Call, Allowed, FoldOnly, SplitOf, NoneBehind, ViewAt, Counted, Notice;
    if Allowed(reqs[j].messages, cfg) {
      AllowedRun(reqs, seam, cfg, start, i, j);
    } else {
      RefusedTurn(reqs, seam, cfg, start, i, j);
    }
    TwoViews(reqs, seam, cfg, start, i, j);
  }

  lemma TwoViews(reqs: seq<Request>, seam: Seam, cfg: Reduce.Config, start: Freeze, i: nat, j: nat)
    requires FoldOnly(seam, cfg) && Growing(reqs) && i <= j < |reqs|
    requires 0 <= SplitAt(reqs, seam, cfg, start, i) <= SplitAt(reqs, seam, cfg, start, j)
    ensures Published(reqs, seam, cfg, start, i).Some? && Published(reqs, seam, cfg, start, j).Some?
    ensures var (u, v) := (Published(reqs, seam, cfg, start, i).value, Published(reqs, seam, cfg, start, j).value);
            if SplitAt(reqs, seam, cfg, start, i) == SplitAt(reqs, seam, cfg, start, j)
            then u <= v <==> NoticeStands(reqs[i], reqs[j], cfg)
            else Counted(cfg.fold.skeleton) ==> !(u <= v)
  {
    var (a, b) := (FreezeBefore(reqs, seam, cfg, start, i), FreezeBefore(reqs, seam, cfg, start, j));
    var (s, t) := (SplitAt(reqs, seam, cfg, start, i), SplitAt(reqs, seam, cfg, start, j));
    OneCall(reqs[i], seam, cfg, a);
    OneCall(reqs[j], seam, cfg, b);
    NoticeOnlyNeedsState(reqs[i].hint, cfg, State(a, false));
    NoticeOnlyNeedsState(reqs[j].hint, cfg, State(b, false));
    hide FreezeBefore, Call, FoldOnly, SplitOf, ViewAt, Counted, Notice;
    var (m, n) := (Notice(reqs[i].hint, cfg, Some(State(COLD, false))), Notice(reqs[j].hint, cfg, Some(State(COLD, false))));
    if s == t {
      ViewsAtOneSplit(reqs[i].messages, reqs[j].messages, Opened(cfg), s, m, n);
    } else if Counted(cfg.fold.skeleton) {
      ViewsAtTwoSplits(reqs[i].messages, reqs[j].messages, Opened(cfg), s, t, m, n);
    }
  }

  // ---- equal epochs are not enough ----

  /** A guard that is on, and prices under which pinning does not pay. */
  function Unfavourable(): Reduce.Config {
    Reduce.Config(
      true, false, true, false, false, 0, true, 1, Rates(true, 1.0, 1.0, 1.0), false,
      Fold.Config(true, 1, 1, (p: seq<Json>) => FOLDED + JsonPrinter.Decimal(|p|) + (" " + "earlier message(s)"),
                  (p: seq<Json>) => 0),
      Compress.Policy(false, 1, 1, (body: string) => body, (bodies: seq<string>) => ""))
  }

  function TwoTurns(): seq<Request> {
    var u := UserText("u");
    [Request([u, u], "", ""), Request([u, u, u], "", "")]
  }

  /** Two turns of one conversation, published with equal epochs, of which the earlier view is no prefix of the
      later one. */
  lemma GuardedViewMoves(start: Freeze)
    requires !start.active
    ensures var (reqs, cfg) := (TwoTurns(), Unfavourable());
            && FoldOnly(GatewaySeam, cfg) && Growing(reqs) && Counted(cfg.fold.skeleton)
            && Published(reqs, GatewaySeam, cfg, start, 0).Some? && Published(reqs, GatewaySeam, cfg, start, 1).Some?
            && FreezeBefore(reqs, GatewaySeam, cfg, start, 1).epochs == FreezeBefore(reqs, GatewaySeam, cfg, start, 2).epochs
            && !(Published(reqs, GatewaySeam, cfg, start, 0).value <= Published(reqs, GatewaySeam, cfg, start, 1).value)
  {
    FirstTurnFolds(start);
    ExampleCounts();
    ExampleRefuses();
    hide FoldOnly, Growing, Counted, Allowed, NoneBehind, FreezeBefore, Published, SplitAt, NoticeStands, TwoTurns,
         Unfavourable;
    ReduceFreezeSafety(TwoTurns(), GatewaySeam, Unfavourable(), start, 0, 1);
  }

  lemma ExampleRefuses()
    ensures var (reqs, cfg) := (TwoTurns(), Unfavourable());
            && FoldOnly(GatewaySeam, cfg) && Growing(reqs) && |reqs| == 2
            && !Allowed(reqs[1].messages, cfg) && !NoneBehind(reqs[1].messages, Opened(cfg), 1)
  {
    var u := UserText("u");
    CleanUser("u");
    Refused([u, u, u], "u");
    assert [u, u] <= [u, u, u];
    SecondTurnMovesOn(u);
    hide Allowed, NoneBehind, IsCleanUserTurn, UserText;
  }

  lemma ExampleCounts()
    ensures Counted(Unfavourable().fold.skeleton)
  {
    var skeleton := Unfavourable().fold.skeleton;
    forall p ensures exists rest :: skeleton(p) == FOLDED + JsonPrinter.Decimal(|p|) + (" " + rest) {
      assert skeleton(p) == FOLDED + JsonPrinter.Decimal(|p|) + (" " + "earlier message(s)");
    }
  }

  lemma Refused(msgs: seq<Json>, text: string)
    requires |msgs| >= 2 && msgs[0] == UserText(text)
    ensures !Allowed(msgs, Unfavourable()) && FoldRuns(msgs, Unfavourable())
  {
    var head := msgs[..|msgs| - 1];
    assert head[0] == msgs[0];
    UserTextIsLong(text);
    hide JsonPrinter.Print;
    assert TotalLength(head) >= 4;
  }

  lemma UserTextIsLong(text: string)
    ensures |JsonPrinter.Print(UserText(text))| >= 4
  {
    assert JsonPrinter.Print(UserText(text)) == "{" + JsonPrinter.PrintFields(UserText(text).fields);
    assert |JsonPrinter.Escape("role")| >= 2;
  }

  lemma FirstTurnFolds(start: Freeze)
    requires !start.active
    ensures var reqs, cfg := TwoTurns(), Unfavourable();
            && SplitAt(reqs, GatewaySeam, cfg, start, 0) == 1
            && Published(reqs, GatewaySeam, cfg, start, 0).Some?
  {
    var reqs, cfg := TwoTurns(), Unfavourable();
    var u := UserText("u");
    CleanUser("u");
    Refused([u, u], "u");
    OneCall(reqs[0], GatewaySeam, cfg, start);
    hide Call, IsCleanUserTurn, Allowed, FoldRuns, ViewAt, Notice, UserText;
    assert Boundary([u, u], Opened(cfg), COLD) == 1;
  }

  lemma SecondTurnMovesOn(u: Json)
    requires IsCleanUserTurn(u)
    ensures !NoneBehind([u, u, u], Opened(Unfavourable()), 1)
  {
    hide IsCleanUserTurn;
    assert IsCleanUserTurn([u, u, u][2]);
  }

  lemma NoticeOnlyNeedsState(hint: string, cfg: Reduce.Config, st: State)
    ensures Notice(hint, cfg, Some(st)) == Notice(hint, cfg, Some(State(COLD, false)))
  {
  }
}
