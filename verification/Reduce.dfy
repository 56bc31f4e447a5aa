/** The orchestrator of reduce.go: which lever runs, what is published, the cost guard on the freeze, the
    provenance flag and the page-table hint behind a folded view. Prices are reals. */
module Reduce {
  import opened Basics
  import opened JsonTree
  import opened Repair
  import opened RepairProofs
  import opened Fold
  import opened Compress
  import G = Gateway
  import JsonPrinter

  const MAX_HORIZON: int := 5

  // ---- the cost guard ----

  datatype Rates = Rates(priced: bool, input: real, write: real, read: real)

  function Horizon(h: int): (n: int)
    ensures 1 <= n <= MAX_HORIZON
  {
    if h <= 0 then 1 else if h > MAX_HORIZON then MAX_HORIZON else h
  }

  predicate FavorableRates(input: real, write: real, read: real, horizon: int) {
    var saving, premium := input - read, write - input;
    saving > 0.0 && (premium <= 0.0 || Horizon(horizon) as real * saving >= premium)
  }

  /** Pinning is worth it exactly when there is a read discount and writing the prefix once and reading it
      back over the horizon costs no more than sending it fresh every time. */
  lemma FavorablePays(input: real, write: real, read: real, horizon: int)
    ensures var n := Horizon(horizon) as real;
            FavorableRates(input, write, read, horizon) <==>
            read < input && write + n * read <= input + n * input
  {
    var n := Horizon(horizon) as real;
    Distributed(n, input, read);
    Kept(n, input - read);
    PaysLinear(input, write, read, n * input, n * read, n * (input - read));
  }

  lemma Distributed(n: real, a: real, b: real)
    ensures n * (a - b) == n * a - n * b
  {
  }

  lemma Kept(n: real, saving: real)
    requires n >= 1.0
    ensures saving > 0.0 ==> n * saving > 0.0
  {
    if saving > 0.0 {
      ScaledSign(n, saving);
    }
  }

  /** With the products named, the rest is linear. */
  lemma PaysLinear(input: real, write: real, read: real, whole: real, back: real, saved: real)
    requires saved == whole - back && (input - read > 0.0 ==> saved > 0.0)
    ensures (input - read > 0.0 && (write - input <= 0.0 || saved >= write - input)) <==>
            (read < input && write + back <= input + whole)
  {
  }

  /** A longer horizon never turns a favourable price unfavourable, and neither do other units of money. */
  lemma FavorableScales(input: real, write: real, read: real, horizon: int, longer: int, unit: real)
    requires unit > 0.0 && horizon <= longer
    ensures FavorableRates(unit * input, unit * write, unit * read, horizon) == FavorableRates(input, write, read, horizon)
    ensures FavorableRates(input, write, read, horizon) ==> FavorableRates(input, write, read, longer)
  {
    var n, m := Horizon(horizon) as real, Horizon(longer) as real;
    var saving, premium := input - read, write - input;
    assert unit * input - unit * read == unit * saving && unit * write - unit * input == unit * premium;
    ScaledPays(unit, saving, premium, n);
    if FavorableRates(input, write, read, horizon) {
      Monotone(n, m, saving);
      Pays(saving, premium, n, m);
    }
  }

  lemma Pays(saving: real, premium: real, n: real, m: real)
    requires n * saving <= m * saving && (premium <= 0.0 || n * saving >= premium)
    ensures premium <= 0.0 || m * saving >= premium
  {
  }

  lemma ScaledPays(unit: real, saving: real, premium: real, n: real)
    requires unit > 0.0
    ensures unit * saving > 0.0 <==> saving > 0.0
    ensures unit * premium <= 0.0 <==> premium <= 0.0
    ensures n * (unit * saving) >= unit * premium <==> n * saving >= premium
  {
    var gap := n * saving - premium;
    assert n * (unit * saving) - unit * premium == unit * gap;
    ScaledSign(unit, saving);
    ScaledSign(unit, premium);
    ScaledSign(unit, gap);
  }

  lemma ScaledSign(unit: real, x: real)
    requires unit > 0.0
    ensures unit * x > 0.0 <==> x > 0.0
    ensures unit * x >= 0.0 <==> x >= 0.0
  {
  }

  lemma Monotone(a: real, b: real, x: real)
    requires a <= b && x >= 0.0
    ensures a * x <= b * x
  {
  }

  predicate GuardAllows(rates: Rates, prefixTokens: int, horizon: int) {
    prefixTokens <= 0 || !rates.priced || FavorableRates(rates.input, rates.write, rates.read, horizon)
  }

  // ---- one call ----

  datatype Seam = GatewaySeam | DelegateSeam

  datatype Config = Config(
    historyFold: bool,
    compress: bool,
    gatewaySeam: bool,
    delegateSeam: bool,
    measureOnly: bool,
    minGainTokens: int,
    guard: bool,
    horizon: int,
    rates: Rates,
    inject: bool,
    fold: Fold.Config,
    policy: Policy)

  datatype State = State(freeze: Freeze, reduced: bool)

  datatype Result = Result(
    messages: Option<seq<Json>>,
    mutated: bool,
    reason: G.Reason,
    baseline: int,
    tokens: int,
    removed: int,
    foldable: int,
    epochs: int,
    guarded: bool)

  predicate SeamOn(seam: Seam, cfg: Config) {
    if seam.GatewaySeam? then cfg.gatewaySeam else cfg.delegateSeam
  }

  function TotalLength(msgs: seq<Json>): nat {
    if msgs == [] then 0 else |JsonPrinter.Print(msgs[0])| + TotalLength(msgs[1..])
  }

  function Foldable(msgs: seq<Json>, cfg: Config): nat {
    var r := cfg.fold.Retained();
    if |msgs| > r then TotalLength(msgs[..|msgs| - r]) / G.CHARS_PER_TOKEN else 0
  }

  /** The freeze the fold is given: none without state, and none when pinning would not pay. */
  function FreezeArg(msgs: seq<Json>, cfg: Config, st: Option<State>): Option<Freeze> {
    if st.None? || (cfg.guard && !GuardAllows(cfg.rates, Foldable(msgs, cfg), cfg.horizon)) then None
    else Some(st.value.freeze)
  }

  const COLD := Freeze(false, 0, 0, 0, 0)

  /** FoldView as it is called: without a freeze the boundary is derived afresh and nothing is remembered. */
  function FoldWith(msgs: seq<Json>, cfg: Fold.Config, fz: Option<Freeze>): (Option<View>, Option<Freeze>) {
    match fz
    case None => (FoldView(msgs, cfg.(enabled := true), COLD).0, None)
    case Some(f) =>
      var (view, next) := FoldView(msgs, cfg.(enabled := true), f);
      (view, Some(next))
  }

  function Compressed(msgs: seq<Json>, cfg: Config): Option<seq<Json>> {
    if cfg.compress && !cfg.measureOnly then CompressView(msgs, cfg.policy.(enabled := true)) else None
  }

  predicate FoldRuns(msgs: seq<Json>, cfg: Config) {
    cfg.historyFold && !cfg.measureOnly && !(cfg.minGainTokens > 0 && Foldable(msgs, cfg) < cfg.minGainTokens)
  }

  /** What the levers leave: the view to publish, and the freeze to remember. */
  function Levers(msgs: seq<Json>, cfg: Config, st: Option<State>): (Option<seq<Json>>, Option<Freeze>) {
    var small := Compressed(msgs, cfg);
    if !FoldRuns(msgs, cfg) then (small, None)
    else
      var work := if small.Some? then small.value else msgs;
      var (view, next) := FoldWith(work, cfg.fold, FreezeArg(msgs, cfg, st));
      (if view.Some? then Some(view.value.messages) else small, next)
  }

  const NOTICE :=
    "[context notice \U{e2}\U{80}\U{94} not from the user] Earlier turns were folded "
    + "out of this transcript. You referenced something that went with "
    + "them; it is PAGEABLE, not lost:\n"

  /** What is put behind a folded view: nothing, or a turn with the hint. */
  function Notice(hint: string, cfg: Config, st: Option<State>): seq<Json> {
    if st.Some? && cfg.inject && hint != "" then [UserText(NOTICE + hint)] else []
  }

  /** `hint` is what the page table surfaces for the newest turn, "" for nothing or when nothing is tracked. */
  function Reduce(msgs: seq<Json>, system: string, hint: string, seam: Seam, cfg: Config, st: Option<State>)
    : (r: (Result, Option<State>))
    ensures r.1.Some? <==> st.Some?
  {
    var baseline := G.Estimate(Array(msgs)) + G.PromptEstimate(system);
    if !SeamOn(seam, cfg) then (Result(None, false, G.NoLever, 0, 0, 0, 0, 0, false), st)
    else if st.Some? && st.value.reduced then (Result(None, false, G.Already, baseline, baseline, 0, 0, 0, false), st)
    else
      var (bare, next) := Levers(msgs, cfg, st);
      var folded := FoldRuns(msgs, cfg) && Folds(msgs, cfg, st);
      var view := if folded && bare.Some? then Some(bare.value + Notice(hint, cfg, st)) else bare;
      var guarded := FoldRuns(msgs, cfg) && st.Some? && FreezeArg(msgs, cfg, st).None?;
      var after := if st.None? then None
                   else Some(State(if next.Some? then next.value else st.value.freeze, view.Some?));
      var epochs := if folded && after.Some? then after.value.freeze.epochs else 0;
      match view
      case None =>
        var reason := if cfg.historyFold && !cfg.measureOnly && !FoldRuns(msgs, cfg) then G.SkipNoGain else G.Measured;
        (Result(None, false, reason, baseline, baseline, 0, Foldable(msgs, cfg), 0, guarded), after)
      case Some(v) =>
        var tokens := G.Estimate(Array(v)) + G.PromptEstimate(system);
        (Result(Some(v), true, G.Reduced, baseline, tokens, if baseline > tokens then baseline - tokens else 0,
                Foldable(msgs, cfg), epochs, guarded), after)
  }

  /** The fold lever produced the published view. */
  predicate Folds(msgs: seq<Json>, cfg: Config, st: Option<State>) {
    var small := Compressed(msgs, cfg);
    FoldWith(if small.Some? then small.value else msgs, cfg.fold, FreezeArg(msgs, cfg, st)).0.Some?
  }

  // ---- what the ledger says ----

  /** A request is mutated exactly when a view is published, and then the ledger says so; otherwise the caller
      forwards its original and no saving is booked. */
  lemma LedgerIsHonest(msgs: seq<Json>, system: string, hint: string, seam: Seam, cfg: Config, st: Option<State>)
    ensures var r := Reduce(msgs, system, hint, seam, cfg, st).0;
            && (r.mutated <==> r.messages.Some?) && (r.mutated <==> r.reason == G.Reduced)
            && (!r.mutated ==> r.tokens == r.baseline && r.removed == 0)
            && (r.removed > 0 ==> r.mutated && r.tokens + r.removed == r.baseline)
            && (cfg.measureOnly ==> !r.mutated)
  {
    hide Foldable, FreezeArg, CompressView, FoldView, G.Estimate;
  }

  /** A request crosses two seams and is reduced at most once. */
  lemma ReducedOnce(msgs: seq<Json>, system: string, hint: string, seam: Seam, cfg: Config, st: State, again: seq<Json>, other: Seam, cfg2: Config)
    requires Reduce(msgs, system, hint, seam, cfg, Some(st)).0.mutated
    ensures var after := Reduce(msgs, system, hint, seam, cfg, Some(st)).1;
            && after.Some? && after.value.reduced
            && !Reduce(again, system, hint, other, cfg2, after).0.mutated
            && Reduce(again, system, hint, other, cfg2, after).1 == after
  {
    hide Foldable, CompressView, FoldView, G.Estimate;
  }

  /** Whichever levers run, what is published passes the structural check. */
  lemma PublishedIsPaired(msgs: seq<Json>, system: string, hint: string, seam: Seam, cfg: Config, st: Option<State>, parses: string -> bool)
    requires PairsTied(msgs)
    ensures var r := Reduce(msgs, system, hint, seam, cfg, st).0;
            r.messages.Some? ==> Repaired(r.messages.value, parses).1 == 0
  {
    LeversPublish(msgs, cfg, st);
    ReduceMessages(msgs, system, hint, seam, cfg, st);
    hide *;
    if Levers(msgs, cfg, st).0.Some? {
      var p, fold := cfg.policy.(enabled := true), cfg.fold.(enabled := true);
      var f := ArgOrCold(msgs, cfg, st);
      ReductionKeepsPairs(msgs, p, fold, f, parses);
      if FoldView(msgs, fold, f).0.Some? {
        FoldKeepsPairs(msgs, fold, f, parses);
      }
      var bare := Levers(msgs, cfg, st).0.value;
      NoticeIsPaired(bare, NOTICE + hint);
      var r := Reduce(msgs, system, hint, seam, cfg, st).0;
      if r.messages.Some? {
        PairedNeedsNothing(r.messages.value, parses);
      }
    }
  }

  /** A text turn at the end belongs to no pair. */
  lemma NoticeIsPaired(view: seq<Json>, text: string)
    requires Paired(view)
    ensures Paired(view + [UserText(text)])
  {
    TextCarriesNothing(text);
    hide CallsOf, ResultsOf, UserText;
    var note := [UserText(text)];
    assert note[1..] == [];
    forall x ensures IsCall(view + note, x) <==> IsCall(view, x)
             ensures IsResult(view + note, x) <==> IsResult(view, x)
    {
      FlatJoin(CallsOf, view, note);
      FlatJoin(ResultsOf, view, note);
    }
  }

  function ArgOrCold(msgs: seq<Json>, cfg: Config, st: Option<State>): Freeze {
    match FreezeArg(msgs, cfg, st)
    case None => COLD
    case Some(f) => f
  }

  lemma ReduceMessages(msgs: seq<Json>, system: string, hint: string, seam: Seam, cfg: Config, st: Option<State>)
    ensures var r := Reduce(msgs, system, hint, seam, cfg, st).0;
            r.messages.Some? ==>
              && Levers(msgs, cfg, st).0.Some?
              && (r.messages == Levers(msgs, cfg, st).0
                  || r.messages == Some(Levers(msgs, cfg, st).0.value + [UserText(NOTICE + hint)]))
  {
    hide Levers, Foldable, FreezeArg, Folds, FoldRuns, UserText, G.Estimate;
    var bare := Levers(msgs, cfg, st).0;
    if bare.Some? {
      assert bare.value + [] == bare.value;
    }
  }

  /** What is published is a compressed view, or a folded view of the transcript or of its compressed view. */
  lemma LeversPublish(msgs: seq<Json>, cfg: Config, st: Option<State>)
    ensures var view := Levers(msgs, cfg, st).0;
            var small, fold := Effective(msgs, cfg.policy.(enabled := true)), cfg.fold.(enabled := true);
            var f := ArgOrCold(msgs, cfg, st);
            view.Some? ==>
              || view.value == small
              || (FoldView(msgs, fold, f).0.Some? && view.value == FoldView(msgs, fold, f).0.value.messages)
              || (FoldView(small, fold, f).0.Some? && view.value == FoldView(small, fold, f).0.value.messages)
  {
    hide Foldable, FreezeArg, FoldView, CompressView, FoldRuns;
  }

  /** When the guard says no, the fold still runs but remembers nothing: the freeze, epochs included, is what
      it was. */
  lemma GuardedKeepsFreeze(msgs: seq<Json>, system: string, hint: string, seam: Seam, cfg: Config, st: State)
    ensures var (r, after) := Reduce(msgs, system, hint, seam, cfg, Some(st));
            after.Some? && (r.guarded ==> after.value.freeze == st.freeze)
  {
    hide Foldable, CompressView, FoldView, G.Estimate;
  }

  lemma CleanUser(text: string)
    ensures IsCleanUserTurn(UserText(text))
  {
    var v := UserText(text);
    assert "role" != "content";
    FindUnique(v.fields, "role", 0);
    FindUnique(v.fields, "content", 1);
  }

  lemma TextsDiffer(a: string, b: string)
    requires a != b
    ensures UserText(a) != UserText(b)
  {
    assert UserText(a).fields[1].value == String(a) && UserText(b).fields[1].value == String(b);
  }

  /** At the gateway, compression alone and without state, this is the reduction the gateway applies. */
  lemma GatewayIsReduce(msgs: seq<Json>, system: string, hint: string, cfg: Config)
    requires cfg.gatewaySeam && cfg.compress && !cfg.historyFold && !cfg.measureOnly
    ensures var r, g := Reduce(msgs, system, hint, GatewaySeam, cfg, None).0, G.GatewayReduce(msgs, system, cfg.policy);
            && g.mutated == r.mutated && g.reason == r.reason && g.baseline == r.baseline && g.tokens == r.tokens
            && (g.messages.Some? <==> r.messages.Some?)
            && (r.messages.Some? ==> g.messages.value == Array(r.messages.value))
  {
    hide Foldable, CompressView, G.Estimate;
  }
}
