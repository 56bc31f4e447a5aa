/** Applying a reduction to a live request, as gateway_wire.go and gateway.go do it: snapshot, reduce, check,
    replace; and after dispatch at most one restore and at most one tripped breaker.
    The protocol is first a function on what can be observed of one request, then code on nodes in memory. */
module Gateway {
  import opened Basics
  import opened JsonTree
  import opened Repair
  import RepairProofs
  import Fold
  import opened Compress
  import JsonPrinter

  /** Reports how many repairs an array needed, and what it is once repaired. */
  type Check = Json -> (Json, int)

  datatype Trip = Trip(key: string, ttl: int, reason: string)

  datatype Count = Inc(name: string) | Because(name: string, reason: string) | Delta(baseline: int, reduced: int)

  const BLOCKED := "session_disabled_blocks"
  const ATTEMPTED := "mutate_attempted"
  const APPLIED := "mutate_applied"
  const BYPASS := "hard_bypass"
  const RESEND_4XX := "4xx_restore_resend"
  const DISABLE_5XX := "5xx_disable"
  const STREAM_DISABLE := "stream_error_disable"

  datatype Settings = Settings(mutateOn: bool, ttl: int, policy: Policy)

  /** The collaborators a request has, and what each would answer. */
  datatype Ports = Ports(sessions: bool, stats: bool, repair: Option<Check>)

  /** One request as it can be observed: its body, the context carried along, and the two logs. */
  datatype Exchange = Exchange(
    body: Option<Json>,
    mutateOn: bool,
    haveKey: bool,
    mutated: bool,
    key: string,
    pristine: Option<Json>,
    reduced: bool,
    ttl: int,
    trips: seq<Trip>,
    counts: seq<Count>)
  {
    function Counted(p: Ports, c: Count): Exchange {
      if p.stats then this.(counts := counts + [c]) else this
    }

    function Tripped(p: Ports, reason: string): Exchange {
      if p.sessions then this.(trips := trips + [Trip(key, ttl, reason)]) else this
    }
  }

  // ---- the decision ----

  datatype ReduceError = ErrNone | AllocFailed | ParseFailed | InternalAssertion | FormatUnsupported

  datatype Bypass =
    | NoBypass
    | ReduceAllocFailed
    | ReduceParseFailed
    | ReduceInternalAssertion
    | ReduceFormatUnsupported
    | NoOp
    | StructuralViolation
  {
    function Label(): string {
      match this
      case NoBypass => "none"
      case ReduceAllocFailed => "reduce_alloc_failed"
      case ReduceParseFailed => "reduce_parse_failed"
      case ReduceInternalAssertion => "reduce_internal_assertion"
      case ReduceFormatUnsupported => "reduce_format_unsupported"
      case NoOp => "no_op"
      case StructuralViolation => "structural_violation"
    }
  }

  function ErrorBypass(e: ReduceError): Bypass {
    match e
    case AllocFailed => ReduceAllocFailed
    case ParseFailed => ReduceParseFailed
    case FormatUnsupported => ReduceFormatUnsupported
    case _ => ReduceInternalAssertion
  }

  datatype Reason = NoLever | Reduced | Measured | SkipNoGain | Already

  datatype Result<V> = Result(messages: Option<V>, mutated: bool, reason: Reason, baseline: int, tokens: int)

  function ShouldApply(ok: bool, res: Option<Result<Json>>, err: ReduceError, repair: Option<Check>): Bypass {
    if res.None? then ReduceInternalAssertion
    else if !ok then ErrorBypass(err)
    else if res.value.messages.None? || !res.value.mutated || res.value.reason != Reduced then NoOp
    else if res.value.tokens >= res.value.baseline then NoOp
    else if repair.Some? && repair.value(res.value.messages.value).1 != 0 then StructuralViolation
    else NoBypass
  }

  // ---- what the reducer does at this seam: compression alone ----

  const CHARS_PER_TOKEN := 4

  function Estimate(v: Json): nat {
    |JsonPrinter.Print(v)| / CHARS_PER_TOKEN
  }

  function PromptEstimate(system: string): nat {
    if system == "" then 0 else |system| / CHARS_PER_TOKEN + 1
  }

  function GatewayReduce(msgs: seq<Json>, system: string, policy: Policy): Result<Json> {
    var baseline := Estimate(Array(msgs)) + PromptEstimate(system);
    match CompressView(msgs, policy.(enabled := true))
    case None => Result(None, false, Measured, baseline, baseline)
    case Some(view) => Result(Some(Array(view)), true, Reduced, baseline, Estimate(Array(view)) + PromptEstimate(system))
  }

  // ---- before dispatch ----

  /** GWReplaceMessages on the body; None when there is nothing to put the array into. */
  function Replaced(body: Option<Json>, slot: string, v: Json): Option<Json> {
    if body.None? || !body.value.Object? || slot == "" then None else Some(Set(body.value, slot, v))
  }

  /** The context as a new attempt finds it: everything reset, body and logs as they are. */
  function Reset(x: Exchange): Exchange {
    Exchange(x.body, false, false, false, "", None, false, 0, x.trips, x.counts)
  }

  /** Snapshot, reduce, decide, replace. */
  function Attempt(x: Exchange, slot: string, msgs: seq<Json>, system: string, policy: Policy, p: Ports): Exchange {
    var held := x.Counted(p, Inc(ATTEMPTED)).(pristine := Some(Array(msgs)));
    var res := GatewayReduce(msgs, system, policy);
    var bypass := ShouldApply(true, Some(res), ErrNone, p.repair);
    if bypass != NoBypass then held.Counted(p, Because(BYPASS, bypass.Label()))
    else
      held.(body := Replaced(x.body, slot, res.messages.value), reduced := true, mutated := true)
          .Counted(p, Inc(APPLIED)).Counted(p, Delta(res.baseline, res.tokens))
  }

  /** Flag, then identity, then breaker, then the array to work on; None ends the attempt. */
  function Gate(x: Exchange, slot: string, session: Option<string>, disabled: bool, cfg: Settings, p: Ports):
    (Exchange, Option<seq<Json>>)
  {
    var start := Reset(x);
    if x.body.None? || slot == "" || !cfg.mutateOn then (start, None)
    else
      var on := start.(mutateOn := true, ttl := cfg.ttl);
      if !p.sessions || session.None? then (on, None)
      else
        var named := on.(key := session.value, haveKey := true);
        if disabled then (named.Counted(p, Inc(BLOCKED)), None) else (named, GetItems(x.body.value, slot))
  }

  function Mutate(x: Exchange, slot: string, system: string, session: Option<string>, disabled: bool,
                  cfg: Settings, p: Ports): Exchange
  {
    var (y, msgs) := Gate(x, slot, session, disabled, cfg, p);
    match msgs
    case None => y
    case Some(items) => Attempt(y, slot, items, system, cfg.policy, p)
  }

  // ---- after dispatch ----

  datatype Event = Status(code: int) | StreamError(reason: string)

  /** The pristine array is back in the body, as the repair leaves it. */
  function Restored(x: Exchange, slot: string, p: Ports): Exchange {
    if x.pristine.None? then x
    else
      match Replaced(x.body, slot, if p.repair.Some? then p.repair.value(x.pristine.value).0 else x.pristine.value)
      case None => x
      case Some(body) => x.(body := Some(body), pristine := None)
  }

  /** The exchange after a status, and whether it must be sent once more. */
  function AfterStatus(x: Exchange, slot: string, code: int, p: Ports): (Exchange, bool) {
    if !x.mutated || x.body.None? || slot == "" then (x, false)
    else if code / 100 == 4 then
      (Restored(x, slot, p).Tripped(p, "4xx").(reduced := false, mutated := false).Counted(p, Inc(RESEND_4XX)), true)
    else if code / 100 == 5 then
      (x.Tripped(p, "5xx").(reduced := false, mutated := false).Counted(p, Inc(DISABLE_5XX)), false)
    else (x, false)
  }

  function AfterStreamError(x: Exchange, reason: string, p: Ports): Exchange {
    if !x.mutated || !x.haveKey then x
    else
      x.Tripped(p, if reason == "" then "stream" else reason).(reduced := false, mutated := false)
       .Counted(p, Inc(STREAM_DISABLE))
  }

  function Step(x: Exchange, slot: string, e: Event, p: Ports): (Exchange, bool) {
    match e
    case Status(code) => AfterStatus(x, slot, code, p)
    case StreamError(reason) => (AfterStreamError(x, reason, p), false)
  }

  /** Any sequence of events after dispatch: where it ends, and how often the request was to be sent again. */
  function Run(x: Exchange, slot: string, events: seq<Event>, p: Ports): (Exchange, nat)
    decreases |events|
  {
    if events == [] then (x, 0)
    else
      var (next, resend) := Step(x, slot, events[0], p);
      var (end, resends) := Run(next, slot, events[1..], p);
      (end, resends + if resend then 1 else 0)
  }

  // ---- restorability ----

  /** When the attempt goes ahead. */
  predicate Applies(x: Exchange, slot: string, system: string, session: Option<string>, disabled: bool,
                    cfg: Settings, p: Ports)
  {
    && x.body.Some? && slot != "" && cfg.mutateOn && p.sessions && session.Some? && !disabled
    && GetItems(x.body.value, slot).Some?
    && var msgs := GetItems(x.body.value, slot).value;
       var view := CompressView(msgs, cfg.policy.(enabled := true));
       && view.Some?
       && Estimate(Array(view.value)) < Estimate(Array(msgs))
       && (p.repair.Some? ==> p.repair.value(Array(view.value)).1 == 0)
  }

  /** Either the body is what it was, or the reduced payload is in it and a copy of the original is held. */
  lemma MutateIsRestorable(x: Exchange, slot: string, system: string, session: Option<string>, disabled: bool,
                           cfg: Settings, p: Ports)
    ensures var y := Mutate(x, slot, system, session, disabled, cfg, p);
            && y.trips == x.trips
            && (y.mutated <==> Applies(x, slot, system, session, disabled, cfg, p))
            && (!y.mutated ==> y.body == x.body && !y.reduced)
            && (y.mutated ==>
                  && y.haveKey && y.reduced && y.key == session.value
                  && y.pristine == Get(x.body.value, slot)
                  && var view := CompressView(GetItems(x.body.value, slot).value, cfg.policy.(enabled := true)).value;
                     y.body == Some(Set(x.body.value, slot, Array(view))))
  {
    hide CompressView, Estimate, Set;
  }

  // ---- one failure, handled once ----

  predicate Fails(e: Event) {
    match e
    case Status(code) => code / 100 == 4 || code / 100 == 5
    case StreamError(_) => true
  }

  /** The first event that reports a failure, or the number of events. */
  function FirstFailure(events: seq<Event>): (i: nat)
    ensures i <= |events| && (i < |events| ==> Fails(events[i]))
    ensures forall j | 0 <= j < i :: !Fails(events[j])
  {
    if events == [] || Fails(events[0]) then 0 else 1 + FirstFailure(events[1..])
  }

  lemma {:induction false} SettledStays(x: Exchange, slot: string, events: seq<Event>, p: Ports)
    requires !x.mutated
    ensures Run(x, slot, events, p) == (x, 0)
    decreases |events|
  {
    if events != [] {
      SettledStays(x, slot, events[1..], p);
    }
  }

  /** However many events follow, the first failure alone decides, and everything after it changes nothing. */
  lemma {:induction false} FirstFailureDecides(x: Exchange, slot: string, events: seq<Event>, p: Ports)
    requires x.mutated && x.haveKey && x.body.Some? && slot != ""
    ensures var i := FirstFailure(events);
            if i == |events| then Run(x, slot, events, p) == (x, 0)
            else
              var (y, resend) := Step(x, slot, events[i], p);
              !y.mutated && Run(x, slot, events, p) == (y, if resend then 1 else 0)
    decreases |events|
  {
    if events != [] {
      if Fails(events[0]) {
        SettledStays(Step(x, slot, events[0], p).0, slot, events[1..], p);
      } else {
        FirstFailureDecides(x, slot, events[1..], p);
      }
    }
  }

  /** The original messages, as the repair leaves them when it is run on the restored request. */
  function Original(x: Exchange, slot: string, p: Ports): Json
    requires x.body.Some? && Get(x.body.value, slot).Some?
  {
    var msgs := Get(x.body.value, slot).value;
    if p.repair.Some? then p.repair.value(msgs).0 else msgs
  }

  /** From the attempt on, whatever happens: at most one breaker is tripped and at most one resend is asked
      for; a resend goes with the breaker and with the original messages in the body; without one the body is
      what was dispatched. */
  lemma Restorability(x: Exchange, slot: string, system: string, session: Option<string>, disabled: bool,
                      cfg: Settings, p: Ports, events: seq<Event>)
    ensures var sent := Mutate(x, slot, system, session, disabled, cfg, p);
            var (end, resends) := Run(sent, slot, events, p);
            var i := FirstFailure(events);
            && (resends == 1 <==>
                  sent.mutated && i < |events| && events[i].Status? && events[i].code / 100 == 4)
            && resends <= 1
            && (end.trips == if sent.mutated && i < |events|
                             then x.trips + [Trip(session.value, cfg.ttl, Why(events[i]))] else x.trips)
            && (resends == 0 ==> end.body == sent.body)
            && (resends == 1 ==>
                  && x.body.Some? && Get(x.body.value, slot).Some?
                  && end.body == Some(Set(x.body.value, slot, Original(x, slot, p)))
                  && end.pristine == None && !end.reduced)
  {
    var sent := Mutate(x, slot, system, session, disabled, cfg, p);
    MutateIsRestorable(x, slot, system, session, disabled, cfg, p);
    TtlCarried(x, slot, system, session, disabled, cfg, p);
    if sent.mutated {
      FirstFailureDecides(sent, slot, events, p);
      var view := CompressView(GetItems(x.body.value, slot).value, cfg.policy.(enabled := true)).value;
      SetTwice(x.body.value, slot, Array(view), Original(x, slot, p));
      if FirstFailure(events) < |events| {
        OneFailure(sent, slot, events[FirstFailure(events)], p);
      }
    } else {
      SettledStays(sent, slot, events, p);
    }
    hide Run, Mutate, FirstFailure, CompressView, Estimate, Set, Applies, Get, Step;
  }

  lemma OneFailure(x: Exchange, slot: string, e: Event, p: Ports)
    requires x.mutated && x.haveKey && x.body.Some? && x.body.value.Object? && slot != "" && x.pristine.Some?
    requires Fails(e) && p.sessions
    ensures var (y, resend) := Step(x, slot, e, p);
            && !y.reduced && y.trips == x.trips + [Trip(x.key, x.ttl, Why(e))]
            && (resend <==> e.Status? && e.code / 100 == 4)
            && (!resend ==> y.body == x.body)
            && (resend ==>
                  && y.pristine == None
                  && y.body == Some(Set(x.body.value, slot,
                       if p.repair.Some? then p.repair.value(x.pristine.value).0 else x.pristine.value)))
  {
    hide Set;
  }

  function Why(e: Event): string {
    match e
    case Status(code) => if code / 100 == 4 then "4xx" else "5xx"
    case StreamError(reason) => if reason == "" then "stream" else reason
  }

  lemma TtlCarried(x: Exchange, slot: string, system: string, session: Option<string>, disabled: bool,
                   cfg: Settings, p: Ports)
    ensures var y := Mutate(x, slot, system, session, disabled, cfg, p);
            y.mutated ==> y.ttl == cfg.ttl && y.body.Some? && slot != "" && p.sessions
  {
    hide CompressView, Estimate, Set, ShouldApply;
  }

  lemma SetTwice(v: Json, key: string, a: Json, b: Json)
    requires v.Object?
    ensures Set(Set(v, key, a), key, b) == Set(v, key, b) && Set(v, key, a).Object?
  {
    var i := Find(v.fields, key);
    var w := Set(v, key, a);
    FindUnique(w.fields, key, i);
    assert w.fields[i := Field(key, b)] == Set(v, key, b).fields;
  }

  /** When the repair has nothing to say about the original, a resend carries the very body that came in. */
  lemma ResendIsTheRequest(x: Exchange, slot: string, p: Ports)
    requires x.body.Some? && Get(x.body.value, slot).Some?
    ensures Set(x.body.value, slot, Original(x, slot, p)) == x.body.value
            <==> Original(x, slot, p) == Get(x.body.value, slot).value
  {
    var v, msgs := x.body.value, Get(x.body.value, slot).value;
    SetSame(v, slot);
    GetAfterSet(v, slot, Original(x, slot, p), slot);
  }

  // ---- with the check that is in production ----

  function HistoryCheck(parses: string -> bool): Check {
    (v: Json) => if v.Array? then var (r, n) := Repaired(v.items, parses); (Array(r), n) else (v, 0)
  }

  /** On a transcript whose pairs no fold could split, the structural check never stands in the way. */
  lemma TiedIsNotBypassed(msgs: seq<Json>, policy: Policy, parses: string -> bool)
    requires Fold.PairsTied(msgs)
    ensures var view := CompressView(msgs, policy);
            view.Some? ==> HistoryCheck(parses)(Array(view.value)).1 == 0
  {
    if CompressView(msgs, policy).Some? {
      CompressKeepsTied(msgs, policy);
      TiedIsPaired(Effective(msgs, policy));
      RepairProofs.PairedNeedsNothing(Effective(msgs, policy), parses);
      hide CompressView, Repaired;
    }
  }
}
