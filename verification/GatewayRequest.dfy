/** The gateway protocol on nodes in memory: what Gateway says of values holds of the request that is changed
    in place, and the held copy shares no node with it. */
module GatewayRequest {
  import opened Basics
  import opened JsonTree
  import opened JsonNodes
  import opened Compress
  import opened CompressNodes
  import opened Gateway

  class Sessions {
    const resolve: string -> Option<string>
    var disabled: set<string>
    var trips: seq<Trip>

    constructor (resolve: string -> Option<string>)
      ensures disabled == {} && trips == [] && this.resolve == resolve
    {
      this.resolve, disabled, trips := resolve, {}, [];
    }

    method Disable(key: string, ttl: int, reason: string)
      modifies this
      ensures disabled == old(disabled) + {key} && trips == old(trips) + [Trip(key, ttl, reason)]
    {
      disabled, trips := disabled + {key}, trips + [Trip(key, ttl, reason)];
    }
  }

  class Stats {
    var counts: seq<Count>

    constructor ()
      ensures counts == []
    {
      counts := [];
    }

    method Record(c: Count)
      modifies this
      ensures counts == old(counts) + [c]
    {
      counts := counts + [c];
    }
  }

  datatype Deps = Deps(sessions: Sessions?, stats: Stats?, repair: Option<Check>)
  {
    function Answers(): Ports {
      Ports(sessions != null, stats != null, repair)
    }
  }

  class MutateCtx {
    var mutateOn: bool
    var haveKey: bool
    var mutated: bool
    var key: string
    var pristine: Node?
    var reduced: bool
    var ttl: int

    constructor ()
      ensures !mutateOn && !haveKey && !mutated && key == "" && pristine == null && !reduced && ttl == 0
    {
      mutateOn, haveKey, mutated, key, pristine, reduced, ttl := false, false, false, "", null, false, 0;
    }

    method Reset()
      modifies this
      ensures !mutateOn && !haveKey && !mutated && key == "" && pristine == null && !reduced && ttl == 0
    {
      mutateOn, haveKey, mutated, key, pristine, reduced, ttl := false, false, false, "", null, false, 0;
    }
  }

  ghost function Tree(n: Node?): (r: set<Node>)
    reads n
  {
    if n == null then {} else n.repr
  }

  ghost function Model(n: Node?): Option<Json>
    reads n
  {
    if n == null then None else Some(n.model)
  }

  /** Container and held copy are trees, and share no node. */
  ghost predicate Apart(container: Node?, ctx: MutateCtx)
    reads container, ctx, ctx.pristine, Tree(container), Tree(ctx.pristine)
  {
    && (container != null ==> container.Valid())
    && (ctx.pristine != null ==> ctx.pristine.Valid())
    && Tree(container) !! Tree(ctx.pristine)
  }

  ghost function Seen(container: Node?, deps: Deps, ctx: MutateCtx): Exchange
    reads container, deps.sessions, deps.stats, ctx, ctx.pristine
  {
    Exchange(Model(container), ctx.mutateOn, ctx.haveKey, ctx.mutated, ctx.key, Model(ctx.pristine), ctx.reduced,
             ctx.ttl, if deps.sessions == null then [] else deps.sessions.trips,
             if deps.stats == null then [] else deps.stats.counts)
  }

  method Note(deps: Deps, c: Count)
    modifies deps.stats
    ensures deps.stats != null ==> deps.stats.counts == old(deps.stats.counts) + [c]
  {
    if deps.stats != null {
      deps.stats.Record(c);
    }
  }

  /** A counter moves, and nothing else. */
  method Tally(container: Node?, deps: Deps, ctx: MutateCtx, c: Count)
    requires Apart(container, ctx)
    modifies deps.stats
    ensures Apart(container, ctx) && Tree(container) == old(Tree(container))
    ensures Seen(container, deps, ctx) == old(Seen(container, deps, ctx)).Counted(deps.Answers(), c)
  {
    hide Node.Valid;
    Note(deps, c);
  }

  /** GWReplaceMessages: false leaves the container as it was. */
  method Replace(container: Node?, slot: string, reduced: Node) returns (ok: bool)
    requires container != null ==> container.Valid() && container.repr !! reduced.repr
    requires reduced.Valid()
    modifies container
    ensures ok <==> Replaced(old(Model(container)), slot, old(reduced.model)).Some?
    ensures container != null ==> container.Valid() && container.repr == old(container.repr) + (if ok then reduced.repr else {})
    ensures container != null ==>
      Some(container.model) == if ok then Replaced(old(Model(container)), slot, reduced.model) else old(Model(container))
  {
    if container == null || !container.kind.IsObject? || slot == "" {
      return false;
    }
    container.Assign(slot, reduced);
    ok := true;
  }

  ghost function ResultModel(r: Result<Node>): Result<Json>
    reads if r.messages.Some? then {r.messages.value} else {}
  {
    Result(if r.messages.Some? then Some(r.messages.value.model) else None, r.mutated, r.reason, r.baseline, r.tokens)
  }

  /** The reducer never writes its input: the bodies are replaced in a copy, and what it publishes is that copy. */
  method Reduce(msgs: Node, system: string, policy: Policy) returns (res: Result<Node>)
    requires msgs.Valid() && msgs.model.Array?
    ensures ResultModel(res) == GatewayReduce(msgs.model.items, system, policy)
    ensures res.messages.Some? ==> res.messages.value.Valid() && fresh(res.messages.value.repr)
  {
    hide CompressView, Estimate, PromptEstimate, Node.Valid;
    var v := msgs.Value();
    var baseline := Estimate(v) + PromptEstimate(system);
    var out := CompressTree(msgs, policy.(enabled := true));
    if out == null {
      return Result(None, false, Measured, baseline, baseline);
    }
    var w := out.Value();
    res := Result(Some(out), true, Reduced, baseline, Estimate(w) + PromptEstimate(system));
  }

  /** GWShouldApply: the structural check runs on a copy, and the array it is asked about stays as it is. */
  method Decide(ok: bool, res: Result<Node>, err: ReduceError, repair: Option<Check>) returns (b: Bypass)
    requires res.messages.Some? ==> res.messages.value.Valid()
    ensures b == ShouldApply(ok, Some(ResultModel(res)), err, repair)
  {
    if !ok {
      return ErrorBypass(err);
    }
    if res.messages.None? || !res.mutated || res.reason != Reduced || res.tokens >= res.baseline {
      return NoOp;
    }
    if repair.Some? {
      var probe := res.messages.value.Clone();
      var repairs := RunCheck(probe, repair.value);
      if repairs != 0 {
        return StructuralViolation;
      }
    }
    b := NoBypass;
  }

  /** The injected check on a tree: it edits the tree in place and reports the repairs. */
  method RunCheck(n: Node, check: Check) returns (repairs: int)
    requires n.Valid()
    modifies n.repr
    ensures n.Valid() && fresh(n.repr - old(n.repr))
    ensures (n.model, repairs) == check(old(n.model))
  {
    var v := n.Value();
    var (w, k) := check(v);
    n.Rewrite(w);
    repairs := k;
  }

  /** The reduced array and whether it may be dispatched; nothing is written. */
  method Judge(msgs: Node, system: string, policy: Policy, repair: Option<Check>) returns (res: Result<Node>, bypass: Bypass)
    requires msgs.Valid() && msgs.model.Array?
    ensures ResultModel(res) == GatewayReduce(msgs.model.items, system, policy)
    ensures bypass == ShouldApply(true, Some(ResultModel(res)), ErrNone, repair)
    ensures res.messages.Some? ==> res.messages.value.Valid() && fresh(res.messages.value.repr)
  {
    hide *;
    res := Reduce(msgs, system, policy);
    bypass := Decide(true, res, ErrNone, repair);
  }

  /** The reduced array goes into the request, and only then is the context marked. */
  method Install(container: Node, slot: string, res: Result<Node>, deps: Deps, ctx: MutateCtx)
    requires Apart(container, ctx) && container.kind.IsObject? && slot != "" && !ctx.mutated
    requires res.messages.Some? && res.messages.value.Valid()
    requires res.messages.value.repr !! container.repr && res.messages.value.repr !! Tree(ctx.pristine)
    modifies container, deps.stats, ctx`reduced, ctx`mutated
    ensures Apart(container, ctx) && Tree(container) == old(container.repr) + old(res.messages.value.repr)
    ensures Seen(container, deps, ctx) ==
            old(Seen(container, deps, ctx))
              .(body := Replaced(old(Model(container)), slot, old(res.messages.value.model)), reduced := true, mutated := true)
              .Counted(deps.Answers(), Inc(APPLIED)).Counted(deps.Answers(), Delta(res.baseline, res.tokens))
  {
    assert container.model.Object?;
    PutIn(container, slot, res.messages.value, deps, ctx);
    hide *;
    Tally(container, deps, ctx, Inc(APPLIED));
    Tally(container, deps, ctx, Delta(res.baseline, res.tokens));
  }

  method PutIn(container: Node, slot: string, reduced: Node, deps: Deps, ctx: MutateCtx)
    requires Apart(container, ctx) && container.model.Object? && slot != "" && reduced.Valid()
    requires reduced.repr !! container.repr && reduced.repr !! Tree(ctx.pristine)
    modifies container, ctx`reduced, ctx`mutated
    ensures Apart(container, ctx) && Tree(container) == old(container.repr) + old(reduced.repr)
    ensures Seen(container, deps, ctx) ==
            old(Seen(container, deps, ctx))
              .(body := Replaced(old(Model(container)), slot, old(reduced.model)), reduced := true, mutated := true)
  {
    assert container in container.repr;
    hide Node.Valid;
    var ok := Replace(container, slot, reduced);
    ctx.reduced, ctx.mutated := true, true;
  }

  /** The snapshot comes first: nothing is replaced before a copy exists that shares nothing with the request. */
  method AttemptOn(container: Node, slot: string, msgs: Node, system: string, policy: Policy, deps: Deps, ctx: MutateCtx)
    requires container.Valid() && container.kind.IsObject? && slot != "" && !ctx.mutated
    requires msgs.Valid() && msgs.model.Array?
    modifies container, deps.stats, ctx
    ensures Apart(container, ctx) && fresh(container.repr - old(container.repr))
    ensures Seen(container, deps, ctx) ==
            Attempt(old(Seen(container, deps, ctx)), slot, old(msgs.model).items, system, policy, deps.Answers())
    ensures !ctx.mutated ==> unchanged(container)
  {
    hide GatewayReduce, Node.Valid, ShouldApply, Replaced;
    Note(deps, Inc(ATTEMPTED));
    ctx.pristine := msgs.Clone();
    var res, bypass := Judge(msgs, system, policy, deps.repair);
    if bypass != NoBypass {
      Note(deps, Because(BYPASS, bypass.Label()));
    } else {
      DispatchHasView(ResultModel(res), deps.repair);
      Install(container, slot, res, deps, ctx);
    }
  }

  lemma DispatchHasView(res: Result<Json>, repair: Option<Check>)
    requires ShouldApply(true, Some(res), ErrNone, repair) == NoBypass
    ensures res.messages.Some?
  {
  }

  /** The session a request belongs to, and whether its breaker is tripped. */
  function Session(deps: Deps, identity: string): Option<string> {
    if deps.sessions == null then None else deps.sessions.resolve(identity)
  }

  predicate Disabled(deps: Deps, identity: string)
    reads deps.sessions
  {
    deps.sessions != null && Session(deps, identity).Some? && Session(deps, identity).value in deps.sessions.disabled
  }

  method Open(container: Node?, slot: string, identity: string, cfg: Settings, deps: Deps, ctx: MutateCtx)
    returns (msgs: Node?)
    requires container != null ==> container.Valid()
    modifies deps.stats, ctx
    ensures Apart(container, ctx) && !ctx.mutated
    ensures msgs != null ==> container != null && slot != "" && container.kind.IsObject? && msgs.Valid() && msgs.model.Array?
    ensures (Seen(container, deps, ctx), if msgs == null then None else Some(msgs.model.items)) ==
            Gate(old(Seen(container, deps, ctx)), slot, Session(deps, identity), old(Disabled(deps, identity)), cfg,
                 deps.Answers())
  {
    hide Node.Valid, Get;
    ctx.Reset();
    if container == null || slot == "" || !cfg.mutateOn {
      return null;
    }
    ctx.mutateOn, ctx.ttl := true, cfg.ttl;
    var session := Session(deps, identity);
    if session.None? {
      return null;
    }
    ctx.key, ctx.haveKey := session.value, true;
    if session.value in deps.sessions.disabled {
      Note(deps, Inc(BLOCKED));
      return null;
    }
    msgs := container.Lookup(slot);
    if msgs != null && !msgs.kind.IsArray? {
      msgs := null;
    }
  }

  /** The attempt before a request is sent. */
  method BufferedMutate(container: Node?, slot: string, system: string, identity: string, cfg: Settings,
                        deps: Deps, ctx: MutateCtx)
    requires container != null ==> container.Valid()
    modifies container, deps.stats, ctx
    ensures Apart(container, ctx)
    ensures container != null ==> fresh(container.repr - old(container.repr))
    ensures Seen(container, deps, ctx) ==
            Mutate(old(Seen(container, deps, ctx)), slot, system, Session(deps, identity), old(Disabled(deps, identity)),
                   cfg, deps.Answers())
    ensures container != null && !ctx.mutated ==> unchanged(container)
  {
    hide Gate, Attempt, Node.Valid;
    var msgs := Open(container, slot, identity, cfg, deps, ctx);
    if msgs != null {
      AttemptOn(container, slot, msgs, system, cfg.policy, deps, ctx);
    }
  }

  function Edits(check: Check): Json -> Json {
    v => check(v).0
  }

  /** Puts an array back into the request and repairs it where it then stands. */
  method PutBack(container: Node, slot: string, held: Node, repair: Option<Check>) returns (ok: bool)
    requires container.Valid() && held.Valid() && container.repr !! held.repr
    modifies container.repr, held.repr
    ensures container.Valid() && fresh(container.repr - old(container.repr) - old(held.repr))
    ensures ok <==> Replaced(old(Model(container)), slot, old(held.model)).Some?
    ensures Some(container.model) ==
            if ok then Replaced(old(Model(container)), slot, if repair.Some? then repair.value(old(held.model)).0 else old(held.model))
            else old(Model(container))
    ensures !ok ==> container.repr == old(container.repr)
    ensures !ok ==> held.Valid() && held.model == old(held.model) && held.repr == old(held.repr)
  {
    ghost var was, value := container.model, held.model;
    ok := Replace(container, slot, held);
    if ok && repair.Some? {
      SetTwice(was, slot, value, repair.value(value).0);
      GetAfterSet(was, slot, value, slot);
      hide *;
      container.Edit(slot, Edits(repair.value));
    }
  }

  method Restore(container: Node, slot: string, deps: Deps, ctx: MutateCtx)
    requires Apart(container, ctx) && slot != ""
    modifies container.repr, Tree(ctx.pristine), ctx`pristine
    ensures Apart(container, ctx)
    ensures Seen(container, deps, ctx) == Restored(old(Seen(container, deps, ctx)), slot, deps.Answers())
  {
    if ctx.pristine != null {
      hide Node.Valid, Replaced;
      var ok := PutBack(container, slot, ctx.pristine, deps.repair);
      if ok {
        ctx.pristine := null;
      }
    }
  }

  /** Trips the breaker and closes the matter: the context no longer counts as mutated. */
  method Close(container: Node?, deps: Deps, ctx: MutateCtx, reason: string, counter: string)
    requires Apart(container, ctx)
    modifies ctx`reduced, ctx`mutated, deps.sessions, deps.stats
    ensures Apart(container, ctx)
    ensures Seen(container, deps, ctx) ==
            old(Seen(container, deps, ctx)).Tripped(deps.Answers(), reason).(reduced := false, mutated := false)
              .Counted(deps.Answers(), Inc(counter))
  {
    hide Node.Valid;
    if deps.sessions != null {
      deps.sessions.Disable(ctx.key, ctx.ttl, reason);
    }
    ctx.reduced, ctx.mutated := false, false;
    Note(deps, Inc(counter));
  }

  /** A client error restores, repairs and asks for one resend; a server error only trips the breaker. */
  method BufferedAfterStatus(container: Node?, slot: string, code: int, deps: Deps, ctx: MutateCtx) returns (resend: bool)
    requires Apart(container, ctx)
    modifies ctx, deps.sessions, deps.stats, Tree(container), Tree(ctx.pristine)
    ensures Apart(container, ctx)
    ensures (Seen(container, deps, ctx), resend) == AfterStatus(old(Seen(container, deps, ctx)), slot, code, deps.Answers())
  {
    hide Node.Valid, Apart, Restored;
    if !ctx.mutated || container == null || slot == "" {
      return false;
    }
    if code / 100 == 4 {
      Restore(container, slot, deps, ctx);
      Close(container, deps, ctx, "4xx", RESEND_4XX);
      return true;
    }
    if code / 100 == 5 {
      Close(container, deps, ctx, "5xx", DISABLE_5XX);
    }
    resend := false;
  }

  /** A streaming turn that failed after dispatch trips the breaker once; the request is left as it is. */
  method StreamDisable(container: Node?, deps: Deps, ctx: MutateCtx, reason: string)
    requires Apart(container, ctx)
    modifies ctx, deps.sessions, deps.stats
    ensures Apart(container, ctx)
    ensures Seen(container, deps, ctx) == AfterStreamError(old(Seen(container, deps, ctx)), reason, deps.Answers())
  {
    if ctx.mutated && ctx.haveKey {
      Close(container, deps, ctx, if reason == "" then "stream" else reason, STREAM_DISABLE);
    }
  }
}
