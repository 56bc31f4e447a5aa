/** The local cost planner of planner_openai.go: exact money arithmetic with overflow told apart, the guard
    around the price tier, the layout a request must have, and what a proven cost then means for the token
    counts. Reading a document and turning a JSON number into a token count are functions nothing here looks
    into. */
module OpenAIPlanner {
  import opened Basics
  import opened JsonTree
  import opened ProofCost
  import Sorting

  const LONG_CONTEXT: int := 272000

  // ---- money ----

  /** tokens * rate, or Overflow: the division tests exactly whether the product fits. */
  function MulMoney(tokens: Word, rate: Money): (r: Sum)
    ensures r == if 0 <= rate && tokens * rate <= MAX_MONEY then Fits(tokens * rate) else Overflow
  {
    if rate < 0 then Overflow
    else if rate == 0 then Fits(0)
    else
      DivisionTests(tokens, rate);
      if tokens > MAX_MONEY / rate then Overflow else Fits(tokens * rate)
  }

  lemma DivisionTests(tokens: Word, rate: Money)
    requires rate > 0
    ensures tokens > MAX_MONEY / rate <==> tokens * rate > MAX_MONEY
    ensures 0 <= tokens * rate
  {
    var q, r := MAX_MONEY / rate, MAX_MONEY % rate;
    assert MAX_MONEY == q * rate + r && 0 <= r < rate;
    if tokens > q {
      Scaled(q + 1, tokens, rate);
      assert (q + 1) * rate == q * rate + rate;
    } else {
      Scaled(tokens, q, rate);
    }
    Scaled(0, tokens, rate);
  }

  lemma Scaled(a: int, b: int, rate: int)
    requires a <= b && rate >= 0
    ensures a * rate <= b * rate
  {
  }

  datatype Prices = Prices(input: Money, cachedRead: Money, cacheWrite: Money, output: Money)

  predicate PricesValid(p: Prices) {
    && p.input > 0 && p.cachedRead > 0 && p.cacheWrite > 0 && p.output > 0
    && p.input % 10 == 0 && p.cachedRead == p.input / 10
    && p.input % 4 == 0 && p.input / 4 <= MAX_MONEY / 5
    && p.cacheWrite == p.input / 4 * 5
    && p.output % 2 == 0
  }

  /** The published ratios, free of rounding: a tenth for a cached read, five quarters for a cache write. The
      overflow guard of the code refuses nothing more. */
  lemma PricesAreTheRatios(p: Prices)
    ensures PricesValid(p) <==>
            && p.input > 0 && p.cachedRead > 0 && p.cacheWrite > 0 && p.output > 0
            && 10 * p.cachedRead == p.input && 4 * p.cacheWrite == 5 * p.input && p.output % 2 == 0
  {
    Tenth(p.input, p.cachedRead);
    FiveQuarters(p.input, p.cacheWrite);
  }

  lemma Tenth(n: int, x: int)
    ensures n % 10 == 0 && x == n / 10 <==> 10 * x == n
  {
  }

  lemma FiveQuarters(n: int, x: int)
    ensures n % 4 == 0 && x == n / 4 * 5 <==> 4 * x == 5 * n
    ensures 4 * x == 5 * n && x <= MAX_MONEY ==> n / 4 <= MAX_MONEY / 5
  {
    if 4 * x == 5 * n {
      assert n == 4 * (x - n);
    }
  }

  // ---- tiers ----

  /** Priced as long context. */
  predicate Long(tokens: int) {
    tokens > LONG_CONTEXT
  }

  predicate WithinGuard(tokens: Word, guard: Word) {
    if tokens >= LONG_CONTEXT then tokens - LONG_CONTEXT <= guard else LONG_CONTEXT - tokens <= guard
  }

  /** A count clear of the guard is priced in the tier of every count the tokenizer could be off to; a count is
      within it exactly when the boundary itself is one of those. */
  lemma GuardSettlesTheTier(tokens: Word, guard: Word)
    ensures !WithinGuard(tokens, guard) ==>
              forall u: int | tokens - guard <= u <= tokens + guard :: Long(u) <==> Long(tokens)
    ensures WithinGuard(tokens, guard) <==> tokens - guard <= LONG_CONTEXT <= tokens + guard
  {
  }

  function InputCost(tokens: Word, rate: Money): (r: Sum)
    ensures r.Fits? ==> 0 <= rate && r.m == tokens * rate * (if Long(tokens) then 2 else 1)
  {
    match MulMoney(tokens, rate)
    case Overflow => Overflow
    case Fits(base) => if Long(tokens) then MoneyAdd(base, base) else Fits(base)
  }

  function OutputCost(tokens: Word, rate: Money, long: bool): (r: Sum)
    ensures r.Fits? ==> r.m >= 0
    ensures r.Fits? ==> 2 * r.m == tokens * rate * (if long then 3 else 2)
  {
    if long then
      if rate % 2 != 0 then Overflow
      else
        match MoneyAdd(rate, rate / 2)
        case Overflow => Overflow
        case Fits(more) =>
          MoreByHalf(tokens, rate);
          Product(tokens, more);
          MulMoney(tokens, more)
    else
      Product(tokens, rate);
      MulMoney(tokens, rate)
  }

  lemma MoreByHalf(tokens: int, rate: int)
    requires rate % 2 == 0
    ensures 2 * (tokens * (rate + rate / 2)) == tokens * rate * 3
  {
    var h := rate / 2;
    assert rate == 2 * h;
    assert 2 * (tokens * (3 * h)) == tokens * (2 * h) * 3;
  }

  lemma Product(tokens: Word, rate: Money)
    ensures rate >= 0 ==> tokens * rate >= 0
  {
    if rate >= 0 {
      Scaled(0, tokens, rate);
    }
  }

  /** More tokens never cost less, across the tier boundary too. */
  lemma InputCostMonotone(a: Word, b: Word, rate: Money)
    requires InputCost(a, rate).Fits? && InputCost(b, rate).Fits?
    ensures a <= b ==> InputCost(a, rate).m <= InputCost(b, rate).m
  {
    if a <= b {
      Scaled(a, b, rate);
      Product(a, rate);
      Product(b, rate);
    }
  }

  // ---- the shape of a request ----

  /** Keys of one object, in order. */
  function KeysOf(fields: seq<Field>): (r: seq<string>)
    ensures |r| == |fields| && forall i | 0 <= i < |r| :: r[i] == fields[i].key
  {
    seq(|fields|, i requires 0 <= i < |fields| => fields[i].key)
  }

  /** No object anywhere in the document has a name twice, so no two readers can disagree about it. */
  ghost predicate OneReading(v: Json) {
    match v
    case Object(fields) =>
      Sorting.Distinct(KeysOf(fields)) && forall i | 0 <= i < |fields| :: OneReading(fields[i].value)
    case Array(items) => forall i | 0 <= i < |items| :: OneReading(items[i])
    case _ => true
  }

  /** rejectDuplicateKeys, as a walk that remembers the names seen. */
  method RejectsDuplicates(v: Json) returns (bad: bool)
    ensures bad <==> !OneReading(v)
    decreases v
  {
    if v.Object? {
      var seen: set<string>, i := {}, 0;
      ghost var keys := KeysOf(v.fields);
      while i < |v.fields|
        invariant 0 <= i <= |v.fields|
        invariant forall k :: k in seen <==> k in keys[..i]
        invariant Sorting.Distinct(keys[..i])
        invariant forall j | 0 <= j < i :: OneReading(v.fields[j].value)
      {
        var k := v.fields[i].key;
        assert keys[..i + 1] == keys[..i] + [k];
        if k in seen {
          ghost var j :| 0 <= j < i && keys[..i][j] == k;
          assert keys[j] == keys[i];
          return true;
        }
        assert v.fields[i].value < v;
        bad := RejectsDuplicates(v.fields[i].value);
        if bad {
          return;
        }
        seen := seen + {k};
        i := i + 1;
      }
      assert keys[..i] == keys;
    } else if v.Array? {
      var i := 0;
      while i < |v.items|
        invariant 0 <= i <= |v.items|
        invariant forall j | 0 <= j < i :: OneReading(v.items[j])
      {
        bad := RejectsDuplicates(v.items[i]);
        if bad {
          return;
        }
        i := i + 1;
      }
    }
    bad := false;
  }

  /** cache_control markers anywhere in the document. */
  function Breakpoints(v: Json): nat {
    match v
    case Object(fields) => FieldBreakpoints(fields)
    case Array(items) => ItemBreakpoints(items)
    case _ => 0
  }

  function FieldBreakpoints(fields: seq<Field>): nat {
    if fields == [] then 0
    else
      (if fields[0].key == "cache_control" then 1 else 0) + Breakpoints(fields[0].value) + FieldBreakpoints(fields[1..])
  }

  function ItemBreakpoints(items: seq<Json>): nat {
    if items == [] then 0 else Breakpoints(items[0]) + ItemBreakpoints(items[1..])
  }

  datatype Endpoint = Responses | ChatCompletions | Unsupported

  /** How a request is read: the document, and the token count a JSON number stands for. */
  datatype Reader = Reader(parse: string -> Option<Json>, count: Num -> Word)

  datatype Layout = Layout(explicit: bool, ttl: bool, cacheKey: Option<string>, breakpoints: nat, maxOutput: Word)

  function CountAt(root: Json, key: string, rd: Reader): Option<Word> {
    match Get(root, key)
    case Some(Number(n)) => Some(rd.count(n))
    case _ => None
  }

  function OutputBound(root: Json, endpoint: Endpoint, rd: Reader): Word {
    var first := CountAt(root, if endpoint.Responses? then "max_output_tokens" else "max_completion_tokens", rd);
    if first.Some? then first.value
    else if endpoint.ChatCompletions? && CountAt(root, "max_tokens", rd).Some? then CountAt(root, "max_tokens", rd).value
    else 0
  }

  ghost predicate Readable(root: Option<Json>, model: string) {
    root.Some? && root.value.Object? && GetString(root.value, "model") == model && OneReading(root.value)
  }

  function LayoutOf(root: Json, endpoint: Endpoint, rd: Reader): Layout {
    var cc := Get(root, "prompt_cache");
    var held := if cc.Some? && cc.value.Object? then cc.value else Object([]);
    Layout(GetString(held, "mode") == "explicit", Get(held, "ttl").Some?, StringField(held, "key"),
           Breakpoints(root), OutputBound(root, endpoint, rd))
  }

  /** parseOpenAILayout. */
  method ParseLayout(text: string, model: string, endpoint: Endpoint, rd: Reader) returns (out: Option<Layout>)
    ensures out.Some? <==> Readable(rd.parse(text), model)
    ensures out.Some? ==> out.value == LayoutOf(rd.parse(text).value, endpoint, rd)
  {
    var root := rd.parse(text);
    if root.None? || !root.value.Object? || GetString(root.value, "model") != model {
      return None;
    }
    var bad := RejectsDuplicates(root.value);
    out := if bad then None else Some(LayoutOf(root.value, endpoint, rd));
  }

  // ---- evidence ----

  datatype Source = NoSource | LocalExact | RemoteEstimate | RemoteExactUnpriced

  datatype Evidence = Evidence(
    provider: Provider,
    endpoint: Endpoint,
    modelSnapshot: Word,
    tokenizer: Word,
    size: int,
    tokens: Word,
    source: Source)

  datatype Context = Context(
    model: string,
    modelSnapshot: Word,
    tokenizer: Word,
    pricingTable: Word,
    contracts: Word,
    guard: Word,
    margin: Money,
    prices: Prices)

  datatype Refusal =
    | Cost(r: Reason)
    | BadArgument
    | BadIdentity
    | UnsupportedEndpoint
    | NotLocalExact
    | RemoteCount
    | RemoteCountUnpriced
    | PricingUnavailable
    | BadShape
    | UnsupportedLayout
    | OutputBoundUnavailable
    | PrefixUnproven
    | GuardBand

  /** None when the count was taken locally over exactly this request. */
  function EvidenceRefusal(e: Option<Evidence>, ctx: Context, text: string, endpoint: Endpoint): Option<Refusal> {
    if e.None? || e.value.provider != OpenAI || e.value.endpoint != endpoint
       || e.value.modelSnapshot != ctx.modelSnapshot || e.value.tokenizer != ctx.tokenizer || e.value.size != |text|
    then Some(NotLocalExact)
    else
      match e.value.source
      case RemoteExactUnpriced => Some(RemoteCountUnpriced)
      case RemoteEstimate => Some(RemoteCount)
      case LocalExact => None
      case NoSource => Some(NotLocalExact)
  }

  // ---- the plan ----

  datatype PlanInput = PlanInput(
    baseline: string,
    candidate: string,
    ctx: Option<Context>,
    baselineTokens: Option<Evidence>,
    candidateTokens: Option<Evidence>,
    endpoint: Endpoint)

  datatype Plan = Plan(verdict: Verdict, reason: Refusal, scenario: Option<Scenario>)

  function Refused(r: Refusal): Plan {
    Plan(CostIndeterminate, r, None)
  }

  /** What the two layouts must have in common, and what neither may have. */
  function LayoutRefusal(b: Layout, c: Layout): Option<Refusal> {
    if !b.explicit || !c.explicit then Some(UnsupportedLayout)
    else if b.ttl != c.ttl || b.cacheKey != c.cacheKey then Some(UnsupportedLayout)
    else if b.maxOutput != c.maxOutput then Some(OutputBoundUnavailable)
    else if b.breakpoints != c.breakpoints then Some(UnsupportedLayout)
    else if b.breakpoints != 0 then Some(PrefixUnproven)
    else None
  }

  /** The one scenario, or None when a product or sum would not fit. */
  function Costed(baseline: Word, candidate: Word, maxOutput: Word, p: Prices): Option<Scenario> {
    var b, c := InputCost(baseline, p.input), InputCost(candidate, p.input);
    var o := OutputCost(maxOutput, p.output, Long(candidate));
    if b.Overflow? || c.Overflow? || o.Overflow? || MoneyAdd(c.m, o.m).Overflow? then None
    else Some(Scenario(0, b.m, b.m, c.m, MoneyAdd(c.m, o.m).m))
  }

  function LocalProof(s: Scenario, ctx: Context, endpoint: Endpoint): Proof {
    Proof(1, 1, 1, 0,
      RegistryKey(OpenAI, if endpoint.Responses? then 1 else 2, ctx.modelSnapshot, ctx.tokenizer, ctx.pricingTable,
                  ctx.contracts, 1, 1, 1, 1),
      [s], ctx.margin)
  }

  /** All the gates of the planner. */
  ghost predicate Gated(input: PlanInput, rd: Reader) {
    && input.ctx.Some? && input.baseline != "" && input.candidate != "" && Pinned(input.ctx.value)
    && input.endpoint != Unsupported
    && EvidenceRefusal(input.baselineTokens, input.ctx.value, input.baseline, input.endpoint) == None
    && EvidenceRefusal(input.candidateTokens, input.ctx.value, input.candidate, input.endpoint) == None
    && PricesValid(input.ctx.value.prices) && input.ctx.value.margin >= 0
    && Readable(rd.parse(input.baseline), input.ctx.value.model)
    && Readable(rd.parse(input.candidate), input.ctx.value.model)
    && LayoutRefusal(LayoutOf(rd.parse(input.baseline).value, input.endpoint, rd),
                     LayoutOf(rd.parse(input.candidate).value, input.endpoint, rd)) == None
    && !WithinGuard(input.baselineTokens.value.tokens, input.ctx.value.guard)
    && !WithinGuard(input.candidateTokens.value.tokens, input.ctx.value.guard)
  }

  /** And the strict comparison at the end of them. */
  ghost predicate Provable(input: PlanInput, rd: Reader) {
    && Gated(input, rd)
    && Cheaper(input.baselineTokens.value.tokens, input.candidateTokens.value.tokens,
               OutputBound(rd.parse(input.candidate).value, input.endpoint, rd), input.ctx.value)
  }

  predicate Pinned(ctx: Context) {
    ctx.model != "" && ctx.modelSnapshot != 0 && ctx.tokenizer != 0 && ctx.pricingTable != 0 && ctx.contracts != 0
  }

  predicate Cheaper(baseline: Word, candidate: Word, maxOutput: Word, ctx: Context) {
    var s := Costed(baseline, candidate, maxOutput, ctx.prices);
    s.Some? && s.value.candidateUpper + ctx.margin < s.value.baselineLower
  }

  /** What a proven cost means: strictly fewer input tokens, so many fewer that the saving pays for the margin
      and for all the output the request may ask for, whatever the price tiers on the two sides. */
  lemma ProvenSaves(baseline: Word, candidate: Word, maxOutput: Word, ctx: Context)
    requires Cheaper(baseline, candidate, maxOutput, ctx) && ctx.margin >= 0
    ensures candidate < baseline
    ensures var p := ctx.prices;
            var out := 2 * (maxOutput * p.output) + if Long(candidate) then maxOutput * p.output else 0;
            2 * (candidate * p.input * (if Long(candidate) then 2 else 1)) + out + 2 * ctx.margin
            < 2 * (baseline * p.input * (if Long(baseline) then 2 else 1))
  {
    if baseline <= candidate {
      InputCostMonotone(baseline, candidate, ctx.prices.input);
    }
  }

  /** What the caller of a proven plan may rely on: fewer input tokens, a saving that pays for the margin and the
      output bound, and the same price tiers for every count the tokenizer could be off to. */
  ghost predicate Saves(input: PlanInput, rd: Reader)
    requires Gated(input, rd)
  {
    var ctx, b, c := input.ctx.value, input.baselineTokens.value.tokens, input.candidateTokens.value.tokens;
    var maxOutput, p := OutputBound(rd.parse(input.candidate).value, input.endpoint, rd), ctx.prices;
    var out := 2 * (maxOutput * p.output) + if Long(c) then maxOutput * p.output else 0;
    && c < b
    && 2 * (c * p.input * (if Long(c) then 2 else 1)) + out + 2 * ctx.margin
       < 2 * (b * p.input * (if Long(b) then 2 else 1))
    && (forall u: int | b - ctx.guard <= u <= b + ctx.guard :: Long(u) <==> Long(b))
    && (forall u: int | c - ctx.guard <= u <= c + ctx.guard :: Long(u) <==> Long(c))
  }

  lemma ProvableSaves(input: PlanInput, rd: Reader)
    requires Provable(input, rd)
    ensures Saves(input, rd)
  {
    var ctx, b, c := input.ctx.value, input.baselineTokens.value.tokens, input.candidateTokens.value.tokens;
    hide EvidenceRefusal, LayoutRefusal, LayoutOf, PricesValid, Readable, OutputBound, Cheaper;
    ProvenSaves(b, c, OutputBound(rd.parse(input.candidate).value, input.endpoint, rd), ctx);
    GuardSettlesTheTier(b, ctx.guard);
    GuardSettlesTheTier(c, ctx.guard);
    hide WithinGuard, Long;
  }

  lemma OneBit(b: nat)
    ensures HasBit(1, b) <==> b == 0
  {
    if b > 0 {
      NoBits(b - 1);
    }
  }

  /** The local proof stands exactly when the one scenario is cheaper. */
  lemma LocalProofDecides(s: Scenario, ctx: Context, endpoint: Endpoint)
    requires s.id == 0 && s.Bounded() && Pinned(ctx) && ctx.margin >= 0
    ensures var p := LocalProof(s, ctx, endpoint);
            Sound(p) && (AlwaysCheaper(p) <==> s.candidateUpper + ctx.margin < s.baselineLower)
  {
    var p := LocalProof(s, ctx, endpoint);
    assert s in p.scenarios && p.scenarios[0] == s;
    forall b: nat ensures HasBit(1, b) <==> HasId([s], b) {
      OneBit(b);
      assert HasId([s], b) <==> b == 0;
    }
  }

  /** The planner behind its gates: the one scenario, and the local proof over it. */
  method Priced(b: Word, c: Word, maxOutput: Word, ctx: Context, endpoint: Endpoint) returns (plan: Plan)
    requires Pinned(ctx) && ctx.margin >= 0
    ensures plan.verdict == CostProven <==> Cheaper(b, c, maxOutput, ctx)
    ensures plan.verdict == CostProven <==> plan.reason == Cost(Accepted)
  {
    var s := Costed(b, c, maxOutput, ctx.prices);
    if s.None? {
      return Refused(Cost(MoneyOverflow));
    }
    CostedIsBounded(b, c, maxOutput, ctx.prices);
    hide Costed, LocalProof, Sound, AlwaysCheaper;
    LocalProofDecides(s.value, ctx, endpoint);
    var v, r := ProofCostEvaluate(LocalProof(s.value, ctx, endpoint));
    plan := Plan(v, Cost(r), s);
  }

  /** OpenAIGPT56Plan: a cost is proven exactly when every gate is passed and the candidate is strictly
      cheaper, and then it saves; it is rejected only behind all gates, when it is not cheaper; and a request
      that a gate stops is undecided. */
  method OpenAIGPT56Plan(input: PlanInput, rd: Reader) returns (plan: Plan)
    ensures plan.verdict == CostProven <==> Provable(input, rd)
    ensures plan.verdict == CostProven <==> plan.reason == Cost(Accepted)
    ensures plan.verdict == CostProven ==> Saves(input, rd)
    ensures plan.verdict == CostRejected ==> Gated(input, rd) && !Provable(input, rd)
    ensures !Gated(input, rd) ==> plan.verdict == CostIndeterminate && plan.scenario == None
  {
    hide Saves, Cheaper, PricesValid, Readable;
    if input.ctx.None? || input.baseline == "" || input.candidate == "" {
      return Refused(BadArgument);
    }
    var ctx := input.ctx.value;
    if !Pinned(ctx) {
      return Refused(BadIdentity);
    }
    if input.endpoint == Unsupported {
      return Refused(UnsupportedEndpoint);
    }
    var why := EvidenceRefusal(input.baselineTokens, ctx, input.baseline, input.endpoint);
    if why.Some? {
      return Refused(why.value);
    }
    why := EvidenceRefusal(input.candidateTokens, ctx, input.candidate, input.endpoint);
    if why.Some? {
      return Refused(why.value);
    }
    if !PricesValid(ctx.prices) || ctx.margin < 0 {
      return Refused(PricingUnavailable);
    }
    var baseline := ParseLayout(input.baseline, ctx.model, input.endpoint, rd);
    var candidate := ParseLayout(input.candidate, ctx.model, input.endpoint, rd);
    if baseline.None? || candidate.None? {
      return Refused(BadShape);
    }
    why := LayoutRefusal(baseline.value, candidate.value);
    if why.Some? {
      return Refused(why.value);
    }
    var b, c := input.baselineTokens.value.tokens, input.candidateTokens.value.tokens;
    if WithinGuard(b, ctx.guard) || WithinGuard(c, ctx.guard) {
      return Refused(GuardBand);
    }
    plan := Priced(b, c, candidate.value.maxOutput, ctx, input.endpoint);
    if Provable(input, rd) {
      ProvableSaves(input, rd);
    }
  }

  lemma CostedIsBounded(b: Word, c: Word, maxOutput: Word, p: Prices)
    requires Costed(b, c, maxOutput, p).Some?
    ensures Costed(b, c, maxOutput, p).value.Bounded() && Costed(b, c, maxOutput, p).value.id == 0
  {
    Product(b, p.input);
    Product(c, p.input);
  }
}
