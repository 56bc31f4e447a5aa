/** The cost proof of proof.go: fixed-point money in 64 bits, the exhaustive scenario set as the bits of a
    mask, and the worst-case comparison, with what it decides over unbounded integers. */
module ProofCost {

  const MAX_MONEY: int := 0x7FFF_FFFF_FFFF_FFFF
  const MIN_MONEY: int := -0x8000_0000_0000_0000
  const MAX_SCENARIOS: nat := 16

  type Money = x: int | -0x8000_0000_0000_0000 <= x <= 0x7FFF_FFFF_FFFF_FFFF

  type Word = x: int | 0 <= x < 0x1_0000_0000_0000_0000

  datatype Sum = Fits(m: Money) | Overflow

  /** Addition that tells when it would wrap. */
  function MoneyAdd(a: Money, b: Money): (r: Sum)
    ensures r == if MIN_MONEY <= a + b <= MAX_MONEY then Fits(a + b) else Overflow
  {
    if b > 0 && a > MAX_MONEY - b then Overflow
    else if b < 0 && a < MIN_MONEY - b then Overflow
    else Fits(a + b)
  }

  // ---- bits of a mask ----

  function Power2(i: nat): nat {
    if i == 0 then 1 else 2 * Power2(i - 1)
  }

  predicate HasBit(m: nat, i: nat) {
    if i == 0 then m % 2 == 1 else HasBit(m / 2, i - 1)
  }

  /** m | 1 << i. */
  function WithBit(m: nat, i: nat): nat {
    if HasBit(m, i) then m else m + Power2(i)
  }

  function OnesCount(m: nat): nat {
    if m == 0 then 0 else m % 2 + OnesCount(m / 2)
  }

  lemma {:induction false} BitOfSum(m: nat, i: nat, j: nat)
    requires !HasBit(m, i)
    ensures HasBit(m + Power2(i), j) <==> j == i || HasBit(m, j)
    ensures OnesCount(m + Power2(i)) == OnesCount(m) + 1
    decreases i, j
  {
    if i == 0 {
      assert (m + 1) / 2 == m / 2;
      if j > 0 {
        assert HasBit(m + 1, j) == HasBit((m + 1) / 2, j - 1);
      }
    } else {
      var half := m / 2;
      assert (m + 2 * Power2(i - 1)) / 2 == half + Power2(i - 1);
      assert (m + 2 * Power2(i - 1)) % 2 == m % 2;
      BitOfSum(half, i - 1, if j > 0 then j - 1 else 0);
      assert OnesCount(m) == m % 2 + OnesCount(half);
    }
  }

  lemma WithBitSets(m: nat, i: nat, j: nat)
    ensures HasBit(WithBit(m, i), j) <==> j == i || HasBit(m, j)
    ensures OnesCount(WithBit(m, i)) == OnesCount(m) + if HasBit(m, i) then 0 else 1
  {
    if !HasBit(m, i) {
      BitOfSum(m, i, j);
    }
  }

  lemma {:induction false} NoBits(i: nat)
    ensures !HasBit(0, i)
  {
    if i > 0 {
      NoBits(i - 1);
    }
  }

  /** A mask is its bits. */
  lemma {:induction false} BitsDecide(a: nat, b: nat)
    requires forall i: nat :: HasBit(a, i) <==> HasBit(b, i)
    ensures a == b
    decreases a + b
  {
    assert HasBit(a, 0) <==> HasBit(b, 0);
    if a > 0 || b > 0 {
      forall i: nat ensures HasBit(a / 2, i) <==> HasBit(b / 2, i) {
        assert HasBit(a, i + 1) <==> HasBit(b, i + 1);
      }
      BitsDecide(a / 2, b / 2);
    }
  }

  // ---- proofs ----

  datatype Provider = OpenAI | Anthropic | Other

  datatype RegistryKey = RegistryKey(
    provider: Provider,
    endpoint: Word,
    modelSnapshot: Word,
    tokenizer: Word,
    pricingTable: Word,
    contracts: Word,
    transform: Word,
    transformVersion: Word,
    scenarioSet: Word,
    coverage: Word)
  {
    predicate Valid() {
      && provider != Other && endpoint != 0 && modelSnapshot != 0 && tokenizer != 0 && pricingTable != 0
      && contracts != 0 && transform != 0 && transformVersion != 0 && scenarioSet != 0 && coverage != 0
    }
  }

  datatype Scenario = Scenario(
    id: Word,
    baselineLower: Money,
    baselineUpper: Money,
    candidateLower: Money,
    candidateUpper: Money)
  {
    predicate Bounded() {
      0 <= baselineLower <= baselineUpper && 0 <= candidateLower <= candidateUpper
    }
  }

  datatype Proof = Proof(
    tenant: Word,
    account: Word,
    call: Word,
    generation: Word,
    key: RegistryKey,
    scenarios: seq<Scenario>,
    margin: Money)

  datatype Reason =
    | Accepted
    | InvalidIdentity
    | InvalidScenarioCount
    | InvalidScenarioCoverage
    | InvalidMoneyBound
    | MoneyOverflow
    | NotStrictlyCheaper

  datatype Verdict = CostRejected | CostProven | CostIndeterminate

  /** Every field that identifies the call is set. */
  predicate Identified(p: Proof) {
    p.tenant != 0 && p.account != 0 && p.call != 0 && p.key.Valid()
  }

  predicate HasId(ss: seq<Scenario>, b: nat) {
    exists s <- ss :: s.id == b
  }

  /** The bits of the mask are the ids of the scenarios. */
  ghost predicate Covers(m: nat, ss: seq<Scenario>) {
    forall b: nat :: HasBit(m, b) <==> HasId(ss, b)
  }

  predicate DistinctIds(ss: seq<Scenario>) {
    forall i, j | 0 <= i < j < |ss| :: ss[i].id != ss[j].id
  }

  /** The scenarios are exactly the bits of the coverage mask, each once. */
  ghost predicate Exhaustive(p: Proof) {
    && 1 <= |p.scenarios| <= MAX_SCENARIOS
    && DistinctIds(p.scenarios) && (forall s <- p.scenarios :: s.id < MAX_SCENARIOS)
    && Covers(p.key.coverage, p.scenarios)
  }

  ghost predicate Sound(p: Proof) {
    Identified(p) && Exhaustive(p) && p.margin >= 0
  }

  /** The mask the first n scenarios make, when their ids are in range and distinct. */
  function Mask(ss: seq<Scenario>): nat {
    if ss == [] then 0 else WithBit(Mask(ss[..|ss| - 1]), ss[|ss| - 1].id)
  }

  lemma {:induction false} MaskBits(ss: seq<Scenario>, b: nat)
    ensures HasBit(Mask(ss), b) <==> HasId(ss, b)
  {
    if ss == [] {
      NoBits(b);
    } else {
      var front, s := ss[..|ss| - 1], ss[|ss| - 1];
      MaskBits(front, b);
      WithBitSets(Mask(front), s.id, b);
      assert ss == front + [s];
    }
  }

  lemma {:induction false} MaskCount(ss: seq<Scenario>)
    requires DistinctIds(ss)
    ensures OnesCount(Mask(ss)) == |ss|
  {
    if ss != [] {
      var front, s := ss[..|ss| - 1], ss[|ss| - 1];
      MaskCount(front);
      MaskBits(front, s.id);
      WithBitSets(Mask(front), s.id, 0);
    }
  }

  /** Being exhaustive is what comparing the accumulated mask with the coverage checks, and the bit count that
      is compared first follows from it. */
  lemma ExhaustiveIsMask(m: nat, ss: seq<Scenario>)
    requires DistinctIds(ss)
    ensures Covers(m, ss) <==> Mask(ss) == m
    ensures Mask(ss) == m ==> OnesCount(m) == |ss|
  {
    forall b: nat ensures HasBit(Mask(ss), b) <==> HasId(ss, b) {
      MaskBits(ss, b);
    }
    MaskCount(ss);
    if Covers(m, ss) {
      BitsDecide(Mask(ss), m);
    }
  }

  /** validateProof. */
  method ValidateProof(p: Proof) returns (r: Reason)
    ensures r == Accepted <==> Sound(p)
  {
    if p.tenant == 0 || p.account == 0 || p.call == 0 || !p.key.Valid() {
      return InvalidIdentity;
    }
    var ss := p.scenarios;
    if |ss| == 0 || |ss| > MAX_SCENARIOS {
      return InvalidScenarioCount;
    }
    if DistinctIds(ss) {
      ExhaustiveIsMask(p.key.coverage, ss);
    }
    if OnesCount(p.key.coverage) != |ss| {
      return InvalidScenarioCoverage;
    }
    var seen, i := 0, 0;
    while i < |ss|
      invariant 0 <= i <= |ss|
      invariant seen == Mask(ss[..i]) && DistinctIds(ss[..i]) && forall s <- ss[..i] :: s.id < MAX_SCENARIOS
    {
      MaskBits(ss[..i], ss[i].id);
      assert ss[..i + 1] == ss[..i] + [ss[i]] && ss[i] in ss;
      if ss[i].id >= MAX_SCENARIOS {
        return InvalidScenarioCoverage;
      }
      if HasBit(seen, ss[i].id) {
        Repeated(ss, i);
        return InvalidScenarioCoverage;
      }
      NextIsDistinct(ss, i);
      seen := WithBit(seen, ss[i].id);
      i := i + 1;
    }
    assert ss[..i] == ss;
    if seen != p.key.coverage {
      return InvalidScenarioCoverage;
    }
    if p.margin < 0 {
      return InvalidMoneyBound;
    }
    r := Accepted;
  }

  lemma Repeated(ss: seq<Scenario>, i: nat)
    requires i < |ss| && HasId(ss[..i], ss[i].id)
    ensures !DistinctIds(ss)
  {
    var s :| s in ss[..i] && s.id == ss[i].id;
    var j :| 0 <= j < i && ss[..i][j] == s;
    assert ss[j].id == ss[i].id;
  }

  lemma NextIsDistinct(ss: seq<Scenario>, i: nat)
    requires i < |ss| && DistinctIds(ss[..i]) && !HasId(ss[..i], ss[i].id)
    ensures DistinctIds(ss[..i + 1])
  {
    forall j, k | 0 <= j < k < i + 1 ensures ss[j].id != ss[k].id {
      assert ss[..i][j] == ss[j] && ss[..i][j] in ss[..i];
      if k < i {
        assert ss[..i][k] == ss[k];
      }
    }
  }

  // ---- cost ----

  /** Every candidate, with the margin, is below every baseline: the worst case on both sides, in exact
      arithmetic. */
  ghost predicate AlwaysCheaper(p: Proof) {
    && (forall s <- p.scenarios :: s.Bounded())
    && (forall s, t | s in p.scenarios && t in p.scenarios :: s.candidateUpper + p.margin < t.baselineLower)
  }

  /** ProofCostEvaluate proves a cost exactly when the proof is sound and the candidate is cheaper whichever
      scenario the candidate and whichever the baseline meets; no sum that would wrap ever counts. */
  method ProofCostEvaluate(p: Proof) returns (v: Verdict, r: Reason)
    ensures v == CostProven <==> Sound(p) && AlwaysCheaper(p)
    ensures v == CostProven <==> r == Accepted
    ensures v == CostRejected ==> Sound(p) && !AlwaysCheaper(p)
  {
    r := ValidateProof(p);
    if r != Accepted {
      return CostIndeterminate, r;
    }
    var ss, low, high, i := p.scenarios, MAX_MONEY, 0, 0;
    while i < |ss|
      invariant 0 <= i <= |ss| && MIN_MONEY <= low <= MAX_MONEY && 0 <= high <= MAX_MONEY
      invariant forall s <- ss[..i] :: s.Bounded() && s.candidateUpper <= high && low <= s.baselineLower
      invariant i == 0 ==> low == MAX_MONEY && high == 0
      invariant i > 0 ==> exists s <- ss[..i] :: s.candidateUpper == high
      invariant i > 0 ==> exists s <- ss[..i] :: s.baselineLower == low
    {
      var s := ss[i];
      assert ss[..i + 1] == ss[..i] + [s] && s in ss;
      if s.baselineLower < 0 || s.baselineUpper < 0 || s.candidateLower < 0 || s.candidateUpper < 0
         || s.baselineLower > s.baselineUpper || s.candidateLower > s.candidateUpper
      {
        assert !s.Bounded();
        return CostIndeterminate, InvalidMoneyBound;
      }
      var withMargin := MoneyAdd(s.candidateUpper, p.margin);
      if withMargin.Overflow? {
        return CostIndeterminate, MoneyOverflow;
      }
      if withMargin.m >= s.baselineLower {
        return CostRejected, NotStrictlyCheaper;
      }
      if s.baselineLower < low {
        low := s.baselineLower;
      }
      if s.candidateUpper > high {
        high := s.candidateUpper;
      }
      i := i + 1;
    }
    assert ss[..i] == ss;
    ghost var c :| c in ss && c.candidateUpper == high;
    ghost var b :| b in ss && b.baselineLower == low;
    var withMargin := MoneyAdd(high, p.margin);
    if withMargin.Overflow? {
      return CostIndeterminate, MoneyOverflow;
    }
    if withMargin.m >= low {
      return CostRejected, NotStrictlyCheaper;
    }
    return CostProven, Accepted;
  }
}
