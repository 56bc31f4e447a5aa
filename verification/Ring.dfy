/** The single-producer/single-consumer ring of ring.go. The two sides run freely against each other;
    what is atomic is one load or store of an index word and one access to a slot. Index words wrap at
    64 bits and are only ever compared by their difference. */
module Ring {
  import opened Basics

  const WORD: int := 0x1_0000_0000_0000_0000

  /** What the producer is in the middle of: nothing, ProduceBegin after its load of head, filling the
      slot it was given, or ProduceCommit after its load of head. */
  datatype Producer = PIdle | PLoaded(head: int) | PFilling(slot: nat) | PCommitting(head: int)

  /** Likewise for ConsumeBegin, the reading of the slot, and ConsumeCommit. */
  datatype Consumer = CIdle | CLoaded(tail: int) | CReading(slot: nat) | CCommitting(tail: int)

  /** The shared words and slots, both sides' progress, and the history: every value published and every
      value released, in order. */
  datatype State<T> = State(
    head: int,
    tail: int,
    slots: seq<T>,
    producer: Producer,
    consumer: Consumer,
    produced: seq<T>,
    consumed: seq<T>)

  /** One atomic step of one side. A producer may also walk away from the slot it was given. */
  datatype Action<T> =
    | LoadOwnHead
    | CheckRoom
    | Fill(x: T)
    | ReloadHead
    | StoreHead
    | Abandon
    | LoadOwnTail
    | CheckData
    | ReloadTail
    | StoreTail

  function Wrap(n: int): (w: int)
    ensures 0 <= w < WORD
  {
    n % WORD
  }

  /** `slot(index)`: the index masked by capacity - 1, which for a power of two is the remainder. */
  function SlotOf(index: int, capacity: nat): (i: nat)
    requires 0 < capacity
    ensures i < capacity
  {
    index % capacity
  }

  predicate PowerOfTwo(n: nat)
    decreases n
  {
    n == 1 || (n > 1 && n % 2 == 0 && PowerOfTwo(n / 2))
  }

  /** A side steps only when it is at the matching point; any other action changes nothing. */
  function Step<T>(s: State<T>, a: Action<T>): (t: State<T>)
    requires |s.slots| > 0
    ensures |t.slots| == |s.slots|
  {
    var capacity := |s.slots|;
    match a
    case LoadOwnHead =>
      if s.producer.PIdle? then s.(producer := PLoaded(s.head)) else s
    case CheckRoom =>
      if !s.producer.PLoaded? then s
      else if Wrap(s.producer.head - s.tail) >= capacity then s.(producer := PIdle)
      else s.(producer := PFilling(SlotOf(s.producer.head, capacity)))
    case Fill(x) =>
      if s.producer.PFilling? && s.producer.slot < capacity then s.(slots := s.slots[s.producer.slot := x]) else s
    case ReloadHead =>
      if s.producer.PFilling? then s.(producer := PCommitting(s.head)) else s
    case StoreHead =>
      if s.producer.PCommitting? then
        s.(head := Wrap(s.producer.head + 1), producer := PIdle,
           produced := s.produced + [s.slots[SlotOf(s.producer.head, capacity)]])
      else s
    case Abandon =>
      if s.producer.PFilling? then s.(producer := PIdle) else s
    case LoadOwnTail =>
      if s.consumer.CIdle? then s.(consumer := CLoaded(s.tail)) else s
    case CheckData =>
      if !s.consumer.CLoaded? then s
      else if s.head == s.consumer.tail then s.(consumer := CIdle)
      else s.(consumer := CReading(SlotOf(s.consumer.tail, capacity)))
    case ReloadTail =>
      if s.consumer.CReading? then s.(consumer := CCommitting(s.tail)) else s
    case StoreTail =>
      if s.consumer.CCommitting? then
        s.(tail := Wrap(s.consumer.tail + 1), consumer := CIdle,
           consumed := s.consumed + [s.slots[SlotOf(s.consumer.tail, capacity)]])
      else s
  }

  function Run<T>(s: State<T>, schedule: seq<Action<T>>): (t: State<T>)
    requires |s.slots| > 0
    ensures |t.slots| == |s.slots|
    decreases |schedule|
  {
    if schedule == [] then s else Run(Step(s, schedule[0]), schedule[1..])
  }

  /** A ring that both sides are out of, holding what was published and not yet released. */
  ghost predicate Fresh<T>(s: State<T>) {
    && s.producer.PIdle? && s.consumer.CIdle?
    && Geometry(|s.slots|)
    && s.head == s.tail == 0 && s.produced == s.consumed == []
  }

  /** The capacities AttachRing lets through. */
  predicate Geometry(capacity: nat) {
    2 <= capacity < 0x1_0000_0000 && PowerOfTwo(capacity)
  }

  // ---- the invariant ----

  /** The published values not yet released: the queue the ring stands for. */
  function Queue<T>(s: State<T>): seq<T>
    requires |s.consumed| <= |s.produced|
  {
    s.produced[|s.consumed|..]
  }

  ghost predicate Inv<T>(s: State<T>) {
    var h, t := |s.produced|, |s.consumed|;
    && Geometry(|s.slots|)
    && s.head == Wrap(h) && s.tail == Wrap(t)
    && t <= h <= t + |s.slots|
    && (forall k | t <= k < h :: s.slots[k % |s.slots|] == s.produced[k])
    && s.consumed <= s.produced
    && (match s.producer
        case PIdle => true
        case PLoaded(head) => head == s.head
        case PFilling(slot) => h - t < |s.slots| && slot == h % |s.slots|
        case PCommitting(head) => h - t < |s.slots| && head == s.head)
    && (match s.consumer
        case CIdle => true
        case CLoaded(tail) => tail == s.tail
        case CReading(slot) => t < h && slot == t % |s.slots|
        case CCommitting(tail) => t < h && tail == s.tail)
  }

  // ---- arithmetic of wrapping words ----

  lemma {:induction false} PowerDivides(n: nat, m: nat)
    requires PowerOfTwo(n) && PowerOfTwo(m) && n <= m
    ensures m % n == 0
    decreases m
  {
    if n == m {
    } else if n > 1 {
      PowerHalf(n, m);
      PowerDivides(n / 2, m / 2);
      var q := (m / 2) / (n / 2);
      assert m / 2 == q * (n / 2);
      assert m == 2 * (q * (n / 2)) == q * (2 * (n / 2)) == q * n;
      MultipleMod(q, n);
    }
  }

  lemma PowerHalf(n: nat, m: nat)
    requires PowerOfTwo(n) && PowerOfTwo(m) && 1 < n < m
    ensures n / 2 <= m / 2 && m % 2 == 0 && n % 2 == 0
  {
  }

  lemma MultipleMod(q: int, n: nat)
    requires n > 0
    ensures (q * n) % n == 0
  {
    ModAdd(0, q, n);
  }

  lemma Multiple(d: int, n: int)
    requires n > 0
    ensures d >= 1 ==> d * n >= n
    ensures d <= -1 ==> d * n <= -n
  {
  }

  lemma RemainderUnique(x: int, q: int, m: int, n: nat)
    requires 0 <= m < n && x == q * n + m
    ensures x % n == m && x / n == q
  {
    var d := x / n - q;
    assert x == (x / n) * n + x % n;
    assert d * n == m - x % n;
    Multiple(d, n);
  }

  lemma ModShift(r: int, n: nat)
    requires n > 0
    ensures (r + n) % n == r % n
  {
    RemainderUnique(r + n, r / n + 1, r % n, n);
  }

  lemma {:induction false} ModAdd(r: int, q: int, n: nat)
    requires n > 0
    ensures (r + q * n) % n == r % n
    decreases if q < 0 then -q else q
  {
    if q > 0 {
      ModAdd(r, q - 1, n);
      ModShift(r + (q - 1) * n, n);
      assert r + q * n == (r + (q - 1) * n) + n;
    } else if q < 0 {
      ModAdd(r, q + 1, n);
      ModShift(r + q * n, n);
      assert (r + q * n) + n == r + (q + 1) * n;
    }
  }

  lemma {:induction false} PowerProduct(a: nat, b: nat)
    requires PowerOfTwo(a) && PowerOfTwo(b)
    ensures a * b >= 1 && PowerOfTwo(a * b)
  {
    if a > 1 {
      var half := a / 2;
      PowerProduct(half, b);
      Doubled(half, b);
      assert a == 2 * half && (a * b) / 2 == half * b;
    }
  }

  lemma Doubled(half: nat, b: nat)
    ensures (2 * half) * b == 2 * (half * b)
  {
  }

  lemma WordIsPower(capacity: nat)
    requires Geometry(capacity)
    ensures WORD % capacity == 0
  {
    PowerProduct(2, 2);
    PowerProduct(4, 4);
    PowerProduct(16, 16);
    PowerProduct(0x100, 0x100);
    PowerProduct(0x1_0000, 0x1_0000);
    PowerProduct(0x1_0000_0000, 0x1_0000_0000);
    PowerDivides(capacity, WORD);
  }

  /** Wrapping an index does not move its slot. */
  lemma WrapKeepsSlot(n: nat, capacity: nat)
    requires Geometry(capacity)
    ensures SlotOf(Wrap(n), capacity) == n % capacity
  {
    WordIsPower(capacity);
    var m := WORD / capacity;
    assert WORD == m * capacity;
    var q := n / WORD;
    assert n == Wrap(n) + q * WORD;
    assert q * WORD == (q * m) * capacity;
    ModAdd(Wrap(n), q * m, capacity);
  }

  /** The wrapped difference of two wrapped indices is the true distance when that is below a word. */
  lemma WrapDistance(h: nat, t: nat)
    requires t <= h < t + WORD
    ensures Wrap(Wrap(h) - Wrap(t)) == h - t
    ensures Wrap(h) == Wrap(t) <==> h == t
  {
    var qh, qt := h / WORD, t / WORD;
    assert Wrap(h) - Wrap(t) == (h - t) + (qt - qh) * WORD;
    ModAdd(h - t, qt - qh, WORD);
  }

  lemma WrapNext(n: nat)
    ensures Wrap(Wrap(n) + 1) == Wrap(n + 1)
  {
    ModAdd(Wrap(n) + 1, n / WORD, WORD);
  }

  /** Indices less than one capacity apart have different slots. */
  lemma SlotsApart(j: nat, k: nat, capacity: nat)
    requires capacity > 0 && j < k < j + capacity
    ensures j % capacity != k % capacity
  {
    if j % capacity == k % capacity {
      RemainderUnique(k - j, k / capacity - j / capacity, 0, capacity);
      RemainderUnique(k - j, 0, k - j, capacity);
    }
  }

  // ---- every step of every interleaving ----

  lemma FreshInv<T>(s: State<T>)
    requires Fresh(s)
    ensures Inv(s)
  {
  }

  lemma ProducerStep<T>(s: State<T>, a: Action<T>)
    requires Inv(s) && (a.LoadOwnHead? || a.CheckRoom? || a.Fill? || a.ReloadHead? || a.StoreHead? || a.Abandon?)
    ensures Inv(Step(s, a))
  {
    var h, t, capacity := |s.produced|, |s.consumed|, |s.slots|;
    WrapDistance(h, t);
    WrapKeepsSlot(h, capacity);
    WrapNext(h);
    if a.Fill? && s.producer.PFilling? {
      forall k | t <= k < h ensures k % capacity != h % capacity {
        SlotsApart(k, h, capacity);
      }
    }
  }

  lemma ConsumerStep<T>(s: State<T>, a: Action<T>)
    requires Inv(s) && (a.LoadOwnTail? || a.CheckData? || a.ReloadTail? || a.StoreTail?)
    ensures Inv(Step(s, a))
  {
    var h, t, capacity := |s.produced|, |s.consumed|, |s.slots|;
    WrapDistance(h, t);
    WrapKeepsSlot(t, capacity);
    WrapNext(t);
    if a.StoreTail? && s.consumer.CCommitting? {
      assert s.produced[..t + 1] == s.produced[..t] + [s.produced[t]];
    }
  }

  lemma StepInv<T>(s: State<T>, a: Action<T>)
    requires Inv(s)
    ensures Inv(Step(s, a))
  {
    if a.LoadOwnHead? || a.CheckRoom? || a.Fill? || a.ReloadHead? || a.StoreHead? || a.Abandon? {
      ProducerStep(s, a);
    } else {
      ConsumerStep(s, a);
    }
  }

  /** Each step of the ring is a step of a bounded queue: publishing appends the filled slot's value when
      there is room, releasing drops the first element, and nothing else touches the queue. A refusal is
      honest: the producer is turned away only from a full queue, the consumer only from an empty one. */
  lemma StepRefinesQueue<T>(s: State<T>, a: Action<T>)
    requires Inv(s)
    ensures |Queue(s)| <= |s.slots|
    ensures var t := Step(s, a);
            && Inv(t)
            && (if a.StoreHead? && s.producer.PCommitting? then
                  |Queue(s)| < |s.slots| && Queue(t) == Queue(s) + [s.slots[|s.produced| % |s.slots|]]
                else if a.StoreTail? && s.consumer.CCommitting? then
                  Queue(s) != [] && Queue(t) == Queue(s)[1..] && t.consumed == s.consumed + [Queue(s)[0]]
                else Queue(t) == Queue(s))
            && (a.CheckRoom? && s.producer.PLoaded? ==> (t.producer.PIdle? <==> |Queue(s)| == |s.slots|))
            && (a.CheckData? && s.consumer.CLoaded? ==> (t.consumer.CIdle? <==> Queue(s) == []))
  {
    StepInv(s, a);
    QueueBound(s);
    hide Inv, Step, Queue, SlotOf, Wrap;
    if a.StoreHead? && s.producer.PCommitting? {
      PublishStep(s);
    } else if a.StoreTail? && s.consumer.CCommitting? {
      ReleaseStep(s);
    } else {
      QuietStep(s, a);
    }
    if a.CheckRoom? && s.producer.PLoaded? {
      RefusalIsHonest(s);
    }
    if a.CheckData? && s.consumer.CLoaded? {
      EmptyIsHonest(s);
    }
  }

  /** ProduceBegin's two loads, taken together. */
  lemma ClaimIs<T>(s: State<T>)
    requires |s.slots| > 0 && s.producer.PIdle?
    ensures Step(Step(s, LoadOwnHead), CheckRoom)
            == if Wrap(s.head - s.tail) >= |s.slots| then s else s.(producer := PFilling(SlotOf(s.head, |s.slots|)))
  {
    hide Wrap, SlotOf;
  }

  lemma QueueBound<T>(s: State<T>)
    requires Inv(s)
    ensures |s.slots| > 0 && |s.consumed| <= |s.produced| && |Queue(s)| <= |s.slots|
  {
    hide Wrap, SlotOf;
  }

  lemma PublishStep<T>(s: State<T>)
    requires Inv(s) && s.producer.PCommitting?
    ensures var t := Step(s, StoreHead);
            && |t.consumed| <= |t.produced| && |Queue(s)| < |s.slots|
            && Queue(t) == Queue(s) + [s.slots[|s.produced| % |s.slots|]]
  {
    WrapKeepsSlot(|s.produced|, |s.slots|);
    hide Wrap, SlotOf;
  }

  lemma ReleaseStep<T>(s: State<T>)
    requires Inv(s) && s.consumer.CCommitting?
    ensures var t := Step(s, StoreTail);
            && |t.consumed| <= |t.produced| && Queue(s) != [] && Queue(t) == Queue(s)[1..]
            && t.consumed == s.consumed + [Queue(s)[0]]
  {
    WrapKeepsSlot(|s.consumed|, |s.slots|);
    hide Wrap, SlotOf;
  }

  lemma QuietStep<T>(s: State<T>, a: Action<T>)
    requires |s.slots| > 0 && |s.consumed| <= |s.produced|
    requires !(a.StoreHead? && s.producer.PCommitting?) && !(a.StoreTail? && s.consumer.CCommitting?)
    ensures var t := Step(s, a); |t.consumed| <= |t.produced| && Queue(t) == Queue(s)
  {
    hide Wrap, SlotOf;
  }

  lemma RefusalIsHonest<T>(s: State<T>)
    requires Inv(s) && s.producer.PLoaded?
    ensures Step(s, CheckRoom).producer.PIdle? <==> |Queue(s)| == |s.slots|
  {
    WrapDistance(|s.produced|, |s.consumed|);
    hide Wrap, SlotOf;
  }

  lemma EmptyIsHonest<T>(s: State<T>)
    requires Inv(s) && s.consumer.CLoaded?
    ensures Step(s, CheckData).consumer.CIdle? <==> Queue(s) == []
  {
    WrapDistance(|s.produced|, |s.consumed|);
    hide Wrap, SlotOf;
  }

  /** The producer's slot is outside the unread window, and the slot a consumer is reading holds the
      oldest unread value, whatever the producer does meanwhile. */
  lemma WindowIsSafe<T>(s: State<T>, a: Action<T>)
    requires Inv(s)
    ensures s.producer.PFilling? ==>
              forall k | |s.consumed| <= k < |s.produced| :: k % |s.slots| != s.producer.slot
    ensures s.consumer.CReading? ==> Queue(s) != [] && s.slots[s.consumer.slot] == Queue(s)[0]
    ensures s.consumer.CReading? && Step(s, a).consumer == s.consumer ==>
              Step(s, a).slots[s.consumer.slot] == s.slots[s.consumer.slot]
  {
    StepInv(s, a);
    if s.producer.PFilling? {
      forall k | |s.consumed| <= k < |s.produced| ensures k % |s.slots| != s.producer.slot {
        SlotsApart(k, |s.produced|, |s.slots|);
      }
    }
  }

  lemma StepGrows<T>(s: State<T>, a: Action<T>)
    requires |s.slots| > 0
    ensures s.produced <= Step(s, a).produced && s.consumed <= Step(s, a).consumed
  {
  }

  lemma {:induction false} RunGrows<T>(s: State<T>, schedule: seq<Action<T>>)
    requires |s.slots| > 0
    ensures s.produced <= Run(s, schedule).produced && s.consumed <= Run(s, schedule).consumed
    decreases |schedule|
  {
    hide Step;
    if schedule != [] {
      StepGrows(s, schedule[0]);
      RunGrows(Step(s, schedule[0]), schedule[1..]);
    }
  }

  lemma {:induction false} RunInv<T>(s: State<T>, schedule: seq<Action<T>>)
    requires Inv(s)
    ensures Inv(Run(s, schedule))
    decreases |schedule|
  {
    hide Step;
    if schedule != [] {
      StepInv(s, schedule[0]);
      RunInv(Step(s, schedule[0]), schedule[1..]);
    }
  }

  /** A slot being read keeps its value through any run in which the reader does not commit. */
  lemma {:induction false} HeldSlotStays<T>(s: State<T>, schedule: seq<Action<T>>)
    requires Inv(s) && s.consumer.CReading? && ReloadTail !in schedule
    ensures var t := Run(s, schedule);
            t.consumer == s.consumer && t.slots[s.consumer.slot] == s.slots[s.consumer.slot]
    decreases |schedule|
  {
    if schedule != [] {
      assert schedule[0] in schedule && forall a | a in schedule[1..] :: a in schedule;
      StepInv(s, schedule[0]);
      WindowIsSafe(s, schedule[0]);
      HeldSlotStays(Step(s, schedule[0]), schedule[1..]);
    }
  }

  /** Over every run from a fresh ring, however the two sides interleave and however often the indices
      have wrapped: at most `capacity` values are in flight, the index words tell how many, and what was
      consumed is a prefix of what was produced. History is never rewritten later. */
  lemma EveryRun<T>(s: State<T>, first: seq<Action<T>>, later: seq<Action<T>>)
    requires Fresh(s)
    ensures var t := Run(s, first);
            && Inv(t) && t.consumed <= t.produced
            && Wrap(t.head - t.tail) == |Queue(t)| <= |t.slots|
            && t.produced <= Run(t, later).produced && t.consumed <= Run(t, later).consumed
  {
    FreshInv(s);
    RunInv(s, first);
    var t := Run(s, first);
    WrapDistance(|t.produced|, |t.consumed|);
    RunGrows(t, later);
  }

  // ---- the ring in memory ----

  /** The two index words and the slots as they stand in the mapping; which step each side is at, and the
      history, are ghost. Every method of ring.go is the sequence of atomic steps its contract names. */
  class SharedRing<T> {
    var head: int
    var tail: int
    const slots: array<T>
    ghost var producer: Producer
    ghost var consumer: Consumer
    ghost var produced: seq<T>
    ghost var consumed: seq<T>

    ghost function View(): State<T>
      reads this, slots
    {
      State(head, tail, slots[..], producer, consumer, produced, consumed)
    }

    ghost predicate Valid()
      reads this, slots
    {
      Inv(View())
    }

    constructor (memory: array<T>)
      requires Geometry(memory.Length)
      ensures slots == memory && Fresh(View()) && Valid()
    {
      slots := memory;
      head, tail := 0, 0;
      producer, consumer := PIdle, CIdle;
      produced, consumed := [], [];
    }

    /** A slot to fill, or None when the ring is full. */
    method ProduceBegin() returns (slot: Option<nat>)
      requires Valid() && producer.PIdle?
      modifies this`producer
      ensures Valid() && View() == Run(old(View()), [LoadOwnHead, CheckRoom])
      ensures slot.None? <==> |Queue(old(View()))| == slots.Length
      ensures if slot.Some? then producer == PFilling(slot.value) && slot.value < slots.Length else producer.PIdle?
    {
      ghost var before := View();
      RunTwo(before, LoadOwnHead, CheckRoom);
      StepRefinesQueue(before, LoadOwnHead);
      StepRefinesQueue(Step(before, LoadOwnHead), CheckRoom);
      ClaimIs(before);
      hide Inv, Step, Run, Queue, SlotOf, Wrap;
      var h, t := head, tail;
      if Wrap(h - t) >= slots.Length {
        return None;
      }
      slot := Some(SlotOf(h, slots.Length));
      producer := PFilling(slot.value);
    }

    /** One write into the slot that was handed out. */
    method Write(slot: nat, x: T)
      requires Valid() && producer == PFilling(slot) && slot < slots.Length
      modifies slots
      ensures Valid() && View() == Step(old(View()), Fill(x)) && slots[..] == old(slots[..])[slot := x]
    {
      StepInv(View(), Fill(x));
      slots[slot] := x;
    }

    /** Gives the slot up unpublished: nothing in memory changes. */
    ghost method GiveUp()
      requires Valid() && producer.PFilling?
      modifies this`producer
      ensures Valid() && View() == Step(old(View()), Abandon) && producer.PIdle?
    {
      StepInv(View(), Abandon);
      producer := PIdle;
    }

    method ProduceCommit()
      requires Valid() && producer.PFilling?
      modifies this`head, this`producer, this`produced
      ensures Valid() && View() == Run(old(View()), [ReloadHead, StoreHead])
      ensures producer.PIdle? && produced == old(produced) + [slots[old(producer).slot]]
      ensures Queue(View()) == Queue(old(View())) + [slots[old(producer).slot]]
    {
      ghost var before := View();
      CommitPublishes(before);
      hide Run, Step, Inv, Queue;
      var h := head;
      head := Wrap(h + 1);
      produced := produced + [slots[SlotOf(h, slots.Length)]];
      producer := PIdle;
    }

    /** The oldest unread slot, or None when there is none. */
    method ConsumeBegin() returns (slot: Option<nat>)
      requires Valid() && consumer.CIdle?
      modifies this`consumer
      ensures Valid() && View() == Run(old(View()), [LoadOwnTail, CheckData])
      ensures slot.None? ==> consumer.CIdle? && |consumed| == |produced|
      ensures slot.Some? ==> consumer == CReading(slot.value) && slot.value < slots.Length
      ensures slot.Some? ==> |consumed| < |produced| && slots[slot.value] == produced[|consumed|]
    {
      ghost var before := View();
      RunTwo(before, LoadOwnTail, CheckData);
      StepRefinesQueue(before, LoadOwnTail);
      StepRefinesQueue(Step(before, LoadOwnTail), CheckData);
      WindowIsSafe(Step(Step(before, LoadOwnTail), CheckData), CheckData);
      var t := tail;
      var h := head;
      if h == t {
        return None;
      }
      slot := Some(SlotOf(t, slots.Length));
      consumer := CReading(slot.value);
    }

    method ConsumeCommit()
      requires Valid() && consumer.CReading?
      modifies this`tail, this`consumer, this`consumed
      ensures Valid() && View() == Run(old(View()), [ReloadTail, StoreTail])
      ensures Queue(old(View())) != [] && Queue(View()) == Queue(old(View()))[1..]
      ensures consumer.CIdle? && consumed == old(consumed) + [Queue(old(View()))[0]]
    {
      ghost var before := View();
      RunTwo(before, ReloadTail, StoreTail);
      StepRefinesQueue(before, ReloadTail);
      StepRefinesQueue(Step(before, ReloadTail), StoreTail);
      var t := tail;
      tail := Wrap(t + 1);
      consumed := consumed + [slots[SlotOf(t, slots.Length)]];
      consumer := CIdle;
    }

    /** A snapshot of the occupied slots. */
    method Count() returns (n: int)
      requires Valid()
      ensures n == |Queue(View())|
    {
      WrapDistance(|produced|, |consumed|);
      n := Wrap(head - tail);
    }
  }

  /** The producer's two steps as one: the filled slot is the one the head names, and it joins the queue. */
  lemma CommitPublishes<T>(s: State<T>)
    requires Inv(s) && s.producer.PFilling?
    ensures s.producer.slot < |s.slots| && SlotOf(s.head, |s.slots|) == s.producer.slot
    ensures var x, t := s.slots[s.producer.slot], Run(s, [ReloadHead, StoreHead]);
            && Inv(t) && Queue(t) == Queue(s) + [x]
            && t == s.(head := Wrap(s.head + 1), producer := PIdle, produced := s.produced + [x])
  {
    HeadNamesSlot(s);
    ReloadThenStore(s);
    hide SlotOf, Wrap;
    RunTwo(s, ReloadHead, StoreHead);
    StepRefinesQueue(s, ReloadHead);
    StepRefinesQueue(Step(s, ReloadHead), StoreHead);
    hide *;
  }

  lemma HeadNamesSlot<T>(s: State<T>)
    requires Inv(s) && s.producer.PFilling?
    ensures SlotOf(s.head, |s.slots|) == s.producer.slot == |s.produced| % |s.slots|
  {
    WrapKeepsSlot(|s.produced|, |s.slots|);
  }

  lemma ReloadThenStore<T>(s: State<T>)
    requires |s.slots| > 0 && s.producer.PFilling? && s.producer.slot < |s.slots|
    requires SlotOf(s.head, |s.slots|) == s.producer.slot
    ensures var loaded := Step(s, ReloadHead);
            && loaded == s.(producer := PCommitting(s.head))
            && Step(loaded, StoreHead)
               == s.(head := Wrap(s.head + 1), producer := PIdle, produced := s.produced + [s.slots[s.producer.slot]])
  {
    hide SlotOf, Wrap;
  }

  lemma RunTwo<T>(s: State<T>, a: Action<T>, b: Action<T>)
    requires |s.slots| > 0
    ensures Run(s, [a, b]) == Step(Step(s, a), b)
  {
    assert [a, b][1..] == [b] && [b][1..] == [];
    assert Run(Step(s, a), [b]) == Run(Step(Step(s, a), b), []);
  }
}
