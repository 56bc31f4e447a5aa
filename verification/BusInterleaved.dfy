/** An emitting and a polling client on the two ends of one ring, stepped against each other one atomic load, store
    or slot access at a time. The ring's own steps are those of Ring; here each side runs the sequence of them
    that emit and Poll of client.go are made of. */
module BusInterleaved {
  import opened Basics
  import opened Wire
  import opened BusClient
  import R = Ring

  /** Where emit is: before anything, behind its load of head, holding a slot, the header written, the payload
      written, and behind the second load of head. */
  datatype Sending =
    | Quiet
    | Claiming(e: Event)
    | Claimed(e: Event)
    | Headed(e: Event)
    | Filled(e: Event)
    | Publishing(e: Event)

  /** Where Poll is: not running, releasing the slot of the last event, looking for the next, decoding it, or
      dropping a slot that does not decode. */
  datatype Receiving = Resting | Releasing | Looking | Decoding | Dropping

  /** `held` is the event whose payload the caller of Poll may still read. */
  datatype Link = Link(
    ring: R.State<Slot>,
    sending: Sending,
    receiving: Receiving,
    held: Option<Event>,
    emitted: seq<Event>,
    polled: seq<Event>)

  datatype Move = StartEmit(e: Event) | SenderMoves | StartPoll | ReceiverMoves

  /** What emit has checked before it touches the ring. */
  predicate Sendable(e: Event, size: nat) {
    && FrameFits(e.frame) && e.frame.payloadLen == |e.payload|
    && (e.payload != [] ==> e.frame.payloadRef == HDR_LEN && Has(e.frame.flags, F_INLINE) && HDR_LEN + |e.payload| <= size)
  }

  function OnRing(l: Link, a: R.Action<Slot>): Link
    requires |l.ring.slots| > 0
  {
    l.(ring := R.Step(l.ring, a))
  }

  function SenderStep(l: Link, size: nat): Link
    requires |l.ring.slots| > 0
  {
    var p := l.ring.producer;
    match l.sending
    case Quiet => l
    case Claiming(e) =>
      var t := OnRing(l, R.CheckRoom);
      t.(sending := if t.ring.producer.PFilling? then Claimed(e) else Quiet)
    case Claimed(e) =>
      if !p.PFilling? || p.slot >= |l.ring.slots| then l
      else
        var header := EncodeFrame(e.frame, size);
        if header.None? || |header.value| > |l.ring.slots[p.slot]| then OnRing(l, R.Abandon).(sending := Quiet)
        else OnRing(l, R.Fill(Overwrite(l.ring.slots[p.slot], 0, header.value))).(sending := Headed(e))
    case Headed(e) =>
      if !p.PFilling? || p.slot >= |l.ring.slots| || HDR_LEN + |e.payload| > |l.ring.slots[p.slot]| then l
      else if e.payload == [] then l.(sending := Filled(e))
      else OnRing(l, R.Fill(Overwrite(l.ring.slots[p.slot], HDR_LEN, e.payload))).(sending := Filled(e))
    case Filled(e) => OnRing(l, R.ReloadHead).(sending := Publishing(e))
    case Publishing(e) => OnRing(l, R.StoreHead).(sending := Quiet, emitted := l.emitted + [e])
  }

  function ReceiverStep(l: Link): Link
    requires |l.ring.slots| > 0
  {
    var c := l.ring.consumer;
    match l.receiving
    case Resting => l
    case Releasing =>
      if c.CReading? then OnRing(l, R.ReloadTail) else OnRing(l, R.StoreTail).(receiving := Looking)
    case Looking =>
      if c.CIdle? then OnRing(l, R.LoadOwnTail)
      else
        var t := OnRing(l, R.CheckData);
        t.(receiving := if t.ring.consumer.CReading? then Decoding else Resting)
    case Decoding =>
      if !c.CReading? || c.slot >= |l.ring.slots| then l
      else
        var e := EventOf(l.ring.slots[c.slot]);
        if e.Some? then l.(receiving := Resting, held := e, polled := l.polled + [e.value])
        else l.(receiving := Dropping)
    case Dropping =>
      if c.CReading? then OnRing(l, R.ReloadTail) else OnRing(l, R.StoreTail).(receiving := Resting)
  }

  /** One atomic step of one side. A call starts only when that side is not in one. */
  function Step(l: Link, m: Move, size: nat): Link
    requires |l.ring.slots| > 0
  {
    match m
    case StartEmit(e) =>
      if l.sending.Quiet? && Sendable(e, size) then OnRing(l, R.LoadOwnHead).(sending := Claiming(e)) else l
    case SenderMoves => SenderStep(l, size)
    case StartPoll =>
      if !l.receiving.Resting? then l
      else if l.held.Some? then l.(receiving := Releasing, held := None)
      else l.(receiving := Looking)
    case ReceiverMoves => ReceiverStep(l)
  }

  function Run(l: Link, moves: seq<Move>, size: nat): Link
    requires |l.ring.slots| > 0
    decreases |moves|
  {
    if moves == [] then l
    else
      StepKeepsCapacity(l, moves[0], size);
      Run(Step(l, moves[0], size), moves[1..], size)
  }

  lemma StepKeepsCapacity(l: Link, m: Move, size: nat)
    requires |l.ring.slots| > 0
    ensures |Step(l, m, size).ring.slots| == |l.ring.slots|
  {
    hide R.Step, EventOf, EncodeFrame, Sendable;
  }

  // ---- the invariant ----

  ghost predicate SenderInv(l: Link, size: nat) {
    var p, slots := l.ring.producer, l.ring.slots;
    match l.sending
    case Quiet => p.PIdle?
    case Claiming(e) => p.PLoaded? && Sendable(e, size)
    case Claimed(e) => p.PFilling? && p.slot < |slots| && Sendable(e, size)
    case Headed(e) =>
      && p.PFilling? && p.slot < |slots| && HDR_LEN + |e.payload| <= size
      && |slots[p.slot]| == size && EventOf(Overwrite(slots[p.slot], HDR_LEN, e.payload)) == Some(e)
    case Filled(e) => p.PFilling? && p.slot < |slots| && EventOf(slots[p.slot]) == Some(e)
    case Publishing(e) =>
      && p.PCommitting? && |slots| > 0 && EventOf(slots[R.SlotOf(p.head, |slots|)]) == Some(e)
  }

  /** How many slots have been looked at. */
  function Taken(l: Link): nat {
    |l.ring.consumed| + if l.held.Some? || l.receiving.Releasing? || l.receiving.Dropping? then 1 else 0
  }

  ghost predicate ReceiverInv(l: Link) {
    var c, slots := l.ring.consumer, l.ring.slots;
    && (l.held.Some? ==> l.receiving.Resting?)
    && (match l.receiving
        case Resting => if l.held.Some? then c.CReading? && c.slot < |slots| && EventOf(slots[c.slot]) == l.held else c.CIdle?
        case Releasing => c.CReading? || c.CCommitting?
        case Looking => c.CIdle? || c.CLoaded?
        case Decoding => c.CReading? && c.slot < |slots|
        case Dropping => c.CReading? || c.CCommitting?)
    && Taken(l) <= |l.ring.produced|
    && l.polled == Events(l.ring.produced[..Taken(l)])
  }

  ghost predicate Inv(l: Link, size: nat) {
    && R.Inv(l.ring) && (forall i | 0 <= i < |l.ring.slots| :: |l.ring.slots[i]| == size)
    && SenderInv(l, size) && ReceiverInv(l)
    && Events(l.ring.produced) == l.emitted && |l.emitted| == |l.ring.produced|
  }

  /** A fresh ring and two clients that have done nothing. */
  ghost predicate Start(l: Link, size: nat) {
    && R.Fresh(l.ring) && (forall i | 0 <= i < |l.ring.slots| :: |l.ring.slots[i]| == size)
    && l == Link(l.ring, Quiet, Resting, None, [], [])
  }

  lemma StartInv(l: Link, size: nat)
    requires Start(l, size)
    ensures Inv(l, size)
  {
    R.FreshInv(l.ring);
    hide R.Inv;
  }

  // ---- what the two sides leave alone ----

  predicate OfProducer(a: R.Action<Slot>) {
    a.LoadOwnHead? || a.CheckRoom? || a.Fill? || a.ReloadHead? || a.StoreHead? || a.Abandon?
  }

  /** Whatever the producer does, the consumer's side and the slot it is reading stay. */
  lemma ProducerLeaves(s: R.State<Slot>, a: R.Action<Slot>)
    requires R.Inv(s) && OfProducer(a)
    ensures var t := R.Step(s, a);
            && R.Inv(t) && |t.slots| == |s.slots|
            && t.consumer == s.consumer && t.consumed == s.consumed && s.produced <= t.produced
            && (s.consumer.CReading? ==> s.consumer.slot < |s.slots| && t.slots[s.consumer.slot] == s.slots[s.consumer.slot])
            && (!a.StoreHead? ==> t.produced == s.produced) && (!a.Fill? ==> t.slots == s.slots)
  {
    R.StepInv(s, a);
    R.WindowIsSafe(s, a);
    hide R.SlotOf, R.Wrap;
  }

  /** Whatever the consumer does, the producer's side and all slots stay. */
  lemma ConsumerLeaves(s: R.State<Slot>, a: R.Action<Slot>)
    requires R.Inv(s) && !OfProducer(a)
    ensures var t := R.Step(s, a);
            R.Inv(t) && t.producer == s.producer && t.produced == s.produced && t.slots == s.slots
  {
    R.StepInv(s, a);
    hide R.Inv, R.SlotOf, R.Wrap;
  }

  // What single ring steps do where this protocol takes them.

  lemma AfterFill(s: R.State<Slot>, x: Slot)
    requires |s.slots| > 0 && s.producer.PFilling? && s.producer.slot < |s.slots|
    ensures R.Step(s, R.Fill(x)) == s.(slots := s.slots[s.producer.slot := x])
  {
  }

  lemma AfterReload(s: R.State<Slot>)
    requires |s.slots| > 0 && s.producer.PFilling?
    ensures R.Step(s, R.ReloadHead) == s.(producer := R.PCommitting(s.head))
  {
  }

  lemma AfterClaim(s: R.State<Slot>)
    requires |s.slots| > 0 && s.producer.PLoaded?
    ensures var p := R.Step(s, R.CheckRoom).producer; p.PIdle? || (p.PFilling? && p.slot < |s.slots|)
  {
    hide R.Wrap;
  }

  lemma AfterPublish(s: R.State<Slot>)
    requires |s.slots| > 0 && s.producer.PCommitting?
    ensures var t := R.Step(s, R.StoreHead);
            t.producer.PIdle? && t.produced == s.produced + [s.slots[R.SlotOf(s.producer.head, |s.slots|)]]
  {
    hide R.Wrap, R.SlotOf;
  }

  lemma AfterRelease(s: R.State<Slot>)
    requires |s.slots| > 0
    ensures s.consumer.CReading? ==> R.Step(s, R.ReloadTail) == s.(consumer := R.CCommitting(s.tail))
    ensures s.consumer.CCommitting? ==>
              R.Step(s, R.StoreTail).consumer.CIdle? && |R.Step(s, R.StoreTail).consumed| == |s.consumed| + 1
  {
    hide R.Wrap, R.SlotOf;
  }

  lemma AfterLook(s: R.State<Slot>)
    requires |s.slots| > 0
    ensures s.consumer.CIdle? ==> R.Step(s, R.LoadOwnTail) == s.(consumer := R.CLoaded(s.tail))
    ensures s.consumer.CLoaded? ==>
              var t := R.Step(s, R.CheckData);
              && t.consumed == s.consumed
              && (t.consumer.CIdle? || (t.consumer.CReading? && t.consumer.slot < |s.slots|))
  {
    hide R.Wrap;
  }

  lemma StepKeepsCount(s: R.State<Slot>, a: R.Action<Slot>)
    requires |s.slots| > 0
    ensures |R.Step(s, a).slots| == |s.slots|
  {
  }

  lemma ReceiverStays(l: Link, t: Link)
    requires ReceiverInv(l)
    requires t.receiving == l.receiving && t.held == l.held && t.polled == l.polled
    requires t.ring.consumer == l.ring.consumer && t.ring.consumed == l.ring.consumed
    requires l.ring.produced <= t.ring.produced && |t.ring.slots| == |l.ring.slots|
    requires l.ring.consumer.CReading? ==>
               && l.ring.consumer.slot < |l.ring.slots|
               && t.ring.slots[l.ring.consumer.slot] == l.ring.slots[l.ring.consumer.slot]
    ensures ReceiverInv(t)
  {
    hide Events, EventOf;
    TakenKeeps(l.ring.produced, t.ring.produced, Taken(l));
  }

  /** The part of the invariant that is about what has been published. */
  ghost predicate Published(l: Link, size: nat) {
    && |l.ring.slots| > 0 && R.Inv(l.ring) && (forall i | 0 <= i < |l.ring.slots| :: |l.ring.slots[i]| == size)
    && Events(l.ring.produced) == l.emitted && |l.emitted| == |l.ring.produced|
  }

  // ---- the sender ----

  lemma SenderTakes(l: Link, a: R.Action<Slot>, size: nat)
    requires Published(l, size) && ReceiverInv(l) && OfProducer(a) && !a.StoreHead? && (a.Fill? ==> |a.x| == size)
    ensures Published(OnRing(l, a), size) && ReceiverInv(OnRing(l, a))
  {
    ProducerLeaves(l.ring, a);
    SizesStay(l.ring, a, size);
    hide R.Inv, R.Step, ReceiverInv, Events;
    ReceiverStays(l, OnRing(l, a));
  }

  lemma SizesStay(s: R.State<Slot>, a: R.Action<Slot>, size: nat)
    requires |s.slots| > 0 && (forall i | 0 <= i < |s.slots| :: |s.slots[i]| == size) && (a.Fill? ==> |a.x| == size)
    ensures var t := R.Step(s, a); forall i | 0 <= i < |t.slots| :: |t.slots[i]| == size
  {
    hide R.SlotOf, R.Wrap;
  }

  /** Same context, told of another place in the call. */
  lemma Renamed(l: Link, size: nat, sending: Sending)
    requires Published(l, size) && ReceiverInv(l)
    ensures Published(l.(sending := sending), size) && ReceiverInv(l.(sending := sending))
  {
    hide R.Inv, Events, EventOf;
  }

  /** A step of the producer's that publishes nothing, with what it leaves the sender at. */
  lemma Advance(l: Link, a: R.Action<Slot>, sending: Sending, size: nat)
    requires Published(l, size) && ReceiverInv(l) && OfProducer(a) && !a.StoreHead? && (a.Fill? ==> |a.x| == size)
    requires SenderInv(OnRing(l, a).(sending := sending), size)
    ensures Inv(OnRing(l, a).(sending := sending), size)
  {
    hide R.Inv, R.Step, SenderInv, ReceiverInv, Events;
    SenderTakes(l, a, size);
    Renamed(OnRing(l, a), size, sending);
  }

  /** The invariant's three parts. */
  lemma Parts(l: Link, size: nat)
    requires Inv(l, size)
    ensures |l.ring.slots| > 0 && Published(l, size) && SenderInv(l, size) && ReceiverInv(l)
  {
    hide SenderInv, ReceiverInv, Events;
  }

  lemma SenderStepInv(l: Link, size: nat)
    requires Inv(l, size)
    ensures Inv(SenderStep(l, size), size)
  {
    Parts(l, size);
    hide Inv;
    match l.sending
    case Quiet =>
    case Claiming(e) => ClaimInv(l, size, e);
    case Claimed(e) => HeadInv(l, size, e);
    case Headed(e) => FillInv(l, size, e);
    case Filled(e) => ReloadInv(l, size, e);
    case Publishing(e) => PublishInv(l, size, e);
  }

  lemma ClaimInv(l: Link, size: nat, e: Event)
    requires Published(l, size) && SenderInv(l, size) && ReceiverInv(l) && l.sending == Claiming(e)
    ensures Inv(SenderStep(l, size), size)
  {
    hide R.Inv, R.Step, ReceiverInv, Events, EventOf, Sendable, Inv;
    AfterClaim(l.ring);
    StepKeepsCount(l.ring, R.CheckRoom);
    Advance(l, R.CheckRoom, SenderStep(l, size).sending, size);
  }

  lemma HeadInv(l: Link, size: nat, e: Event)
    requires Published(l, size) && SenderInv(l, size) && ReceiverInv(l) && l.sending == Claimed(e)
    ensures Inv(SenderStep(l, size), size)
  {
    hide R.Inv, R.Step, ReceiverInv, Events, EventOf, Sendable, EncodeFrame, Inv;
    var header := EncodeFrame(e.frame, size);
    if header.None? {
      AfterAbandon(l.ring);
      Advance(l, R.Abandon, Quiet, size);
    } else {
      WriteHeader(l, size, e, header.value);
    }
  }

  lemma AfterAbandon(s: R.State<Slot>)
    requires |s.slots| > 0 && s.producer.PFilling?
    ensures R.Step(s, R.Abandon) == s.(producer := R.PIdle)
  {
  }

  lemma WriteHeader(l: Link, size: nat, e: Event, header: seq<byte>)
    requires Published(l, size) && SenderInv(l, size) && ReceiverInv(l) && l.sending == Claimed(e)
    requires EncodeFrame(e.frame, size) == Some(header)
    ensures Inv(SenderStep(l, size), size)
  {
    var was := l.ring.slots[l.ring.producer.slot];
    HeaderFits(e, header, size);
    HeadedSlot(was, header, e, size);
    hide R.Inv, R.Step, ReceiverInv, SenderInv, Events, EventOf, EncodeFrame, Sendable, Inv;
    WroteHeader(l, size, e, header);
    hide Overwrite;
    var now := Overwrite(was, 0, header);
    HeadedNow(l, now, e, size);
    Advance(l, R.Fill(now), Headed(e), size);
  }

  lemma HeaderFits(e: Event, header: seq<byte>, size: nat)
    requires Sendable(e, size) && EncodeFrame(e.frame, size) == Some(header)
    ensures |header| == HDR_LEN <= size
  {
    hide EncodeFrame, FrameFits;
    FrameRoundTrip(e.frame, size, []);
    EncodeNeedsRoom(e.frame, size);
  }

  lemma WroteHeader(l: Link, size: nat, e: Event, header: seq<byte>)
    requires |l.ring.slots| > 0 && l.sending == Claimed(e) && EncodeFrame(e.frame, size) == Some(header)
    requires l.ring.producer.PFilling? && l.ring.producer.slot < |l.ring.slots|
    requires |header| <= |l.ring.slots[l.ring.producer.slot]|
    ensures SenderStep(l, size)
            == OnRing(l, R.Fill(Overwrite(l.ring.slots[l.ring.producer.slot], 0, header))).(sending := Headed(e))
  {
    hide R.Step, EncodeFrame, Overwrite;
  }

  lemma HeadedNow(l: Link, now: Slot, e: Event, size: nat)
    requires |l.ring.slots| > 0 && l.ring.producer.PFilling? && l.ring.producer.slot < |l.ring.slots|
    requires |now| == size && HDR_LEN + |e.payload| <= size && EventOf(Overwrite(now, HDR_LEN, e.payload)) == Some(e)
    ensures SenderInv(OnRing(l, R.Fill(now)).(sending := Headed(e)), size)
  {
    hide R.Step, EventOf, Overwrite;
    AfterFill(l.ring, now);
  }

  /** With the header in, writing the payload behind it makes the slot say the event. */
  lemma HeadedSlot(was: Slot, header: seq<byte>, e: Event, size: nat)
    requires |was| == size && Sendable(e, size) && EncodeFrame(e.frame, size) == Some(header) && |header| == HDR_LEN <= size
    ensures HDR_LEN + |e.payload| <= size
    ensures EventOf(Overwrite(Overwrite(was, 0, header), HDR_LEN, e.payload)) == Some(e)
  {
    hide EventOf, EncodeFrame, FrameFits, Overwrite;
    FilledSlot(was, header, e.frame, e.payload);
  }

  lemma FillInv(l: Link, size: nat, e: Event)
    requires Published(l, size) && SenderInv(l, size) && ReceiverInv(l) && l.sending == Headed(e)
    ensures Inv(SenderStep(l, size), size)
  {
    var was := l.ring.slots[l.ring.producer.slot];
    hide R.Inv, R.Step, ReceiverInv, Events, EventOf, Inv;
    if e.payload == [] {
      assert Overwrite(was, HDR_LEN, []) == was;
      hide Overwrite;
      Renamed(l, size, Filled(e));
      Whole(SenderStep(l, size), size);
    } else {
      hide Overwrite;
      var now := Overwrite(was, HDR_LEN, e.payload);
      FilledNow(l, now, e, size);
      hide SenderInv;
      Advance(l, R.Fill(now), Filled(e), size);
    }
  }

  lemma Whole(l: Link, size: nat)
    requires Published(l, size) && SenderInv(l, size) && ReceiverInv(l)
    ensures Inv(l, size)
  {
    hide R.Inv, SenderInv, ReceiverInv, Events;
  }

  lemma FilledNow(l: Link, now: Slot, e: Event, size: nat)
    requires |l.ring.slots| > 0 && l.ring.producer.PFilling? && l.ring.producer.slot < |l.ring.slots|
    requires EventOf(now) == Some(e)
    ensures SenderInv(OnRing(l, R.Fill(now)).(sending := Filled(e)), size)
  {
    hide R.Step, EventOf;
    AfterFill(l.ring, now);
  }

  lemma ReloadInv(l: Link, size: nat, e: Event)
    requires Published(l, size) && SenderInv(l, size) && ReceiverInv(l) && l.sending == Filled(e)
    ensures Inv(SenderStep(l, size), size)
  {
    R.HeadNamesSlot(l.ring);
    hide R.Inv, R.Step, R.SlotOf, ReceiverInv, Events, EventOf, Inv;
    ReloadedNow(l, e, size);
    Advance(l, R.ReloadHead, Publishing(e), size);
  }

  lemma ReloadedNow(l: Link, e: Event, size: nat)
    requires |l.ring.slots| > 0 && l.ring.producer.PFilling? && l.ring.producer.slot < |l.ring.slots|
    requires R.SlotOf(l.ring.head, |l.ring.slots|) == l.ring.producer.slot
    requires EventOf(l.ring.slots[l.ring.producer.slot]) == Some(e)
    ensures SenderInv(OnRing(l, R.ReloadHead).(sending := Publishing(e)), size)
  {
    hide R.Step, R.SlotOf, EventOf;
    AfterReload(l.ring);
  }

  lemma PublishInv(l: Link, size: nat, e: Event)
    requires Published(l, size) && SenderInv(l, size) && ReceiverInv(l) && l.sending == Publishing(e)
    ensures Inv(SenderStep(l, size), size)
  {
    var t := SenderStep(l, size);
    hide R.Inv, R.Step, R.SlotOf, ReceiverInv, Events, EventOf, Inv;
    PublishedNow(l, size, e);
    ProducerLeaves(l.ring, R.StoreHead);
    AfterPublish(l.ring);
    ReceiverStays(l, t);
    Whole(t, size);
  }

  lemma PublishedNow(l: Link, size: nat, e: Event)
    requires Published(l, size) && SenderInv(l, size) && l.sending == Publishing(e)
    ensures Published(SenderStep(l, size), size)
  {
    var filled := l.ring.slots[R.SlotOf(l.ring.producer.head, |l.ring.slots|)];
    hide R.Step, R.SlotOf, Events, EventOf;
    ProducerLeaves(l.ring, R.StoreHead);
    hide R.Inv;
    AfterPublish(l.ring);
    EventsStep(l.ring.produced, filled);
  }

  // ---- the receiver ----

  lemma SenderStays(l: Link, t: Link, size: nat)
    requires SenderInv(l, size) && t.sending == l.sending
    requires t.ring.producer == l.ring.producer && t.ring.slots == l.ring.slots
    ensures SenderInv(t, size)
  {
    hide EventOf, Sendable, Overwrite, R.SlotOf;
  }

  /** A step of the consumer's that leaves the books as they are. */
  lemma ReceiverTakes(l: Link, a: R.Action<Slot>, t: Link, size: nat)
    requires Published(l, size) && SenderInv(l, size) && !OfProducer(a)
    requires t.ring == R.Step(l.ring, a) && t.sending == l.sending && t.emitted == l.emitted
    ensures Published(t, size) && SenderInv(t, size) && t.ring.produced == l.ring.produced
  {
    ConsumerLeaves(l.ring, a);
    hide R.Inv, R.Step, SenderInv, Events;
    SenderStays(l, t, size);
  }

  lemma ReceiverStepInv(l: Link, size: nat)
    requires Inv(l, size)
    ensures Inv(ReceiverStep(l), size)
  {
    Parts(l, size);
    hide Inv;
    match l.receiving
    case Resting =>
    case Releasing => LetGoInv(l, size);
    case Looking => LookInv(l, size);
    case Decoding => DecodeInv(l, size);
    case Dropping => LetGoInv(l, size);
  }

  /** Giving a slot back, after its event was read or because it held none. */
  lemma LetGoInv(l: Link, size: nat)
    requires Published(l, size) && SenderInv(l, size) && ReceiverInv(l)
    requires l.receiving.Releasing? || l.receiving.Dropping?
    ensures Inv(ReceiverStep(l), size)
  {
    hide R.Inv, R.Step, SenderInv, Events, EventOf, Inv;
    var a := if l.ring.consumer.CReading? then R.ReloadTail else R.StoreTail;
    var t := ReceiverStep(l);
    ReceiverTakes(l, a, t, size);
    AfterRelease(l.ring);
    hide ReceiverStep;
    ReleasedNow(l, t);
    Whole(t, size);
  }

  lemma ReleasedNow(l: Link, t: Link)
    requires ReceiverInv(l) && (l.receiving.Releasing? || l.receiving.Dropping?)
    requires t.polled == l.polled && t.held == l.held && t.ring.produced == l.ring.produced
    requires || (t.receiving == l.receiving && t.ring.consumer.CCommitting? && t.ring.consumed == l.ring.consumed)
             || (t.receiving == (if l.receiving.Releasing? then Looking else Resting)
                 && t.ring.consumer.CIdle? && |t.ring.consumed| == |l.ring.consumed| + 1)
    ensures ReceiverInv(t)
  {
    hide Events, EventOf;
  }

  lemma LookInv(l: Link, size: nat)
    requires Published(l, size) && SenderInv(l, size) && ReceiverInv(l) && l.receiving.Looking?
    ensures Inv(ReceiverStep(l), size)
  {
    hide R.Inv, R.Step, SenderInv, Events, EventOf, Inv;
    var a := if l.ring.consumer.CIdle? then R.LoadOwnTail else R.CheckData;
    var t := ReceiverStep(l);
    ReceiverTakes(l, a, t, size);
    AfterLook(l.ring);
    StepKeepsCount(l.ring, a);
    hide ReceiverStep;
    LookedNow(l, t);
    Whole(t, size);
  }

  lemma LookedNow(l: Link, t: Link)
    requires ReceiverInv(l) && l.receiving.Looking?
    requires t.polled == l.polled && t.held == l.held && t.ring.produced == l.ring.produced
    requires t.ring.consumed == l.ring.consumed
    requires || (t.receiving == Looking && t.ring.consumer.CLoaded?)
             || (t.receiving == Decoding && t.ring.consumer.CReading? && t.ring.consumer.slot < |t.ring.slots|)
             || (t.receiving == Resting && t.ring.consumer.CIdle?)
    ensures ReceiverInv(t)
  {
    hide Events, EventOf;
  }

  lemma OldestIsRead(s: R.State<Slot>)
    requires R.Inv(s) && s.consumer.CReading? && s.consumer.slot < |s.slots|
    ensures |s.consumed| < |s.produced| && s.slots[s.consumer.slot] == s.produced[|s.consumed|]
  {
    R.WindowIsSafe(s, R.CheckData);
    hide R.Step;
  }

  lemma DecodeInv(l: Link, size: nat)
    requires Published(l, size) && SenderInv(l, size) && ReceiverInv(l) && l.receiving.Decoding?
    ensures Inv(ReceiverStep(l), size)
  {
    var t := ReceiverStep(l);
    OldestIsRead(l.ring);
    hide R.Inv, R.Step, SenderInv, Events, EventOf, Inv;
    SenderStays(l, t, size);
    if EventOf(l.ring.slots[l.ring.consumer.slot]).Some? {
      HandedOut(l, t);
    } else {
      SetAside(l, t);
    }
    hide ReceiverStep, ReceiverInv;
    Whole(t, size);
  }

  lemma HandedOut(l: Link, t: Link)
    requires ReceiverInv(l) && l.receiving.Decoding? && |l.ring.consumed| < |l.ring.produced|
    requires l.ring.slots[l.ring.consumer.slot] == l.ring.produced[|l.ring.consumed|]
    requires var e := EventOf(l.ring.slots[l.ring.consumer.slot]);
             e.Some? && t == l.(receiving := Resting, held := e, polled := l.polled + [e.value])
    ensures ReceiverInv(t)
  {
    var n := |l.ring.consumed|;
    hide Events, EventOf;
    OneMore(l.ring.produced, n);
    EventsStep(l.ring.produced[..n], l.ring.produced[n]);
  }

  lemma SetAside(l: Link, t: Link)
    requires ReceiverInv(l) && l.receiving.Decoding? && |l.ring.consumed| < |l.ring.produced|
    requires l.ring.slots[l.ring.consumer.slot] == l.ring.produced[|l.ring.consumed|]
    requires EventOf(l.ring.slots[l.ring.consumer.slot]).None? && t == l.(receiving := Dropping)
    ensures ReceiverInv(t)
  {
    var n := |l.ring.consumed|;
    hide Events, EventOf;
    OneMore(l.ring.produced, n);
    EventsStep(l.ring.produced[..n], l.ring.produced[n]);
  }

  lemma OneMore(s: seq<Slot>, n: nat)
    requires n < |s|
    ensures s[..n + 1] == s[..n] + [s[n]]
  {
  }

  // ---- every interleaving ----

  lemma StepInv(l: Link, m: Move, size: nat)
    requires Inv(l, size)
    ensures Inv(Step(l, m, size), size)
  {
    match m
    case SenderMoves => SenderStepInv(l, size);
    case ReceiverMoves => ReceiverStepInv(l, size);
    case StartEmit(e) => StartEmitInv(l, e, size);
    case StartPoll => StartPollInv(l, size);
  }

  lemma StartEmitInv(l: Link, e: Event, size: nat)
    requires Inv(l, size)
    ensures Inv(Step(l, StartEmit(e), size), size)
  {
    Parts(l, size);
    if l.sending.Quiet? && Sendable(e, size) {
      assert OnRing(l, R.LoadOwnHead).ring.producer.PLoaded?;
      hide R.Inv, R.Step, ReceiverInv, Events, EventOf, Sendable, Inv;
      Advance(l, R.LoadOwnHead, Claiming(e), size);
    }
  }

  lemma StartPollInv(l: Link, size: nat)
    requires Inv(l, size)
    ensures Inv(Step(l, StartPoll, size), size)
  {
    Parts(l, size);
    var t := Step(l, StartPoll, size);
    hide R.Inv, Events, EventOf, SenderInv, Inv, R.Step, SenderStep, ReceiverStep;
    SenderStays(l, t, size);
    PollStarts(l, t);
    hide Step, ReceiverInv;
    Whole(t, size);
  }

  lemma PollStarts(l: Link, t: Link)
    requires ReceiverInv(l)
    requires t == if !l.receiving.Resting? then l
                  else if l.held.Some? then l.(receiving := Releasing, held := None) else l.(receiving := Looking)
    ensures ReceiverInv(t)
  {
    hide Events, EventOf;
  }

  lemma {:induction false} RunInv(l: Link, moves: seq<Move>, size: nat)
    requires Inv(l, size)
    ensures Inv(Run(l, moves, size), size)
    decreases |moves|
  {
    hide Step, Inv;
    if moves != [] {
      StepInv(l, moves[0], size);
      HasSlots(l, size);
      HasSlots(Step(l, moves[0], size), size);
      RunInv(Step(l, moves[0], size), moves[1..], size);
    }
  }

  lemma HasSlots(l: Link, size: nat)
    requires Inv(l, size)
    ensures |l.ring.slots| > 0
  {
  }

  /** From a fresh ring, however the steps of emit and Poll interleave: what was polled is, event for event and
      byte for byte, the beginning of what was emitted. */
  lemma EveryInterleaving(l: Link, moves: seq<Move>, size: nat)
    requires Start(l, size)
    ensures |l.ring.slots| > 0 && Run(l, moves, size).polled <= Run(l, moves, size).emitted
  {
    StartInv(l, size);
    HasSlots(l, size);
    RunInv(l, moves, size);
    var t := Run(l, moves, size);
    hide Run, R.Inv, SenderInv;
    EventsGrow(t.ring.produced, Taken(t));
  }

  /** The event handed out last stays readable: through any steps of either side short of the next Poll its slot
      is the same, byte for byte, and still decodes to it. */
  lemma {:induction false} HeldStays(l: Link, moves: seq<Move>, size: nat)
    requires Inv(l, size) && l.held.Some? && StartPoll !in moves
    ensures var t := Run(l, moves, size);
            && t.held == l.held && t.ring.consumer == l.ring.consumer
            && l.ring.consumer.CReading? && l.ring.consumer.slot < |l.ring.slots| == |t.ring.slots|
            && t.ring.slots[l.ring.consumer.slot] == l.ring.slots[l.ring.consumer.slot]
            && EventOf(t.ring.slots[l.ring.consumer.slot]) == l.held
    decreases |moves|
  {
    HasSlots(l, size);
    if moves != [] {
      assert moves[0] in moves && forall m | m in moves[1..] :: m in moves;
      HeldOnce(l, moves[0], size);
      StepInv(l, moves[0], size);
      hide Step, Inv, EventOf;
      HeldStays(Step(l, moves[0], size), moves[1..], size);
    }
  }

  lemma HeldOnce(l: Link, m: Move, size: nat)
    requires Inv(l, size) && l.held.Some? && m != StartPoll
    ensures var t := Step(l, m, size);
            && t.held == l.held && t.ring.consumer == l.ring.consumer && |t.ring.slots| == |l.ring.slots|
            && l.ring.consumer.CReading? && l.ring.consumer.slot < |l.ring.slots|
            && EventOf(l.ring.slots[l.ring.consumer.slot]) == l.held
            && t.ring.slots[l.ring.consumer.slot] == l.ring.slots[l.ring.consumer.slot]
  {
    HasSlots(l, size);
    hide R.Inv, R.Step, SenderInv, Events, EventOf, EncodeFrame, Sendable, Overwrite;
    if m.SenderMoves? {
      SenderLeaves(l, size);
    } else if m.StartEmit? {
      ProducerLeaves(l.ring, R.LoadOwnHead);
    }
  }

  /** A sender's step leaves the slot being read, and who reads it. */
  lemma SenderLeaves(l: Link, size: nat)
    requires R.Inv(l.ring) && |l.ring.slots| > 0 && l.ring.consumer.CReading?
    ensures var t := SenderStep(l, size);
            && t.held == l.held && t.ring.consumer == l.ring.consumer
            && l.ring.consumer.slot < |l.ring.slots| == |t.ring.slots|
            && t.ring.slots[l.ring.consumer.slot] == l.ring.slots[l.ring.consumer.slot]
  {
    hide R.Inv, R.Step, EventOf, EncodeFrame;
    var p, slots := l.ring.producer, l.ring.slots;
    ProducerLeaves(l.ring, R.CheckRoom);
    match l.sending
    case Claimed(e) =>
      ProducerLeaves(l.ring, R.Abandon);
      if p.PFilling? && p.slot < |slots| && EncodeFrame(e.frame, size).Some?
         && |EncodeFrame(e.frame, size).value| <= |slots[p.slot]|
      {
        ProducerLeaves(l.ring, R.Fill(Overwrite(slots[p.slot], 0, EncodeFrame(e.frame, size).value)));
      }
    case Headed(e) =>
      if p.PFilling? && p.slot < |slots| && HDR_LEN + |e.payload| <= |slots[p.slot]| {
        ProducerLeaves(l.ring, R.Fill(Overwrite(slots[p.slot], HDR_LEN, e.payload)));
      }
    case Filled(e) => ProducerLeaves(l.ring, R.ReloadHead);
    case Publishing(e) => ProducerLeaves(l.ring, R.StoreHead);
    case _ =>
  }
}
