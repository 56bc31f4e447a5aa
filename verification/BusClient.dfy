/** The emitting and polling ends of client.go over the ring of Ring.dfy, with slots that hold a frame
    header and an inline payload. What is polled is what was emitted, in order, byte for byte. */
module BusClient {
  import opened Basics
  import opened Wire
  import Ring

  datatype Event = Event(frame: Frame, payload: seq<byte>)

  datatype Error = NoError | ErrProtocol | ErrEpoch | ErrWouldBlock | ErrPayload

  type Slot = seq<byte>

  /** What Poll makes of a slot: nothing when the header does not decode. */
  function EventOf(slot: Slot): Option<Event> {
    var (r, f) := DecodeFrame(slot);
    if r != WireOk || f.None? then None
    else
      var ref, len := f.value.payloadRef, f.value.payloadLen;
      if Has(f.value.flags, F_INLINE) && len > 0 && ref + len <= |slot|
      then Some(Event(f.value, slot[ref..ref + len]))
      else Some(Event(f.value, []))
  }

  /** The events of a run of slots; undecodable slots count for nothing. */
  function Events(slots: seq<Slot>): (es: seq<Event>)
    ensures |es| <= |slots|
  {
    if slots == [] then []
    else
      var rest := Events(slots[..|slots| - 1]);
      match EventOf(slots[|slots| - 1])
      case None => rest
      case Some(e) => rest + [e]
  }

  lemma EventsStep(slots: seq<Slot>, slot: Slot)
    ensures Events(slots + [slot]) == Events(slots) + (if EventOf(slot).Some? then [EventOf(slot).value] else [])
  {
    assert (slots + [slot])[..|slots|] == slots;
  }

  lemma {:induction false} EventsGrow(slots: seq<Slot>, n: nat)
    requires n <= |slots|
    ensures Events(slots[..n]) <= Events(slots)
  {
    if n == |slots| {
      assert slots[..n] == slots;
    } else {
      EventsGrow(slots[..|slots| - 1], n);
      assert slots[..|slots| - 1][..n] == slots[..n];
    }
  }

  function WithInline(flags: nat): nat {
    if Has(flags, F_INLINE) then flags else flags + F_INLINE
  }

  /** The frame emit builds. */
  function FrameFor(flags: nat, kind: nat, correlation: nat, handle: nat, payload: seq<byte>): Frame {
    var ref := if payload == [] then 0 else HDR_LEN;
    Frame(if payload == [] then flags else WithInline(flags), WIRE_VERSION, kind, 0, correlation, 0, 0,
          ref, |payload|, handle, 0, 0)
  }

  /** `copy(slot[off:], bytes)`. */
  function Overwrite(slot: Slot, off: nat, bytes: seq<byte>): (r: Slot)
    requires off + |bytes| <= |slot|
    ensures |r| == |slot|
  {
    slot[..off] + bytes + slot[off + |bytes|..]
  }

  /** A slot emit has filled says exactly what was emitted. */
  lemma FilledSlot(slot: Slot, header: seq<byte>, f: Frame, payload: seq<byte>)
    requires FrameFits(f) && EncodeFrame(f, |slot|) == Some(header) && |header| == HDR_LEN
    requires HDR_LEN + |payload| <= |slot| && f.payloadLen == |payload|
    requires if payload == [] then true else f.payloadRef == HDR_LEN && Has(f.flags, F_INLINE)
    ensures EventOf(Overwrite(Overwrite(slot, 0, header), HDR_LEN, payload)) == Some(Event(f, payload))
  {
    hide DecodeFrame, EncodeFrame, FrameFits;
    var filled := Overwrite(Overwrite(slot, 0, header), HDR_LEN, payload);
    var rest := payload + slot[HDR_LEN + |payload|..];
    assert filled == header + rest;
    FrameRoundTrip(f, |slot|, rest);
    assert filled[HDR_LEN..HDR_LEN + |payload|] == payload;
  }

  lemma EncodeNeedsRoom(f: Frame, n: nat)
    requires EncodeFrame(f, n).Some?
    ensures HDR_LEN <= n
  {
  }

  class Client {
    const handle: nat
    const slotSize: nat
    const inlineBudget: nat
    const outbound: Ring.SharedRing<Slot>
    const inbound: Ring.SharedRing<Slot>
    var pendingRead: bool
    ghost var emitted: seq<Event>
    ghost var polled: seq<Event>

    /** The emitting side is between calls, and the slots published so far say what was emitted. */
    ghost predicate OutValid()
      reads this, outbound, outbound.slots
    {
      && handle < 0x1_0000_0000 && slotSize < 0x1_0000_0000
      && outbound.Valid() && outbound.producer.PIdle?
      && (forall i | 0 <= i < outbound.slots.Length :: |outbound.slots[i]| == slotSize)
      && Events(outbound.produced) == emitted && |emitted| == |outbound.produced|
    }

    /** The polling side holds at most the one slot it handed out last. */
    ghost predicate InValid()
      reads this, inbound, inbound.slots
    {
      && inbound.Valid()
      && (if pendingRead then inbound.consumer.CReading? else inbound.consumer.CIdle?)
      && Taken() <= |inbound.produced|
      && (pendingRead ==> EventOf(inbound.produced[|inbound.consumed|]).Some?)
      && polled == Events(inbound.produced[..Taken()])
    }

    /** How many slots have been looked at. */
    ghost function Taken(): nat
      reads this, inbound
    {
      |inbound.consumed| + if pendingRead then 1 else 0
    }

    constructor (handle: nat, slotSize: nat, inlineBudget: nat,
                 outbound: Ring.SharedRing<Slot>, inbound: Ring.SharedRing<Slot>)
      requires handle < 0x1_0000_0000 && slotSize < 0x1_0000_0000
      requires outbound.Valid() && Ring.Fresh(outbound.View()) && inbound.Valid() && Ring.Fresh(inbound.View())
      requires forall i | 0 <= i < outbound.slots.Length :: |outbound.slots[i]| == slotSize
      ensures OutValid() && InValid()
    {
      this.handle, this.slotSize, this.inlineBudget := handle, slotSize, inlineBudget;
      this.outbound, this.inbound := outbound, inbound;
      pendingRead := false;
      emitted, polled := [], [];
    }

    /** Publishes one event, or says why not and leaves the queue as it was. */
    method Emit(flags: nat, kind: nat, correlation: nat, payload: seq<byte>, attached: bool, epochChanged: bool)
      returns (err: Error)
      requires OutValid()
      requires flags < 0x1_0000 && kind < 0x1_0000_0000 && correlation < 0x1_0000_0000_0000_0000
      modifies this`emitted, outbound`head, outbound`producer, outbound`produced, outbound.slots
      ensures OutValid()
      ensures err == NoError ==> emitted == old(emitted) + [Event(FrameFor(flags, kind, correlation, handle, payload), payload)]
      ensures err != NoError ==> emitted == old(emitted) && outbound.produced == old(outbound.produced)
      ensures old(outbound.produced) <= outbound.produced
      ensures err == if !attached then ErrProtocol
                     else if |payload| > 0 && (|payload| % 0x1_0000_0000 > inlineBudget || HDR_LEN + |payload| > slotSize)
                     then ErrPayload
                     else if epochChanged then ErrEpoch
                     else if |Ring.Queue(old(outbound.View()))| == outbound.slots.Length then ErrWouldBlock
                     else if EncodeFrame(FrameFor(flags, kind, correlation, handle, payload), slotSize).None?
                     then ErrProtocol
                     else NoError
    {
      hide Ring.Run, Ring.Step, Ring.Inv, EventOf, Events, FrameFits, EncodeFrame;
      if !attached {
        return ErrProtocol;
      }
      if |payload| > 0 && (|payload| % 0x1_0000_0000 > inlineBudget || HDR_LEN + |payload| > slotSize) {
        return ErrPayload;
      }
      if epochChanged {
        return ErrEpoch;
      }
      FrameForFits(flags, kind, correlation, handle, payload);
      err := EmitFrame(FrameFor(flags, kind, correlation, handle, payload), payload);
    }

    /** The second half of emit: a slot, the header, the payload, the commit. */
    method EmitFrame(f: Frame, payload: seq<byte>) returns (err: Error)
      requires OutValid() && FrameFits(f) && f.payloadLen == |payload|
      requires payload != [] ==>
                 f.payloadRef == HDR_LEN && Has(f.flags, F_INLINE) && HDR_LEN + |payload| <= slotSize
      modifies this`emitted, outbound`head, outbound`producer, outbound`produced, outbound.slots
      ensures OutValid()
      ensures err == NoError ==> emitted == old(emitted) + [Event(f, payload)]
      ensures err != NoError ==> emitted == old(emitted) && outbound.produced == old(outbound.produced)
      ensures old(outbound.produced) <= outbound.produced
      ensures err == if |Ring.Queue(old(outbound.View()))| == outbound.slots.Length then ErrWouldBlock
                     else if EncodeFrame(f, slotSize).None? then ErrProtocol else NoError
    {
      hide Ring.Run, Ring.Step, Ring.Inv, EventOf, Events, FrameFits, EncodeFrame;
      var slot := outbound.ProduceBegin();
      if slot.None? {
        return ErrWouldBlock;
      }
      var header := EncodeFrame(f, slotSize);
      if header.None? {
        outbound.GiveUp();
        return ErrProtocol;
      }
      FrameRoundTrip(f, slotSize, []);
      EncodeNeedsRoom(f, slotSize);
      FillSlot(slot.value, header.value, payload);
      FilledSlot(old(outbound.slots[..])[slot.value], header.value, f, payload);
      EventsStep(outbound.produced, outbound.slots[slot.value]);
      outbound.ProduceCommit();
      emitted := emitted + [Event(f, payload)];
      return NoError;
    }

    method FillSlot(slot: nat, header: seq<byte>, payload: seq<byte>)
      requires outbound.Valid() && outbound.producer == Ring.PFilling(slot) && slot < outbound.slots.Length
      requires |header| == HDR_LEN && HDR_LEN + |payload| <= |outbound.slots[slot]|
      modifies outbound.slots
      ensures outbound.Valid()
      ensures outbound.slots[..] ==
              old(outbound.slots[..])[slot := Overwrite(Overwrite(old(outbound.slots[slot]), 0, header), HDR_LEN, payload)]
    {
      hide Ring.Inv;
      ghost var was := outbound.slots[slot];
      outbound.Write(slot, Overwrite(outbound.slots[slot], 0, header));
      if |payload| > 0 {
        outbound.Write(slot, Overwrite(outbound.slots[slot], HDR_LEN, payload));
      } else {
        assert Overwrite(Overwrite(was, 0, header), HDR_LEN, payload) == Overwrite(was, 0, header);
      }
    }

    /** Releases the slot handed out last, then hands out the oldest unread event. A slot that does not
        decode is dropped and reads as nothing. */
    method Poll(attached: bool, epochChanged: bool) returns (ev: Option<Event>, err: Error)
      requires InValid()
      modifies this`pendingRead, this`polled, inbound`tail, inbound`consumer, inbound`consumed
      ensures InValid()
      ensures ev.Some? ==> pendingRead
      ensures err == if !attached then ErrProtocol else if epochChanged then ErrEpoch else NoError
      ensures err != NoError ==> ev.None? && pendingRead == old(pendingRead) && polled == old(polled)
      ensures polled == old(polled) + if ev.Some? then [ev.value] else []
      ensures err == NoError && old(Taken()) < |inbound.produced| ==>
                ev == EventOf(inbound.produced[old(Taken())]) && Taken() == old(Taken()) + 1
      ensures err == NoError && old(Taken()) == |inbound.produced| ==> ev.None? && Taken() == old(Taken())
    {
      hide Ring.Run, Ring.Step, Ring.Inv, Ring.Queue, EventOf, Events;
      if !attached {
        return None, ErrProtocol;
      }
      if epochChanged {
        return None, ErrEpoch;
      }
      if pendingRead {
        inbound.ConsumeCommit();
        pendingRead := false;
      }
      var slot := inbound.ConsumeBegin();
      if slot.None? {
        return None, NoError;
      }
      var bytes := inbound.slots[slot.value];
      ghost var n := |inbound.consumed|;
      assert bytes == inbound.produced[n];
      assert inbound.produced[..n + 1] == inbound.produced[..n] + [bytes];
      EventsStep(inbound.produced[..n], bytes);
      ev := EventOf(bytes);
      if ev.None? {
        inbound.ConsumeCommit();
        return None, NoError;
      }
      pendingRead := true;
      polled := polled + [ev.value];
      return ev, NoError;
    }
  }

  lemma FrameForFits(flags: nat, kind: nat, correlation: nat, handle: nat, payload: seq<byte>)
    requires flags < 0x1_0000 && kind < 0x1_0000_0000 && correlation < 0x1_0000_0000_0000_0000
    requires handle < 0x1_0000_0000 && |payload| < 0x1_0000_0000
    ensures FrameFits(FrameFor(flags, kind, correlation, handle, payload))
  {
    Powers();
    assert !Has(flags, F_INLINE) ==> flags % 2 == 0;
  }

  /** Two clients on the two ends of one ring. */
  ghost predicate Paired(sender: Client, receiver: Client)
    reads sender, receiver, sender.outbound, sender.outbound.slots, receiver.inbound, receiver.inbound.slots
  {
    sender.OutValid() && receiver.InValid() && receiver.inbound == sender.outbound
  }

  /** Whatever was polled so far is, event for event and byte for byte, the beginning of what was emitted. */
  lemma PolledIsEmitted(sender: Client, receiver: Client)
    requires Paired(sender, receiver)
    ensures receiver.polled <= sender.emitted
  {
    EventsGrow(sender.outbound.produced, receiver.Taken());
  }

  /** The event handed out last can still be read, unchanged, from the slot it was handed out in. */
  lemma HeldCanBeRead(receiver: Client)
    requires receiver.InValid() && receiver.pendingRead
    ensures var ring := receiver.inbound;
            && ring.consumer.slot < ring.slots.Length && receiver.polled != []
            && EventOf(ring.slots[ring.consumer.slot]) == Some(receiver.polled[|receiver.polled| - 1])
  {
    var ring := receiver.inbound;
    var n := |ring.consumed|;
    HeldIsOldest(receiver);
    hide EventOf, Events;
    assert ring.produced[..n + 1] == ring.produced[..n] + [ring.produced[n]];
    EventsStep(ring.produced[..n], ring.produced[n]);
  }

  /** The bytes in the slot a reading client holds. */
  ghost function HeldSlot(receiver: Client): Option<(nat, Slot)>
    reads receiver, receiver.inbound, receiver.inbound.slots
  {
    var ring := receiver.inbound;
    if ring.consumer.CReading? && ring.consumer.slot < ring.slots.Length
    then Some((ring.consumer.slot, ring.slots[ring.consumer.slot])) else None
  }

  datatype ClientCall =
    | EmitCall(flags: nat, kind: nat, correlation: nat, payload: seq<byte>, attached: bool, epochChanged: bool)
    | PollCall(attached: bool, epochChanged: bool)
  {
    predicate Fits() {
      EmitCall? ==> flags < 0x1_0000 && kind < 0x1_0000_0000 && correlation < 0x1_0000_0000_0000_0000
    }
  }

  /** One call of either side leaves both ends in order, and an Emit leaves the slot handed out last as it is,
      byte for byte. */
  method Make(sender: Client, receiver: Client, call: ClientCall)
    requires Paired(sender, receiver) && call.Fits()
    modifies sender`emitted, receiver`pendingRead, receiver`polled, sender.outbound, sender.outbound.slots
    ensures Paired(sender, receiver)
    ensures old(sender.emitted) <= sender.emitted && old(receiver.polled) <= receiver.polled
    ensures call.EmitCall? ==> receiver.polled == old(receiver.polled) && receiver.pendingRead == old(receiver.pendingRead)
    ensures call.EmitCall? && receiver.pendingRead ==> HeldSlot(receiver) == old(HeldSlot(receiver))
  {
    hide Ring.Inv, EventOf, Events, HeldSlot;
    match call
    case EmitCall(flags, kind, correlation, payload, attached, epochChanged) =>
      HeldIsOldest(receiver);
      var err := sender.Emit(flags, kind, correlation, payload, attached, epochChanged);
      TakenKeeps(old(sender.outbound.produced), sender.outbound.produced, receiver.Taken());
      HeldIsOldest(receiver);
    case PollCall(attached, epochChanged) =>
      var ev, err := receiver.Poll(attached, epochChanged);
  }

  /** The held slot holds the oldest value published and not yet released. */
  lemma HeldIsOldest(receiver: Client)
    requires receiver.inbound.Valid()
    ensures receiver.inbound.consumer.CReading? ==>
              && |receiver.inbound.consumed| < |receiver.inbound.produced|
              && HeldSlot(receiver) == Some((receiver.inbound.consumer.slot, receiver.inbound.produced[|receiver.inbound.consumed|]))
  {
    Ring.WindowIsSafe(receiver.inbound.View(), Ring.CheckData);
    hide Ring.Step;
  }

  lemma TakenKeeps(before: seq<Slot>, after: seq<Slot>, n: nat)
    requires before <= after && n <= |before|
    ensures before[..n] == after[..n]
  {
  }

  /** Over any sequence of Emit and Poll calls on the two ends of one ring, in any order: what was polled is the
      beginning of what was emitted, and as long as no Poll is made the event handed out last stays where it is,
      byte for byte. The sequence is any, so this holds after each of its calls. */
  method Converse(sender: Client, receiver: Client, calls: seq<ClientCall>)
    requires Paired(sender, receiver) && forall c <- calls :: c.Fits()
    modifies sender`emitted, receiver`pendingRead, receiver`polled, sender.outbound, sender.outbound.slots
    ensures Paired(sender, receiver) && receiver.polled <= sender.emitted
    ensures old(sender.emitted) <= sender.emitted && old(receiver.polled) <= receiver.polled
    ensures (forall c <- calls :: c.EmitCall?) && old(receiver.pendingRead) ==>
              receiver.pendingRead && receiver.polled == old(receiver.polled) && HeldSlot(receiver) == old(HeldSlot(receiver))
  {
    var i := 0;
    while i < |calls|
      invariant 0 <= i <= |calls| && Paired(sender, receiver)
      invariant old(sender.emitted) <= sender.emitted && old(receiver.polled) <= receiver.polled
      invariant (forall c <- calls[..i] :: c.EmitCall?) && old(receiver.pendingRead) ==>
                  receiver.pendingRead && receiver.polled == old(receiver.polled) && HeldSlot(receiver) == old(HeldSlot(receiver))
    {
      assert calls[i] in calls && calls[..i + 1] == calls[..i] + [calls[i]];
      hide Paired, HeldSlot;
      Make(sender, receiver, calls[i]);
      i := i + 1;
    }
    assert calls[..i] == calls;
    PolledIsEmitted(sender, receiver);
  }
}
