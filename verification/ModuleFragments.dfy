/** How a body crosses the bus in pieces: the fragment loops of ModuleCaller.send and replyModuleResult,
    and the reassembly in awaitReply. */
module ModuleFragments {
  import opened Basics
  import opened Wire
  import opened BusClient

  const KIND_ERROR: nat := 3
  const KIND_ABSENT: nat := 4

  /** One piece of a body; `more` is set on all but the last. */
  datatype Part = Part(bytes: seq<byte>, more: bool)

  /** The pieces a body of any length is cut into, at least one. */
  function Parts(body: seq<byte>, chunk: nat): (ps: seq<Part>)
    requires chunk > 0
    ensures |ps| > 0
    decreases |body|
  {
    if |body| <= chunk then [Part(body, false)] else [Part(body[..chunk], true)] + Parts(body[chunk..], chunk)
  }

  function Joined(ps: seq<Part>): seq<byte> {
    if ps == [] then [] else ps[0].bytes + Joined(ps[1..])
  }

  /** Nothing is lost or repeated, every piece fits, and only the last piece lacks the more flag. */
  lemma {:induction false} PartsExact(body: seq<byte>, chunk: nat)
    requires chunk > 0
    ensures var ps := Parts(body, chunk);
            && Joined(ps) == body
            && (forall i | 0 <= i < |ps| :: |ps[i].bytes| <= chunk && (ps[i].more <==> i < |ps| - 1))
            && (forall i | 0 <= i < |ps| - 1 :: |ps[i].bytes| == chunk)
    decreases |body|
  {
    if |body| > chunk {
      PartsExact(body[chunk..], chunk);
      var ps := Parts(body, chunk);
      var tail := Parts(body[chunk..], chunk);
      assert ps[1..] == tail;
      assert forall i | 0 < i < |ps| :: ps[i] == tail[i - 1];
    } else {
      var ps := Parts(body, chunk);
      assert ps[1..] == [] && Joined(ps) == body + [];
    }
  }

  /** The header all fragments of one call share, but for the length of their piece. */
  function MessageFor(m: Message, n: nat): Message {
    m.(bodyLen := n)
  }

  /** What all fragments of one body share. */
  datatype Call = Call(pattern: nat, kind: nat, correlation: nat, handle: nat, m: Message) {
    predicate Good() {
      && (pattern == F_REQUEST || pattern == F_REPLY)
      && ValidMessage(m.(bodyLen := 0)) && MessageFits(m.(bodyLen := 0))
    }
  }

  /** One fragment as the other side polls it. */
  function FragmentEvent(c: Call, p: Part): Event {
    var payload := Pack(MessageWords(MessageFor(c.m, |p.bytes|)), MESSAGE_WIDTHS) + p.bytes;
    Event(FrameFor(c.pattern + if p.more then F_MORE else 0, c.kind, c.correlation, c.handle, payload), payload)
  }

  /** The events a whole body becomes. */
  function Wired(c: Call, ps: seq<Part>): (es: seq<Event>)
    ensures |es| == |ps|
  {
    if ps == [] then [] else [FragmentEvent(c, ps[0])] + Wired(c, ps[1..])
  }

  lemma PartMessage(c: Call, n: nat)
    requires c.Good() && n <= MAX_BODY
    ensures ValidMessage(MessageFor(c.m, n)) && MessageFits(MessageFor(c.m, n))
  {
    Powers();
    var a, b := MessageWords(c.m.(bodyLen := 0)), MessageWords(MessageFor(c.m, n));
    assert forall i | 0 <= i < |a| :: b[i] == if i == 7 then n else a[i];
  }

  /** What a receiver reads off one fragment. */
  lemma FragmentReads(c: Call, p: Part)
    requires c.Good() && |p.bytes| <= MAX_BODY
    ensures var e := FragmentEvent(c, p);
            && e.frame.kind == c.kind && e.frame.correlation == c.correlation
            && (Has(e.frame.flags, F_MORE) <==> p.more)
            && (Has(e.frame.flags, F_REQUEST) <==> c.pattern == F_REQUEST) && !Has(e.frame.flags, F_CANCEL)
            && DecodeMessage(e.payload) == Some(MessageFor(c.m, |p.bytes|))
            && MODULE_HEADER + |p.bytes| == |e.payload|
            && e.payload[MODULE_HEADER..MODULE_HEADER + |p.bytes|] == p.bytes
  {
    hide DecodeMessage, Pack, Unpack, MessageFits, ValidMessage, EncodeMessage, Has, WithInline, MessageWords;
    var whole := MessageFor(c.m, |p.bytes|);
    PartMessage(c, |p.bytes|);
    EncodesTo(whole);
    MessageRoundTrip(whole, MODULE_HEADER, p.bytes);
    FlagsRead(c.pattern, p.more);
    BodyBehind(Pack(MessageWords(whole), MESSAGE_WIDTHS), p.bytes);
  }

  lemma BodyBehind(header: seq<byte>, bytes: seq<byte>)
    ensures (header + bytes)[|header|..|header| + |bytes|] == bytes
  {
  }

  lemma EncodesTo(m: Message)
    requires ValidMessage(m)
    ensures EncodeMessage(m, MODULE_HEADER) == Some(Pack(MessageWords(m), MESSAGE_WIDTHS))
  {
  }

  lemma FlagsRead(pattern: nat, more: bool)
    requires pattern == F_REQUEST || pattern == F_REPLY
    ensures var flags := WithInline(pattern + if more then F_MORE else 0);
            && (Has(flags, F_MORE) <==> more) && !Has(flags, F_CANCEL)
            && (Has(flags, F_REQUEST) <==> pattern == F_REQUEST)
  {
  }

  // ---- sending ----

  /** A bus that takes fragments until it has no room. */
  class Outbox {
    var wire: seq<Event>
    var room: nat

    constructor (room: nat)
      ensures wire == [] && this.room == room
    {
      wire, this.room := [], room;
    }

    method Put(e: Event) returns (ok: bool)
      modifies this
      ensures ok == (old(room) > 0)
      ensures if ok then wire == old(wire) + [e] && room == old(room) - 1 else wire == old(wire) && room == old(room)
    {
      ok := room > 0;
      if ok {
        wire, room := wire + [e], room - 1;
      }
    }
  }

  /** The loop's next piece is the next of Parts. */
  lemma PartsAt(body: seq<byte>, offset: nat, chunk: nat)
    requires chunk > 0 && offset <= |body|
    ensures var ps := Parts(body[offset..], chunk);
            var part := if |body| - offset > chunk then chunk else |body| - offset;
            var more := offset + part < |body|;
            ps == [Part(body[offset..offset + part], more)] + if more then Parts(body[offset + part..], chunk) else []
  {
    var part := if |body| - offset > chunk then chunk else |body| - offset;
    assert body[offset..][..part] == body[offset..offset + part] && body[offset..][part..] == body[offset + part..];
    assert |body| - offset <= chunk ==> body[offset..offset + part] == body[offset..];
  }

  lemma WiredStep(c: Call, ps: seq<Part>, wire: seq<Event>)
    requires ps != []
    ensures wire + Wired(c, ps) == (wire + [FragmentEvent(c, ps[0])]) + Wired(c, ps[1..])
  {
    hide FragmentEvent;
  }

  lemma FrontOf<T>(wire: seq<T>, rest: seq<T>, was: seq<T>, all: seq<T>)
    requires wire + rest == was + all && |was| <= |wire|
    ensures |wire| - |was| <= |all| && wire == was + all[..|wire| - |was|]
  {
    assert wire == (wire + rest)[..|wire|] == (was + all)[..|wire|];
  }

  /** The fragment loop: with room for every piece the whole body goes out; without, the pieces there was room for
      are out and the caller is told.
      A budget that cannot hold the header is refused before anything is sent. */
  method SendFragments(bus: Outbox, budget: nat, c: Call, body: seq<byte>) returns (ok: bool)
    modifies bus
    ensures budget <= MODULE_HEADER ==> !ok && bus.wire == old(bus.wire)
    ensures budget > MODULE_HEADER ==>
              var ps := Parts(body, budget - MODULE_HEADER);
              && ok == (old(bus.room) >= |ps|)
              && bus.wire == old(bus.wire) + Wired(c, ps)[..if ok then |ps| else old(bus.room)]
  {
    hide FragmentEvent, Parts;
    if budget <= MODULE_HEADER {
      return false;
    }
    var chunk := budget - MODULE_HEADER;
    var first := true;
    var offset := 0;
    ghost var left := Parts(body, chunk);
    ghost var all := Wired(c, left);
    assert body[0..] == body;
    while first || offset < |body|
      invariant 0 <= offset <= |body| && (first ==> offset == 0)
      invariant left == if first || offset < |body| then Parts(body[offset..], chunk) else []
      invariant bus.wire + Wired(c, left) == old(bus.wire) + all
      invariant |bus.wire| + |left| == |old(bus.wire)| + |all|
      invariant old(bus.room) - bus.room + |left| == |all| && bus.room <= old(bus.room)
      decreases first, |body| - offset
    {
      first := false;
      var part := |body| - offset;
      if part > chunk {
        part := chunk;
      }
      var more := offset + part < |body|;
      var p := Part(body[offset..offset + part], more);
      PartsAt(body, offset, chunk);
      WiredStep(c, left, bus.wire);
      var sent := bus.Put(FragmentEvent(c, p));
      if !sent {
        FrontOf(bus.wire, Wired(c, left), old(bus.wire), all);
        return false;
      }
      offset := offset + part;
      left := left[1..];
    }
    assert all[..|all|] == all;
    return true;
  }

  // ---- awaitReply ----

  datatype Reply =
    | Waiting(body: seq<byte>)
    | Got(body: seq<byte>)
    | Absent
    | Rejected
    | Status(status: nat)
    | Broken
    | CallCancelled
    | CallExpired
    | BusFailed

  /** One polled event, seen by a caller waiting on `correlation`. */
  function Receive(r: Reply, kind: nat, correlation: nat, limit: nat, e: Event): Reply {
    if !r.Waiting? then r
    else if e.frame.correlation == correlation && e.frame.kind == KIND_ABSENT then Absent
    else if e.frame.correlation == correlation && e.frame.kind == KIND_ERROR then Rejected
    else if e.frame.kind != kind || e.frame.correlation != correlation then r
    else
      match DecodeMessage(e.payload)
      case None => r
      case Some(m) =>
        if m.operation != OP_RESULT then r
        else if m.status != STATUS_OK then Status(m.status)
        else if MODULE_HEADER + m.bodyLen > |e.payload| then Broken
        else if |r.body| + m.bodyLen > limit then Broken
        else
          var body := r.body + e.payload[MODULE_HEADER..MODULE_HEADER + m.bodyLen];
          if Has(e.frame.flags, F_MORE) then Waiting(body) else Got(body)
  }

  function ReceiveAll(r: Reply, kind: nat, correlation: nat, limit: nat, es: seq<Event>): Reply
    decreases |es|
  {
    if es == [] then r
    else ReceiveAll(Receive(r, kind, correlation, limit, es[0]), kind, correlation, limit, es[1..])
  }

  /** One turn of the waiting loop: an event, nothing (with the context and the clock as they then are), or an
      error of the bus. */
  datatype Look = Saw(event: Event) | Nothing(cancelled: bool, expired: bool) | PollFailed

  function Turn(r: Reply, kind: nat, correlation: nat, limit: nat, look: Look): Reply {
    if !r.Waiting? then r
    else
      match look
      case Saw(e) => Receive(r, kind, correlation, limit, e)
      case Nothing(cancelled, expired) => if cancelled then CallCancelled else if expired then CallExpired else r
      case PollFailed => BusFailed
  }

  function Await(r: Reply, kind: nat, correlation: nat, limit: nat, looks: seq<Look>): Reply
    decreases |looks|
  {
    if looks == [] then r else Await(Turn(r, kind, correlation, limit, looks[0]), kind, correlation, limit, looks[1..])
  }

  /** The loop of awaitReply, turn by turn until something settles the call. */
  method AwaitReply(kind: nat, correlation: nat, limit: nat, looks: seq<Look>) returns (r: Reply)
    ensures r == Await(Waiting([]), kind, correlation, limit, looks)
  {
    var body: seq<byte> := [];
    var i := 0;
    while i < |looks|
      invariant i <= |looks|
      invariant Await(Waiting([]), kind, correlation, limit, looks) == Await(Waiting(body), kind, correlation, limit, looks[i..])
    {
      var look := looks[i];
      assert looks[i..][1..] == looks[i + 1..];
      i := i + 1;
      match look {
        case PollFailed =>
          AwaitSettled(BusFailed, kind, correlation, limit, looks[i..]);
          return BusFailed;
        case Nothing(cancelled, expired) =>
          if cancelled {
            AwaitSettled(CallCancelled, kind, correlation, limit, looks[i..]);
            return CallCancelled;
          }
          if expired {
            AwaitSettled(CallExpired, kind, correlation, limit, looks[i..]);
            return CallExpired;
          }
        case Saw(e) =>
          r := Receive(Waiting(body), kind, correlation, limit, e);
          if !r.Waiting? {
            AwaitSettled(r, kind, correlation, limit, looks[i..]);
            return r;
          }
          body := r.body;
      }
    }
    return Waiting(body);
  }

  lemma {:induction false} AwaitSettled(r: Reply, kind: nat, correlation: nat, limit: nat, looks: seq<Look>)
    requires !r.Waiting?
    ensures Await(r, kind, correlation, limit, looks) == r
    decreases |looks|
  {
    if looks != [] {
      AwaitSettled(r, kind, correlation, limit, looks[1..]);
    }
  }

  /** The events among the turns. */
  function Polled(looks: seq<Look>): seq<Event> {
    if looks == [] then []
    else if looks[0].Saw? then [looks[0].event] + Polled(looks[1..])
    else Polled(looks[1..])
  }

  /** Nobody gave up while waiting, and the bus held. */
  predicate Patient(looks: seq<Look>) {
    forall look <- looks :: !look.PollFailed? && (look.Nothing? ==> !look.cancelled && !look.expired)
  }

  /** A patient wait is settled by the events alone. */
  lemma {:induction false} PatientWait(r: Reply, kind: nat, correlation: nat, limit: nat, looks: seq<Look>)
    requires Patient(looks)
    ensures Await(r, kind, correlation, limit, looks) == ReceiveAll(r, kind, correlation, limit, Polled(looks))
    decreases |looks|
  {
    hide Receive;
    if looks != [] {
      assert looks[0] in looks && forall look | look in looks[1..] :: look in looks;
      var next := Turn(r, kind, correlation, limit, looks[0]);
      PatientWait(next, kind, correlation, limit, looks[1..]);
      if looks[0].Saw? {
        ReceivedSame(r, kind, correlation, limit, looks[0].event);
        assert Polled(looks)[1..] == Polled(looks[1..]);
      }
    }
  }

  lemma ReceivedSame(r: Reply, kind: nat, correlation: nat, limit: nat, e: Event)
    ensures !r.Waiting? ==> Receive(r, kind, correlation, limit, e) == r
  {
  }

  /** The events of one correlation, in order. */
  function Of(es: seq<Event>, correlation: nat): seq<Event> {
    if es == [] then []
    else (if es[0].frame.correlation == correlation then [es[0]] else []) + Of(es[1..], correlation)
  }

  /** Traffic of other correlations does not disturb a waiting caller. */
  lemma {:induction false} OthersIgnored(r: Reply, kind: nat, correlation: nat, limit: nat, es: seq<Event>)
    ensures ReceiveAll(r, kind, correlation, limit, es) == ReceiveAll(r, kind, correlation, limit, Of(es, correlation))
    decreases |es|
  {
    if es != [] {
      var next := Receive(r, kind, correlation, limit, es[0]);
      OthersIgnored(next, kind, correlation, limit, es[1..]);
      if es[0].frame.correlation == correlation {
        var own := Of(es, correlation);
        assert own[0] == es[0] && own[1..] == Of(es[1..], correlation);
      } else {
        assert Of(es, correlation) == Of(es[1..], correlation);
      }
    }
  }

  /** The call is a result a caller waits for. */
  predicate Result(c: Call) {
    c.Good() && c.pattern == F_REPLY && c.m.operation == OP_RESULT && c.kind != KIND_ABSENT && c.kind != KIND_ERROR
  }

  lemma PartReceived(sofar: seq<byte>, c: Call, p: Part, limit: nat)
    requires Result(c) && c.m.status == STATUS_OK && |p.bytes| <= MAX_BODY && |sofar| + |p.bytes| <= limit
    ensures Receive(Waiting(sofar), c.kind, c.correlation, limit, FragmentEvent(c, p))
         == if p.more then Waiting(sofar + p.bytes) else Got(sofar + p.bytes)
  {
    hide DecodeMessage, FragmentEvent, Has;
    FragmentReads(c, p);
  }

  /** The pieces of a result, received one after another, make up the body again. */
  lemma {:induction false} PartsReceived(sofar: seq<byte>, body: seq<byte>, chunk: nat, c: Call, limit: nat)
    requires chunk > 0 && Result(c) && c.m.status == STATUS_OK
    requires |sofar| + |body| <= limit && |body| <= MAX_BODY
    ensures ReceiveAll(Waiting(sofar), c.kind, c.correlation, limit, Wired(c, Parts(body, chunk))) == Got(sofar + body)
    decreases |body|
  {
    hide Receive, FragmentEvent;
    var ps := Parts(body, chunk);
    var es := Wired(c, ps);
    PartReceived(sofar, c, ps[0], limit);
    assert es[1..] == Wired(c, ps[1..]);
    if |body| > chunk {
      assert ps[1..] == Parts(body[chunk..], chunk);
      PartsReceived(sofar + body[..chunk], body[chunk..], chunk, c, limit);
      assert (sofar + body[..chunk]) + body[chunk..] == sofar + body;
    } else {
      assert ps[1..] == [];
    }
  }

  /** Reply round trip: for every body within the limit and every budget above the header, whatever other
      traffic the reply's fragments are mixed with and however often nothing came, awaitReply returns exactly the
      handler's body, unless the caller gave up or the bus failed first. */
  lemma ReplyRoundTrip(body: seq<byte>, budget: nat, c: Call, limit: nat, looks: seq<Look>)
    requires budget > MODULE_HEADER && |body| <= MAX_BODY && |body| <= limit && Result(c) && c.m.status == STATUS_OK
    requires Patient(looks) && Of(Polled(looks), c.correlation) == Wired(c, Parts(body, budget - MODULE_HEADER))
    ensures Await(Waiting([]), c.kind, c.correlation, limit, looks) == Got(body)
  {
    var polled := Polled(looks);
    hide Receive, FragmentEvent, Result, Polled, Patient;
    PatientWait(Waiting([]), c.kind, c.correlation, limit, looks);
    OthersIgnored(Waiting([]), c.kind, c.correlation, limit, polled);
    PartsReceived([], body, budget - MODULE_HEADER, c, limit);
    assert [] + body == body;
  }

  /** A refusal reaches the caller as its status, in one bodiless fragment. */
  lemma StatusRoundTrip(budget: nat, c: Call, limit: nat, looks: seq<Look>)
    requires budget > MODULE_HEADER && Result(c) && c.m.status != STATUS_OK
    requires Patient(looks) && Of(Polled(looks), c.correlation) == Wired(c, Parts([], budget - MODULE_HEADER))
    ensures Await(Waiting([]), c.kind, c.correlation, limit, looks) == Status(c.m.status)
  {
    var polled := Polled(looks);
    PatientWait(Waiting([]), c.kind, c.correlation, limit, looks);
    OthersIgnored(Waiting([]), c.kind, c.correlation, limit, polled);
    var es := Of(polled, c.correlation);
    assert es == [FragmentEvent(c, Part([], false))] && es[1..] == [];
    FragmentReads(c, Part([], false));
  }
}
