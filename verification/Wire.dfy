/** The two fixed little-endian headers of the bus: the 64-byte event frame of wire.go and the 40-byte
    module message of module_protocol.go. Both codecs are bijections between the values they let
    through and the byte strings they accept. */
module Wire {
  import opened Basics

  type byte = x: int | 0 <= x < 256

  // ---- little-endian words ----

  function Power256(n: nat): (p: nat)
    ensures p >= 1
  {
    if n == 0 then 1 else 256 * Power256(n - 1)
  }

  function PutWord(v: nat, n: nat): (s: seq<byte>)
    ensures |s| == n
  {
    if n == 0 then [] else [v % 256] + PutWord(v / 256, n - 1)
  }

  function GetWord(s: seq<byte>): (v: nat)
    ensures v < Power256(|s|)
  {
    if s == [] then 0 else s[0] + 256 * GetWord(s[1..])
  }

  lemma {:induction false} GetPut(v: nat, n: nat)
    requires v < Power256(n)
    ensures GetWord(PutWord(v, n)) == v
  {
    if n > 0 {
      GetPut(v / 256, n - 1);
    }
  }

  lemma {:induction false} PutGet(s: seq<byte>)
    ensures PutWord(GetWord(s), |s|) == s
  {
    if s != [] {
      var v := GetWord(s[1..]);
      PutGet(s[1..]);
      LowByte(s[0], v);
      hide GetWord, PutWord;
      WordCons(s[0], v, |s| - 1, s);
      assert s == [s[0]] + s[1..];
    }
  }

  lemma LowByte(b: byte, v: nat)
    ensures (b + 256 * v) % 256 == b && (b + 256 * v) / 256 == v
  {
  }

  lemma WordCons(b: byte, v: nat, n: nat, s: seq<byte>)
    requires s != [] && s[0] == b && v == GetWord(s[1..]) && n == |s| - 1
    ensures GetWord(s) == b + 256 * v && PutWord(b + 256 * v, |s|) == [b] + PutWord(v, n)
  {
    LowByte(b, v);
  }

  lemma Powers()
    ensures Power256(2) == 0x1_0000 && Power256(4) == 0x1_0000_0000 && Power256(8) == 0x1_0000_0000_0000_0000
  {
    assert Power256(3) == 0x100_0000;
    assert Power256(5) == 0x100_0000_0000;
    assert Power256(7) == 0x100_0000_0000_0000;
  }

  // ---- headers: words of given widths, one after another ----

  function Size(widths: seq<nat>): nat {
    if widths == [] then 0 else widths[0] + Size(widths[1..])
  }

  predicate Fit(values: seq<nat>, widths: seq<nat>) {
    |values| == |widths| && forall i | 0 <= i < |values| :: values[i] < Power256(widths[i])
  }

  function Pack(values: seq<nat>, widths: seq<nat>): (s: seq<byte>)
    requires |values| == |widths|
    ensures |s| == Size(widths)
  {
    if values == [] then [] else PutWord(values[0], widths[0]) + Pack(values[1..], widths[1..])
  }

  /** The words at the start of s. */
  function Unpack(s: seq<byte>, widths: seq<nat>): (values: seq<nat>)
    requires |s| >= Size(widths)
    ensures |values| == |widths|
  {
    if widths == [] then [] else [GetWord(s[..widths[0]])] + Unpack(s[widths[0]..], widths[1..])
  }

  lemma {:induction false} UnpackPack(values: seq<nat>, widths: seq<nat>, rest: seq<byte>)
    requires Fit(values, widths)
    ensures Unpack(Pack(values, widths) + rest, widths) == values
  {
    if values != [] {
      hide PutWord, GetWord, Fit, Pack;
      FitParts(values, widths);
      GetPut(values[0], widths[0]);
      UnpackPack(values[1..], widths[1..], rest);
      PackStep(values, widths, rest);
      assert values == [values[0]] + values[1..];
    }
  }

  lemma FitParts(values: seq<nat>, widths: seq<nat>)
    requires Fit(values, widths) && values != []
    ensures |values| == |widths| && values[0] < Power256(widths[0]) && Fit(values[1..], widths[1..])
  {
    hide Power256;
  }

  /** The first word and what is behind it. */
  lemma PackStep(values: seq<nat>, widths: seq<nat>, rest: seq<byte>)
    requires |values| == |widths| && values != []
    ensures var s := Pack(values, widths) + rest;
            && |s| >= widths[0] && s[..widths[0]] == PutWord(values[0], widths[0])
            && s[widths[0]..] == Pack(values[1..], widths[1..]) + rest
  {
    hide PutWord, Pack;
    CutAfter(PutWord(values[0], widths[0]), Pack(values[1..], widths[1..]), rest);
    PackFirst(values, widths);
  }

  lemma PackFirst(values: seq<nat>, widths: seq<nat>)
    requires |values| == |widths| && values != []
    ensures Pack(values, widths) == PutWord(values[0], widths[0]) + Pack(values[1..], widths[1..])
  {
    hide PutWord;
  }

  lemma CutAfter(a: seq<byte>, b: seq<byte>, c: seq<byte>)
    ensures (a + b + c)[..|a|] == a && (a + b + c)[|a|..] == b + c
  {
  }

  lemma {:induction false} PackUnpack(s: seq<byte>, widths: seq<nat>)
    requires |s| >= Size(widths)
    ensures Pack(Unpack(s, widths), widths) == s[..Size(widths)]
    ensures Fit(Unpack(s, widths), widths)
  {
    if widths != [] {
      var values := Unpack(s, widths);
      PutGet(s[..widths[0]]);
      PackUnpack(s[widths[0]..], widths[1..]);
      assert values[1..] == Unpack(s[widths[0]..], widths[1..]);
      forall i | 0 <= i < |values| ensures values[i] < Power256(widths[i]) {
        if i > 0 {
          assert values[i] == values[1..][i - 1] && widths[i] == widths[1..][i - 1];
        }
      }
    }
  }

  // ---- the event frame ----

  const WIRE_MAGIC: nat := 0x30535542
  const WIRE_VERSION: nat := 3
  const HDR_LEN: nat := 64
  const MAX_PAYLOAD: nat := 0x10_0000

  const F_INLINE: nat := 0x01
  const F_ARENA: nat := 0x02
  const F_NOTIFICATION: nat := 0x04
  const F_REQUEST: nat := 0x08
  const F_REPLY: nat := 0x10
  const F_CANCEL: nat := 0x20
  const F_CONTROL: nat := 0x40
  const F_MORE: nat := 0x80

  datatype Frame = Frame(
    flags: nat,
    version: nat,
    kind: nat,
    principal: nat,
    correlation: nat,
    sequence: nat,
    logicalTS: nat,
    payloadRef: nat,
    payloadLen: nat,
    src: nat,
    dst: nat,
    generation: nat)

  datatype WireResult =
    | WireOk | ErrShort | ErrMagic | ErrVersion | ErrFlags | ErrPayloadLen | ErrCorrelation

  /** Whether a one-bit flag is set. */
  predicate Has(flags: nat, bit: nat)
    requires bit > 0
  {
    flags / bit % 2 == 1
  }

  function Bit(flags: nat, bit: nat): nat
    requires bit > 0
  {
    if Has(flags, bit) then 1 else 0
  }

  /** How many message patterns are set: `exactlyOne` asks for 1. */
  function Patterns(flags: nat): nat {
    Bit(flags, F_NOTIFICATION) + Bit(flags, F_REQUEST) + Bit(flags, F_REPLY) + Bit(flags, F_CANCEL)
  }

  function Placements(flags: nat): nat {
    Bit(flags, F_INLINE) + Bit(flags, F_ARENA)
  }

  function Validate(f: Frame): WireResult {
    if f.version != WIRE_VERSION then ErrVersion
    else if f.flags >= 0x100 then ErrFlags
    else if Patterns(f.flags) != 1 then ErrFlags
    else if f.payloadLen > 0 && Placements(f.flags) != 1 then ErrFlags
    else if f.payloadLen > MAX_PAYLOAD then ErrPayloadLen
    else if f.payloadLen == 0 && Placements(f.flags) != 0 then ErrFlags
    else if f.payloadLen == 0 && f.payloadRef != 0 then ErrPayloadLen
    else if Has(f.flags, F_MORE)
            && ((!Has(f.flags, F_REQUEST) && !Has(f.flags, F_REPLY)) || !Has(f.flags, F_INLINE)
                || Has(f.flags, F_ARENA) || f.payloadLen == 0)
    then ErrFlags
    else if !Has(f.flags, F_ARENA) && f.generation != 0 then ErrFlags
    else if Has(f.flags, F_NOTIFICATION) != (f.correlation == 0) then ErrCorrelation
    else WireOk
  }

  const FRAME_WIDTHS: seq<nat> := [4, 2, 2, 4, 4, 8, 8, 8, 8, 4, 4, 4, 4]

  function FrameWords(f: Frame): (ws: seq<nat>)
    ensures |ws| == |FRAME_WIDTHS|
  {
    [WIRE_MAGIC, f.flags, f.version, f.kind, f.principal, f.correlation, f.sequence, f.logicalTS,
     f.payloadRef, f.payloadLen, f.src, f.dst, f.generation]
  }

  /** Every field is in the range of its Go type. */
  predicate FrameFits(f: Frame) {
    Fit(FrameWords(f), FRAME_WIDTHS)
  }

  lemma {:induction false} FrameSize()
    ensures Size(FRAME_WIDTHS) == HDR_LEN
  {
    SizeStep(FRAME_WIDTHS, [2, 2, 4, 4, 8, 8, 8, 8, 4, 4, 4, 4]);
    SizeStep([2, 2, 4, 4, 8, 8, 8, 8, 4, 4, 4, 4], [2, 4, 4, 8, 8, 8, 8, 4, 4, 4, 4]);
    SizeStep([2, 4, 4, 8, 8, 8, 8, 4, 4, 4, 4], [4, 4, 8, 8, 8, 8, 4, 4, 4, 4]);
    SizeStep([4, 4, 8, 8, 8, 8, 4, 4, 4, 4], [4, 8, 8, 8, 8, 4, 4, 4, 4]);
    SizeStep([4, 8, 8, 8, 8, 4, 4, 4, 4], [8, 8, 8, 8, 4, 4, 4, 4]);
    SizeStep([8, 8, 8, 8, 4, 4, 4, 4], [8, 8, 8, 4, 4, 4, 4]);
    SizeStep([8, 8, 8, 4, 4, 4, 4], [8, 8, 4, 4, 4, 4]);
    SizeStep([8, 8, 4, 4, 4, 4], [8, 4, 4, 4, 4]);
    SizeStep([8, 4, 4, 4, 4], [4, 4, 4, 4]);
    SizeStep([4, 4, 4, 4], [4, 4, 4]);
    SizeStep([4, 4, 4], [4, 4]);
    SizeStep([4, 4], [4]);
    SizeStep([4], []);
  }

  lemma SizeStep(widths: seq<nat>, rest: seq<nat>)
    requires widths != [] && widths[1..] == rest
    ensures Size(widths) == widths[0] + Size(rest)
  {
  }

  /** `Frame.Encode` into a buffer of n bytes: the header, or None when nothing is written. */
  function EncodeFrame(f: Frame, n: nat): Option<seq<byte>> {
    if n < HDR_LEN || Validate(f) != WireOk then None else Some(Pack(FrameWords(f), FRAME_WIDTHS))
  }

  function FrameOf(ws: seq<nat>): Frame
    requires |ws| == |FRAME_WIDTHS|
  {
    Frame(ws[1], ws[2], ws[3], ws[4], ws[5], ws[6], ws[7], ws[8], ws[9], ws[10], ws[11], ws[12])
  }

  /** `Decode`: the result, and the frame when it is WireOk. */
  function DecodeFrame(s: seq<byte>): (WireResult, Option<Frame>) {
    if |s| < HDR_LEN then (ErrShort, None)
    else
      FrameSize();
      var ws := Unpack(s, FRAME_WIDTHS);
      if ws[0] != WIRE_MAGIC then (ErrMagic, None)
      else
        var r := Validate(FrameOf(ws));
        (r, if r == WireOk then Some(FrameOf(ws)) else None)
  }

  /** What is encoded is decoded again, whatever follows it in the slot. */
  lemma FrameRoundTrip(f: Frame, n: nat, rest: seq<byte>)
    requires FrameFits(f) && EncodeFrame(f, n).Some?
    ensures |EncodeFrame(f, n).value| == HDR_LEN
    ensures DecodeFrame(EncodeFrame(f, n).value + rest) == (WireOk, Some(f))
  {
    hide Validate;
    FrameSize();
    UnpackPack(FrameWords(f), FRAME_WIDTHS, rest);
  }

  lemma FrameWordsBack(ws: seq<nat>)
    requires |ws| == |FRAME_WIDTHS| && ws[0] == WIRE_MAGIC
    ensures FrameWords(FrameOf(ws)) == ws
  {
  }

  /** Every accepted header is the encoding of the frame it decodes to. */
  lemma FrameReencodes(s: seq<byte>)
    requires DecodeFrame(s).0 == WireOk
    ensures var f := DecodeFrame(s).1;
            f.Some? && FrameFits(f.value) && EncodeFrame(f.value, |s|) == Some(s[..HDR_LEN])
  {
    hide Validate, Pack, Unpack, Fit;
    FrameSize();
    PackUnpack(s, FRAME_WIDTHS);
    FrameWordsBack(Unpack(s, FRAME_WIDTHS));
  }

  // ---- the module message ----

  const MODULE_MAGIC: nat := 0x444f4d41
  const MODULE_VERSION: nat := 1
  const MODULE_HEADER: nat := 40
  const MAX_BODY: nat := 16 * 1024 * 1024

  const OP_INVOKE: nat := 1
  const OP_RESULT: nat := 2

  const STATUS_OK: nat := 0
  const STATUS_ABSENT: nat := 1
  const STATUS_CANCELLED: nat := 2
  const STATUS_DEADLINE: nat := 3
  const STATUS_INVALID: nat := 4
  const STATUS_INTERNAL: nat := 5

  datatype Message = Message(
    operation: nat,
    status: nat,
    stage: nat,
    flags: nat,
    bodyLen: nat,
    deadline: nat,
    trace: nat)

  predicate ValidMessage(m: Message) {
    && (m.operation == OP_INVOKE || m.operation == OP_RESULT)
    && m.status <= STATUS_INTERNAL
    && (m.operation == OP_INVOKE ==> m.status == STATUS_OK)
    && m.stage != 0 && m.flags == 0 && m.bodyLen <= MAX_BODY
  }

  const MESSAGE_WIDTHS: seq<nat> := [4, 2, 2, 2, 2, 4, 4, 4, 8, 8]

  function MessageWords(m: Message): (ws: seq<nat>)
    ensures |ws| == |MESSAGE_WIDTHS|
  {
    [MODULE_MAGIC, MODULE_VERSION, MODULE_HEADER, m.operation, m.status, m.stage, m.flags, m.bodyLen,
     m.deadline, m.trace]
  }

  predicate MessageFits(m: Message) {
    Fit(MessageWords(m), MESSAGE_WIDTHS)
  }

  lemma {:induction false} MessageSize()
    ensures Size(MESSAGE_WIDTHS) == MODULE_HEADER
  {
    SizeStep(MESSAGE_WIDTHS, [2, 2, 2, 2, 4, 4, 4, 8, 8]);
    SizeStep([2, 2, 2, 2, 4, 4, 4, 8, 8], [2, 2, 2, 4, 4, 4, 8, 8]);
    SizeStep([2, 2, 2, 4, 4, 4, 8, 8], [2, 2, 4, 4, 4, 8, 8]);
    SizeStep([2, 2, 4, 4, 4, 8, 8], [2, 4, 4, 4, 8, 8]);
    SizeStep([2, 4, 4, 4, 8, 8], [4, 4, 4, 8, 8]);
    SizeStep([4, 4, 4, 8, 8], [4, 4, 8, 8]);
    SizeStep([4, 4, 8, 8], [4, 8, 8]);
    SizeStep([4, 8, 8], [8, 8]);
    SizeStep([8, 8], [8]);
    SizeStep([8], []);
  }

  function EncodeMessage(m: Message, n: nat): Option<seq<byte>> {
    if n < MODULE_HEADER || !ValidMessage(m) then None else Some(Pack(MessageWords(m), MESSAGE_WIDTHS))
  }

  function MessageOf(ws: seq<nat>): Message
    requires |ws| == |MESSAGE_WIDTHS|
  {
    Message(ws[3], ws[4], ws[5], ws[6], ws[7], ws[8], ws[9])
  }

  /** `DecodeModuleMessage`: the header at the start of a payload that holds its whole body. */
  function DecodeMessage(s: seq<byte>): (m: Option<Message>)
    ensures m.Some? ==> MODULE_HEADER + m.value.bodyLen <= |s|
  {
    if |s| < MODULE_HEADER then None
    else
      MessageSize();
      var ws := Unpack(s, MESSAGE_WIDTHS);
      if ws[0] != MODULE_MAGIC || ws[1] != MODULE_VERSION || ws[2] != MODULE_HEADER then None
      else
        var m := MessageOf(ws);
        if !ValidMessage(m) || m.bodyLen > |s| - MODULE_HEADER then None else Some(m)
  }

  lemma MessageRoundTrip(m: Message, n: nat, body: seq<byte>)
    requires MessageFits(m) && EncodeMessage(m, n).Some? && m.bodyLen <= |body|
    ensures |EncodeMessage(m, n).value| == MODULE_HEADER
    ensures DecodeMessage(EncodeMessage(m, n).value + body) == Some(m)
  {
    MessageSize();
    UnpackPack(MessageWords(m), MESSAGE_WIDTHS, body);
  }

  lemma MessageReencodes(s: seq<byte>)
    requires DecodeMessage(s).Some?
    ensures var m := DecodeMessage(s).value;
            MessageFits(m) && EncodeMessage(m, |s|) == Some(s[..MODULE_HEADER])
  {
    hide Pack, Unpack, Fit, Size, ValidMessage;
    MessageSize();
    PackUnpack(s, MESSAGE_WIDTHS);
    WordsBack(Unpack(s, MESSAGE_WIDTHS));
    hide MessageWords, MessageOf;
  }

  lemma WordsBack(ws: seq<nat>)
    requires |ws| == |MESSAGE_WIDTHS|
    ensures ws[0] == MODULE_MAGIC && ws[1] == MODULE_VERSION && ws[2] == MODULE_HEADER ==> MessageWords(MessageOf(ws)) == ws
  {
  }
}
