/** Boundary-free compression of tool-result bodies, CompressView in fold.go: oversized bodies are replaced
    in place, everything that pairs calls with results stays, and a note may be appended at the end.
    How a body is shrunk and what the note says are functions nothing here looks into. */
module Compress {
  import opened Basics
  import opened JsonTree
  import opened Repair
  import opened RepairProofs
  import opened Fold
  import JsonPrinter

  const DEFAULT_EXCERPT: nat := 160

  const NOTE_ACK :=
    "Understood \U{e2}\U{80}\U{94} identifiers from the compressed tool results are conserved below."

  /** `shrink` is CompactBody under the resolved policy; `note` the text for the replaced bodies, "" for none. */
  datatype Policy = Policy(
    enabled: bool,
    retainedMsgs: int,
    excerptBytes: int,
    shrink: string -> string,
    note: seq<string> -> string)
  {
    function Retained(): (n: nat)
      ensures n > 0
    {
      if retainedMsgs <= 0 then DEFAULT_RETAINED else retainedMsgs
    }

    function Keep(): (n: nat)
      ensures n > 0
    {
      if excerptBytes <= 0 then DEFAULT_EXCERPT else excerptBytes
    }
  }

  /** `Text`: a string's contents, anything else serialized. */
  function Text(v: Json): string {
    if v.String? then v.str else JsonPrinter.Print(v)
  }

  /** The text that replaces a body, if it is over the threshold and really shrinks. */
  function Shrunk(body: string, p: Policy): Option<string> {
    if |body| <= p.Keep() then None
    else
      var out := p.shrink(body);
      if |out| == 0 || |out| >= |body| then None else Some(out)
  }

  /** compressBodyField: the object afterwards and the bodies replaced, at most one. */
  function ShrinkField(m: Json, key: string, p: Policy): (Json, seq<string>) {
    match Get(m, key)
    case None => (m, [])
    case Some(node) =>
      match Shrunk(Text(node), p)
      case None => (m, [])
      case Some(out) => (Set(m, key, String(out)), [Text(node)])
  }

  function ShrinkBlock(b: Json, p: Policy): (Json, seq<string>) {
    if Type(b) == "tool_result" then ShrinkField(b, "content", p) else (b, [])
  }

  function ShrinkBlocks(blocks: seq<Json>, p: Policy): (r: (seq<Json>, seq<string>))
    ensures |r.0| == |blocks|
  {
    if blocks == [] then ([], [])
    else
      var (b, x) := ShrinkBlock(blocks[0], p);
      var (bs, xs) := ShrinkBlocks(blocks[1..], p);
      ([b] + bs, x + xs)
  }

  /** The OpenAI shape: the content of a role=tool message. */
  function ShrinkToolContent(m: Json, p: Policy): (Json, seq<string>) {
    if Role(m) == "tool" then ShrinkField(m, "content", p) else (m, [])
  }

  /** The Anthropic shape: tool_result blocks in a content array. */
  function ShrinkContentBlocks(m: Json, p: Policy): (Json, seq<string>) {
    match GetItems(m, "content")
    case None => (m, [])
    case Some(blocks) =>
      var (bs, xs) := ShrinkBlocks(blocks, p);
      (Set(m, "content", Array(bs)), xs)
  }

  /** The Responses shape: the output of a function_call_output item. */
  function ShrinkOutput(m: Json, p: Policy): (Json, seq<string>) {
    if Type(m) == "function_call_output" then ShrinkField(m, "output", p) else (m, [])
  }

  /** compressMessageBodies: the three shapes one after another. */
  function ShrinkMessage(m: Json, p: Policy): (Json, seq<string>) {
    var (a, x) := ShrinkToolContent(m, p);
    var (b, y) := ShrinkContentBlocks(a, p);
    var (c, z) := ShrinkOutput(b, p);
    (c, x + (y + z))
  }

  function ShrinkMessages(msgs: seq<Json>, p: Policy): (r: (seq<Json>, seq<string>))
    ensures |r.0| == |msgs|
  {
    if msgs == [] then ([], [])
    else
      var (m, x) := ShrinkMessage(msgs[0], p);
      var (ms, xs) := ShrinkMessages(msgs[1..], p);
      ([m] + ms, x + xs)
  }

  /** How many messages may be touched. */
  function Limit(msgs: seq<Json>, p: Policy): (n: nat)
    ensures n <= |msgs|
  {
    if p.Retained() >= |msgs| then 0 else |msgs| - p.Retained()
  }

  /** The messages put behind the view: a bridging turn where the view ends with the user, then the note. */
  function Tail(view: seq<Json>, text: string): seq<Json> {
    if text == "" then []
    else if view != [] && Role(view[|view| - 1]) == "user" then [AssistantText(NOTE_ACK), UserText(text)]
    else [UserText(text)]
  }

  /** CompressView: None when no body was replaced and the caller keeps its original. */
  function CompressView(msgs: seq<Json>, p: Policy): Option<seq<Json>> {
    if !p.enabled || p.Retained() >= |msgs| then None
    else
      var limit := Limit(msgs, p);
      var (ms, bodies) := ShrinkMessages(msgs[..limit], p);
      if bodies == [] then None
      else
        var view := ms + msgs[limit..];
        Some(view + Tail(view, p.note(bodies)))
  }

  /** What the caller goes on with. */
  function Effective(msgs: seq<Json>, p: Policy): seq<Json> {
    match CompressView(msgs, p)
    case None => msgs
    case Some(view) => view
  }

  // ---- one field ----

  /** b is a with, at most, the value at key replaced by a strictly shorter text. */
  ghost predicate Shorter(a: Json, b: Json, key: string) {
    || a == b
    || (&& a.Object? && (forall k :: k != key ==> Get(b, k) == Get(a, k))
        && Get(a, key).Some? && (exists s :: Get(b, key) == Some(String(s)) && 0 < |s| < |Text(Get(a, key).value)|))
  }

  lemma ShrinkFieldFacts(m: Json, key: string, p: Policy)
    ensures var (r, xs) := ShrinkField(m, key, p);
            && Shorter(m, r, key) && (xs == [] ==> r == m) && |xs| <= 1
            && (forall k | k != key :: Get(r, k) == Get(m, k))
  {
    if Get(m, key).Some? {
      var out := Shrunk(Text(Get(m, key).value), p);
      if out.Some? {
        var v := String(out.value);
        GetAfterSet(m, key, v, key);
        forall k | k != key ensures Get(Set(m, key, v), k) == Get(m, k) {
          GetAfterSet(m, key, v, k);
        }
      }
    }
  }

  /** Pairing looks at the role, the type, the ids and the block types, and at none of the bodies. */
  lemma ShrinkBlockFacts(b: Json, p: Policy)
    ensures var (r, xs) := ShrinkBlock(b, p);
            Type(r) == Type(b) && UseId(r) == UseId(b) && ResultId(r) == ResultId(b) && (xs == [] ==> r == b)
            && Shorter(b, r, "content")
  {
    ShrinkFieldFacts(b, "content", p);
    Unshortened(b, "content");
    hide ShrinkField, Shorter;
    SameIds(b, ShrinkBlock(b, p).0);
    hide Type, UseId, ResultId;
  }

  lemma Unshortened(m: Json, key: string)
    ensures Shorter(m, m, key)
  {
  }

  lemma SameIds(a: Json, b: Json)
    requires forall k | k != "content" :: Get(b, k) == Get(a, k)
    ensures Type(a) == Type(b) && UseId(a) == UseId(b) && ResultId(a) == ResultId(b)
  {
    SameGet(a, b, "type");
    SameGet(a, b, "id");
    SameGet(a, b, "tool_use_id");
    hide Get, GetString, StringField;
  }

  lemma {:induction false} ShrinkBlocksFacts(blocks: seq<Json>, p: Policy)
    ensures var (r, xs) := ShrinkBlocks(blocks, p);
            && Flat(UseId, r) == Flat(UseId, blocks) && Flat(ResultId, r) == Flat(ResultId, blocks)
            && (forall i | 0 <= i < |blocks| :: Type(r[i]) == Type(blocks[i]))
            && (forall i | 0 <= i < |blocks| :: Shorter(blocks[i], r[i], "content"))
            && (xs == [] ==> r == blocks)
  {
    if blocks != [] {
      hide ShrinkBlock, UseId, ResultId, Type, Shorter;
      ShrinkBlockFacts(blocks[0], p);
      ShrinkBlocksFacts(blocks[1..], p);
      var b, bs := ShrinkBlock(blocks[0], p).0, ShrinkBlocks(blocks[1..], p).0;
      assert ([b] + bs)[1..] == bs;
      assert blocks == [blocks[0]] + blocks[1..];
    }
  }

  // ---- one message ----

  /** The same message to everything that pairs calls with results or looks for a place to split. */
  ghost predicate SamePairing(a: Json, b: Json) {
    && Role(a) == Role(b) && Type(a) == Type(b) && CallsOf(a) == CallsOf(b) && ResultsOf(a) == ResultsOf(b)
    && IsCleanUserTurn(a) == IsCleanUserTurn(b)
  }

  lemma SameGet(a: Json, b: Json, key: string)
    requires Get(a, key) == Get(b, key)
    ensures GetString(a, key) == GetString(b, key) && StringField(a, key) == StringField(b, key)
    ensures GetItems(a, key) == GetItems(b, key)
  {
  }

  /** Everything outside `content` and `output` agrees. */
  ghost predicate SameOutside(a: Json, b: Json) {
    forall k | k != "content" && k != "output" :: Get(b, k) == Get(a, k)
  }

  lemma OutsideReads(a: Json, b: Json)
    requires SameOutside(a, b)
    ensures Role(a) == Role(b) && Type(a) == Type(b) && GetItems(a, "tool_calls") == GetItems(b, "tool_calls")
    ensures StringField(a, "call_id") == StringField(b, "call_id")
    ensures StringField(a, "tool_call_id") == StringField(b, "tool_call_id")
  {
    hide Get, GetString, StringField, GetItems;
    SameGet(a, b, "role");
    SameGet(a, b, "type");
    SameGet(a, b, "tool_calls");
    SameGet(a, b, "call_id");
    SameGet(a, b, "tool_call_id");
  }

  lemma SameCalls(a: Json, b: Json)
    requires SameOutside(a, b)
    requires Role(a) == "assistant" ==> Flat(UseId, ItemsAt(a, "content")) == Flat(UseId, ItemsAt(b, "content"))
    ensures CallsOf(a) == CallsOf(b)
  {
    hide Get, UseId, CallId;
    OutsideReads(a, b);
    assert ItemsAt(a, "tool_calls") == ItemsAt(b, "tool_calls");
    hide GetString, StringField, GetItems, ItemsAt, SameOutside;
  }

  lemma SameResults(a: Json, b: Json)
    requires SameOutside(a, b)
    requires Role(a) == "user" ==> Flat(ResultId, ItemsAt(a, "content")) == Flat(ResultId, ItemsAt(b, "content"))
    ensures ResultsOf(a) == ResultsOf(b)
  {
    hide Get, ResultId;
    OutsideReads(a, b);
    hide GetString, StringField, GetItems, ItemsAt, SameOutside;
  }

  lemma SameFields(a: Json, b: Json, key: string)
    requires forall k | k != key :: Get(b, k) == Get(a, k)
    requires key == "output" || (key == "content" && Role(a) == "tool")
    ensures SamePairing(a, b)
  {
    OutsideReads(a, b);
    if key == "output" {
      assert Get(a, "content") == Get(b, "content");
      SameGet(a, b, "content");
      assert ItemsAt(a, "content") == ItemsAt(b, "content");
    }
    SameCalls(a, b);
    SameResults(a, b);
    SameClean(a, b, key);
    hide CallsOf, ResultsOf, IsCleanUserTurn, Role, Type, Get, ItemsAt, SameOutside;
  }

  lemma SameClean(a: Json, b: Json, key: string)
    requires SameOutside(a, b) && (key == "output" ==> Get(a, "content") == Get(b, "content"))
    requires key == "output" || (key == "content" && Role(a) == "tool")
    ensures IsCleanUserTurn(a) == IsCleanUserTurn(b)
  {
    OutsideReads(a, b);
    if key == "output" {
      SameGet(a, b, "content");
    }
    hide SameOutside, GetString, StringField, Find, Type;
  }

  lemma SameBlocks(a: Json, b: Json, was: seq<Json>, now: seq<Json>)
    requires forall k | k != "content" :: Get(b, k) == Get(a, k)
    requires Get(a, "content") == Some(Array(was)) && Get(b, "content") == Some(Array(now)) && |was| == |now|
    requires Flat(UseId, now) == Flat(UseId, was) && Flat(ResultId, now) == Flat(ResultId, was)
    requires forall i | 0 <= i < |was| :: Type(now[i]) == Type(was[i])
    ensures SamePairing(a, b)
  {
    OutsideReads(a, b);
    assert ItemsAt(a, "content") == was && ItemsAt(b, "content") == now;
    SameCalls(a, b);
    SameResults(a, b);
    SameTypes(was, now);
    hide CallsOf, ResultsOf, UseId, ResultId, GetString, StringField, GetItems, ItemsAt, Get;
  }

  lemma SameTypes(a: seq<Json>, b: seq<Json>)
    requires |a| == |b| && forall i | 0 <= i < |a| :: Type(b[i]) == Type(a[i])
    ensures (forall x <- a :: Type(x) != "tool_result") <==> (forall x <- b :: Type(x) != "tool_result")
  {
    hide Type;
    if x :| x in a && Type(x) == "tool_result" {
      var i :| 0 <= i < |a| && a[i] == x;
      assert Type(b[i]) == "tool_result" && b[i] in b;
    }
    if x :| x in b && Type(x) == "tool_result" {
      var i :| 0 <= i < |b| && b[i] == x;
      assert Type(a[i]) == "tool_result" && a[i] in a;
    }
  }

  lemma ShrinkToolFacts(m: Json, p: Policy)
    ensures var (r, xs) := ShrinkToolContent(m, p);
            SamePairing(m, r) && Shorter(m, r, "content") && (xs == [] ==> r == m)
  {
    ShrinkFieldFacts(m, "content", p);
    if Role(m) == "tool" {
      hide ShrinkField, SamePairing;
      SameFields(m, ShrinkField(m, "content", p).0, "content");
    }
  }

  lemma ShrinkOutputFacts(m: Json, p: Policy)
    ensures var (r, xs) := ShrinkOutput(m, p);
            SamePairing(m, r) && Shorter(m, r, "output") && (xs == [] ==> r == m)
  {
    ShrinkFieldFacts(m, "output", p);
    if Type(m) == "function_call_output" {
      hide ShrinkField, SamePairing;
      SameFields(m, ShrinkField(m, "output", p).0, "output");
    }
  }

  /** The content array of r is that of m with some tool_result blocks' own contents made shorter. */
  ghost predicate BlocksShorter(m: Json, r: Json) {
    || r == m
    || (&& m.Object? && (forall k | k != "content" :: Get(r, k) == Get(m, k))
        && GetItems(m, "content").Some? && GetItems(r, "content").Some?
        && var was, now := ItemsAt(m, "content"), ItemsAt(r, "content");
           |was| == |now| && forall i | 0 <= i < |was| :: Shorter(was[i], now[i], "content"))
  }

  lemma ShrinkContentFacts(m: Json, p: Policy)
    ensures var (r, xs) := ShrinkContentBlocks(m, p);
            SamePairing(m, r) && BlocksShorter(m, r) && (xs == [] ==> r == m)
  {
    if GetItems(m, "content").Some? {
      var was := GetItems(m, "content").value;
      var now := ShrinkBlocks(was, p).0;
      var r := Set(m, "content", Array(now));
      ShrinkBlocksFacts(was, p);
      GetBuilt(m, "content", Array(now));
      SetSame(m, "content");
      hide SamePairing, ShrinkBlocks, Shorter, Set, Flat, UseId, ResultId, Type;
      SameBlocks(m, r, was, now);
      ContentBlocks(m, p, was);
      BlocksAre(m, r, was, now);
      hide *;
    }
  }

  lemma ContentBlocks(m: Json, p: Policy, was: seq<Json>)
    requires GetItems(m, "content") == Some(was)
    ensures ShrinkContentBlocks(m, p) == (Set(m, "content", Array(ShrinkBlocks(was, p).0)), ShrinkBlocks(was, p).1)
    ensures Get(m, "content") == Some(Array(was)) && m.Object?
  {
  }

  lemma BlocksAre(m: Json, r: Json, was: seq<Json>, now: seq<Json>)
    requires m.Object? && (forall k | k != "content" :: Get(r, k) == Get(m, k))
    requires Get(m, "content") == Some(Array(was)) && Get(r, "content") == Some(Array(now))
    requires |was| == |now| && forall i | 0 <= i < |was| :: Shorter(was[i], now[i], "content")
    ensures BlocksShorter(m, r)
  {
    hide Shorter, Get;
  }

  lemma SetSame(m: Json, key: string)
    requires Get(m, key).Some?
    ensures Set(m, key, Get(m, key).value) == m
  {
    var i := Find(m.fields, key);
    assert m.fields[i := Field(key, m.fields[i].value)] == m.fields;
  }

  /** What compression does to one message: first its tool content, then its blocks, then its output, each
      at most made shorter; and pairing sees no difference at all. */
  lemma ShrinkMessageFacts(m: Json, p: Policy)
    ensures var (r, xs) := ShrinkMessage(m, p);
            && SamePairing(m, r) && (xs == [] ==> r == m)
            && exists a, b :: Shorter(m, a, "content") && BlocksShorter(a, b) && Shorter(b, r, "output")
  {
    var (a, x) := ShrinkToolContent(m, p);
    var (b, y) := ShrinkContentBlocks(a, p);
    ShrinkToolFacts(m, p);
    ShrinkContentFacts(a, p);
    ShrinkOutputFacts(b, p);
    hide ShrinkToolContent, ShrinkContentBlocks, ShrinkOutput, Shorter, BlocksShorter, CallsOf, ResultsOf, IsCleanUserTurn;
  }

  lemma Untouched(m: Json, p: Policy)
    ensures ShrinkMessage(m, p).1 == [] ==> ShrinkMessage(m, p).0 == m
  {
    ShrinkMessageFacts(m, p);
    hide *;
  }

  lemma ShrinkMessagesStep(msgs: seq<Json>, p: Policy)
    requires msgs != []
    ensures var (m, x), rest := ShrinkMessage(msgs[0], p), ShrinkMessages(msgs[1..], p);
            ShrinkMessages(msgs, p) == ([m] + rest.0, x + rest.1)
  {
    hide ShrinkMessage;
  }

  lemma {:induction false} ShrinkMessagesFacts(msgs: seq<Json>, p: Policy)
    ensures var (r, xs) := ShrinkMessages(msgs, p);
            && (forall i | 0 <= i < |msgs| :: r[i] == ShrinkMessage(msgs[i], p).0)
            && (xs == [] ==> r == msgs)
  {
    hide *;
    if msgs != [] {
      Untouched(msgs[0], p);
      ShrinkMessagesFacts(msgs[1..], p);
      ShrinkMessagesStep(msgs, p);
      var m, ms := ShrinkMessage(msgs[0], p).0, ShrinkMessages(msgs[1..], p).0;
      forall i | 0 < i < |msgs| ensures ([m] + ms)[i] == ShrinkMessage(msgs[i], p).0 {
        assert ([m] + ms)[i] == ms[i - 1] && msgs[1..][i - 1] == msgs[i];
      }
      assert msgs == [msgs[0]] + msgs[1..];
    }
  }

  // ---- the view ----

  /** Message i of the compressed view is message i of the transcript, shrunk when it is ahead of the
      retained band; what is added comes after all of them. A declined pass is the same view. */
  lemma ViewPositions(msgs: seq<Json>, p: Policy)
    ensures var e := Effective(msgs, p);
            && |e| >= |msgs|
            && (forall i | 0 <= i < |msgs| ::
                  e[i] == if p.enabled && i < Limit(msgs, p) then ShrinkMessage(msgs[i], p).0 else msgs[i])
            && (forall i | |msgs| <= i < |e| :: CallsOf(e[i]) == [] && ResultsOf(e[i]) == [])
  {
    if p.enabled && p.Retained() < |msgs| {
      var limit := Limit(msgs, p);
      ShrinkMessagesFacts(msgs[..limit], p);
      ViewIs(msgs, p);
      hide *;
      var (ms, bodies) := ShrinkMessages(msgs[..limit], p);
      assert forall i | 0 <= i < limit :: msgs[..limit][i] == msgs[i];
      if bodies != [] {
        var view := ms + msgs[limit..];
        TailCarriesNothing(view, p.note(bodies));
        GluedAt(ms, msgs, limit, Tail(view, p.note(bodies)));
      }
    }
  }

  lemma ViewIs(msgs: seq<Json>, p: Policy)
    requires p.enabled && p.Retained() < |msgs|
    ensures var limit := Limit(msgs, p);
            var (ms, bodies) := ShrinkMessages(msgs[..limit], p);
            && 0 < limit && limit == |msgs| - p.Retained()
            && Effective(msgs, p) == if bodies == [] then msgs
                                     else (ms + msgs[limit..]) + Tail(ms + msgs[limit..], p.note(bodies))
  {
    hide ShrinkMessages, Tail;
  }

  lemma GluedAt(ms: seq<Json>, msgs: seq<Json>, limit: nat, tail: seq<Json>)
    requires |ms| == limit <= |msgs|
    ensures var e := ms + msgs[limit..] + tail;
            && |e| == |msgs| + |tail|
            && (forall i | 0 <= i < |msgs| :: e[i] == if i < limit then ms[i] else msgs[i])
            && (forall i | |msgs| <= i < |e| :: e[i] in tail)
  {
    var e := ms + msgs[limit..] + tail;
    forall i | |msgs| <= i < |e| ensures e[i] in tail {
      assert e[i] == tail[i - |msgs|];
    }
  }

  lemma TailCarriesNothing(view: seq<Json>, text: string)
    ensures forall m <- Tail(view, text) :: CallsOf(m) == [] && ResultsOf(m) == []
  {
    TextCarriesNothing(NOTE_ACK);
    TextCarriesNothing(text);
    hide CallsOf, ResultsOf, UserText, AssistantText, Role;
  }

  /** For any transcript: the call ids and the result ids, message by message, and the clean user turns of
      the original messages are the same after compression. */
  lemma CompressKeepsPairing(msgs: seq<Json>, p: Policy)
    ensures var e := Effective(msgs, p);
            && |e| >= |msgs|
            && (forall i | 0 <= i < |msgs| :: SamePairing(msgs[i], e[i]))
            && Flat(CallsOf, e) == Flat(CallsOf, msgs) && Flat(ResultsOf, e) == Flat(ResultsOf, msgs)
  {
    ViewPositions(msgs, p);
    hide CallsOf, ResultsOf, Effective, IsCleanUserTurn, ShrinkMessage, Role, Type;
    var e := Effective(msgs, p);
    forall i | 0 <= i < |msgs| ensures SamePairing(msgs[i], e[i]) {
      OnePairing(msgs[i], p);
    }
    FlatHead(CallsOf, msgs, e);
    FlatHead(ResultsOf, msgs, e);
  }

  lemma OnePairing(m: Json, p: Policy)
    ensures SamePairing(m, ShrinkMessage(m, p).0)
  {
    ShrinkMessageFacts(m, p);
    hide *;
  }

  /** e is msgs to f, with more behind it that carries nothing. */
  lemma FlatHead(f: Json -> seq<string>, msgs: seq<Json>, e: seq<Json>)
    requires |e| >= |msgs|
    requires forall i | 0 <= i < |msgs| :: f(msgs[i]) == f(e[i])
    requires forall i | |msgs| <= i < |e| :: f(e[i]) == []
    ensures Flat(f, e) == Flat(f, msgs)
  {
    assert e == e[..|msgs|] + e[|msgs|..];
    FlatJoin(f, e[..|msgs|], e[|msgs|..]);
    FlatSame(f, msgs, e[..|msgs|]);
    FlatNone(f, e[|msgs|..]);
  }

  lemma {:induction false} FlatSame(f: Json -> seq<string>, a: seq<Json>, b: seq<Json>)
    requires |a| == |b| && forall i | 0 <= i < |a| :: f(a[i]) == f(b[i])
    ensures Flat(f, a) == Flat(f, b)
  {
    if a != [] {
      assert forall i | 0 <= i < |a[1..]| :: a[1..][i] == a[i + 1] && b[1..][i] == b[i + 1];
      FlatSame(f, a[1..], b[1..]);
    }
  }

  lemma {:induction false} FlatNone(f: Json -> seq<string>, a: seq<Json>)
    requires forall i | 0 <= i < |a| :: f(a[i]) == []
    ensures Flat(f, a) == []
  {
    if a != [] {
      assert forall i | 0 <= i < |a[1..]| :: a[1..][i] == a[i + 1];
      FlatNone(f, a[1..]);
    }
  }

  /** Compression is prefix-stable: growing the transcript leaves the view as it was at every index ahead of
      the shorter transcript's retained band. */
  lemma CompressStable(short: seq<Json>, long: seq<Json>, p: Policy, i: nat)
    requires short <= long && i < Limit(short, p)
    ensures |Effective(short, p)| > i && |Effective(long, p)| > i
    ensures Effective(short, p)[i] == Effective(long, p)[i]
  {
    ViewPositions(short, p);
    ViewPositions(long, p);
    hide Effective, ShrinkMessage;
  }

  /** Tied pairs stay tied: nothing that ties them is in the bodies, and the note comes after everything. */
  lemma CompressKeepsTied(msgs: seq<Json>, p: Policy)
    requires PairsTied(msgs)
    ensures PairsTied(Effective(msgs, p))
  {
    CompressKeepsPairing(msgs, p);
    ViewPositions(msgs, p);
    hide Effective, CallsOf, ResultsOf, IsCleanUserTurn, ShrinkMessage, Role, Type, Flat;
    TiedCarries(msgs, Effective(msgs, p));
  }

  lemma TiedCarries(msgs: seq<Json>, e: seq<Json>)
    requires PairsTied(msgs) && |e| >= |msgs|
    requires forall i | 0 <= i < |msgs| :: SamePairing(msgs[i], e[i])
    requires forall i | |msgs| <= i < |e| :: CallsOf(e[i]) == [] && ResultsOf(e[i]) == []
    ensures PairsTied(e)
  {
    hide CallsOf, ResultsOf, IsCleanUserTurn, Role, Type;
    forall i, x | 0 <= i < |e| && x in CallsOf(e[i])
      ensures exists j | i <= j < |e| :: x in ResultsOf(e[j]) && Tied(e, i, j)
    {
      var j :| i <= j < |msgs| && x in ResultsOf(msgs[j]) && Tied(msgs, i, j);
      assert x in ResultsOf(e[j]) && Tied(e, i, j);
    }
    forall j, x | 0 <= j < |e| && x in ResultsOf(e[j])
      ensures exists i | 0 <= i <= j :: x in CallsOf(e[i]) && Tied(e, i, j)
    {
      var i :| 0 <= i <= j && x in CallsOf(msgs[i]) && Tied(msgs, i, j);
      assert x in CallsOf(e[i]) && Tied(e, i, j);
    }
  }

  /** The structural check passes on what either lever publishes, alone or one after the other. */
  lemma ReductionKeepsPairs(msgs: seq<Json>, p: Policy, cfg: Config, fz: Freeze, parses: string -> bool)
    requires PairsTied(msgs)
    ensures Paired(Effective(msgs, p)) && Repaired(Effective(msgs, p), parses).1 == 0
    ensures var fold := FoldView(Effective(msgs, p), cfg, fz).0;
            fold.Some? ==> Paired(fold.value.messages) && Repaired(fold.value.messages, parses).1 == 0
  {
    hide *;
    CompressKeepsTied(msgs, p);
    var e := Effective(msgs, p);
    TiedIsPaired(e);
    PairedNeedsNothing(e, parses);
    if FoldView(e, cfg, fz).0.Some? {
      FoldKeepsPairs(e, cfg, fz, parses);
    }
  }

  lemma TiedIsPaired(msgs: seq<Json>)
    requires PairsTied(msgs)
    ensures Paired(msgs)
  {
    hide CallsOf, ResultsOf, IsCleanUserTurn, IsCall, IsResult;
    forall x ensures IsCall(msgs, x) <==> IsResult(msgs, x) {
      CallAt(msgs, x);
      ResultAt(msgs, x);
    }
  }

  /** Compression alone neither opens nor closes a pair, whatever the transcript. */
  lemma CompressKeepsIds(msgs: seq<Json>, p: Policy, x: string)
    ensures IsCall(Effective(msgs, p), x) <==> IsCall(msgs, x)
    ensures IsResult(Effective(msgs, p), x) <==> IsResult(msgs, x)
  {
    CompressKeepsPairing(msgs, p);
    hide Effective;
  }
}
