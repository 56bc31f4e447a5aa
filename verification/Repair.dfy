/** Tool-pairing repair of a message history, as repair.go does it: which ids count as calls and results,
    which wire shape picks the strategy, and the three strategies as transformations of the transcript. */
module Repair {
  import opened Basics
  import opened JsonTree
  import opened Sorting

  const CANCEL_MESSAGE := "[Tool call was cancelled or timed out]"

  datatype Format = OpenAI | Anthropic | Responses

  function Role(m: Json): string {
    GetString(m, "role")
  }

  function Type(m: Json): string {
    GetString(m, "type")
  }

  /** The elements of a message's array field, none when there is no array there. */
  function ItemsAt(m: Json, key: string): seq<Json> {
    match GetItems(m, key)
    case Some(items) => items
    case None => []
  }

  function Opt(id: Option<string>): seq<string> {
    match id
    case Some(s) => [s]
    case None => []
  }

  /** All of f's ids over the messages, in order. */
  function Flat(f: Json -> seq<string>, msgs: seq<Json>): seq<string> {
    if msgs == [] then [] else f(msgs[0]) + Flat(f, msgs[1..])
  }

  // ---- what counts as a call, and as a result ----

  function UseId(block: Json): seq<string> {
    if Type(block) == "tool_use" then Opt(StringField(block, "id")) else []
  }

  function ResultId(block: Json): seq<string> {
    if Type(block) == "tool_result" then Opt(StringField(block, "tool_use_id")) else []
  }

  function CallId(tc: Json): seq<string> {
    Opt(StringField(tc, "id"))
  }

  /** collectToolCallIDs looks for all three shapes in every message. */
  function CallsOf(m: Json): seq<string> {
    (if Role(m) == "assistant" then Flat(CallId, ItemsAt(m, "tool_calls")) + Flat(UseId, ItemsAt(m, "content")) else [])
    + (if Type(m) == "function_call" then Opt(StringField(m, "call_id")) else [])
  }

  /** The results a message carries in one shape. */
  function ResultsIn(f: Format, m: Json): seq<string> {
    match f
    case OpenAI => if Role(m) == "tool" then Opt(StringField(m, "tool_call_id")) else []
    case Anthropic => if Role(m) == "user" then Flat(ResultId, ItemsAt(m, "content")) else []
    case Responses => if Type(m) == "function_call_output" then Opt(StringField(m, "call_id")) else []
  }

  function ResultsOf(m: Json): seq<string> {
    ResultsIn(OpenAI, m) + ResultsIn(Anthropic, m) + ResultsIn(Responses, m)
  }

  /** The id set as it is built: first occurrences in order. */
  function Dedup(ids: seq<string>): (r: seq<string>)
    ensures forall x :: x in r <==> x in ids
    ensures Distinct(r)
  {
    if ids == [] then []
    else
      assert ids == ids[..|ids| - 1] + [ids[|ids| - 1]];
      var r := Dedup(ids[..|ids| - 1]);
      if ids[|ids| - 1] in r then r else r + [ids[|ids| - 1]]
  }

  function CallOrder(msgs: seq<Json>): seq<string> {
    Dedup(Flat(CallsOf, msgs))
  }

  predicate IsCall(msgs: seq<Json>, id: string) {
    id in Flat(CallsOf, msgs)
  }

  predicate IsResult(msgs: seq<Json>, id: string) {
    id in Flat(ResultsOf, msgs)
  }

  predicate HasUse(m: Json) {
    Role(m) == "assistant" && exists b <- ItemsAt(m, "content") :: Type(b) == "tool_use"
  }

  function DetectFormat(msgs: seq<Json>): Format {
    if msgs == [] then OpenAI
    else if Type(msgs[0]) == "function_call" || Type(msgs[0]) == "function_call_output" then Responses
    else if HasUse(msgs[0]) then Anthropic
    else if Role(msgs[0]) == "tool" then OpenAI
    else DetectFormat(msgs[1..])
  }

  // ---- membership in Flat ----

  lemma {:induction false} FlatIn(f: Json -> seq<string>, msgs: seq<Json>, x: string)
    ensures x in Flat(f, msgs) <==> exists m :: m in msgs && x in f(m)
  {
    if msgs != [] {
      FlatIn(f, msgs[1..], x);
      assert msgs == [msgs[0]] + msgs[1..];
    }
  }

  lemma {:induction false} FlatJoin(f: Json -> seq<string>, a: seq<Json>, b: seq<Json>)
    ensures Flat(f, a + b) == Flat(f, a) + Flat(f, b)
  {
    if a == [] {
      assert a + b == b;
    } else {
      assert (a + b)[1..] == a[1..] + b;
      FlatJoin(f, a[1..], b);
    }
  }

  // ---- argument sanitizing ----

  /** One tool call with arguments that are no parseable string replaced by "{}". */
  function SanitizeCall(tc: Json, parses: string -> bool): Json {
    match Get(tc, "function")
    case None => tc
    case Some(fn) =>
      match Get(fn, "arguments")
      case Some(String(s)) =>
        if parses(s) then tc else Set(tc, "function", Set(Delete(fn, "arguments"), "arguments", String("{}")))
      case _ => Set(tc, "function", Set(Delete(fn, "arguments"), "arguments", String("{}")))
  }

  function SanitizeCalls(tcs: seq<Json>, parses: string -> bool): (r: seq<Json>)
    ensures |r| == |tcs|
  {
    if tcs == [] then [] else [SanitizeCall(tcs[0], parses)] + SanitizeCalls(tcs[1..], parses)
  }

  function SanitizeMessage(m: Json, parses: string -> bool): Json {
    if Role(m) != "assistant" then m
    else match GetItems(m, "tool_calls")
      case None => m
      case Some(tcs) => Set(m, "tool_calls", Array(SanitizeCalls(tcs, parses)))
  }

  function Sanitize(msgs: seq<Json>, parses: string -> bool): (r: seq<Json>)
    ensures |r| == |msgs|
  {
    if msgs == [] then [] else [SanitizeMessage(msgs[0], parses)] + Sanitize(msgs[1..], parses)
  }

  // ---- the OpenAI strategy ----

  /** An assistant message with a tool_calls entry of this id. */
  predicate Issues(m: Json, id: string) {
    Role(m) == "assistant" && exists tc <- ItemsAt(m, "tool_calls") :: GetString(tc, "id") == id
  }

  /** The first message issuing the id, or the end. */
  function FirstIssuer(msgs: seq<Json>, id: string): (i: nat)
    ensures i <= |msgs|
    ensures i < |msgs| ==> Issues(msgs[i], id)
    ensures forall k | 0 <= k < i :: !Issues(msgs[k], id)
  {
    if msgs == [] || Issues(msgs[0], id) then 0 else 1 + FirstIssuer(msgs[1..], id)
  }

  /** The end of the run of role=tool messages that starts at i. */
  function RunEnd(msgs: seq<Json>, i: nat): (j: nat)
    requires i <= |msgs|
    ensures i <= j <= |msgs|
    ensures forall k | i <= k < j :: Role(msgs[k]) == "tool"
    ensures j < |msgs| ==> Role(msgs[j]) != "tool"
    decreases |msgs| - i
  {
    if i < |msgs| && Role(msgs[i]) == "tool" then RunEnd(msgs, i + 1) else i
  }

  function ToolMessage(id: string): Json {
    Set(Set(Set(Object([]), "role", String("tool")), "tool_call_id", String(id)), "content", String(CANCEL_MESSAGE))
  }

  function InsertAt(msgs: seq<Json>, i: nat, m: Json): seq<Json>
    requires i <= |msgs|
  {
    msgs[..i] + [m] + msgs[i..]
  }

  function InsertResult(msgs: seq<Json>, id: string): seq<Json> {
    var i := FirstIssuer(msgs, id);
    if i == |msgs| then msgs + [ToolMessage(id)] else InsertAt(msgs, RunEnd(msgs, i + 1), ToolMessage(id))
  }

  function InsertResults(msgs: seq<Json>, ids: seq<string>): seq<Json>
    decreases |ids|
  {
    if ids == [] then msgs else InsertResults(InsertResult(msgs, ids[0]), ids[1..])
  }

  /** A message dropped because its one result has no call. */
  predicate Orphan(f: Format, m: Json, calls: seq<string>)
    requires !f.Anthropic?
  {
    ResultsIn(f, m) != [] && ResultsIn(f, m)[0] !in calls
  }

  function DropOrphans(f: Format, msgs: seq<Json>, calls: seq<string>): (r: seq<Json>)
    requires !f.Anthropic?
    ensures |r| <= |msgs|
  {
    if msgs == [] then []
    else (if Orphan(f, msgs[0], calls) then [] else [msgs[0]]) + DropOrphans(f, msgs[1..], calls)
  }

  // ---- the Anthropic strategy ----

  function ResultBlock(id: string): Json {
    Set(Set(Set(Object([]), "type", String("tool_result")), "tool_use_id", String(id)), "content", String(CANCEL_MESSAGE))
  }

  function UserMessage(id: string): Json {
    Set(Set(Object([]), "role", String("user")), "content", Array([ResultBlock(id)]))
  }

  predicate Uses(m: Json, id: string) {
    Role(m) == "assistant" && exists b <- ItemsAt(m, "content") :: Type(b) == "tool_use" && GetString(b, "id") == id
  }

  predicate TakesBlocks(m: Json) {
    Role(m) == "user" && GetItems(m, "content").Some?
  }

  /** The first user message with a content array behind the first message using the id, or the end. */
  function TargetUser(msgs: seq<Json>, id: string, found: bool): (i: nat)
    ensures i <= |msgs| && (i < |msgs| ==> TakesBlocks(msgs[i]))
  {
    if msgs == [] then 0
    else if found && TakesBlocks(msgs[0]) then 0
    else 1 + TargetUser(msgs[1..], id, found || Uses(msgs[0], id))
  }

  function AppendBlock(m: Json, block: Json): Json {
    Set(m, "content", Array(ItemsAt(m, "content") + [block]))
  }

  function AddBlock(msgs: seq<Json>, id: string): seq<Json> {
    var i := TargetUser(msgs, id, false);
    if i == |msgs| then msgs + [UserMessage(id)] else msgs[i := AppendBlock(msgs[i], ResultBlock(id))]
  }

  function AddBlocks(msgs: seq<Json>, ids: seq<string>): seq<Json>
    decreases |ids|
  {
    if ids == [] then msgs else AddBlocks(AddBlock(msgs, ids[0]), ids[1..])
  }

  predicate OrphanBlock(b: Json, calls: seq<string>) {
    ResultId(b) != [] && ResultId(b)[0] !in calls
  }

  function KeepBlocks(blocks: seq<Json>, calls: seq<string>): (r: seq<Json>)
    ensures |r| <= |blocks|
  {
    if blocks == [] then []
    else (if OrphanBlock(blocks[0], calls) then [] else [blocks[0]]) + KeepBlocks(blocks[1..], calls)
  }

  /** A user message without its orphan blocks; none when no block is left. */
  function TrimMessage(m: Json, calls: seq<string>): seq<Json> {
    if !TakesBlocks(m) then [m]
    else
      var kept := KeepBlocks(ItemsAt(m, "content"), calls);
      if kept == [] then [] else [Set(m, "content", Array(kept))]
  }

  function TrimAll(msgs: seq<Json>, calls: seq<string>): seq<Json> {
    if msgs == [] then [] else TrimMessage(msgs[0], calls) + TrimAll(msgs[1..], calls)
  }

  // ---- the Responses strategy ----

  function OutputItem(id: string): Json {
    Set(Set(Set(Object([]), "type", String("function_call_output")), "call_id", String(id)), "output", String(CANCEL_MESSAGE))
  }

  function AddOutputs(msgs: seq<Json>, ids: seq<string>): seq<Json>
    decreases |ids|
  {
    if ids == [] then msgs else AddOutputs(msgs + [OutputItem(ids[0])], ids[1..])
  }

  // ---- the whole repair ----

  function Unanswered(order: seq<string>, msgs: seq<Json>): (r: seq<string>)
    ensures forall x :: x in r <==> x in order && !IsResult(msgs, x)
  {
    if order == [] then []
    else
      assert order == [order[0]] + order[1..];
      (if IsResult(msgs, order[0]) then [] else [order[0]]) + Unanswered(order[1..], msgs)
  }

  /** Adds the results the calls lack. */
  function Answered(f: Format, msgs: seq<Json>, ids: seq<string>): seq<Json> {
    match f
    case OpenAI => InsertResults(msgs, ids)
    case Anthropic => AddBlocks(msgs, ids)
    case Responses => AddOutputs(msgs, ids)
  }

  /** Removes the results in the strategy's shape that have no call. */
  function Pruned(f: Format, msgs: seq<Json>, calls: seq<string>): seq<Json> {
    if f.Anthropic? then TrimAll(msgs, calls) else DropOrphans(f, msgs, calls)
  }

  /** How many of the ids have no call. */
  function Orphans(ids: seq<string>, calls: seq<string>): nat {
    if ids == [] then 0 else (if ids[0] in calls then 0 else 1) + Orphans(ids[1..], calls)
  }

  /** The results of one shape over the transcript. */
  function ShapeResults(f: Format, msgs: seq<Json>): seq<string> {
    if msgs == [] then [] else ResultsIn(f, msgs[0]) + ShapeResults(f, msgs[1..])
  }

  /** `MessageHistoryRepair`: the repaired transcript and the number of repairs. */
  function Repaired(msgs: seq<Json>, parses: string -> bool): (seq<Json>, nat) {
    var clean := Sanitize(msgs, parses);
    var calls := CallOrder(clean);
    if calls == [] && Flat(ResultsOf, clean) == [] then (clean, 0)
    else
      var f := DetectFormat(clean);
      var missing := Unanswered(calls, clean);
      (Pruned(f, Answered(f, clean, missing), calls),
       |missing| + Orphans(ShapeResults(f, clean), calls))
  }
}
