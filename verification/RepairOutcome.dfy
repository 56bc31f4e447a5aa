/** What the repair promises of any transcript: which calls and which results it leaves, when they pair, and when
    a second run has nothing to do. Everything is said of the input. A message of one wire shape carries nothing
    of another, but nothing stops a transcript from holding messages that do, and removing such a message as an
    orphan takes along what else it carries. */
module RepairOutcome {
  import opened JsonTree
  import opened Repair
  import opened RepairProofs
  import opened RepairAgain

  predicate Targeted(msgs: seq<Json>, ids: seq<string>, i: nat) {
    exists id <- ids :: TargetUser(msgs, id, false) == i
  }

  /** The second loop takes message i out: the one result it is in the detected shape has no call, or it is a user
      message all of whose blocks are such results and that is given no block. */
  predicate Removed(msgs: seq<Json>, i: nat)
    requires i < |msgs|
  {
    var f, calls := DetectFormat(msgs), CallOrder(msgs);
    && (calls != [] || Flat(ResultsOf, msgs) != [])
    && if f.Anthropic? then TrimMessage(msgs[i], calls) == [] && !Targeted(msgs, Unanswered(calls, msgs), i)
       else Orphan(f, msgs[i], calls)
  }

  /** The calls after the repair, and per shape the results: in the detected shape those that have a call and the
      calls nothing answered, in the others what was not taken along. */
  ghost predicate CallAfter(msgs: seq<Json>, x: string) {
    exists i | 0 <= i < |msgs| :: !Removed(msgs, i) && x in CallsOf(msgs[i])
  }

  ghost predicate ResultAfter(msgs: seq<Json>, g: Format, x: string) {
    if g == DetectFormat(msgs) then IsCall(msgs, x) && (InShape(g, msgs, x) || !IsResult(msgs, x))
    else exists i | 0 <= i < |msgs| :: !Removed(msgs, i) && x in ResultsIn(g, msgs[i])
  }

  /** Nothing is taken along: whatever a removed message carries besides its orphans stands elsewhere too. */
  ghost predicate NothingLost(msgs: seq<Json>) {
    && (forall x :: IsCall(msgs, x) ==> CallAfter(msgs, x))
    && (forall g, x :: g != DetectFormat(msgs) && InShape(g, msgs, x) ==> ResultAfter(msgs, g, x))
  }

  /** Items of the Responses shape carry no role, as that wire defines them. */
  predicate Unmixed(msgs: seq<Json>) {
    forall m <- msgs :: Type(m) == "function_call" || Type(m) == "function_call_output" ==> Role(m) == ""
  }

  /** No result in a shape other than the detected one lacks a call: the only orphans the strategy of the
      detected shape does not look for. */
  ghost predicate NoForeignOrphan(msgs: seq<Json>) {
    forall g, x :: g != DetectFormat(msgs) && InShape(g, msgs, x) ==> IsCall(msgs, x)
  }

  // ---- OpenAI and Responses: messages are put in and taken out whole ----

  function Synthetic(f: Format, id: string): Json
    requires !f.Anthropic?
  {
    if f.OpenAI? then ToolMessage(id) else OutputItem(id)
  }

  lemma SyntheticFacts(f: Format, id: string)
    requires !f.Anthropic?
    ensures var m := Synthetic(f, id);
            CallsOf(m) == [] && ResultsIn(f, m) == [id] && forall g | g != f :: ResultsIn(g, m) == []
  {
    if f.OpenAI? {
      ToolMessageFacts(id);
    } else {
      OutputItemFacts(id);
    }
    hide CallsOf, ResultsIn, ToolMessage, OutputItem;
    forall g | g != f ensures ResultsIn(g, Synthetic(f, id)) == [] {
      match g
      case OpenAI =>
      case Anthropic =>
      case Responses =>
    }
  }

  lemma OneMember(f: Format, msgs: seq<Json>, id: string, m: Json)
    requires !f.Anthropic?
    ensures m in AnswerOne(f, msgs, id) <==> m in msgs || m == Synthetic(f, id)
  {
    hide ToolMessage, OutputItem, InsertResult, InsertAt;
    if f.OpenAI? {
      InsertIsInsertAt(msgs, id);
      var i := FirstIssuer(msgs, id);
      InsertMembers(msgs, if i == |msgs| then i else RunEnd(msgs, i + 1), ToolMessage(id), m);
    }
  }

  lemma InsertMembers(msgs: seq<Json>, p: nat, x: Json, m: Json)
    requires p <= |msgs|
    ensures m in InsertAt(msgs, p, x) <==> m in msgs || m == x
  {
    assert msgs == msgs[..p] + msgs[p..];
  }

  lemma {:induction false} AnsweredMembers(f: Format, msgs: seq<Json>, ids: seq<string>, m: Json)
    requires !f.Anthropic?
    ensures m in Answered(f, msgs, ids) <==> m in msgs || exists id <- ids :: m == Synthetic(f, id)
    decreases |ids|
  {
    hide *;
    if ids == [] {
      AnsweredNone(f, msgs);
    } else {
      AnsweredStep(f, msgs, ids);
      OneMember(f, msgs, ids[0], m);
      AnsweredMembers(f, AnswerOne(f, msgs, ids[0]), ids[1..], m);
      assert ids == [ids[0]] + ids[1..];
    }
  }

  /** The members after both loops: what is no orphan, and the synthetic results. */
  lemma KeptMembers(f: Format, msgs: seq<Json>, ids: seq<string>, calls: seq<string>, m: Json)
    requires !f.Anthropic? && forall x <- ids :: x in calls
    ensures m in DropOrphans(f, Answered(f, msgs, ids), calls) <==>
            (m in msgs && !Orphan(f, m, calls)) || exists id <- ids :: m == Synthetic(f, id)
  {
    AnsweredMembers(f, msgs, ids, m);
    DropMembers(f, Answered(f, msgs, ids), calls, m);
    hide Answered, Synthetic, CallsOf, DropOrphans;
    if id :| id in ids && m == Synthetic(f, id) {
      SyntheticFacts(f, id);
    }
  }

  lemma KeptCalls(f: Format, msgs: seq<Json>, ids: seq<string>, calls: seq<string>, x: string)
    requires !f.Anthropic? && forall x <- ids :: x in calls
    ensures IsCall(DropOrphans(f, Answered(f, msgs, ids), calls), x) <==>
            exists m <- msgs :: !Orphan(f, m, calls) && x in CallsOf(m)
  {
    hide Answered, Synthetic, CallsOf, DropOrphans, Orphan;
    var r := DropOrphans(f, Answered(f, msgs, ids), calls);
    FlatIn(CallsOf, r, x);
    if m :| m in r && x in CallsOf(m) {
      KeptMembers(f, msgs, ids, calls, m);
      if id :| id in ids && m == Synthetic(f, id) {
        SyntheticFacts(f, id);
      }
    }
    if m :| m in msgs && !Orphan(f, m, calls) && x in CallsOf(m) {
      KeptMembers(f, msgs, ids, calls, m);
    }
  }

  lemma KeptResults(f: Format, msgs: seq<Json>, ids: seq<string>, calls: seq<string>, g: Format, x: string)
    requires !f.Anthropic? && forall x <- ids :: x in calls
    ensures InShape(g, DropOrphans(f, Answered(f, msgs, ids), calls), x) <==>
            (exists m <- msgs :: !Orphan(f, m, calls) && x in ResultsIn(g, m)) || (g == f && x in ids)
  {
    hide Answered, Synthetic, ResultsIn, DropOrphans, Orphan, CallsOf;
    var r := DropOrphans(f, Answered(f, msgs, ids), calls);
    ShapeIn(g, r, x);
    hide InShape;
    if m :| m in r && x in ResultsIn(g, m) {
      KeptMembers(f, msgs, ids, calls, m);
      if id :| id in ids && m == Synthetic(f, id) {
        SyntheticFacts(f, id);
      }
    }
    if m :| m in msgs && !Orphan(f, m, calls) && x in ResultsIn(g, m) {
      KeptMembers(f, msgs, ids, calls, m);
    }
    if g == f && x in ids {
      KeptMembers(f, msgs, ids, calls, Synthetic(f, x));
      SyntheticFacts(f, x);
    }
  }

  /** In the strategy's own shape a message is kept exactly for a result that has a call. */
  lemma OwnResults(f: Format, msgs: seq<Json>, calls: seq<string>, x: string)
    requires !f.Anthropic?
    ensures (exists m <- msgs :: !Orphan(f, m, calls) && x in ResultsIn(f, m)) <==> InShape(f, msgs, x) && x in calls
  {
    ShapeIn(f, msgs, x);
    hide InShape;
    forall m <- msgs | x in ResultsIn(f, m) ensures !Orphan(f, m, calls) <==> x in calls {
      OnlyResult(f, m, x);
      hide ResultsIn;
    }
    hide Orphan, ResultsIn;
  }

  lemma OnlyResult(f: Format, m: Json, x: string)
    requires !f.Anthropic? && x in ResultsIn(f, m)
    ensures ResultsIn(f, m) == [x]
  {
  }

  // ---- Anthropic: blocks are put into user messages and taken out ----

  /** b is msgs to everything the strategy looks at, except that some user messages have more blocks, and has more
      user messages behind it. */
  ghost predicate Grown(msgs: seq<Json>, b: seq<Json>, ids: seq<string>, calls: seq<string>) {
    && |b| >= |msgs|
    && (forall i | 0 <= i < |msgs| :: SameButBlocks(msgs[i], b[i]))
    && (forall i | 0 <= i < |msgs| ::
          TrimMessage(b[i], calls) == [] <==> TrimMessage(msgs[i], calls) == [] && !Targeted(msgs, ids, i))
    && (forall i | |msgs| <= i < |b| :: OnlyBlocks(b[i]))
  }

  ghost predicate SameButBlocks(m: Json, n: Json) {
    && CallsOf(n) == CallsOf(m) && ResultsIn(OpenAI, n) == ResultsIn(OpenAI, m)
    && ResultsIn(Responses, n) == ResultsIn(Responses, m)
    && TakesBlocks(n) == TakesBlocks(m) && forall id :: Uses(n, id) == Uses(m, id)
  }

  ghost predicate OnlyBlocks(m: Json) {
    CallsOf(m) == [] && ResultsIn(OpenAI, m) == [] && ResultsIn(Responses, m) == []
  }

  lemma SameTwice(a: Json, b: Json, c: Json)
    requires SameButBlocks(a, b) && SameButBlocks(b, c)
    ensures SameButBlocks(a, c)
  {
    hide CallsOf, ResultsIn, TakesBlocks, Uses;
  }

  lemma OnlyBlocksStay(a: Json, b: Json)
    requires OnlyBlocks(a) && SameButBlocks(a, b)
    ensures OnlyBlocks(b)
  {
    hide CallsOf, ResultsIn, TakesBlocks, Uses;
  }

  /** Where a block goes depends on nothing that blocks change. */
  lemma {:induction false} SameTarget(msgs: seq<Json>, b: seq<Json>, id: string, found: bool)
    requires |b| >= |msgs| && forall i | 0 <= i < |msgs| :: SameButBlocks(msgs[i], b[i])
    ensures var t := TargetUser(msgs, id, found);
            if t < |msgs| then TargetUser(b, id, found) == t else TargetUser(b, id, found) >= |msgs|
  {
    if msgs != [] {
      hide SameButBlocks, Uses, TakesBlocks;
      SameHead(msgs[0], b[0], id);
      SameRest(msgs, b);
      SameTarget(msgs[1..], b[1..], id, found || Uses(msgs[0], id));
    }
  }

  lemma SameHead(m: Json, n: Json, id: string)
    requires SameButBlocks(m, n)
    ensures TakesBlocks(m) == TakesBlocks(n) && Uses(m, id) == Uses(n, id)
  {
    hide TakesBlocks, CallsOf, ResultsIn, Uses;
  }

  lemma SameRest(msgs: seq<Json>, b: seq<Json>)
    requires msgs != [] && |b| >= |msgs| && forall i | 0 <= i < |msgs| :: SameButBlocks(msgs[i], b[i])
    ensures |b[1..]| >= |msgs[1..]| && forall i | 0 <= i < |msgs[1..]| :: SameButBlocks(msgs[1..][i], b[1..][i])
  {
    hide SameButBlocks;
    forall i | 0 <= i < |msgs[1..]| ensures SameButBlocks(msgs[1..][i], b[1..][i]) {
      assert msgs[1..][i] == msgs[i + 1] && b[1..][i] == b[i + 1];
    }
  }

  lemma SameTargets(msgs: seq<Json>, b: seq<Json>, ids: seq<string>, i: nat)
    requires |b| >= |msgs| && i < |msgs| && forall k | 0 <= k < |msgs| :: SameButBlocks(msgs[k], b[k])
    ensures Targeted(b, ids, i) == Targeted(msgs, ids, i)
  {
    hide SameButBlocks, TargetUser;
    forall id <- ids ensures TargetUser(b, id, false) == i <==> TargetUser(msgs, id, false) == i {
      SameTarget(msgs, b, id, false);
    }
  }

  lemma TargetedMore(msgs: seq<Json>, ids: seq<string>, i: nat)
    requires ids != []
    ensures Targeted(msgs, ids, i) == (TargetUser(msgs, ids[0], false) == i || Targeted(msgs, ids[1..], i))
  {
    hide TargetUser;
    assert ids == [ids[0]] + ids[1..];
  }

  /** A user message given a block for a call is not removed, and is otherwise the same. */
  lemma BlockGiven(m: Json, id: string, calls: seq<string>)
    requires TakesBlocks(m) && id in calls
    ensures SameButBlocks(m, AppendBlock(m, ResultBlock(id))) && TrimMessage(AppendBlock(m, ResultBlock(id)), calls) != []
  {
    var blocks, n := ItemsAt(m, "content"), AppendBlock(m, ResultBlock(id));
    AppendBlockFacts(m, id);
    ContentSet(m, blocks + [ResultBlock(id)]);
    ResultBlockFacts(id);
    hide ResultBlock, CallsOf, ResultsIn;
    KeepsLast(blocks, ResultBlock(id), calls);
    assert ItemsAt(n, "content") == blocks + [ResultBlock(id)];
    hide KeepBlocks, Set;
  }

  lemma {:induction false} KeepsLast(blocks: seq<Json>, b: Json, calls: seq<string>)
    requires !OrphanBlock(b, calls)
    ensures KeepBlocks(blocks + [b], calls) != []
  {
    hide OrphanBlock;
    if blocks == [] {
      assert blocks + [b] == [b];
    } else {
      assert (blocks + [b])[0] == blocks[0] && (blocks + [b])[1..] == blocks[1..] + [b];
      KeepsLast(blocks[1..], b, calls);
    }
  }

  lemma SameAsItself(m: Json)
    ensures SameButBlocks(m, m)
  {
  }

  lemma UserMessageOnlyBlocks(id: string)
    ensures OnlyBlocks(UserMessage(id))
  {
    UserMessageFacts(id);
    hide UserMessage, CallsOf, ResultsIn;
  }

  lemma OneGrows(msgs: seq<Json>, id: string, calls: seq<string>)
    requires id in calls
    ensures Grown(msgs, AddBlock(msgs, id), [id], calls)
  {
    hide SameButBlocks, OnlyBlocks, TrimMessage, AppendBlock, ResultBlock, UserMessage;
    var t := TargetUser(msgs, id, false);
    forall i | 0 <= i < |msgs| ensures SameButBlocks(msgs[i], msgs[i]) && (Targeted(msgs, [id], i) <==> i == t) {
      SameAsItself(msgs[i]);
      assert id in [id];
    }
    hide Targeted;
    if t == |msgs| {
      UserMessageOnlyBlocks(id);
    } else {
      BlockGiven(msgs[t], id, calls);
    }
  }

  lemma GrownTwice(msgs: seq<Json>, next: seq<Json>, b: seq<Json>, ids: seq<string>, calls: seq<string>)
    requires ids != [] && Grown(msgs, next, [ids[0]], calls) && Grown(next, b, ids[1..], calls)
    ensures Grown(msgs, b, ids, calls)
  {
    hide SameButBlocks, OnlyBlocks, TrimMessage, Targeted;
    forall i | 0 <= i < |msgs|
      ensures SameButBlocks(msgs[i], b[i])
      ensures TrimMessage(b[i], calls) == [] <==> TrimMessage(msgs[i], calls) == [] && !Targeted(msgs, ids, i)
    {
      SameTwice(msgs[i], next[i], b[i]);
      SameTargets(msgs, next, ids[1..], i);
      TargetedMore(msgs, ids, i);
      TargetedMore(msgs, [ids[0]], i);
      NoneTargeted(msgs, i);
      assert [ids[0]][1..] == [];
    }
    forall i | |msgs| <= i < |b| ensures OnlyBlocks(b[i]) {
      if i < |next| {
        OnlyBlocksStay(next[i], b[i]);
      }
    }
  }

  lemma NoneTargeted(msgs: seq<Json>, i: nat)
    ensures !Targeted(msgs, [], i)
  {
  }

  lemma {:induction false} BlocksGrow(msgs: seq<Json>, ids: seq<string>, calls: seq<string>)
    requires forall x <- ids :: x in calls
    ensures Grown(msgs, AddBlocks(msgs, ids), ids, calls)
    decreases |ids|
  {
    hide Grown, AddBlock;
    if ids == [] {
      StaysGrown(msgs, calls);
    } else {
      var next := AddBlock(msgs, ids[0]);
      assert ids[0] in ids && forall x | x in ids[1..] :: x in ids;
      OneGrows(msgs, ids[0], calls);
      BlocksGrow(next, ids[1..], calls);
      GrownTwice(msgs, next, AddBlocks(msgs, ids), ids, calls);
    }
  }

  lemma StaysGrown(msgs: seq<Json>, calls: seq<string>)
    ensures Grown(msgs, msgs, [], calls)
  {
    forall i | 0 <= i < |msgs| ensures SameButBlocks(msgs[i], msgs[i]) && !Targeted(msgs, [], i) {
      SameAsItself(msgs[i]);
    }
    hide SameButBlocks, TrimMessage;
  }

  lemma TrimmedCallsAt(msgs: seq<Json>, b: seq<Json>, ids: seq<string>, calls: seq<string>, x: string)
    requires Grown(msgs, b, ids, calls)
    ensures IsCall(TrimAll(b, calls), x) <==>
            exists i | 0 <= i < |msgs| ::
              (TrimMessage(msgs[i], calls) != [] || Targeted(msgs, ids, i)) && x in CallsOf(msgs[i])
  {
    TrimmedCalls(b, calls, x);
    hide TrimMessage, CallsOf, ResultsIn, Targeted, TrimAll, Flat, TakesBlocks, Uses;
    if m :| m in b && TrimMessage(m, calls) != [] && x in CallsOf(m) {
      var i :| 0 <= i < |b| && b[i] == m;
      assert i < |msgs| ==> SameButBlocks(msgs[i], b[i]);
      assert i >= |msgs| ==> OnlyBlocks(b[i]);
    }
    if i :| 0 <= i < |msgs| && (TrimMessage(msgs[i], calls) != [] || Targeted(msgs, ids, i)) && x in CallsOf(msgs[i]) {
      assert SameButBlocks(msgs[i], b[i]) && b[i] in b;
    }
  }

  lemma TrimmedOthersAt(msgs: seq<Json>, b: seq<Json>, ids: seq<string>, calls: seq<string>, g: Format, x: string)
    requires Grown(msgs, b, ids, calls) && g != Anthropic
    ensures InShape(g, TrimAll(b, calls), x) <==>
            exists i | 0 <= i < |msgs| ::
              (TrimMessage(msgs[i], calls) != [] || Targeted(msgs, ids, i)) && x in ResultsIn(g, msgs[i])
  {
    TrimmedOthers(b, calls, g, x);
    hide TrimMessage, CallsOf, ResultsIn, Targeted, TrimAll, InShape, TakesBlocks, Uses;
    if m :| m in b && TrimMessage(m, calls) != [] && x in ResultsIn(g, m) {
      var i :| 0 <= i < |b| && b[i] == m;
      assert i < |msgs| ==> SameButBlocks(msgs[i], b[i]);
      assert i >= |msgs| ==> OnlyBlocks(b[i]);
    }
    if i :| 0 <= i < |msgs| && (TrimMessage(msgs[i], calls) != [] || Targeted(msgs, ids, i)) && x in ResultsIn(g, msgs[i]) {
      assert SameButBlocks(msgs[i], b[i]) && b[i] in b;
    }
  }

  // ---- the loops together ----

  /** What the two loops make of a transcript whose arguments are in order. */
  function Looped(msgs: seq<Json>): seq<Json> {
    var f, calls := DetectFormat(msgs), CallOrder(msgs);
    if calls == [] && Flat(ResultsOf, msgs) == [] then msgs
    else Pruned(f, Answered(f, msgs, Unanswered(calls, msgs)), calls)
  }

  lemma LoopedCalls(msgs: seq<Json>, x: string)
    ensures IsCall(Looped(msgs), x) <==> CallAfter(msgs, x)
  {
    var f, calls := DetectFormat(msgs), CallOrder(msgs);
    var ids := Unanswered(calls, msgs);
    hide DetectFormat, CallsOf, ResultsOf, Unanswered, TrimMessage, TrimAll, AddBlocks, Orphan, Targeted, DropOrphans,
         InsertResults, AddOutputs;
    if calls == [] && Flat(ResultsOf, msgs) == [] {
      FlatAt(CallsOf, msgs, x);
    } else if f.Anthropic? {
      BlocksGrow(msgs, ids, calls);
      TrimmedCallsAt(msgs, AddBlocks(msgs, ids), ids, calls, x);
    } else {
      KeptCalls(f, msgs, ids, calls, x);
      hide Answered;
    }
  }

  lemma FlatAt(f: Json -> seq<string>, msgs: seq<Json>, x: string)
    ensures x in Flat(f, msgs) <==> exists i | 0 <= i < |msgs| :: x in f(msgs[i])
  {
    FlatIn(f, msgs, x);
  }

  lemma ShapeAt(g: Format, msgs: seq<Json>, x: string)
    ensures InShape(g, msgs, x) <==> exists i | 0 <= i < |msgs| :: x in ResultsIn(g, msgs[i])
  {
    ShapeIn(g, msgs, x);
    hide ResultsIn, InShape;
  }

  lemma LoopedResults(msgs: seq<Json>, g: Format, x: string)
    ensures InShape(g, Looped(msgs), x) <==> ResultAfter(msgs, g, x)
  {
    var f, calls := DetectFormat(msgs), CallOrder(msgs);
    var ids := Unanswered(calls, msgs);
    ShapeIsResult(g, msgs, x);
    hide DetectFormat, CallsOf, ResultsOf, ResultsIn, Unanswered, TrimMessage, TrimAll, AddBlocks, Orphan, Targeted,
         DropOrphans, InsertResults, AddOutputs, InShape, IsResult;
    if calls == [] && Flat(ResultsOf, msgs) == [] {
      ShapeAt(g, msgs, x);
      Nothing(msgs, g, x);
      assert x !in calls;
    } else if f.Anthropic? {
      if g == f {
        AnsweredAdds(f, msgs, ids, calls);
        TrimmedOwn(AddBlocks(msgs, ids), calls, x);
      } else {
        BlocksGrow(msgs, ids, calls);
        TrimmedOthersAt(msgs, AddBlocks(msgs, ids), ids, calls, g, x);
      }
    } else {
      KeptResults(f, msgs, ids, calls, g, x);
      OwnResults(f, msgs, calls, x);
      hide Answered;
    }
  }

  // ---- sanitizing first ----

  lemma {:induction false} SanitizedAt(msgs: seq<Json>, parses: string -> bool, i: nat)
    requires i < |msgs|
    ensures Sanitize(msgs, parses)[i] == SanitizeMessage(msgs[i], parses)
  {
    hide SanitizeMessage;
    if i > 0 {
      SanitizedAt(msgs[1..], parses, i - 1);
    }
  }

  lemma SanitizeSame(m: Json, parses: string -> bool, calls: seq<string>)
    ensures var n := SanitizeMessage(m, parses);
            && SameButBlocks(m, n) && (TrimMessage(n, calls) == [] <==> TrimMessage(m, calls) == [])
            && (forall g :: ResultsIn(g, n) == ResultsIn(g, m))
  {
    var n := SanitizeMessage(m, parses);
    SanitizeAlike(m, parses);
    forall g ensures ResultsIn(g, n) == ResultsIn(g, m) {
      AlikeResults(n, m, g);
    }
    AlikeContent(n, m);
    if TakesBlocks(m) {
      assert n == m;
    }
    hide SanitizeMessage, CallsOf, ResultsIn, KeepBlocks, Uses;
  }

  lemma AlikeContent(a: Json, b: Json)
    requires Alike(a, b)
    ensures TakesBlocks(a) == TakesBlocks(b) && forall id :: Uses(a, id) == Uses(b, id)
  {
    assert ItemsAt(a, "content") == ItemsAt(b, "content");
    hide CallsOf;
  }

  lemma SanitizedRemoved(msgs: seq<Json>, parses: string -> bool, i: nat)
    requires i < |msgs|
    ensures var clean := Sanitize(msgs, parses);
            && Removed(clean, i) == Removed(msgs, i) && CallsOf(clean[i]) == CallsOf(msgs[i])
            && forall g :: ResultsIn(g, clean[i]) == ResultsIn(g, msgs[i])
  {
    var clean, calls := Sanitize(msgs, parses), CallOrder(msgs);
    SanitizeKeeps(msgs, parses);
    SameOrder(clean, msgs);
    hide *;
    forall k | 0 <= k < |msgs| ensures SameButBlocks(msgs[k], clean[k]) {
      SanitizedAt(msgs, parses, k);
      SanitizeSame(msgs[k], parses, calls);
    }
    SanitizedAt(msgs, parses, i);
    SanitizeSame(msgs[i], parses, calls);
    SameUnanswered(calls, clean, msgs);
    SameTargets(msgs, clean, Unanswered(calls, msgs), i);
    SameRemoved(clean, msgs, i);
    SameCallsOf(msgs[i], clean[i]);
  }

  lemma SameCallsOf(m: Json, n: Json)
    requires SameButBlocks(m, n)
    ensures CallsOf(n) == CallsOf(m)
  {
    hide CallsOf, ResultsIn, TakesBlocks, Uses;
  }

  /** Whether a message is removed, from what the strategies look at. */
  lemma SameRemoved(a: seq<Json>, b: seq<Json>, i: nat)
    requires |a| == |b| && i < |a| && DetectFormat(a) == DetectFormat(b) && CallOrder(a) == CallOrder(b)
    requires Flat(ResultsOf, a) == Flat(ResultsOf, b)
    requires var calls := CallOrder(b);
             && (TrimMessage(a[i], calls) == [] <==> TrimMessage(b[i], calls) == [])
             && Unanswered(calls, a) == Unanswered(calls, b)
             && Targeted(a, Unanswered(calls, b), i) == Targeted(b, Unanswered(calls, b), i)
    requires forall g :: ResultsIn(g, a[i]) == ResultsIn(g, b[i])
    ensures Removed(a, i) == Removed(b, i)
  {
    hide DetectFormat, CallOrder, Flat, TrimMessage, Unanswered, Targeted, ResultsIn, ResultsOf;
  }

  lemma RepairedLooped(msgs: seq<Json>, parses: string -> bool)
    ensures Repaired(msgs, parses).0 == Looped(Sanitize(msgs, parses))
  {
    hide Sanitize, Pruned, Answered, Unanswered, DetectFormat, CallOrder, Flat, Repaired;
    RepairedIs(msgs, parses);
  }

  lemma SanitizedAfter(msgs: seq<Json>, parses: string -> bool, g: Format, x: string)
    ensures var clean := Sanitize(msgs, parses);
            CallAfter(clean, x) == CallAfter(msgs, x) && ResultAfter(clean, g, x) == ResultAfter(msgs, g, x)
  {
    var clean := Sanitize(msgs, parses);
    SanitizeKeeps(msgs, parses);
    SanitizeKeepsShape(msgs, parses, g);
    SameCall(clean, msgs, x);
    hide *;
    SameShape(g, clean, msgs, x);
    SameResults(clean, msgs, x);
    forall i | 0 <= i < |msgs|
      ensures Removed(clean, i) == Removed(msgs, i) && CallsOf(clean[i]) == CallsOf(msgs[i])
      ensures ResultsIn(g, clean[i]) == ResultsIn(g, msgs[i])
    {
      SanitizedRemoved(msgs, parses, i);
    }
    SameAfter(clean, msgs, g, x);
  }

  lemma SameCall(a: seq<Json>, b: seq<Json>, x: string)
    requires Flat(CallsOf, a) == Flat(CallsOf, b)
    ensures IsCall(a, x) == IsCall(b, x)
  {
  }

  /** What is left depends on nothing else of the messages. */
  lemma SameAfter(a: seq<Json>, b: seq<Json>, g: Format, x: string)
    requires |a| == |b| && DetectFormat(a) == DetectFormat(b) && IsCall(a, x) == IsCall(b, x)
    requires IsResult(a, x) == IsResult(b, x) && InShape(g, a, x) == InShape(g, b, x)
    requires forall i | 0 <= i < |a| ::
               Removed(a, i) == Removed(b, i) && CallsOf(a[i]) == CallsOf(b[i]) && ResultsIn(g, a[i]) == ResultsIn(g, b[i])
    ensures CallAfter(a, x) == CallAfter(b, x) && ResultAfter(a, g, x) == ResultAfter(b, g, x)
  {
    hide Removed, DetectFormat, CallsOf, ResultsIn, InShape, IsResult, IsCall;
    forall i | 0 <= i < |a| ensures !Removed(a, i) && x in CallsOf(a[i]) <==> !Removed(b, i) && x in CallsOf(b[i]) {
    }
    forall i | 0 <= i < |a|
      ensures !Removed(a, i) && x in ResultsIn(g, a[i]) <==> !Removed(b, i) && x in ResultsIn(g, b[i])
    {
    }
  }

  // ---- the theorems ----

  /** The ids after the repair, for every transcript. */
  lemma RepairedIds(msgs: seq<Json>, parses: string -> bool, g: Format, x: string)
    ensures var r := Repaired(msgs, parses).0;
            && (IsCall(r, x) <==> CallAfter(msgs, x))
            && (InShape(g, r, x) <==> ResultAfter(msgs, g, x))
  {
    hide *;
    var clean := Sanitize(msgs, parses);
    RepairedLooped(msgs, parses);
    LoopedCalls(clean, x);
    LoopedResults(clean, g, x);
    SanitizedAfter(msgs, parses, g, x);
  }

  /** Messages that keep to one wire lose nothing. */
  lemma UnmixedLosesNothing(msgs: seq<Json>)
    requires Unmixed(msgs)
    ensures NothingLost(msgs)
  {
    hide DetectFormat, InShape, IsCall, Unmixed, Removed, CallsOf, ResultsIn;
    forall x | IsCall(msgs, x) ensures CallAfter(msgs, x) {
      CallAt(msgs, x);
      var i :| 0 <= i < |msgs| && x in CallsOf(msgs[i]);
      if Removed(msgs, i) {
        RemovedCarriesNothing(msgs, i, OpenAI);
      }
    }
    forall g, x | g != DetectFormat(msgs) && InShape(g, msgs, x) ensures ResultAfter(msgs, g, x) {
      ShapeAt(g, msgs, x);
      var i :| 0 <= i < |msgs| && x in ResultsIn(g, msgs[i]);
      if Removed(msgs, i) {
        RemovedCarriesNothing(msgs, i, g);
      }
    }
  }

  lemma CallAt(msgs: seq<Json>, x: string)
    ensures IsCall(msgs, x) <==> exists i | 0 <= i < |msgs| :: x in CallsOf(msgs[i])
  {
    hide CallsOf;
    FlatAt(CallsOf, msgs, x);
  }

  lemma RemovedCarriesNothing(msgs: seq<Json>, i: nat, g: Format)
    requires Unmixed(msgs) && i < |msgs| && Removed(msgs, i)
    ensures CallsOf(msgs[i]) == [] && (g != DetectFormat(msgs) ==> ResultsIn(g, msgs[i]) == [])
  {
    hide DetectFormat, Targeted, Unanswered, CallOrder, TrimMessage, Orphan, CallsOf, ResultsIn;
    var f, calls := DetectFormat(msgs), CallOrder(msgs);
    assert msgs[i] in msgs;
    if f.Anthropic? {
      TrimmedCarriesNothing(msgs[i], calls, g);
    } else {
      OrphanCarriesNothing(f, msgs[i], calls, g);
    }
  }

  /** One message that keeps to one wire. */
  predicate OneWire(m: Json) {
    Type(m) == "function_call" || Type(m) == "function_call_output" ==> Role(m) == ""
  }

  lemma OrphanCarriesNothing(f: Format, m: Json, calls: seq<string>, g: Format)
    requires !f.Anthropic? && Orphan(f, m, calls) && OneWire(m)
    ensures CallsOf(m) == [] && (g != f ==> ResultsIn(g, m) == [])
  {
    hide Role, Type, ItemsAt, StringField;
  }

  lemma TrimmedCarriesNothing(m: Json, calls: seq<string>, g: Format)
    requires TrimMessage(m, calls) == [] && OneWire(m)
    ensures CallsOf(m) == [] && (g != Anthropic ==> ResultsIn(g, m) == [])
  {
    hide KeepBlocks, Type, ItemsAt, StringField;
    assert TakesBlocks(m);
  }

  /** For every transcript the repair closes the pairing exactly when the calls and the results it leaves are the
      same ids. Where nothing is lost the calls are the calls of the input, and it closes exactly when every
      result in a shape it does not look at already has a call. */
  lemma RepairCloses(msgs: seq<Json>, parses: string -> bool)
    ensures Paired(Repaired(msgs, parses).0) <==> forall x :: CallAfter(msgs, x) <==> exists g :: ResultAfter(msgs, g, x)
    ensures NothingLost(msgs) ==>
              && (forall x :: IsCall(Repaired(msgs, parses).0, x) <==> IsCall(msgs, x))
              && (Paired(Repaired(msgs, parses).0) <==> NoForeignOrphan(msgs))
  {
    var r := Repaired(msgs, parses).0;
    hide InShape, IsCall, IsResult, Repaired, DetectFormat, CallAfter, ResultAfter;
    IdsAfter(msgs, parses);
    SomeShape(r);
    if NothingLost(msgs) {
      AfterNothingLost(msgs);
      SomeShape(msgs);
      ClosesWhenNothingLost(msgs);
    }
  }

  lemma SomeShape(msgs: seq<Json>)
    ensures forall x :: IsResult(msgs, x) <==> exists g :: InShape(g, msgs, x)
  {
    hide InShape, IsResult;
    forall x ensures IsResult(msgs, x) <==> exists g :: InShape(g, msgs, x) {
      ResultShapes(msgs, x);
      if g :| InShape(g, msgs, x) {
        assert g == OpenAI || g == Anthropic || g == Responses;
      }
    }
  }

  lemma IdsAfter(msgs: seq<Json>, parses: string -> bool)
    ensures var r := Repaired(msgs, parses).0;
            && (forall x :: IsCall(r, x) <==> CallAfter(msgs, x))
            && (forall g, x :: InShape(g, r, x) <==> ResultAfter(msgs, g, x))
  {
    hide *;
    forall g, x
      ensures IsCall(Repaired(msgs, parses).0, x) <==> CallAfter(msgs, x)
      ensures InShape(g, Repaired(msgs, parses).0, x) <==> ResultAfter(msgs, g, x)
    {
      RepairedIds(msgs, parses, g, x);
    }
    forall x ensures IsCall(Repaired(msgs, parses).0, x) <==> CallAfter(msgs, x) {
      RepairedIds(msgs, parses, OpenAI, x);
    }
  }

  lemma AfterIsBefore(msgs: seq<Json>, g: Format, x: string)
    ensures CallAfter(msgs, x) ==> IsCall(msgs, x)
    ensures g != DetectFormat(msgs) && ResultAfter(msgs, g, x) ==> InShape(g, msgs, x)
  {
    CallAt(msgs, x);
    ShapeAt(g, msgs, x);
    hide Removed, IsCall, InShape, CallsOf, ResultsIn, DetectFormat;
  }

  lemma AfterNothingLost(msgs: seq<Json>)
    requires NothingLost(msgs)
    ensures forall x :: CallAfter(msgs, x) <==> IsCall(msgs, x)
    ensures forall g, x :: g != DetectFormat(msgs) ==> (ResultAfter(msgs, g, x) <==> InShape(g, msgs, x))
  {
    hide CallAfter, ResultAfter, IsCall, InShape, DetectFormat;
    forall x ensures CallAfter(msgs, x) ==> IsCall(msgs, x) {
      AfterIsBefore(msgs, OpenAI, x);
    }
    forall g, x | g != DetectFormat(msgs) ensures ResultAfter(msgs, g, x) ==> InShape(g, msgs, x) {
      AfterIsBefore(msgs, g, x);
    }
  }

  lemma OwnAfter(msgs: seq<Json>, x: string)
    ensures ResultAfter(msgs, DetectFormat(msgs), x) <==>
            IsCall(msgs, x) && (InShape(DetectFormat(msgs), msgs, x) || !IsResult(msgs, x))
  {
    hide IsCall, InShape, DetectFormat, IsResult;
  }

  lemma ClosesWhenNothingLost(msgs: seq<Json>)
    requires forall x :: CallAfter(msgs, x) <==> IsCall(msgs, x)
    requires forall g, x :: g != DetectFormat(msgs) ==> (ResultAfter(msgs, g, x) <==> InShape(g, msgs, x))
    requires forall x :: IsResult(msgs, x) <==> exists g :: InShape(g, msgs, x)
    ensures (forall x :: CallAfter(msgs, x) <==> exists g :: ResultAfter(msgs, g, x)) <==> NoForeignOrphan(msgs)
    ensures forall x :: IsCall(msgs, x) ==> exists g :: ResultAfter(msgs, g, x)
  {
    hide CallAfter, ResultAfter, IsCall, InShape, DetectFormat, IsResult;
    forall x
      ensures ResultAfter(msgs, DetectFormat(msgs), x) <==>
              IsCall(msgs, x) && (InShape(DetectFormat(msgs), msgs, x) || !IsResult(msgs, x))
    {
      OwnAfter(msgs, x);
    }
    forall x | IsCall(msgs, x) ensures exists g :: ResultAfter(msgs, g, x) {
      if IsResult(msgs, x) {
        var g :| InShape(g, msgs, x);
        assert ResultAfter(msgs, g, x);
      } else {
        assert ResultAfter(msgs, DetectFormat(msgs), x);
      }
    }
    if NoForeignOrphan(msgs) {
      forall g, x | ResultAfter(msgs, g, x) ensures IsCall(msgs, x) {
      }
    }
    if g, x :| g != DetectFormat(msgs) && InShape(g, msgs, x) && !IsCall(msgs, x) {
      assert ResultAfter(msgs, g, x);
    }
  }

  /** When a second run has nothing to do, for every transcript: the calls left are answered, and in the shape the
      second run detects every result left has a call. Where nothing is lost, exactly when it detects the shape
      the first run detected, or its shape had no orphan to begin with. */
  lemma SecondRunCounts(msgs: seq<Json>, parses: string -> bool)
    ensures Repaired(Repaired(msgs, parses).0, parses).1 == 0 <==>
              && (forall x :: CallAfter(msgs, x) ==> exists g :: ResultAfter(msgs, g, x))
              && (forall x :: ResultAfter(msgs, SecondFormat(msgs), x) ==> CallAfter(msgs, x))
    ensures NothingLost(msgs) ==>
              (Repaired(Repaired(msgs, parses).0, parses).1 == 0 <==>
                SecondFormat(msgs) == DetectFormat(msgs)
                || forall x :: InShape(SecondFormat(msgs), msgs, x) ==> IsCall(msgs, x))
  {
    var r := Repaired(msgs, parses).0;
    hide InShape, IsCall, IsResult, Repaired, DetectFormat, CallAfter, ResultAfter, SecondFormat;
    SecondShape(msgs, parses);
    CountZero(r, parses);
    IdsAfter(msgs, parses);
    SomeShape(r);
    if NothingLost(msgs) {
      AfterNothingLost(msgs);
      SomeShape(msgs);
      ClosesWhenNothingLost(msgs);
      OwnHaveCalls(msgs);
    }
  }

  lemma OwnHaveCalls(msgs: seq<Json>)
    ensures forall x :: ResultAfter(msgs, DetectFormat(msgs), x) ==> IsCall(msgs, x)
  {
    forall x | ResultAfter(msgs, DetectFormat(msgs), x) ensures IsCall(msgs, x) {
      OwnAfter(msgs, x);
    }
    hide IsCall, ResultAfter, DetectFormat;
  }

  /** Repair is idempotent wherever it closes the pairing. */
  lemma RepairIdempotent(msgs: seq<Json>, parses: string -> bool)
    requires Paired(Repaired(msgs, parses).0)
    ensures Repaired(Repaired(msgs, parses).0, parses).1 == 0
  {
    PairedNeedsNothing(Repaired(msgs, parses).0, parses);
  }

  /** A user message with one result block and no call anywhere: the default shape is OpenAI, whose
      strategy keeps the block. */
  lemma ResultsWithoutUseStay(id: string, parses: string -> bool)
    ensures var msgs := [UserMessage(id)];
            && Unmixed(msgs) && Repaired(msgs, parses) == (msgs, 0)
            && IsResult(msgs, id) && !IsCall(msgs, id) && !NoForeignOrphan(msgs)
  {
    var m := UserMessage(id);
    UserMessageFacts(id);
    hide UserMessage, ResultsIn, CallsOf;
    assert [m][1..] == [];
    OneShape(OpenAI, m);
    OneShape(Anthropic, m);
    assert SanitizeMessage(m, parses) == m;
    assert Sanitize([m], parses) == [m];
    assert DetectFormat([m]) == OpenAI;
    ResultShapes([m], id);
    assert CallOrder([m]) == [];
    assert Unanswered([], [m]) == [];
    assert Answered(OpenAI, [m], []) == [m];
    assert !Orphan(OpenAI, m, []);
    assert DropOrphans(OpenAI, [m], []) == [m] + DropOrphans(OpenAI, [], []);
    assert InShape(Anthropic, [m], id);
  }
}
