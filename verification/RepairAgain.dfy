/** Running the repair a second time. Which shape the second run detects can be read off the input: the first
    run may have removed the message that told the shape, and may have added messages that tell another. */
module RepairAgain {
  import opened Basics
  import opened JsonTree
  import opened Repair
  import opened RepairProofs

  /** The shape one message tells, if any. */
  function Tells(m: Json): Option<Format> {
    if Type(m) == "function_call" || Type(m) == "function_call_output" then Some(Responses)
    else if HasUse(m) then Some(Anthropic)
    else if Role(m) == "tool" then Some(OpenAI)
    else None
  }

  predicate IssuesAny(m: Json, ids: seq<string>) {
    exists id <- ids :: Issues(m, id)
  }

  /** The shape detected after the OpenAI or the Responses strategy has run. Orphans are gone; a message telling a
      shape settles it. Under OpenAI the first issuer of an unanswered call is followed, behind the tool messages
      that come next, by a synthetic tool message: `due` says that one is still to come. Under Responses the
      synthetic outputs stand at the end. */
  function Walk(f: Format, msgs: seq<Json>, ids: seq<string>, calls: seq<string>, due: bool): Format
    requires !f.Anthropic?
  {
    if msgs == [] then if f.Responses? && ids != [] then Responses else OpenAI
    else if due && Role(msgs[0]) != "tool" then OpenAI
    else if Orphan(f, msgs[0], calls) then Walk(f, msgs[1..], ids, calls, due)
    else
      match Tells(msgs[0])
      case Some(g) => g
      case None => Walk(f, msgs[1..], ids, calls, f.OpenAI? && IssuesAny(msgs[0], ids))
  }

  /** The shape a second run detects, from the input of the first. */
  function SecondFormat(msgs: seq<Json>): Format {
    var f, calls := DetectFormat(msgs), CallOrder(msgs);
    if f.Anthropic? then Anthropic else Walk(f, msgs, Unanswered(calls, msgs), calls, false)
  }

  lemma DetectStep(msgs: seq<Json>)
    requires msgs != []
    ensures DetectFormat(msgs) == if Tells(msgs[0]).Some? then Tells(msgs[0]).value else DetectFormat(msgs[1..])
  {
    hide Type, HasUse, Role;
  }

  // ---- nothing to add ----

  /** With no call unanswered the walk is the detection over what the second loop keeps. */
  lemma {:induction false} WalkIsDetect(f: Format, msgs: seq<Json>, calls: seq<string>)
    requires !f.Anthropic?
    ensures Walk(f, msgs, [], calls, false) == DetectFormat(DropOrphans(f, msgs, calls))
  {
    hide Tells, Orphan, DetectFormat;
    if msgs == [] {
      assert DetectFormat([]) == OpenAI by { NothingTells(); }
    } else {
      WalkIsDetect(f, msgs[1..], calls);
      var rest := DropOrphans(f, msgs[1..], calls);
      if Orphan(f, msgs[0], calls) {
        assert DropOrphans(f, msgs, calls) == rest;
      } else {
        assert ([msgs[0]] + rest)[1..] == rest;
        DetectStep([msgs[0]] + rest);
      }
    }
  }

  lemma NothingTells()
    ensures DetectFormat([]) == OpenAI
  {
  }

  // ---- one synthetic result ----

  lemma ToolMessageTells(id: string, calls: seq<string>)
    requires id in calls
    ensures Tells(ToolMessage(id)) == Some(OpenAI) && !Orphan(OpenAI, ToolMessage(id), calls)
    ensures Role(ToolMessage(id)) == "tool"
  {
    ToolMessageFacts(id);
    hide ToolMessage, CallsOf, ResultsIn;
  }

  /** A synthetic message behind the run of tool messages, or one that is due: the walk sees no difference. */
  lemma {:induction false} WalkRun(rest: seq<Json>, ids: seq<string>, more: seq<string>, calls: seq<string>, due: bool, id: string)
    requires id in calls
    ensures Walk(OpenAI, InsertAt(rest, RunEnd(rest, 0), ToolMessage(id)), ids, calls, due)
            == Walk(OpenAI, rest, more, calls, true)
  {
    hide ToolMessage, Orphan, IssuesAny, Tells, Role, InsertAt;
    ToolMessageTells(id, calls);
    var there := InsertAt(rest, RunEnd(rest, 0), ToolMessage(id));
    if rest != [] && Role(rest[0]) == "tool" {
      RunEndStep(rest);
      InsertHead(rest, RunEnd(rest, 0), ToolMessage(id));
      ToolTells(rest[0]);
      WalkRun(rest[1..], ids, more, calls, due, id);
    } else {
      InsertFirst(rest, ToolMessage(id));
    }
  }

  lemma InsertFirst(msgs: seq<Json>, m: Json)
    ensures InsertAt(msgs, 0, m) == [m] + msgs
  {
  }

  lemma ToolTells(m: Json)
    requires Role(m) == "tool"
    ensures Tells(m).Some?
  {
  }

  lemma RunEndStep(msgs: seq<Json>)
    requires msgs != [] && Role(msgs[0]) == "tool"
    ensures RunEnd(msgs, 0) == 1 + RunEnd(msgs[1..], 0)
  {
    RunEndShift(msgs, 1);
  }

  lemma {:induction false} RunEndShift(msgs: seq<Json>, i: nat)
    requires 1 <= i <= |msgs|
    ensures RunEnd(msgs, i) == 1 + RunEnd(msgs[1..], i - 1)
    decreases |msgs| - i
  {
    hide Role;
    if i < |msgs| {
      assert msgs[1..][i - 1] == msgs[i];
      RunEndShift(msgs, i + 1);
    }
  }

  lemma InsertResultHead(msgs: seq<Json>, id: string)
    requires msgs != []
    ensures var t := InsertResult(msgs, id);
            && t != [] && t[0] == msgs[0]
            && t[1..] == if Issues(msgs[0], id) then InsertAt(msgs[1..], RunEnd(msgs[1..], 0), ToolMessage(id))
                         else InsertResult(msgs[1..], id)
  {
    hide *;
    var i := FirstIssuer(msgs, id);
    InsertIsInsertAt(msgs, id);
    IssuerHead(msgs, id);
    if Issues(msgs[0], id) {
      RunEndShift(msgs, 1);
      InsertHead(msgs, RunEnd(msgs, 1), ToolMessage(id));
    } else {
      InsertIsInsertAt(msgs[1..], id);
      if i < |msgs| {
        RunEndShift(msgs, i + 1);
      }
      InsertHead(msgs, if i == |msgs| then i else RunEnd(msgs, i + 1), ToolMessage(id));
    }
  }

  lemma IssuerHead(msgs: seq<Json>, id: string)
    requires msgs != []
    ensures FirstIssuer(msgs, id) == if Issues(msgs[0], id) then 0 else 1 + FirstIssuer(msgs[1..], id)
  {
    hide Issues;
  }

  lemma InsertHead(msgs: seq<Json>, p: nat, m: Json)
    requires 0 < p <= |msgs|
    ensures var t := InsertAt(msgs, p, m);
            t != [] && t[0] == msgs[0] && t[1..] == InsertAt(msgs[1..], p - 1, m)
  {
    assert msgs[1..][..p - 1] == msgs[1..p] && msgs[1..][p - 1..] == msgs[p..];
  }

  /** Walking a transcript into which one result was inserted is walking it with that id unanswered. */
  lemma {:induction false} WalkInserted(msgs: seq<Json>, id: string, ids: seq<string>, calls: seq<string>, due: bool)
    requires id in calls
    ensures Walk(OpenAI, InsertResult(msgs, id), ids, calls, due) == Walk(OpenAI, msgs, [id] + ids, calls, due)
  {
    hide ToolMessage, Orphan, Issues;
    if msgs == [] {
      ToolMessageTells(id, calls);
      assert InsertResult(msgs, id) == [ToolMessage(id)];
    } else {
      InsertResultHead(msgs, id);
      hide InsertResult, Tells;
      AnyOfMore(msgs[0], id, ids);
      if Issues(msgs[0], id) {
        IssuerStays(msgs[0], id, calls);
        WalkRun(msgs[1..], ids, [id] + ids, calls, IssuesAny(msgs[0], ids), id);
      } else {
        WalkInserted(msgs[1..], id, ids, calls, due);
        WalkInserted(msgs[1..], id, ids, calls, IssuesAny(msgs[0], ids));
      }
    }
  }

  lemma IssuerStays(m: Json, id: string, calls: seq<string>)
    requires Issues(m, id)
    ensures !Orphan(OpenAI, m, calls) && Role(m) != "tool"
  {
  }

  lemma AnyOfMore(m: Json, id: string, ids: seq<string>)
    ensures IssuesAny(m, [id] + ids) == (Issues(m, id) || IssuesAny(m, ids))
  {
    hide Issues;
    if Issues(m, id) {
      assert id in [id] + ids;
    }
    if IssuesAny(m, ids) {
      var x :| x in ids && Issues(m, x);
      assert x in [id] + ids;
    }
  }

  /** Likewise for an output item put at the end. */
  lemma {:induction false} WalkAppended(msgs: seq<Json>, id: string, ids: seq<string>, calls: seq<string>)
    requires id in calls
    ensures Walk(Responses, msgs + [OutputItem(id)], ids, calls, false) == Walk(Responses, msgs, [id] + ids, calls, false)
  {
    OutputItemFacts(id);
    hide OutputItem, CallsOf, ResultsIn, HasUse, IssuesAny;
    var there := msgs + [OutputItem(id)];
    if msgs == [] {
      assert there == [OutputItem(id)];
    } else {
      assert there[0] == msgs[0] && there[1..] == msgs[1..] + [OutputItem(id)];
      hide Orphan, Tells;
      WalkAppended(msgs[1..], id, ids, calls);
    }
  }

  /** The first loop and then the second, and the shape detected after both. */
  lemma {:induction false} WalkAnswered(f: Format, msgs: seq<Json>, ids: seq<string>, calls: seq<string>)
    requires !f.Anthropic? && forall x <- ids :: x in calls
    ensures DetectFormat(DropOrphans(f, Answered(f, msgs, ids), calls)) == Walk(f, msgs, ids, calls, false)
    decreases |ids|
  {
    hide DetectFormat, DropOrphans, Walk, AnswerOne, InsertResults, AddOutputs;
    if ids == [] {
      WalkIsDetect(f, msgs, calls);
      AnsweredNone(f, msgs);
    } else {
      hide Answered;
      var next := AnswerOne(f, msgs, ids[0]);
      assert ids[0] in ids && forall x | x in ids[1..] :: x in ids;
      AnsweredStep(f, msgs, ids);
      WalkAnswered(f, next, ids[1..], calls);
      WalkOne(f, msgs, ids[0], ids[1..], calls);
      assert [ids[0]] + ids[1..] == ids;
    }
  }

  lemma AnsweredNone(f: Format, msgs: seq<Json>)
    ensures Answered(f, msgs, []) == msgs
  {
  }

  lemma WalkOne(f: Format, msgs: seq<Json>, id: string, ids: seq<string>, calls: seq<string>)
    requires !f.Anthropic? && id in calls
    ensures Walk(f, AnswerOne(f, msgs, id), ids, calls, false) == Walk(f, msgs, [id] + ids, calls, false)
  {
    hide Walk, InsertResult, OutputItem;
    if f.OpenAI? {
      WalkInserted(msgs, id, ids, calls, false);
    } else {
      WalkAppended(msgs, id, ids, calls);
    }
  }

  // ---- Anthropic stays Anthropic ----

  lemma {:induction false} DetectSame(a: seq<Json>, b: seq<Json>)
    requires |a| == |b| && forall i | 0 <= i < |a| :: Tells(a[i]) == Tells(b[i])
    ensures DetectFormat(a) == DetectFormat(b)
  {
    if a != [] {
      DetectStep(a);
      DetectStep(b);
      hide Tells, DetectFormat;
      assert forall i | 0 <= i < |a[1..]| :: a[1..][i] == a[i + 1] && b[1..][i] == b[i + 1];
      DetectSame(a[1..], b[1..]);
    }
  }

  lemma {:induction false} DetectMore(msgs: seq<Json>, m: Json)
    requires DetectFormat(msgs) == Anthropic
    ensures DetectFormat(msgs + [m]) == Anthropic
  {
    if msgs != [] {
      assert (msgs + [m])[0] == msgs[0] && (msgs + [m])[1..] == msgs[1..] + [m];
      DetectStep(msgs);
      DetectStep(msgs + [m]);
      hide Tells, DetectFormat;
      if Tells(msgs[0]).None? {
        DetectMore(msgs[1..], m);
      }
    }
  }

  lemma UserTells(m: Json, n: Json)
    requires Role(m) == "user" && Role(n) == "user" && Type(n) == Type(m)
    ensures Tells(n) == Tells(m)
  {
  }

  lemma BlockKeepsFormat(msgs: seq<Json>, id: string)
    requires DetectFormat(msgs) == Anthropic
    ensures DetectFormat(AddBlock(msgs, id)) == Anthropic
  {
    hide DetectFormat, UserMessage, ResultBlock, AppendBlock, Tells;
    var i := TargetUser(msgs, id, false);
    if i == |msgs| {
      DetectMore(msgs, UserMessage(id));
    } else {
      AppendBlockFacts(msgs[i], id);
      hide CallsOf, ResultsIn;
      UserTells(msgs[i], AppendBlock(msgs[i], ResultBlock(id)));
      DetectSame(msgs, AddBlock(msgs, id));
    }
  }

  lemma {:induction false} BlocksKeepFormat(msgs: seq<Json>, ids: seq<string>)
    requires DetectFormat(msgs) == Anthropic
    ensures DetectFormat(AddBlocks(msgs, ids)) == Anthropic
    decreases |ids|
  {
    hide DetectFormat, AddBlock;
    if ids != [] {
      BlockKeepsFormat(msgs, ids[0]);
      BlocksKeepFormat(AddBlock(msgs, ids[0]), ids[1..]);
    }
  }

  lemma TrimTells(m: Json, calls: seq<string>)
    ensures Tells(m) == Some(Anthropic) ==> TrimMessage(m, calls) == [m]
    ensures var r := TrimMessage(m, calls); |r| <= 1 && (r != [] ==> Tells(r[0]) == Tells(m))
  {
    if TakesBlocks(m) {
      var kept := KeepBlocks(ItemsAt(m, "content"), calls);
      ContentSet(m, kept);
      hide CallsOf, ResultsIn, KeepBlocks;
      UserTells(m, Set(m, "content", Array(kept)));
    }
  }

  lemma {:induction false} TrimKeepsFormat(msgs: seq<Json>, calls: seq<string>)
    requires DetectFormat(msgs) == Anthropic
    ensures DetectFormat(TrimAll(msgs, calls)) == Anthropic
  {
    if msgs != [] {
      var rest := TrimAll(msgs[1..], calls);
      var r := TrimMessage(msgs[0], calls);
      DetectStep(msgs);
      TrimTells(msgs[0], calls);
      hide Tells, DetectFormat, TrimMessage;
      if Tells(msgs[0]).None? {
        TrimKeepsFormat(msgs[1..], calls);
      }
      if r == [] {
        assert [] + rest == rest;
      } else {
        assert (r + rest)[0] == r[0] && (r + rest)[1..] == rest;
        DetectStep(r + rest);
      }
    }
  }

  // ---- sanitizing is invisible here too ----

  lemma {:induction false} SanitizedIssues(tcs: seq<Json>, parses: string -> bool, id: string)
    ensures (exists tc <- SanitizeCalls(tcs, parses) :: GetString(tc, "id") == id)
            <==> (exists tc <- tcs :: GetString(tc, "id") == id)
  {
    if tcs != [] {
      SanitizeCallKeepsId(tcs[0], parses);
      hide GetString, SanitizeCall;
      SanitizedIssues(tcs[1..], parses, id);
      var r := SanitizeCalls(tcs, parses);
      assert r == [r[0]] + SanitizeCalls(tcs[1..], parses) && tcs == [tcs[0]] + tcs[1..];
      assert r[0] in r && tcs[0] in tcs;
    }
  }

  lemma SanitizeKeepsIssues(m: Json, parses: string -> bool, id: string)
    ensures Issues(SanitizeMessage(m, parses), id) == Issues(m, id)
  {
    SanitizeAlike(m, parses);
    if Role(m) == "assistant" && GetItems(m, "tool_calls").Some? {
      var tcs := GetItems(m, "tool_calls").value;
      var v := Array(SanitizeCalls(tcs, parses));
      GetAfterSet(m, "tool_calls", v, "tool_calls");
      SanitizedIssues(tcs, parses, id);
      assert ItemsAt(SanitizeMessage(m, parses), "tool_calls") == SanitizeCalls(tcs, parses);
    }
  }

  lemma SanitizeKeepsWalk(m: Json, parses: string -> bool, f: Format, ids: seq<string>, calls: seq<string>)
    requires !f.Anthropic?
    ensures var n := SanitizeMessage(m, parses);
            && Role(n) == Role(m) && Tells(n) == Tells(m) && Orphan(f, n, calls) == Orphan(f, m, calls)
            && IssuesAny(n, ids) == IssuesAny(m, ids)
  {
    var n := SanitizeMessage(m, parses);
    forall id ensures Issues(n, id) == Issues(m, id) {
      SanitizeKeepsIssues(m, parses, id);
    }
    SanitizeAlike(m, parses);
    AlikeResults(n, m, f);
    AlikeUse(n, m);
    hide SanitizeMessage, Issues, ResultsIn, HasUse, CallsOf;
  }

  lemma {:induction false} SanitizedWalk(msgs: seq<Json>, parses: string -> bool, f: Format, ids: seq<string>,
                                         calls: seq<string>, due: bool)
    requires !f.Anthropic?
    ensures Walk(f, Sanitize(msgs, parses), ids, calls, due) == Walk(f, msgs, ids, calls, due)
  {
    if msgs != [] {
      var clean := Sanitize(msgs, parses);
      SanitizeKeepsWalk(msgs[0], parses, f, ids, calls);
      hide SanitizeMessage, Tells, Orphan, IssuesAny, Role;
      assert clean[0] == SanitizeMessage(msgs[0], parses) && clean[1..] == Sanitize(msgs[1..], parses);
      SanitizedWalk(msgs[1..], parses, f, ids, calls, due);
      SanitizedWalk(msgs[1..], parses, f, ids, calls, f.OpenAI? && IssuesAny(msgs[0], ids));
    }
  }

  lemma {:induction false} SameUnanswered(order: seq<string>, a: seq<Json>, b: seq<Json>)
    requires Flat(ResultsOf, a) == Flat(ResultsOf, b)
    ensures Unanswered(order, a) == Unanswered(order, b)
  {
    if order != [] {
      SameUnanswered(order[1..], a, b);
    }
  }

  // ---- the shape of the second run ----

  lemma {:induction false} NothingToDrop(f: Format, msgs: seq<Json>, calls: seq<string>)
    requires !f.Anthropic? && Flat(ResultsOf, msgs) == []
    ensures DropOrphans(f, msgs, calls) == msgs
  {
    if msgs != [] {
      NoResults(msgs);
      hide ResultsIn;
      NothingToDrop(f, msgs[1..], calls);
    }
  }

  lemma NoResults(msgs: seq<Json>)
    requires msgs != [] && Flat(ResultsOf, msgs) == []
    ensures Flat(ResultsOf, msgs[1..]) == [] && forall f :: ResultsIn(f, msgs[0]) == []
  {
    var m := msgs[0];
    assert Flat(ResultsOf, msgs) == ResultsOf(m) + Flat(ResultsOf, msgs[1..]);
    assert ResultsOf(m) == [];
    hide ResultsIn;
    assert ResultsIn(OpenAI, m) == [] && ResultsIn(Anthropic, m) == [] && ResultsIn(Responses, m) == [];
    forall f: Format ensures ResultsIn(f, m) == [] {
      match f
      case OpenAI =>
      case Anthropic =>
      case Responses =>
    }
  }

  /** What a second run detects, for every transcript. */
  lemma SecondShape(msgs: seq<Json>, parses: string -> bool)
    ensures DetectFormat(Repaired(msgs, parses).0) == SecondFormat(msgs)
  {
    var clean := Sanitize(msgs, parses);
    SanitizeKeeps(msgs, parses);
    var calls, f := CallOrder(msgs), DetectFormat(msgs);
    var missing := Unanswered(calls, msgs);
    SameOrder(clean, msgs);
    hide *;
    SameUnanswered(calls, clean, msgs);
    RepairedIs(msgs, parses);
    SecondIs(msgs);
    if f.Anthropic? {
      BlocksKeepFormat(clean, missing);
      TrimKeepsFormat(AddBlocks(clean, missing), calls);
      AnthropicIs(clean, missing, calls);
    } else {
      SanitizedWalk(msgs, parses, f, missing, calls, false);
      WalkAnswered(f, clean, missing, calls);
      PrunedIs(f, Answered(f, clean, missing), calls);
      if Flat(ResultsOf, clean) == [] && calls == [] {
        NothingToDrop(f, clean, calls);
        WalkIsDetect(f, clean, calls);
        NobodyMissing(clean);
      }
    }
  }

  lemma SameOrder(a: seq<Json>, b: seq<Json>)
    requires Flat(CallsOf, a) == Flat(CallsOf, b)
    ensures CallOrder(a) == CallOrder(b)
  {
    hide Flat, Dedup;
  }

  lemma SecondIs(msgs: seq<Json>)
    ensures var f, calls := DetectFormat(msgs), CallOrder(msgs);
            && SecondFormat(msgs) == (if f.Anthropic? then Anthropic else Walk(f, msgs, Unanswered(calls, msgs), calls, false))
            && forall x <- Unanswered(calls, msgs) :: x in calls
  {
    hide Walk, DetectFormat, CallOrder, IsResult;
  }

  lemma RepairedIs(msgs: seq<Json>, parses: string -> bool)
    ensures var clean := Sanitize(msgs, parses);
            var f, calls := DetectFormat(clean), CallOrder(clean);
            Repaired(msgs, parses).0 == if calls == [] && Flat(ResultsOf, clean) == [] then clean
                                        else Pruned(f, Answered(f, clean, Unanswered(calls, clean)), calls)
  {
    hide Sanitize, Pruned, Answered, Unanswered, DetectFormat, CallOrder, Flat, Orphans, ShapeResults;
  }

  lemma AnthropicIs(msgs: seq<Json>, ids: seq<string>, calls: seq<string>)
    ensures Pruned(Anthropic, Answered(Anthropic, msgs, ids), calls) == TrimAll(AddBlocks(msgs, ids), calls)
  {
    hide TrimAll, AddBlocks;
  }

  lemma PrunedIs(f: Format, msgs: seq<Json>, calls: seq<string>)
    requires !f.Anthropic?
    ensures Pruned(f, msgs, calls) == DropOrphans(f, msgs, calls)
  {
    hide DropOrphans;
  }

  lemma NobodyMissing(msgs: seq<Json>)
    ensures Unanswered([], msgs) == []
  {
  }
}
