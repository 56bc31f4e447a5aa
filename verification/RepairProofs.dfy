/** What the two loops of each repair strategy do to the ids a transcript carries: the first adds results, the
    second removes them; and when the count of repairs is zero. */
module RepairProofs {
  import opened Basics
  import opened JsonTree
  import opened Repair

  // ---- membership ----

  predicate InShape(f: Format, msgs: seq<Json>, x: string) {
    x in ShapeResults(f, msgs)
  }

  lemma {:induction false} ShapeIn(f: Format, msgs: seq<Json>, x: string)
    ensures InShape(f, msgs, x) <==> exists m :: m in msgs && x in ResultsIn(f, m)
  {
    if msgs != [] {
      ShapeIn(f, msgs[1..], x);
      assert msgs == [msgs[0]] + msgs[1..];
    }
  }

  lemma {:induction false} ShapeJoin(f: Format, a: seq<Json>, b: seq<Json>)
    ensures ShapeResults(f, a + b) == ShapeResults(f, a) + ShapeResults(f, b)
  {
    if a == [] {
      assert a + b == b;
    } else {
      assert (a + b)[1..] == a[1..] + b;
      ShapeJoin(f, a[1..], b);
    }
  }

  /** A result is a result in one of the three shapes. */
  lemma ResultShapes(msgs: seq<Json>, x: string)
    ensures IsResult(msgs, x) <==>
              InShape(OpenAI, msgs, x) || InShape(Anthropic, msgs, x) || InShape(Responses, msgs, x)
  {
    FlatIn(ResultsOf, msgs, x);
    ShapeIn(OpenAI, msgs, x);
    ShapeIn(Anthropic, msgs, x);
    ShapeIn(Responses, msgs, x);
  }

  // ---- sanitizing changes nothing that pairing looks at ----

  /** Two messages that repair cannot tell apart. */
  ghost predicate Alike(a: Json, b: Json) {
    && Role(a) == Role(b) && Type(a) == Type(b) && CallsOf(a) == CallsOf(b)
    && GetItems(a, "content") == GetItems(b, "content")
    && StringField(a, "tool_call_id") == StringField(b, "tool_call_id")
    && StringField(a, "call_id") == StringField(b, "call_id")
  }

  lemma SanitizeCallKeepsId(tc: Json, parses: string -> bool)
    ensures CallId(SanitizeCall(tc, parses)) == CallId(tc)
    ensures GetString(SanitizeCall(tc, parses), "id") == GetString(tc, "id")
  {
    if Get(tc, "function").Some? {
      var fn := Get(tc, "function").value;
      GetAfterSet(tc, "function", Set(Delete(fn, "arguments"), "arguments", String("{}")), "id");
    }
  }

  lemma {:induction false} SanitizeCallsKeepIds(tcs: seq<Json>, parses: string -> bool)
    ensures Flat(CallId, SanitizeCalls(tcs, parses)) == Flat(CallId, tcs)
  {
    if tcs != [] {
      SanitizeCallKeepsId(tcs[0], parses);
      SanitizeCallsKeepIds(tcs[1..], parses);
    }
  }

  lemma SetKeepsOthers(m: Json, key: string, v: Json, other: string)
    requires m.Object? && other != key
    ensures Get(Set(m, key, v), other) == Get(m, other)
    ensures GetString(Set(m, key, v), other) == GetString(m, other)
    ensures StringField(Set(m, key, v), other) == StringField(m, other)
    ensures GetItems(Set(m, key, v), other) == GetItems(m, other)
  {
    GetAfterSet(m, key, v, other);
  }

  lemma SanitizeAlike(m: Json, parses: string -> bool)
    ensures Alike(SanitizeMessage(m, parses), m)
  {
    if Role(m) == "assistant" && GetItems(m, "tool_calls").Some? {
      var tcs := GetItems(m, "tool_calls").value;
      var v := Array(SanitizeCalls(tcs, parses));
      SanitizeCallsKeepIds(tcs, parses);
      GetAfterSet(m, "tool_calls", v, "tool_calls");
      SetKeepsOthers(m, "tool_calls", v, "role");
      SetKeepsOthers(m, "tool_calls", v, "type");
      SetKeepsOthers(m, "tool_calls", v, "content");
      SetKeepsOthers(m, "tool_calls", v, "tool_call_id");
      SetKeepsOthers(m, "tool_calls", v, "call_id");
      assert ItemsAt(SanitizeMessage(m, parses), "tool_calls") == SanitizeCalls(tcs, parses);
    }
  }

  lemma AlikeResults(a: Json, b: Json, f: Format)
    requires Alike(a, b)
    ensures ResultsIn(f, a) == ResultsIn(f, b)
  {
    assert ItemsAt(a, "content") == ItemsAt(b, "content");
  }

  lemma AlikeUse(a: Json, b: Json)
    requires Alike(a, b)
    ensures HasUse(a) == HasUse(b)
  {
    assert ItemsAt(a, "content") == ItemsAt(b, "content");
  }

  lemma {:induction false} SanitizeKeepsShape(msgs: seq<Json>, parses: string -> bool, f: Format)
    ensures ShapeResults(f, Sanitize(msgs, parses)) == ShapeResults(f, msgs)
  {
    hide SanitizeMessage, ResultsIn, Alike;
    if msgs != [] {
      SanitizeAlike(msgs[0], parses);
      AlikeResults(SanitizeMessage(msgs[0], parses), msgs[0], f);
      SanitizeKeepsShape(msgs[1..], parses, f);
    }
  }

  lemma {:induction false} SanitizeKeeps(msgs: seq<Json>, parses: string -> bool)
    ensures var clean := Sanitize(msgs, parses);
            && Flat(CallsOf, clean) == Flat(CallsOf, msgs)
            && Flat(ResultsOf, clean) == Flat(ResultsOf, msgs)
            && DetectFormat(clean) == DetectFormat(msgs)
  {
    hide SanitizeMessage, ResultsIn, HasUse, CallsOf;
    if msgs != [] {
      var clean := Sanitize(msgs, parses);
      SanitizeAlike(msgs[0], parses);
      AlikeResults(clean[0], msgs[0], OpenAI);
      AlikeResults(clean[0], msgs[0], Anthropic);
      AlikeResults(clean[0], msgs[0], Responses);
      AlikeUse(clean[0], msgs[0]);
      SanitizeKeeps(msgs[1..], parses);
      assert clean[1..] == Sanitize(msgs[1..], parses);
    }
  }

  // ---- the synthetic messages ----

  lemma GetBuilt(v: Json, key: string, val: Json)
    requires v.Object?
    ensures Get(Set(v, key, val), key) == Some(val)
    ensures forall other | other != key :: Get(Set(v, key, val), other) == Get(v, other)
  {
    GetAfterSet(v, key, val, key);
    forall other | other != key ensures Get(Set(v, key, val), other) == Get(v, other) {
      GetAfterSet(v, key, val, other);
    }
  }

  lemma ToolMessageFacts(id: string)
    ensures var m := ToolMessage(id);
            && Role(m) == "tool" && Type(m) == "" && CallsOf(m) == [] && ResultsIn(OpenAI, m) == [id]
            && ResultsIn(Anthropic, m) == [] && ResultsIn(Responses, m) == []
  {
    ToolMessageGets(id);
    hide ToolMessage, Get;
  }

  lemma ToolMessageGets(id: string)
    ensures var m := ToolMessage(id);
            && Get(m, "role") == Some(String("tool")) && Get(m, "tool_call_id") == Some(String(id))
            && Get(m, "content") == Some(String(CANCEL_MESSAGE)) && Get(m, "type") == None && Get(m, "tool_calls") == None
  {
    hide Get, Set;
    GetBuilt(Object([]), "role", String("tool"));
    var a := Set(Object([]), "role", String("tool"));
    IsObject(Object([]), "role", String("tool"));
    GetBuilt(a, "tool_call_id", String(id));
    IsObject(a, "tool_call_id", String(id));
    GetBuilt(Set(a, "tool_call_id", String(id)), "content", String(CANCEL_MESSAGE));
    EmptyGets();
  }

  lemma OutputItemFacts(id: string)
    ensures var m := OutputItem(id);
            && Role(m) == "" && Type(m) == "function_call_output" && CallsOf(m) == []
            && ResultsIn(Responses, m) == [id] && ResultsIn(OpenAI, m) == [] && ResultsIn(Anthropic, m) == []
  {
    OutputItemGets(id);
    hide OutputItem, Get;
  }

  lemma OutputItemGets(id: string)
    ensures var m := OutputItem(id);
            && Get(m, "type") == Some(String("function_call_output")) && Get(m, "call_id") == Some(String(id))
            && Get(m, "role") == None && Get(m, "content") == None && Get(m, "tool_calls") == None
  {
    hide Get, Set;
    GetBuilt(Object([]), "type", String("function_call_output"));
    var a := Set(Object([]), "type", String("function_call_output"));
    IsObject(Object([]), "type", String("function_call_output"));
    GetBuilt(a, "call_id", String(id));
    IsObject(a, "call_id", String(id));
    GetBuilt(Set(a, "call_id", String(id)), "output", String(CANCEL_MESSAGE));
    EmptyGets();
  }

  lemma IsObject(v: Json, key: string, val: Json)
    requires v.Object?
    ensures Set(v, key, val).Object?
  {
  }

  lemma EmptyGets()
    ensures forall key :: Get(Object([]), key) == None
  {
  }

  lemma ResultBlockFacts(id: string)
    ensures Type(ResultBlock(id)) == "tool_result" && ResultId(ResultBlock(id)) == [id]
  {
    GetBuilt(Object([]), "type", String("tool_result"));
    var a := Set(Object([]), "type", String("tool_result"));
    GetBuilt(a, "tool_use_id", String(id));
    GetBuilt(Set(a, "tool_use_id", String(id)), "content", String(CANCEL_MESSAGE));
  }

  lemma OneBlock(b: Json)
    ensures Flat(ResultId, [b]) == ResultId(b)
  {
    hide ResultId;
    assert [b][1..] == [];
  }

  lemma UserMessageGets(id: string)
    ensures var m := UserMessage(id);
            && Get(m, "role") == Some(String("user")) && Get(m, "content") == Some(Array([ResultBlock(id)]))
            && Get(m, "type") == None
  {
    hide ResultBlock;
    GetBuilt(Object([]), "role", String("user"));
    GetBuilt(Set(Object([]), "role", String("user")), "content", Array([ResultBlock(id)]));
  }

  lemma UserMessageFacts(id: string)
    ensures var m := UserMessage(id);
            && Role(m) == "user" && Type(m) == "" && CallsOf(m) == [] && ResultsIn(Anthropic, m) == [id]
            && ResultsIn(OpenAI, m) == [] && ResultsIn(Responses, m) == []
  {
    hide UserMessage, ResultBlock, ResultId;
    UserMessageGets(id);
    ResultBlockFacts(id);
    OneBlock(ResultBlock(id));
  }

  // ---- adding a result ----

  /** In b there is one more result of shape f, for id; calls and all other results are as in a. */
  ghost predicate Adds(f: Format, a: seq<Json>, b: seq<Json>, id: string) {
    && (forall x :: IsCall(b, x) <==> IsCall(a, x))
    && (forall g, x :: InShape(g, b, x) <==> InShape(g, a, x) || (g == f && x == id))
    && (forall calls :: id in calls ==> Orphans(ShapeResults(f, b), calls) == Orphans(ShapeResults(f, a), calls))
  }

  lemma {:induction false} OrphansJoin(a: seq<string>, b: seq<string>, calls: seq<string>)
    ensures Orphans(a + b, calls) == Orphans(a, calls) + Orphans(b, calls)
  {
    if a == [] {
      assert a + b == b;
    } else {
      assert (a + b)[1..] == a[1..] + b;
      OrphansJoin(a[1..], b, calls);
    }
  }

  lemma OrphansInsert(a: seq<string>, b: seq<string>, id: string, calls: seq<string>)
    requires id in calls
    ensures Orphans(a + ([id] + b), calls) == Orphans(a + b, calls)
  {
    OrphansJoin(a, [id] + b, calls);
    OrphansJoin(a, b, calls);
    assert ([id] + b)[1..] == b;
  }

  lemma ShapeInsert(g: Format, a: seq<Json>, b: seq<Json>, m: Json)
    ensures ShapeResults(g, a + ([m] + b)) == ShapeResults(g, a) + (ResultsIn(g, m) + ShapeResults(g, b))
    ensures ShapeResults(g, a + b) == ShapeResults(g, a) + ShapeResults(g, b)
  {
    hide ResultsIn;
    ShapeJoin(g, a, b);
    ShapeJoin(g, a, [m] + b);
    assert ([m] + b)[1..] == b;
  }

  lemma CallsInsert(a: seq<Json>, b: seq<Json>, m: Json)
    requires CallsOf(m) == []
    ensures Flat(CallsOf, a + ([m] + b)) == Flat(CallsOf, a + b)
  {
    hide CallsOf;
    FlatJoin(CallsOf, a, b);
    FlatJoin(CallsOf, a, [m] + b);
    assert ([m] + b)[1..] == b;
  }

  /** Putting a new message between two parts of a transcript. */
  lemma InsertAdds(f: Format, a: seq<Json>, b: seq<Json>, m: Json, id: string)
    requires CallsOf(m) == []
    requires ResultsIn(OpenAI, m) == if f == OpenAI then [id] else []
    requires ResultsIn(Anthropic, m) == if f == Anthropic then [id] else []
    requires ResultsIn(Responses, m) == if f == Responses then [id] else []
    ensures Adds(f, a + b, a + ([m] + b), id)
  {
    hide CallsOf, ResultsIn, Type, Role, Orphans;
    CallsInsert(a, b, m);
    forall g, x ensures InShape(g, a + ([m] + b), x) <==> InShape(g, a + b, x) || (g == f && x == id) {
      ShapeInsert(g, a, b, m);
      hide ShapeResults, Flat;
    }
    forall calls | id in calls
      ensures Orphans(ShapeResults(f, a + ([m] + b)), calls) == Orphans(ShapeResults(f, a + b), calls)
    {
      ShapeInsert(f, a, b, m);
      OrphansInsert(ShapeResults(f, a), ShapeResults(f, b), id, calls);
      hide ShapeResults, Flat;
    }
    hide ShapeResults, Flat, InShape;
  }

  /** Appending a block to the content array of a user message. */
  lemma AppendBlockFacts(m: Json, id: string)
    requires TakesBlocks(m)
    ensures var n := AppendBlock(m, ResultBlock(id));
            && Role(n) == Role(m) && Type(n) == Type(m) && CallsOf(n) == CallsOf(m)
            && ResultsIn(Anthropic, n) == ResultsIn(Anthropic, m) + [id]
            && ResultsIn(OpenAI, n) == ResultsIn(OpenAI, m) && ResultsIn(Responses, n) == ResultsIn(Responses, m)
  {
    hide ResultBlock, ResultId;
    var blocks := ItemsAt(m, "content");
    ContentSet(m, blocks + [ResultBlock(id)]);
    ResultBlockFacts(id);
    OneBlock(ResultBlock(id));
    FlatJoin(ResultId, blocks, [ResultBlock(id)]);
  }

  /** Giving a user message other content leaves its role, type, calls and other results alone. */
  lemma ContentSet(m: Json, blocks: seq<Json>)
    requires TakesBlocks(m)
    ensures var n := Set(m, "content", Array(blocks));
            && GetItems(n, "content") == Some(blocks)
            && Role(n) == Role(m) && Type(n) == Type(m) && CallsOf(n) == CallsOf(m)
            && ResultsIn(OpenAI, n) == ResultsIn(OpenAI, m) && ResultsIn(Responses, n) == ResultsIn(Responses, m)
            && ResultsIn(Anthropic, n) == Flat(ResultId, blocks)
  {
    var v := Array(blocks);
    GetAfterSet(m, "content", v, "content");
    SetKeepsOthers(m, "content", v, "role");
    SetKeepsOthers(m, "content", v, "type");
    SetKeepsOthers(m, "content", v, "call_id");
    hide Set, Get, GetString, StringField;
  }

  lemma ShapeReplace(g: Format, a: seq<Json>, b: seq<Json>, m: Json, n: Json)
    requires ResultsIn(g, m) == ResultsIn(g, n)
    ensures ShapeResults(g, a + ([m] + b)) == ShapeResults(g, a + ([n] + b))
  {
    ShapeInsert(g, a, b, m);
    ShapeInsert(g, a, b, n);
  }

  lemma CallsReplace(a: seq<Json>, b: seq<Json>, m: Json, n: Json)
    requires CallsOf(m) == CallsOf(n)
    ensures Flat(CallsOf, a + ([m] + b)) == Flat(CallsOf, a + ([n] + b))
  {
    hide CallsOf;
    FlatJoin(CallsOf, a, [m] + b);
    FlatJoin(CallsOf, a, [n] + b);
    assert ([m] + b)[1..] == b && ([n] + b)[1..] == b;
  }

  /** Exchanging one message for one with one Anthropic result more. */
  lemma ReplaceAdds(a: seq<Json>, b: seq<Json>, m: Json, n: Json, id: string)
    requires Role(n) == Role(m) && Type(n) == Type(m) && CallsOf(n) == CallsOf(m)
    requires ResultsIn(Anthropic, n) == ResultsIn(Anthropic, m) + [id]
    requires ResultsIn(OpenAI, n) == ResultsIn(OpenAI, m) && ResultsIn(Responses, n) == ResultsIn(Responses, m)
    ensures Adds(Anthropic, a + ([m] + b), a + ([n] + b), id)
  {
    hide CallsOf, ResultsIn, Type, Role, Orphans;
    CallsReplace(a, b, m, n);
    forall g, x
      ensures InShape(g, a + ([n] + b), x) <==> InShape(g, a + ([m] + b), x) || (g == Anthropic && x == id)
    {
      match g
      case OpenAI => ShapeReplace(g, a, b, m, n);
      case Anthropic =>
        ShapeInsert(g, a, b, m);
        ShapeInsert(g, a, b, n);
      case Responses => ShapeReplace(g, a, b, m, n);
    }
    ShapeInsert(Anthropic, a, b, m);
    ShapeInsert(Anthropic, a, b, n);
    var before, mid, tail := ShapeResults(Anthropic, a), ResultsIn(Anthropic, m), ShapeResults(Anthropic, b);
    assert before + (mid + tail) == (before + mid) + tail;
    assert before + ((mid + [id]) + tail) == (before + mid) + ([id] + tail);
    forall calls | id in calls
      ensures Orphans(ShapeResults(Anthropic, a + ([n] + b)), calls)
           == Orphans(ShapeResults(Anthropic, a + ([m] + b)), calls)
    {
      OrphansInsert(before + mid, tail, id, calls);
    }
  }

  /** One turn of each strategy's first loop. */
  function AnswerOne(f: Format, msgs: seq<Json>, id: string): seq<Json> {
    match f
    case OpenAI => InsertResult(msgs, id)
    case Anthropic => AddBlock(msgs, id)
    case Responses => msgs + [OutputItem(id)]
  }

  lemma AnswerOneAdds(f: Format, msgs: seq<Json>, id: string)
    ensures Adds(f, msgs, AnswerOne(f, msgs, id), id)
  {
    hide ToolMessage, UserMessage, OutputItem, CallsOf, ResultsIn, Adds, ResultBlock, AppendBlock;
    match f
    case OpenAI =>
      ToolMessageFacts(id);
      InsertResultAdds(msgs, id);
    case Anthropic =>
      AddBlockAdds(msgs, id);
    case Responses =>
      OutputItemFacts(id);
      AppendAdds(f, msgs, OutputItem(id), id);
  }

  lemma AppendAdds(f: Format, msgs: seq<Json>, m: Json, id: string)
    requires CallsOf(m) == []
    requires ResultsIn(OpenAI, m) == if f == OpenAI then [id] else []
    requires ResultsIn(Anthropic, m) == if f == Anthropic then [id] else []
    requires ResultsIn(Responses, m) == if f == Responses then [id] else []
    ensures Adds(f, msgs, msgs + [m], id)
  {
    hide *;
    InsertAdds(f, msgs, [], m, id);
    assert msgs + [] == msgs && msgs + ([m] + []) == msgs + [m];
  }

  lemma InsertIsInsertAt(msgs: seq<Json>, id: string)
    ensures var i := FirstIssuer(msgs, id);
            var p := if i == |msgs| then i else RunEnd(msgs, i + 1);
            InsertResult(msgs, id) == InsertAt(msgs, p, ToolMessage(id))
  {
    assert msgs[..|msgs|] + [ToolMessage(id)] + msgs[|msgs|..] == msgs + [ToolMessage(id)];
  }

  lemma InsertResultAdds(msgs: seq<Json>, id: string)
    ensures Adds(OpenAI, msgs, InsertResult(msgs, id), id)
  {
    hide ToolMessage, CallsOf, ResultsIn, Adds, InsertResult;
    ToolMessageFacts(id);
    InsertIsInsertAt(msgs, id);
    var i := FirstIssuer(msgs, id);
    var j := if i == |msgs| then i else RunEnd(msgs, i + 1);
    assert msgs == msgs[..j] + msgs[j..];
    Assoc(msgs[..j], [ToolMessage(id)], msgs[j..]);
    InsertAdds(OpenAI, msgs[..j], msgs[j..], ToolMessage(id), id);
  }

  lemma AddBlockAdds(msgs: seq<Json>, id: string)
    ensures Adds(Anthropic, msgs, AddBlock(msgs, id), id)
  {
    hide UserMessage, CallsOf, ResultsIn, Adds, ResultBlock, AppendBlock;
    var i := TargetUser(msgs, id, false);
    if i == |msgs| {
      UserMessageFacts(id);
      AppendAdds(Anthropic, msgs, UserMessage(id), id);
    } else {
      AppendBlockFacts(msgs[i], id);
      var n := AppendBlock(msgs[i], ResultBlock(id));
      ReplaceAdds(msgs[..i], msgs[i + 1..], msgs[i], n, id);
      assert msgs == msgs[..i] + ([msgs[i]] + msgs[i + 1..]);
      assert msgs[i := n] == msgs[..i] + ([n] + msgs[i + 1..]);
    }
  }

  lemma AnsweredStep(f: Format, msgs: seq<Json>, ids: seq<string>)
    requires ids != []
    ensures Answered(f, msgs, ids) == Answered(f, AnswerOne(f, msgs, ids[0]), ids[1..])
  {
  }

  /** After the first loop every listed id has a result of the strategy's shape; nothing else changed. */
  lemma {:induction false} AnsweredAdds(f: Format, msgs: seq<Json>, ids: seq<string>, calls: seq<string>)
    requires forall x <- ids :: x in calls
    ensures var r := Answered(f, msgs, ids);
            && (forall x :: IsCall(r, x) <==> IsCall(msgs, x))
            && (forall g, x :: InShape(g, r, x) <==> InShape(g, msgs, x) || (g == f && x in ids))
            && Orphans(ShapeResults(f, r), calls) == Orphans(ShapeResults(f, msgs), calls)
    decreases |ids|
  {
    hide AnswerOne, IsCall, InShape, Orphans;
    if ids == [] {
      assert Answered(f, msgs, ids) == msgs;
    } else {
      AnsweredStep(f, msgs, ids);
      AnswerOneAdds(f, msgs, ids[0]);
      assert ids[0] in ids && forall x | x in ids[1..] :: x in ids;
      AnsweredAdds(f, AnswerOne(f, msgs, ids[0]), ids[1..], calls);
      assert forall x :: x in ids <==> x == ids[0] || x in ids[1..];
    }
  }

  // ---- removing orphans ----

  lemma OrphansOne(ids: seq<string>, calls: seq<string>)
    requires |ids| <= 1
    ensures Orphans(ids, calls) == if ids != [] && ids[0] !in calls then 1 else 0
  {
    if ids != [] {
      assert ids[1..] == [];
    }
  }

  lemma {:induction false} KeepBlocksFacts(blocks: seq<Json>, calls: seq<string>, x: string)
    ensures var r := KeepBlocks(blocks, calls);
            && (x in Flat(ResultId, r) <==> x in Flat(ResultId, blocks) && x in calls)
            && |blocks| - |r| == Orphans(Flat(ResultId, blocks), calls)
  {
    if blocks != [] {
      var b, rest := blocks[0], KeepBlocks(blocks[1..], calls);
      KeepBlocksFacts(blocks[1..], calls, x);
      BlockResult(b);
      hide ResultId;
      OrphansJoin(ResultId(b), Flat(ResultId, blocks[1..]), calls);
      OrphansOne(ResultId(b), calls);
      if OrphanBlock(b, calls) {
        assert ResultId(b) == [ResultId(b)[0]];
        assert KeepBlocks(blocks, calls) == rest;
      } else {
        assert ([b] + rest)[1..] == rest;
        assert x in ResultId(b) ==> x == ResultId(b)[0];
      }
    }
  }

  lemma BlockResult(b: Json)
    ensures |ResultId(b)| <= 1
  {
  }

  lemma OneShape(g: Format, m: Json)
    ensures ShapeResults(g, [m]) == ResultsIn(g, m) && Flat(CallsOf, [m]) == CallsOf(m)
  {
    hide ResultsIn, CallsOf;
    assert [m][1..] == [];
  }

  lemma OneResult(f: Format, m: Json)
    requires !f.Anthropic?
    ensures |ResultsIn(f, m)| <= 1
  {
  }

  lemma {:induction false} DropMembers(f: Format, msgs: seq<Json>, calls: seq<string>, m: Json)
    requires !f.Anthropic?
    ensures m in DropOrphans(f, msgs, calls) <==> m in msgs && !Orphan(f, m, calls)
  {
    if msgs != [] {
      hide Orphan;
      DropMembers(f, msgs[1..], calls, m);
      assert msgs == [msgs[0]] + msgs[1..];
    }
  }

  /** Trimming leaves of a message nothing or, apart from its own orphans, everything. */
  lemma TrimMessageFacts(m: Json, calls: seq<string>, g: Format, x: string)
    ensures var r := TrimMessage(m, calls);
            && Flat(CallsOf, r) == (if r == [] then [] else CallsOf(m))
            && (g != Anthropic ==> (InShape(g, r, x) <==> r != [] && x in ResultsIn(g, m)))
            && (InShape(Anthropic, r, x) <==> x in ResultsIn(Anthropic, m) && x in calls)
  {
    OneShape(g, m);
    OneShape(Anthropic, m);
    if TakesBlocks(m) {
      var blocks := ItemsAt(m, "content");
      var kept := KeepBlocks(blocks, calls);
      KeepBlocksFacts(blocks, calls, x);
      if kept != [] {
        ContentSet(m, kept);
        OneShape(g, Set(m, "content", Array(kept)));
        OneShape(Anthropic, Set(m, "content", Array(kept)));
      }
    } else {
      NoBlocks(m);
    }
  }

  lemma NoBlocks(m: Json)
    requires !TakesBlocks(m)
    ensures ResultsIn(Anthropic, m) == []
  {
  }

  lemma TrimAllStep(msgs: seq<Json>, calls: seq<string>)
    requires msgs != []
    ensures TrimAll(msgs, calls) == TrimMessage(msgs[0], calls) + TrimAll(msgs[1..], calls)
  {
    hide TrimMessage;
  }

  lemma NothingTrimmed(calls: seq<string>, g: Format)
    ensures TrimAll([], calls) == [] && Flat(CallsOf, []) == [] && ShapeResults(g, []) == []
  {
  }

  lemma {:induction false} TrimmedCalls(msgs: seq<Json>, calls: seq<string>, x: string)
    ensures x in Flat(CallsOf, TrimAll(msgs, calls)) <==>
            exists m <- msgs :: TrimMessage(m, calls) != [] && x in CallsOf(m)
  {
    hide ResultsIn, CallsOf, TrimMessage, InShape;
    if msgs != [] {
      var m := msgs[0];
      TrimMessageFacts(m, calls, OpenAI, x);
      TrimmedCalls(msgs[1..], calls, x);
      FlatJoin(CallsOf, TrimMessage(m, calls), TrimAll(msgs[1..], calls));
      TrimAllStep(msgs, calls);
      hide Flat, TrimAll;
      assert msgs == [m] + msgs[1..];
    } else {
      NothingTrimmed(calls, OpenAI);
    }
  }

  lemma {:induction false} TrimmedOthers(msgs: seq<Json>, calls: seq<string>, g: Format, x: string)
    requires g != Anthropic
    ensures InShape(g, TrimAll(msgs, calls), x) <==>
            exists m <- msgs :: TrimMessage(m, calls) != [] && x in ResultsIn(g, m)
  {
    hide ResultsIn, CallsOf, TrimMessage, Flat;
    if msgs != [] {
      var m := msgs[0];
      TrimMessageFacts(m, calls, g, x);
      TrimmedOthers(msgs[1..], calls, g, x);
      ShapeJoin(g, TrimMessage(m, calls), TrimAll(msgs[1..], calls));
      TrimAllStep(msgs, calls);
      hide ShapeResults, TrimAll;
      assert msgs == [m] + msgs[1..];
    } else {
      NothingTrimmed(calls, g);
    }
  }

  lemma {:induction false} TrimmedOwn(msgs: seq<Json>, calls: seq<string>, x: string)
    ensures InShape(Anthropic, TrimAll(msgs, calls), x) <==> InShape(Anthropic, msgs, x) && x in calls
  {
    hide ResultsIn, CallsOf, TrimMessage, Flat;
    if msgs != [] {
      var m := msgs[0];
      TrimMessageFacts(m, calls, Anthropic, x);
      TrimmedOwn(msgs[1..], calls, x);
      ShapeJoin(Anthropic, TrimMessage(m, calls), TrimAll(msgs[1..], calls));
    }
  }

  // ---- the theorems ----

  /** Calls and results are the same ids. */
  ghost predicate Paired(msgs: seq<Json>) {
    forall x :: IsCall(msgs, x) <==> IsResult(msgs, x)
  }

  lemma SameShape(g: Format, a: seq<Json>, b: seq<Json>, x: string)
    requires ShapeResults(g, a) == ShapeResults(g, b)
    ensures InShape(g, a, x) == InShape(g, b, x)
  {
  }

  lemma SameResults(a: seq<Json>, b: seq<Json>, x: string)
    requires Flat(ResultsOf, a) == Flat(ResultsOf, b)
    ensures IsResult(a, x) == IsResult(b, x)
  {
  }

  lemma ShapeIsResult(g: Format, msgs: seq<Json>, x: string)
    ensures InShape(g, msgs, x) ==> IsResult(msgs, x)
  {
    ResultShapes(msgs, x);
  }

  lemma Nothing(msgs: seq<Json>, g: Format, x: string)
    requires Flat(ResultsOf, msgs) == []
    ensures !InShape(g, msgs, x) && !IsResult(msgs, x)
  {
    ShapeIsResult(g, msgs, x);
  }

  // ---- the count ----

  lemma {:induction false} NoOrphans(ids: seq<string>, calls: seq<string>)
    ensures Orphans(ids, calls) == 0 <==> forall x <- ids :: x in calls
  {
    if ids != [] {
      NoOrphans(ids[1..], calls);
      assert ids == [ids[0]] + ids[1..];
    }
  }

  /** The count is 0 just when every call is answered and no result of the detected shape is an orphan. */
  lemma CountZero(msgs: seq<Json>, parses: string -> bool)
    ensures Repaired(msgs, parses).1 == 0 <==>
              && (forall x :: IsCall(msgs, x) ==> IsResult(msgs, x))
              && (forall x :: InShape(DetectFormat(msgs), msgs, x) ==> IsCall(msgs, x))
  {
    var clean, f := Sanitize(msgs, parses), DetectFormat(msgs);
    SanitizeKeeps(msgs, parses);
    SanitizeKeepsShape(msgs, parses, f);
    var calls := CallOrder(clean);
    hide CallsOf, ResultsOf, ResultsIn, Pruned, Answered, DetectFormat, Sanitize;
    NoOrphans(ShapeResults(f, clean), calls);
    assert forall x :: x in calls <==> IsCall(msgs, x);
    UnansweredNone(calls, clean, msgs);
    if calls == [] && Flat(ResultsOf, clean) == [] {
      forall x ensures !IsCall(msgs, x) && !InShape(f, msgs, x) {
        Nothing(msgs, f, x);
      }
    }
  }

  lemma UnansweredNone(calls: seq<string>, clean: seq<Json>, msgs: seq<Json>)
    requires Flat(ResultsOf, clean) == Flat(ResultsOf, msgs)
    ensures |Unanswered(calls, clean)| == 0 <==> forall x :: x in calls ==> IsResult(msgs, x)
  {
    var missing := Unanswered(calls, clean);
    if missing != [] {
      assert missing[0] in missing;
    }
  }

  /** A transcript that is paired needs no repair, whatever its shape. */
  lemma PairedNeedsNothing(msgs: seq<Json>, parses: string -> bool)
    requires Paired(msgs)
    ensures Repaired(msgs, parses).1 == 0
  {
    CountZero(msgs, parses);
    forall x | InShape(DetectFormat(msgs), msgs, x) ensures IsCall(msgs, x) {
      ShapeIsResult(DetectFormat(msgs), msgs, x);
    }
  }
}
