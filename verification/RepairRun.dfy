/** Two things the id sets do not show: each synthetic OpenAI result stands where the wire wants it, and a
    transcript of two shapes that takes two runs to repair. */
module RepairRun {
  import opened Basics
  import opened JsonTree
  import opened Repair
  import opened RepairProofs
  import opened RepairAgain
  import opened RepairOutcome

  // ---- where a synthetic result stands ----

  /** The unbroken run of role=tool messages at the start holds the synthetic result for id. */
  predicate RunHas(msgs: seq<Json>, id: string) {
    msgs != [] && Role(msgs[0]) == "tool" && (msgs[0] == ToolMessage(id) || RunHas(msgs[1..], id))
  }

  /** It stands in the run right behind the first message issuing id. */
  predicate PlacedIn(msgs: seq<Json>, id: string) {
    msgs != [] && if Issues(msgs[0], id) then RunHas(msgs[1..], id) else PlacedIn(msgs[1..], id)
  }

  lemma ToolIssuesNothing(m: Json, id: string)
    requires Role(m) == "tool"
    ensures !Issues(m, id)
  {
  }

  /** The index of the insertion, counted from the message behind the issuer. */
  lemma {:induction false} RunInsert(msgs: seq<Json>, j: nat, id: string)
    requires j <= |msgs| && forall k | 0 <= k < j :: Role(msgs[k]) == "tool"
    ensures RunHas(InsertAt(msgs, j, ToolMessage(id)), id)
  {
    ToolMessageFacts(id);
    hide ToolMessage;
    var r := InsertAt(msgs, j, ToolMessage(id));
    if j > 0 {
      RunInsert(msgs[1..], j - 1, id);
      assert r[1..] == InsertAt(msgs[1..], j - 1, ToolMessage(id));
    }
  }

  lemma {:induction false} InsertPlaces(msgs: seq<Json>, i: nat, j: nat, id: string)
    requires i < j <= |msgs| && Issues(msgs[i], id) && (forall k | 0 <= k < i :: !Issues(msgs[k], id))
    requires forall k | i < k < j :: Role(msgs[k]) == "tool"
    ensures PlacedIn(InsertAt(msgs, j, ToolMessage(id)), id)
    decreases i
  {
    hide ToolMessage, Issues;
    var r := InsertAt(msgs, j, ToolMessage(id));
    assert r[0] == msgs[0] && r[1..] == InsertAt(msgs[1..], j - 1, ToolMessage(id));
    if i == 0 {
      RunInsert(msgs[1..], j - 1, id);
    } else {
      InsertPlaces(msgs[1..], i - 1, j - 1, id);
    }
  }

  /** Another tool message put anywhere leaves a placed result placed. */
  lemma {:induction false} RunKeeps(msgs: seq<Json>, p: nat, m: Json, id: string)
    requires RunHas(msgs, id) && p <= |msgs| && Role(m) == "tool"
    ensures RunHas(InsertAt(msgs, p, m), id)
  {
    hide ToolMessage;
    var r := InsertAt(msgs, p, m);
    if p == 0 {
      assert r[1..] == msgs;
    } else {
      assert r[0] == msgs[0] && r[1..] == InsertAt(msgs[1..], p - 1, m);
      if msgs[0] != ToolMessage(id) {
        RunKeeps(msgs[1..], p - 1, m, id);
      }
    }
  }

  lemma {:induction false} PlacedKeeps(msgs: seq<Json>, p: nat, m: Json, id: string)
    requires PlacedIn(msgs, id) && p <= |msgs| && Role(m) == "tool"
    ensures PlacedIn(InsertAt(msgs, p, m), id)
  {
    hide ToolMessage, Issues;
    ToolIssuesNothing(m, id);
    var r := InsertAt(msgs, p, m);
    if p == 0 {
      assert r[1..] == msgs;
    } else {
      assert r[0] == msgs[0] && r[1..] == InsertAt(msgs[1..], p - 1, m);
      if Issues(msgs[0], id) {
        RunKeeps(msgs[1..], p - 1, m, id);
      } else {
        PlacedKeeps(msgs[1..], p - 1, m, id);
      }
    }
  }

  predicate Issued(msgs: seq<Json>, id: string) {
    exists m <- msgs :: Issues(m, id)
  }

  lemma IssuedKeeps(msgs: seq<Json>, p: nat, m: Json, id: string)
    requires p <= |msgs| && Issued(msgs, id)
    ensures Issued(InsertAt(msgs, p, m), id)
  {
    hide Issues;
    var x :| x in msgs && Issues(x, id);
    assert msgs == msgs[..p] + msgs[p..];
    assert x in InsertAt(msgs, p, m);
  }

  lemma {:induction false} InsertResultsPlace(msgs: seq<Json>, ids: seq<string>, id: string)
    requires PlacedIn(msgs, id) || (id in ids && Issued(msgs, id))
    ensures PlacedIn(InsertResults(msgs, ids), id)
    decreases |ids|
  {
    hide PlacedIn, Issued, InsertResult;
    if ids != [] {
      OneResultPlaces(msgs, ids[0], id);
      InsertResultsPlace(InsertResult(msgs, ids[0]), ids[1..], id);
    }
  }

  lemma OneResultPlaces(msgs: seq<Json>, x: string, id: string)
    ensures PlacedIn(msgs, id) || (x == id && Issued(msgs, id)) ==> PlacedIn(InsertResult(msgs, x), id)
    ensures Issued(msgs, id) ==> Issued(InsertResult(msgs, x), id)
  {
    var i := FirstIssuer(msgs, x);
    var p := if i == |msgs| then i else RunEnd(msgs, i + 1);
    InsertIsInsertAt(msgs, x);
    ToolMessageFacts(x);
    hide ToolMessage, Issues, PlacedIn, InsertResult;
    if PlacedIn(msgs, id) {
      PlacedKeeps(msgs, p, ToolMessage(x), id);
    }
    if Issued(msgs, id) {
      IssuedKeeps(msgs, p, ToolMessage(x), id);
      if x == id {
        InsertPlaces(msgs, i, p, id);
      }
    }
  }

  lemma {:induction false} DropKeepsRun(msgs: seq<Json>, calls: seq<string>, id: string)
    requires RunHas(msgs, id) && id in calls
    ensures RunHas(DropOrphans(OpenAI, msgs, calls), id)
  {
    ToolMessageFacts(id);
    hide ToolMessage, ResultsIn;
    var rest := DropOrphans(OpenAI, msgs[1..], calls);
    if msgs[0] == ToolMessage(id) {
      assert !Orphan(OpenAI, msgs[0], calls);
    } else {
      DropKeepsRun(msgs[1..], calls, id);
    }
    assert [] + rest == rest && ([msgs[0]] + rest)[1..] == rest;
  }

  lemma {:induction false} DropKeepsPlaced(msgs: seq<Json>, calls: seq<string>, id: string)
    requires PlacedIn(msgs, id) && id in calls
    ensures PlacedIn(DropOrphans(OpenAI, msgs, calls), id)
  {
    hide ToolMessage;
    var rest := DropOrphans(OpenAI, msgs[1..], calls);
    if Issues(msgs[0], id) {
      DropKeepsRun(msgs[1..], calls, id);
      assert !Orphan(OpenAI, msgs[0], calls);
    } else {
      DropKeepsPlaced(msgs[1..], calls, id);
    }
    assert [] + rest == rest && ([msgs[0]] + rest)[1..] == rest;
  }

  /** In the OpenAI shape every unanswered call that some assistant message issues gets its synthetic
      result in the unbroken run of tool messages right behind the first such message. */
  lemma ResultsStandBehindCalls(msgs: seq<Json>, parses: string -> bool, id: string)
    requires DetectFormat(msgs) == OpenAI && IsCall(msgs, id) && !IsResult(msgs, id)
    requires Issued(Sanitize(msgs, parses), id)
    ensures PlacedIn(Repaired(msgs, parses).0, id)
  {
    var clean := Sanitize(msgs, parses);
    SanitizeKeeps(msgs, parses);
    hide CallsOf, ResultsOf, ResultsIn, Sanitize, Issued, PlacedIn;
    var calls := CallOrder(clean);
    assert id in calls;
    InsertResultsPlace(clean, Unanswered(calls, clean), id);
    DropKeepsPlaced(InsertResults(clean, Unanswered(calls, clean)), calls, id);
  }

  // ---- mixed shapes: a second run can find more ----

  function UseMessage(id: string): Json {
    Set(Set(Object([]), "role", String("assistant")), "content",
        Array([Set(Set(Object([]), "type", String("tool_use")), "id", String(id))]))
  }

  lemma UseMessageFacts(id: string)
    ensures var m := UseMessage(id);
            Role(m) == "assistant" && Type(m) == "" && CallsOf(m) == [id] && HasUse(m) && !Issues(m, id)
            && ResultsIn(OpenAI, m) == [] && ResultsIn(Anthropic, m) == [] && ResultsIn(Responses, m) == []
            && GetItems(m, "tool_calls") == None
  {
    var t := Set(Object([]), "type", String("tool_use"));
    var b := Set(t, "id", String(id));
    GetBuilt(Object([]), "type", String("tool_use"));
    GetBuilt(t, "id", String(id));
    assert UseId(b) == [id];
    var r := Set(Object([]), "role", String("assistant"));
    GetBuilt(Object([]), "role", String("assistant"));
    GetBuilt(r, "content", Array([b]));
    UseMessageReads(UseMessage(id), b, id);
  }

  lemma UseMessageReads(m: Json, b: Json, id: string)
    requires UseId(b) == [id] && Type(b) == "tool_use"
    requires Get(m, "role") == Some(String("assistant")) && Get(m, "content") == Some(Array([b]))
    requires Get(m, "type") == None && Get(m, "tool_calls") == None
    ensures Role(m) == "assistant" && Type(m) == "" && CallsOf(m) == [id] && HasUse(m) && !Issues(m, id)
            && ResultsIn(OpenAI, m) == [] && ResultsIn(Anthropic, m) == [] && ResultsIn(Responses, m) == []
            && GetItems(m, "tool_calls") == None
  {
    hide UseId;
    assert [b][1..] == [] && Flat(UseId, [b]) == UseId(b) + [];
    assert b in ItemsAt(m, "content");
  }

  /** t answers a call x that is not there, u issues call a in the Anthropic shape, w answers a call b that
      is not there in the Anthropic shape. */
  ghost predicate Mixed(t: Json, u: Json, w: Json) {
    && Role(t) == "tool" && Type(t) == "" && CallsOf(t) == [] && ResultsIn(OpenAI, t) == ["x"]
    && ResultsIn(Anthropic, t) == [] && ResultsIn(Responses, t) == []
    && Role(u) == "assistant" && Type(u) == "" && CallsOf(u) == ["a"] && HasUse(u)
    && GetItems(u, "tool_calls") == None
    && ResultsIn(OpenAI, u) == [] && ResultsIn(Anthropic, u) == [] && ResultsIn(Responses, u) == []
    && Role(w) == "user" && Type(w) == "" && CallsOf(w) == [] && ResultsIn(OpenAI, w) == []
    && ResultsIn(Anthropic, w) == ["b"] && ResultsIn(Responses, w) == []
  }

  lemma FlatThree(f: Json -> seq<string>, t: Json, u: Json, w: Json)
    ensures Flat(f, [t, u, w]) == f(t) + (f(u) + f(w))
  {
    FlatOne(f, t);
    FlatOne(f, u);
    FlatOne(f, w);
    FlatJoin(f, [t], [u, w]);
    FlatJoin(f, [u], [w]);
    assert [t, u, w] == [t] + [u, w] && [u, w] == [u] + [w];
  }

  lemma FlatOne(f: Json -> seq<string>, m: Json)
    ensures Flat(f, [m]) == f(m)
  {
    assert [m][1..] == [];
  }

  lemma MixedIds(t: Json, u: Json, w: Json)
    requires Mixed(t, u, w)
    ensures Flat(CallsOf, [t, u, w]) == ["a"] && Flat(ResultsOf, [t, u, w]) == ["x", "b"]
    ensures InShape(Anthropic, [t, u, w], "b")
  {
    FlatThree(CallsOf, t, u, w);
    FlatThree(ResultsOf, t, u, w);
    ShapeIn(Anthropic, [t, u, w], "b");
    assert w in [t, u, w] && "b" in ResultsIn(Anthropic, w);
    assert ResultsOf(t) == ["x"] && ResultsOf(u) == [] && ResultsOf(w) == ["b"];
    hide CallsOf, ResultsOf, ResultsIn;
  }

  lemma MixedFormats(t: Json, u: Json, w: Json, s: Json)
    requires Mixed(t, u, w)
    ensures DetectFormat([t, u, w]) == OpenAI && DetectFormat([u, w, s]) == Anthropic
    ensures Unmixed([t, u, w])
  {
    hide CallsOf, ResultsIn;
  }

  lemma {:induction false} CleanAlready(msgs: seq<Json>, parses: string -> bool)
    requires forall m <- msgs :: SanitizeMessage(m, parses) == m
    ensures Sanitize(msgs, parses) == msgs
  {
    if msgs != [] {
      hide SanitizeMessage;
      assert msgs[0] in msgs && forall m | m in msgs[1..] :: m in msgs;
      CleanAlready(msgs[1..], parses);
    }
  }

  lemma MixedClean(t: Json, u: Json, w: Json, parses: string -> bool)
    requires Mixed(t, u, w)
    ensures Sanitize([t, u, w], parses) == [t, u, w]
  {
    hide CallsOf, ResultsIn, HasUse, SanitizeCalls;
    assert SanitizeMessage(u, parses) == u && SanitizeMessage(t, parses) == t && SanitizeMessage(w, parses) == w;
    hide SanitizeMessage;
    CleanAlready([t, u, w], parses);
  }

  lemma MixedAnswered(t: Json, u: Json, w: Json)
    requires Mixed(t, u, w)
    ensures InsertResults([t, u, w], ["a"]) == [t, u, w, ToolMessage("a")]
  {
    assert !Issues(t, "a") && !Issues(w, "a") && !Issues(u, "a");
    hide Issues, ToolMessage;
    assert [t, u, w][1..] == [u, w] && [u, w][1..] == [w] && [w][1..] == [];
    assert FirstIssuer([t, u, w], "a") == 3;
  }

  lemma {:induction false} DropNone(f: Format, msgs: seq<Json>, calls: seq<string>)
    requires !f.Anthropic? && forall m <- msgs :: !Orphan(f, m, calls)
    ensures DropOrphans(f, msgs, calls) == msgs
  {
    if msgs != [] {
      hide ResultsIn;
      assert msgs[0] in msgs && forall m | m in msgs[1..] :: m in msgs;
      DropNone(f, msgs[1..], calls);
    }
  }

  lemma MixedPruned(t: Json, u: Json, w: Json)
    requires Mixed(t, u, w)
    ensures DropOrphans(OpenAI, [t, u, w, ToolMessage("a")], ["a"]) == [u, w, ToolMessage("a")]
  {
    var s := ToolMessage("a");
    ToolMessageFacts("a");
    hide ToolMessage, ResultsIn, CallsOf, HasUse;
    DropNone(OpenAI, [u, w, s], ["a"]);
    assert [t, u, w, s][1..] == [u, w, s];
    assert Orphan(OpenAI, t, ["a"]);
  }

  /** A transcript that starts with an orphan tool message is repaired as OpenAI; without that message the
      second run sees an Anthropic transcript and finds another orphan. So idempotence needs
      NoForeignOrphan, and this is a transcript without it. */
  lemma MixedShapesNeedTwoRuns(t: Json, u: Json, w: Json, parses: string -> bool)
    requires Mixed(t, u, w)
    ensures var r := Repaired([t, u, w], parses).0;
            && Unmixed([t, u, w]) && !NoForeignOrphan([t, u, w])
            && r == [u, w, ToolMessage("a")] && Repaired(r, parses).1 != 0
  {
    var msgs := [t, u, w];
    MixedIds(t, u, w);
    MixedFormats(t, u, w, ToolMessage("a"));
    MixedRepaired(t, u, w, parses);
    hide *;
    ForeignOrphan(msgs, Anthropic, "b");
    StillForeign(msgs, parses, "b");
  }

  lemma MixedRepaired(t: Json, u: Json, w: Json, parses: string -> bool)
    requires Mixed(t, u, w)
    ensures Repaired([t, u, w], parses).0 == [u, w, ToolMessage("a")]
    ensures !IsCall([t, u, w], "b")
  {
    var msgs := [t, u, w];
    MixedIds(t, u, w);
    MixedClean(t, u, w, parses);
    MixedFormats(t, u, w, ToolMessage("a"));
    MixedAnswered(t, u, w);
    MixedPruned(t, u, w);
    OneUnanswered(msgs);
    MixedNotCall(msgs);
    hide *;
    RepairedByParts(msgs, parses, ["a"], [t, u, w, ToolMessage("a")]);
  }

  lemma MixedNotCall(msgs: seq<Json>)
    requires Flat(CallsOf, msgs) == ["a"] && Flat(ResultsOf, msgs) == ["x", "b"]
    ensures !IsCall(msgs, "b") && CallOrder(msgs) == ["a"] && !IsResult(msgs, "a")
  {
    OneCall();
    hide Flat, CallsOf, ResultsOf, Dedup;
  }

  lemma OneUnanswered(msgs: seq<Json>)
    requires Flat(ResultsOf, msgs) == ["x", "b"]
    ensures Unanswered(["a"], msgs) == ["a"]
  {
    hide Flat, ResultsOf;
    assert ["a"][1..] == [];
    assert Unanswered(["a"], msgs) == ["a"] + Unanswered([], msgs);
  }

  lemma RepairedByParts(msgs: seq<Json>, parses: string -> bool, ids: seq<string>, answered: seq<Json>)
    requires Sanitize(msgs, parses) == msgs && CallOrder(msgs) == ids && ids != [] && DetectFormat(msgs) == OpenAI
    requires Unanswered(ids, msgs) == ids && InsertResults(msgs, ids) == answered
    ensures Repaired(msgs, parses).0 == DropOrphans(OpenAI, answered, ids)
  {
    hide Sanitize, CallOrder, Unanswered, InsertResults, DropOrphans, DetectFormat;
  }

  lemma ForeignOrphan(msgs: seq<Json>, g: Format, x: string)
    requires g != DetectFormat(msgs) && InShape(g, msgs, x) && !IsCall(msgs, x)
    ensures !NoForeignOrphan(msgs)
  {
    hide DetectFormat, InShape, IsCall;
  }

  /** A foreign orphan that the second run recognises makes the second count positive. */
  lemma StillForeign(msgs: seq<Json>, parses: string -> bool, x: string)
    requires Unmixed(msgs) && DetectFormat(msgs) == OpenAI && InShape(Anthropic, msgs, x) && !IsCall(msgs, x)
    requires DetectFormat(Repaired(msgs, parses).0) == Anthropic
    ensures Repaired(Repaired(msgs, parses).0, parses).1 != 0
  {
    hide DetectFormat, InShape, IsCall, Repaired, Unmixed, NothingLost, SecondFormat;
    UnmixedLosesNothing(msgs);
    SecondShape(msgs, parses);
    SecondRunCounts(msgs, parses);
  }

  /** There are such messages. */
  lemma MixedExists()
    ensures Mixed(ToolMessage("x"), UseMessage("a"), UserMessage("b"))
  {
    ToolMessageFacts("x");
    UseMessageFacts("a");
    UserMessageFacts("b");
    hide ToolMessage, UseMessage, UserMessage, CallsOf, ResultsIn, HasUse, Issues;
  }

  lemma OneCall()
    ensures Dedup(["a"]) == ["a"]
  {
    assert ["a"][..0] == [];
  }
}
