/** CompressView on nodes in memory, as fold.go runs it: the transcript is copied, and then the copy's bodies are
    replaced where they stand, one field of one message after another. */
module CompressNodes {
  import opened Basics
  import opened JsonTree
  import opened JsonNodes
  import opened Repair
  import opened Fold
  import opened Compress

  /** The string at a key of a node, "" when there is none. */
  method TextAt(n: Node, key: string) returns (s: string)
    requires n.Valid()
    ensures s == GetString(n.model, key)
  {
    var v := n.Lookup(key);
    s := "";
    if v != null && v.kind.IsString? {
      s := v.kind.str;
    }
  }

  /** compressBodyField: the field is given a new string node when its text really shrinks. */
  method ShrinkFieldIn(m: Node, key: string, p: Policy) returns (bodies: seq<string>)
    requires m.Valid()
    modifies m
    ensures m.Valid() && (m.model, bodies) == ShrinkField(old(m.model), key, p)
    ensures m.kind == old(m.kind) && fresh(m.repr - old(m.repr))
  {
    hide Shrunk, Text, Set;
    var node := m.Lookup(key);
    if node == null {
      return [];
    }
    var v := node.Value();
    var out := Shrunk(Text(v), p);
    if out.None? {
      return [];
    }
    var leaf := new Node.Leaf(IsString(out.value));
    m.Assign(key, leaf);
    return [Text(v)];
  }

  // ---- one tree of a forest ----

  method ShrinkBlockIn(b: Node, p: Policy) returns (bodies: seq<string>)
    requires b.Valid()
    modifies b
    ensures b.Valid() && (b.model, bodies) == ShrinkBlock(old(b.model), p)
    ensures fresh(b.repr - old(b.repr))
  {
    hide Node.Valid, ShrinkField;
    var t := TextAt(b, "type");
    if t != "tool_result" {
      return [];
    }
    bodies := ShrinkFieldIn(b, "content", p);
  }

  method ShrinkBlockAt(kids: seq<Node>, i: nat, ghost space: set<Node>, p: Policy)
    returns (bodies: seq<string>, ghost room: set<Node>)
    requires Forest(kids, space) && i < |kids|
    modifies kids[i]
    ensures Forest(kids, room) && fresh(room - space)
    ensures (kids[i].model, bodies) == ShrinkBlock(old(kids[i].model), p)
    ensures forall j | 0 <= j < |kids| && j != i :: kids[j].model == old(kids[j].model)
  {
    var child := kids[i];
    assert child in kids;
    ghost var others := kids[..i] + kids[i + 1..];
    room := space - child.repr;
    ForestWithout(kids, i, space);
    assert forall j | 0 <= j < |kids| && j != i :: kids[j] in others && kids[j] in room;
    Spliced(kids, i);
    hide *;
    bodies := ShrinkBlockIn(child, p);
    ForestInserted(others, i, child, room);
    room := room + child.repr;
  }

  /** What the loop over the blocks has done when it is at i. */
  ghost predicate Along(was: seq<Json>, now: seq<Json>, bodies: seq<string>, i: nat, whole: (seq<Json>, seq<string>),
                        rest: (seq<Json>, seq<string>))
  {
    && i <= |was| == |now| == |whole.0|
    && (forall j | 0 <= j < i :: now[j] == whole.0[j]) && (forall j | i <= j < |was| :: now[j] == was[j])
    && whole.0[i..] == rest.0 && whole.1 == bodies + rest.1
  }

  ghost function Models(kids: seq<Node>): (r: seq<Json>)
    reads kids
    ensures |r| == |kids| && forall i | 0 <= i < |kids| :: r[i] == kids[i].model
  {
    seq(|kids|, i requires 0 <= i < |kids| reads kids => kids[i].model)
  }

  lemma AlongStart(was: seq<Json>, whole: (seq<Json>, seq<string>))
    requires |whole.0| == |was|
    ensures Along(was, was, [], 0, whole, whole)
  {
    assert [] + whole.1 == whole.1;
  }

  lemma AlongStep(was: seq<Json>, now: seq<Json>, next: seq<Json>, bodies: seq<string>, i: nat, whole: (seq<Json>, seq<string>),
                  x: Json, xs: seq<string>, rest: (seq<Json>, seq<string>))
    requires Along(was, now, bodies, i, whole, ([x] + rest.0, xs + rest.1)) && i < |was|
    requires |next| == |now| && next[i] == x && forall j | 0 <= j < |now| && j != i :: next[j] == now[j]
    ensures Along(was, next, bodies + xs, i + 1, whole, rest)
  {
    assert whole.0[i..][0] == x && whole.0[i + 1..] == whole.0[i..][1..];
    assert bodies + (xs + rest.1) == (bodies + xs) + rest.1;
  }

  lemma NextBlock(blocks: seq<Json>, i: nat, p: Policy)
    requires i < |blocks|
    ensures var (b, x), rest := ShrinkBlock(blocks[i], p), ShrinkBlocks(blocks[i + 1..], p);
            ShrinkBlocks(blocks[i..], p) == ([b] + rest.0, x + rest.1)
  {
    hide ShrinkBlock;
    assert blocks[i..][1..] == blocks[i + 1..];
  }

  lemma AlongEnd(was: seq<Json>, now: seq<Json>, bodies: seq<string>, whole: (seq<Json>, seq<string>),
                 rest: (seq<Json>, seq<string>))
    requires Along(was, now, bodies, |was|, whole, rest) && rest.1 == []
    ensures now == whole.0 && bodies == whole.1
  {
    assert bodies + [] == bodies;
  }

  /** The blocks of a content array, one after another. */
  method ShrinkBlockNodes(kids: seq<Node>, ghost space: set<Node>, p: Policy) returns (bodies: seq<string>, ghost room: set<Node>)
    requires Forest(kids, space)
    modifies space
    ensures Forest(kids, room) && fresh(room - space)
    ensures (Models(kids), bodies) == ShrinkBlocks(old(Models(kids)), p)
  {
    hide *;
    ghost var was := Models(kids);
    ghost var whole := ShrinkBlocks(was, p);
    room := space;
    bodies := [];
    var i := 0;
    assert was[0..] == was;
    AlongStart(was, whole);
    while i < |kids|
      invariant 0 <= i <= |kids| == |was|
      invariant Forest(kids, room) && fresh(room - space)
      invariant Along(was, Models(kids), bodies, i, whole, ShrinkBlocks(was[i..], p))
    {
      ghost var before := Models(kids);
      AlongAt(was, before, bodies, i, whole, ShrinkBlocks(was[i..], p));
      ForestHas(kids, i, room);
      NextBlock(was, i, p);
      var xs;
      xs, room := ShrinkBlockAt(kids, i, room, p);
      AlongStep(was, before, Models(kids), bodies, i, whole, kids[i].model, xs, ShrinkBlocks(was[i + 1..], p));
      bodies := bodies + xs;
      i := i + 1;
    }
    assert was[|was|..] == [];
    NoBlocksLeft(p);
    AlongEnd(was, Models(kids), bodies, whole, ShrinkBlocks(was[i..], p));
  }

  lemma NoBlocksLeft(p: Policy)
    ensures ShrinkBlocks([], p) == ([], [])
  {
  }

  lemma AlongAt(was: seq<Json>, now: seq<Json>, bodies: seq<string>, i: nat, whole: (seq<Json>, seq<string>),
                rest: (seq<Json>, seq<string>))
    requires Along(was, now, bodies, i, whole, rest) && i < |was|
    ensures now[i] == was[i]
  {
  }

  lemma ShowsArray(kids: seq<Node>)
    ensures Shows(IsArray, [], kids, Array(Models(kids)))
  {
  }

  lemma ArrayModels(n: Node)
    requires n.Valid() && n.kind.IsArray?
    ensures n.model == Array(Models(n.kids)) && n !in n.repr - {n} && Forest(n.kids, n.repr - {n})
  {
    assert n.model.items == Models(n.kids);
  }

  method ShrinkBlocksIn(content: Node, p: Policy) returns (bodies: seq<string>)
    requires content.Valid() && content.kind.IsArray?
    modifies content.repr
    ensures content.Valid() && fresh(content.repr - old(content.repr)) && content.kind == old(content.kind)
    ensures var (bs, xs) := ShrinkBlocks(old(content.model).items, p); content.model == Array(bs) && bodies == xs
  {
    ArrayModels(content);
    assert content in content.repr;
    hide *;
    var kids := content.kids;
    ghost var room := content.repr - {content};
    bodies, room := ShrinkBlockNodes(kids, room, p);
    ShowsArray(kids);
    content.Hold(IsArray, [], kids, Array(Models(kids)), room);
  }

  // ---- one message ----

  /** The content blocks of a message are shrunk where they are. */
  method ShrinkContentIn(m: Node, p: Policy) returns (bodies: seq<string>)
    requires m.Valid()
    modifies m.repr
    ensures m.Valid() && (m.model, bodies) == ShrinkContentBlocks(old(m.model), p)
    ensures m.kind == old(m.kind) && fresh(m.repr - old(m.repr))
  {
    ghost var was := m.model;
    JsonNodes.Parts(m);
    ContentOf(was, p);
    var i := m.IndexOf("content");
    var kids, keys := m.kids, m.keys;
    if i != -1 {
      ObjectShows(m);
      ForestHas(kids, i, m.repr - {m});
      KindIsModel(kids[i]);
    }
    hide *;
    if i == -1 || !kids[i].kind.IsArray? {
      return [];
    }
    bodies := ShrinkContentOf(m, i, p);
  }

  /** The message whose i-th value is the content array. */
  method ShrinkContentOf(m: Node, i: nat, p: Policy) returns (bodies: seq<string>)
    requires m.Valid() && m.kind.IsObject? && m.model.Object? && |m.kids| == |m.keys| == |m.model.fields|
    requires i < |m.kids| && i == Find(m.model.fields, "content") && m.kids[i].kind.IsArray? && m.kids[i].model.Array?
    requires m.kids[i].repr <= m.repr
    modifies m.repr
    ensures m.Valid() && m.kind == old(m.kind) && fresh(m.repr - old(m.repr))
    ensures var (bs, xs) := ShrinkBlocks(old(m.kids[i].model).items, p);
            m.model == Set(old(m.model), "content", Array(bs)) && bodies == xs
  {
    JsonNodes.Parts(m);
    ObjectShows(m);
    hide *;
    var kids, keys := m.kids, m.keys;
    ghost var was, space := m.model, m.repr - {m};
    bodies, space := ShrinkContentAt(kids, i, space, p);
    ShowsEdited(keys, kids, i, was, "content");
    m.Hold(IsObject, keys, kids, Set(was, "content", kids[i].model), space);
  }

  lemma ContentOf(m: Json, p: Policy)
    ensures Get(m, "content") == None || !Get(m, "content").value.Array? ==> ShrinkContentBlocks(m, p) == (m, [])
    ensures Get(m, "content").Some? && Get(m, "content").value.Array? ==>
              var (bs, xs) := ShrinkBlocks(Get(m, "content").value.items, p);
              ShrinkContentBlocks(m, p) == (Set(m, "content", Array(bs)), xs)
  {
    hide ShrinkBlocks, Get;
  }

  lemma KindIsModel(n: Node)
    requires n.Valid()
    ensures n.kind.IsArray? <==> n.model.Array?
  {
  }

  method ShrinkContentAt(kids: seq<Node>, i: nat, ghost space: set<Node>, p: Policy)
    returns (bodies: seq<string>, ghost room: set<Node>)
    requires Forest(kids, space) && i < |kids| && kids[i].kind.IsArray? && kids[i].model.Array?
    modifies kids[i].repr
    ensures Forest(kids, room) && fresh(room - space)
    ensures var (bs, xs) := ShrinkBlocks(old(kids[i].model).items, p); kids[i].model == Array(bs) && bodies == xs
    ensures forall j | 0 <= j < |kids| && j != i :: kids[j].model == old(kids[j].model)
  {
    var child := kids[i];
    assert child in kids;
    ghost var others := kids[..i] + kids[i + 1..];
    room := space - child.repr;
    ForestWithout(kids, i, space);
    assert forall j | 0 <= j < |kids| && j != i :: kids[j] in others && kids[j] in room;
    Spliced(kids, i);
    hide *;
    bodies := ShrinkBlocksIn(child, p);
    ForestInserted(others, i, child, room);
    room := room + child.repr;
  }

  method ShrinkToolIn(m: Node, role: string, p: Policy) returns (bodies: seq<string>)
    requires m.Valid() && role == Role(m.model)
    modifies m
    ensures m.Valid() && (m.model, bodies) == ShrinkToolContent(old(m.model), p)
    ensures fresh(m.repr - old(m.repr))
  {
    hide Node.Valid, ShrinkField, Role;
    bodies := [];
    if role == "tool" {
      bodies := ShrinkFieldIn(m, "content", p);
    }
  }

  method ShrinkOutputIn(m: Node, itype: string, p: Policy) returns (bodies: seq<string>)
    requires m.Valid() && itype == Type(m.model)
    modifies m
    ensures m.Valid() && (m.model, bodies) == ShrinkOutput(old(m.model), p)
    ensures fresh(m.repr - old(m.repr))
  {
    hide Node.Valid, ShrinkField, Type;
    bodies := [];
    if itype == "function_call_output" {
      bodies := ShrinkFieldIn(m, "output", p);
    }
  }

  /** compressMessageBodies: role and type are read first, then the three shapes one after another. */
  method ShrinkMessageIn(m: Node, p: Policy) returns (bodies: seq<string>)
    requires m.Valid()
    modifies m.repr
    ensures m.Valid() && (m.model, bodies) == ShrinkMessage(old(m.model), p)
    ensures fresh(m.repr - old(m.repr))
  {
    SameTypes(m.model, p);
    ReadsAre(m.model);
    InThreeSteps(m.model, p);
    JsonNodes.Parts(m);
    hide *;
    var role := TextAt(m, "role");
    var itype := TextAt(m, "type");
    var x, y := ShrinkContents(m, role, p);
    var z := ShrinkOutputIn(m, itype, p);
    bodies := x + (y + z);
  }

  /** The two shapes that keep their body under `content`. */
  method ShrinkContents(m: Node, role: string, p: Policy) returns (x: seq<string>, y: seq<string>)
    requires m.Valid() && role == Role(m.model)
    modifies m.repr
    ensures m.Valid() && fresh(m.repr - old(m.repr))
    ensures var (a, xs) := ShrinkToolContent(old(m.model), p);
            (m.model, y) == ShrinkContentBlocks(a, p) && x == xs
  {
    JsonNodes.Parts(m);
    hide *;
    x := ShrinkToolIn(m, role, p);
    y := ShrinkContentIn(m, p);
  }

  lemma ReadsAre(m: Json)
    ensures Role(m) == GetString(m, "role") && Type(m) == GetString(m, "type")
  {
  }

  lemma InThreeSteps(m: Json, p: Policy)
    ensures var (a, x) := ShrinkToolContent(m, p);
            var (b, y) := ShrinkContentBlocks(a, p);
            var (c, z) := ShrinkOutput(b, p);
            ShrinkMessage(m, p) == (c, x + (y + z))
  {
    hide ShrinkToolContent, ShrinkContentBlocks, ShrinkOutput;
  }

  lemma SameTypes(m: Json, p: Policy)
    ensures var a := ShrinkToolContent(m, p).0; Type(ShrinkContentBlocks(a, p).0) == Type(m)
  {
    var a := ShrinkToolContent(m, p).0;
    ShrinkToolFacts(m, p);
    ShrinkContentFacts(a, p);
    hide CallsOf, ResultsOf, IsCleanUserTurn, ShrinkToolContent, ShrinkContentBlocks, Shorter, BlocksShorter;
  }

  // ---- the transcript ----

  method ShrinkMessageAt(kids: seq<Node>, i: nat, ghost space: set<Node>, p: Policy)
    returns (bodies: seq<string>, ghost room: set<Node>)
    requires Forest(kids, space) && i < |kids|
    modifies kids[i].repr
    ensures Forest(kids, room) && fresh(room - space)
    ensures (kids[i].model, bodies) == ShrinkMessage(old(kids[i].model), p)
    ensures forall j | 0 <= j < |kids| && j != i :: kids[j].model == old(kids[j].model)
  {
    var child := kids[i];
    assert child in kids;
    ghost var others := kids[..i] + kids[i + 1..];
    room := space - child.repr;
    ForestWithout(kids, i, space);
    assert forall j | 0 <= j < |kids| && j != i :: kids[j] in others && kids[j] in room;
    Spliced(kids, i);
    hide *;
    bodies := ShrinkMessageIn(child, p);
    ForestInserted(others, i, child, room);
    room := room + child.repr;
  }

  lemma NextOne(msgs: seq<Json>, i: nat, p: Policy)
    requires i < |msgs|
    ensures var (m, x), rest := ShrinkMessage(msgs[i], p), ShrinkMessages(msgs[i + 1..], p);
            ShrinkMessages(msgs[i..], p) == ([m] + rest.0, x + rest.1)
  {
    hide ShrinkMessage;
    assert msgs[i..][1..] == msgs[i + 1..];
  }

  lemma NoMessagesLeft(p: Policy)
    ensures ShrinkMessages([], p) == ([], [])
  {
  }

  /** Changing one of the first messages changes nothing behind them. */
  lemma OneChanged(before: seq<Json>, after: seq<Json>, i: nat, limit: nat)
    requires i < limit <= |before| == |after| && forall j | 0 <= j < |before| && j != i :: after[j] == before[j]
    ensures after[limit..] == before[limit..] && after[..limit][i] == after[i]
    ensures forall j | 0 <= j < limit && j != i :: after[..limit][j] == before[..limit][j]
  {
  }

  /** The pass over the messages ahead of the limit. */
  method ShrinkMessageNodes(kids: seq<Node>, limit: nat, ghost space: set<Node>, p: Policy)
    returns (bodies: seq<string>, ghost room: set<Node>)
    requires Forest(kids, space) && limit <= |kids|
    modifies space
    ensures Forest(kids, room) && fresh(room - space)
    ensures var (ms, xs) := ShrinkMessages(old(Models(kids))[..limit], p);
            Models(kids) == ms + old(Models(kids))[limit..] && bodies == xs
  {
    hide *;
    ghost var all := Models(kids);
    ghost var was := all[..limit];
    ghost var whole := ShrinkMessages(was, p);
    room := space;
    bodies := [];
    var i := 0;
    assert was[0..] == was;
    AlongStart(was, whole);
    while i < limit
      invariant 0 <= i <= limit == |was|
      invariant Forest(kids, room) && fresh(room - space)
      invariant Along(was, Models(kids)[..limit], bodies, i, whole, ShrinkMessages(was[i..], p))
      invariant Models(kids)[limit..] == all[limit..]
    {
      ghost var before := Models(kids);
      AlongAt(was, before[..limit], bodies, i, whole, ShrinkMessages(was[i..], p));
      ForestHas(kids, i, room);
      NextOne(was, i, p);
      var xs;
      xs, room := ShrinkMessageAt(kids, i, room, p);
      OneChanged(before, Models(kids), i, limit);
      AlongStep(was, before[..limit], Models(kids)[..limit], bodies, i, whole, kids[i].model, xs,
                ShrinkMessages(was[i + 1..], p));
      bodies := bodies + xs;
      i := i + 1;
    }
    assert was[limit..] == [];
    NoMessagesLeft(p);
    AlongEnd(was, Models(kids)[..limit], bodies, whole, ShrinkMessages(was[i..], p));
    assert Models(kids) == Models(kids)[..limit] + Models(kids)[limit..];
  }

  method ShrinkTranscript(arr: Node, limit: nat, p: Policy) returns (bodies: seq<string>)
    requires arr.Valid() && arr.kind.IsArray? && limit <= |arr.kids|
    modifies arr.repr
    ensures arr.Valid() && fresh(arr.repr - old(arr.repr)) && arr.kind == old(arr.kind)
    ensures |old(arr.model).items| == |old(arr.kids)|
    ensures var (ms, xs) := ShrinkMessages(old(arr.model).items[..limit], p);
            arr.model == Array(ms + old(arr.model).items[limit..]) && bodies == xs
  {
    ArrayModels(arr);
    assert arr in arr.repr;
    hide *;
    var kids := arr.kids;
    ghost var room := arr.repr - {arr};
    bodies, room := ShrinkMessageNodes(kids, limit, room, p);
    ShowsArray(kids);
    arr.Hold(IsArray, [], kids, Array(Models(kids)), room);
  }

  /** A message with a role and a text. */
  method TextNode(role: string, text: string) returns (n: Node)
    ensures n.Valid() && fresh(n.repr)
    ensures n.model == Object([Field("role", String(role)), Field("content", String(text))])
  {
    n := new Node.Leaf(IsObject);
    var r := new Node.Leaf(IsString(role));
    var c := new Node.Leaf(IsString(text));
    SetTwoFields(role, text);
    hide Node.Valid, Set;
    n.Assign("role", r);
    n.Assign("content", c);
  }

  lemma SetTwoFields(role: string, text: string)
    ensures Set(Set(Object([]), "role", String(role)), "content", String(text))
            == Object([Field("role", String(role)), Field("content", String(text))])
  {
    FindUnique([], "role", 0);
    FindUnique([Field("role", String(role))], "content", 1);
  }

  method Append(arr: Node, n: Node)
    requires arr.Valid() && arr.kind.IsArray? && arr.model.Array? && n.Valid() && n.repr !! arr.repr
    modifies arr
    ensures arr.Valid() && arr.kind.IsArray? && arr.model == Array(old(arr.model).items + [n.model])
    ensures arr.repr == old(arr.repr) + n.repr
  {
    ArrayModels(arr);
    AtEnd(arr.model, n.model);
    hide Node.Valid, JsonNodes.InsertAt;
    arr.Insert(|arr.kids|, n);
  }

  lemma AtEnd(v: Json, x: Json)
    requires v.Array?
    ensures JsonNodes.InsertAt(v, |v.items|, x) == Array(v.items + [x])
  {
    assert v.items[..|v.items|] + [x] + v.items[|v.items|..] == v.items + [x];
  }

  /** Whether the array ends with a message of the user's. */
  method EndsWithUser(arr: Node) returns (yes: bool)
    requires arr.Valid() && arr.kind.IsArray? && arr.model.Array?
    ensures yes <==> arr.model.items != [] && Role(arr.model.items[|arr.model.items| - 1]) == "user"
  {
    ArrayModels(arr);
    if arr.kids == [] {
      return false;
    }
    ForestHas(arr.kids, |arr.kids| - 1, arr.repr - {arr});
    hide Node.Valid, Forest, GetString;
    var role := TextAt(arr.kids[|arr.kids| - 1], "role");
    return role == "user";
  }

  method AppendText(arr: Node, role: string, text: string)
    requires arr.Valid() && arr.kind.IsArray? && arr.model.Array?
    modifies arr
    ensures arr.Valid() && arr.kind.IsArray? && fresh(arr.repr - old(arr.repr))
    ensures arr.model == Array(old(arr.model).items + [Object([Field("role", String(role)), Field("content", String(text))])])
  {
    hide Node.Valid;
    var n := TextNode(role, text);
    Append(arr, n);
  }

  /** The note goes to the end, behind a bridging turn where the view ends with the user. */
  method AppendNote(arr: Node, text: string)
    requires arr.Valid() && arr.kind.IsArray? && arr.model.Array?
    modifies arr
    ensures arr.Valid() && arr.kind.IsArray? && fresh(arr.repr - old(arr.repr))
    ensures arr.model == Array(old(arr.model).items + Tail(old(arr.model).items, text))
  {
    ghost var view := arr.model.items;
    hide Node.Valid, Role;
    assert view + [] == view;
    assert (view + [AssistantText(NOTE_ACK)]) + [UserText(text)] == view + [AssistantText(NOTE_ACK), UserText(text)];
    if text == "" {
      return;
    }
    var bridge := EndsWithUser(arr);
    if bridge {
      AppendText(arr, "assistant", NOTE_ACK);
    }
    AppendText(arr, "user", text);
  }

  /** CompressView on a tree: null when no body was replaced; otherwise a tree of its own, and the transcript it was
      made from as it was. */
  method CompressTree(msgs: Node, p: Policy) returns (out: Node?)
    requires msgs.Valid() && msgs.model.Array?
    ensures out == null <==> CompressView(msgs.model.items, p) == None
    ensures out != null ==> out.Valid() && fresh(out.repr) && out.kind.IsArray? && CompressedTo(msgs.model, p, out.model)
  {
    KindIsModel(msgs);
    ArrayModels(msgs);
    ModelsCount(msgs.kids);
    hide *;
    ghost var items := msgs.model.items;
    if !p.enabled || p.Retained() >= |msgs.kids| {
      NothingEligible(items, p);
      return null;
    }
    var limit := |msgs.kids| - p.Retained();
    var bodies;
    out, bodies := ShrunkCopy(msgs, limit, p);
    if bodies == [] {
      NothingShrunk(items, limit, p);
      return null;
    }
    ghost var view := out.model.items;
    AppendNote(out, p.note(bodies));
    IsCompressed(msgs.model, limit, p, view, bodies);
  }

  method ShrunkCopy(msgs: Node, limit: nat, p: Policy) returns (out: Node, bodies: seq<string>)
    requires msgs.Valid() && msgs.kind.IsArray? && msgs.model.Array? && limit <= |msgs.kids| == |msgs.model.items|
    ensures out.Valid() && fresh(out.repr) && out.kind.IsArray?
    ensures var (ms, xs) := ShrinkMessages(msgs.model.items[..limit], p);
            out.model == Array(ms + msgs.model.items[limit..]) && bodies == xs
  {
    hide *;
    out := msgs.Clone();
    ArrayModels(out);
    ModelsCount(out.kids);
    bodies := ShrinkTranscript(out, limit, p);
  }

  lemma ModelsCount(kids: seq<Node>)
    ensures |Models(kids)| == |kids|
  {
  }

  lemma NothingEligible(items: seq<Json>, p: Policy)
    requires !p.enabled || p.Retained() >= |items|
    ensures CompressView(items, p) == None
  {
    hide ShrinkMessages;
  }

  lemma NothingShrunk(items: seq<Json>, limit: nat, p: Policy)
    requires p.enabled && p.Retained() < |items| && limit == |items| - p.Retained()
    requires ShrinkMessages(items[..limit], p).1 == []
    ensures CompressView(items, p) == None
  {
    hide ShrinkMessages;
  }

  lemma IsCompressed(before: Json, limit: nat, p: Policy, view: seq<Json>, bodies: seq<string>)
    requires before.Array? && p.enabled && p.Retained() < |before.items| && limit == |before.items| - p.Retained()
    requires var (ms, xs) := ShrinkMessages(before.items[..limit], p);
             view == ms + before.items[limit..] && bodies == xs != []
    ensures CompressedTo(before, p, Array(view + Tail(view, p.note(bodies))))
  {
    hide ShrinkMessages, Tail;
  }

  ghost predicate CompressedTo(before: Json, p: Policy, after: Json)
    requires before.Array?
  {
    after.Array? && CompressView(before.items, p) == Some(after.items)
  }
}
