/** The tree of jsonval.go as it lies in memory: nodes that are changed in place, and copies that share nothing.
    `model` is the value a node stands for and `repr` every node that value depends on. */
module JsonNodes {
  import opened Basics
  import opened JsonTree

  datatype Kind =
    | IsNull
    | IsBool(b: bool)
    | IsNumber(num: Num)
    | IsString(str: string)
    | IsArray
    | IsObject

  /** The value of a node without children. */
  function Bare(kind: Kind): Json {
    match kind
    case IsNull => Null
    case IsBool(b) => if b then True else False
    case IsNumber(n) => Number(n)
    case IsString(s) => String(s)
    case IsArray => Array([])
    case IsObject => Object([])
  }

  /** Nodes that are trees of their own within the space, no two of them sharing a node. */
  ghost predicate Forest(kids: seq<Node>, space: set<Node>)
    reads space
    decreases space, 1
  {
    && (forall k <- kids :: k in space && k.repr <= space && k.Valid())
    && (forall i, j | 0 <= i < j < |kids| :: kids[i].repr !! kids[j].repr)
  }

  /** What a node stands for, given what its children stand for. */
  ghost predicate Shows(kind: Kind, keys: seq<string>, kids: seq<Node>, model: Json)
    reads kids
  {
    match kind
    case IsArray =>
      && keys == [] && model.Array? && |model.items| == |kids|
      && forall i | 0 <= i < |kids| :: model.items[i] == kids[i].model
    case IsObject =>
      && model.Object? && |model.fields| == |kids| == |keys|
      && forall i | 0 <= i < |kids| :: model.fields[i] == Field(keys[i], kids[i].model)
    case _ => kids == [] && keys == [] && model == Bare(kind)
  }

  class Node {
    var kind: Kind
    var keys: seq<string>
    var kids: seq<Node> // the elements of an array, or the values that go with the keys of an object
    ghost var model: Json
    ghost var repr: set<Node>

    ghost predicate Valid()
      reads this, repr
      decreases repr, 0
    {
      && this in repr
      && Forest(kids, repr - {this})
      && Shows(kind, keys, kids, model)
    }

    constructor Leaf(kind: Kind)
      ensures Valid() && this.kind == kind && model == Bare(kind)
      ensures repr == {this}
    {
      this.kind, keys, kids, repr, model := kind, [], [], {this}, Bare(kind);
    }

    /** The index of the first such key, or -1. */
    method IndexOf(key: string) returns (i: int)
      requires Valid()
      ensures i == -1 <==> Get(model, key) == None
      ensures i != -1 ==>
                kind.IsObject? && model.Object? && 0 <= i < |kids| && i == Find(model.fields, key) && keys[i] == key
    {
      if !kind.IsObject? {
        return -1;
      }
      i := 0;
      while i < |keys|
        invariant 0 <= i <= |keys|
        invariant forall j | 0 <= j < i :: keys[j] != key
      {
        if keys[i] == key {
          FindUnique(model.fields, key, i);
          return;
        }
        i := i + 1;
      }
      FindUnique(model.fields, key, i);
      i := -1;
    }

    method Lookup(key: string) returns (v: Node?)
      requires Valid()
      ensures v == null <==> Get(model, key) == None
      ensures v != null ==> v in kids && v.Valid() && Get(model, key) == Some(v.model) && kind.IsObject?
      ensures v != null ==> (v.kind.IsArray? <==> v.model.Array?)
    {
      var i := IndexOf(key);
      v := if i == -1 then null else kids[i];
    }

    /** The node is given other children. */
    method Hold(kind: Kind, keys: seq<string>, kids: seq<Node>, ghost model: Json, ghost space: set<Node>)
      requires this !in space && Forest(kids, space) && Shows(kind, keys, kids, model)
      modifies this
      ensures Valid() && this.model == model && repr == {this} + space
      ensures this.kids == kids && this.keys == keys && this.kind == kind
    {
      this.kind, this.keys, this.kids, this.model, repr := kind, keys, kids, model, {this} + space;
      assert repr - {this} == space;
      assert this !in kids;
    }

    /** Replaces the value of the first such key where it stands, or adds the key at the end. */
    method Assign(key: string, val: Node)
      requires Valid() && val.Valid() && val.repr !! repr
      modifies this
      ensures Valid() && model == Set(old(model), key, val.model)
      ensures repr == old(repr) + (if old(kind).IsObject? then val.repr else {})
      ensures kind == old(kind) && (kind.IsObject? ==> val in kids)
    {
      Parts(this);
      OnlyObjects(kind, keys, kids, model, key, val.model);
      hide *;
      if !kind.IsObject? {
        return;
      }
      var i := IndexOf(key);
      if i != -1 {
        Exchange(i, key, val);
      } else {
        AddField(key, val);
      }
    }

    method Exchange(i: nat, key: string, val: Node)
      requires Valid() && val.Valid() && val.repr !! repr && kind.IsObject?
      requires Get(model, key).Some? && i < |kids| && i == Find(model.fields, key)
      modifies this
      ensures Valid() && model == Set(old(model), key, val.model)
      ensures repr == old(repr) + val.repr && kind == old(kind) && val in kids
    {
      Parts(this);
      hide *;
      ghost var space := repr - {this};
      ForestReplaced(kids, i, val, space);
      ShowsReplaced(keys, kids, i, val, model, key);
      PutInPlace(kids, i, val);
      Hold(kind, keys, kids[i := val], Set(model, key, val.model), space + val.repr);
    }

    method AddField(key: string, val: Node)
      requires Valid() && val.Valid() && val.repr !! repr && kind.IsObject? && Get(model, key) == None
      modifies this
      ensures Valid() && model == Set(old(model), key, val.model)
      ensures repr == old(repr) + val.repr && kind == old(kind) && val in kids
    {
      Parts(this);
      hide *;
      ghost var space := repr - {this};
      ForestGrown(kids, val, space);
      ShowsGrown(keys, kids, val, model, key);
      PutLast(kids, val);
      Hold(kind, keys + [key], kids + [val], Set(model, key, val.model), space + val.repr);
    }

    /** Drops the first such key; the order of the rest is kept. */
    method Remove(key: string)
      requires Valid()
      modifies this
      ensures Valid() && model == Delete(old(model), key) && repr == old(repr) && kind == old(kind)
    {
      OnlyPresent(model, key);
      hide *;
      var i := IndexOf(key);
      if i != -1 {
        RemoveField(i, key);
      }
    }

    method RemoveField(i: nat, key: string)
      requires Valid() && kind.IsObject? && model.Object? && i < |kids| && i == Find(model.fields, key)
      modifies this
      ensures Valid() && model == Delete(old(model), key) && repr == old(repr) && kind == old(kind)
    {
      Parts(this);
      hide *;
      ForestCut(kids, i, repr - {this});
      ShowsCut(keys, kids, i, model, key);
      Hold(IsObject, keys[..i] + keys[i + 1..], kids[..i] + kids[i + 1..], Delete(model, key), repr - {this});
    }

    /** Puts an element in front of element i of an array; an i past the end appends, a negative one prepends. */
    method Insert(i: int, item: Node)
      requires Valid() && item.Valid() && item.repr !! repr
      modifies this
      ensures Valid() && model == InsertAt(old(model), i, item.model) && kind == old(kind)
      ensures repr == old(repr) + (if kind.IsArray? then item.repr else {})
    {
      Parts(this);
      OnlyArrays(kind, keys, kids, model, i, item.model);
      hide *;
      if kind.IsArray? {
        var at := Place(i, |kids|);
        ghost var next := InsertAt(model, i, item.model);
        PlaceFits(i, |kids|);
        ForestInserted(kids, at, item, repr - {this});
        ShowsInserted(keys, kids, i, item, model);
        Hold(kind, keys, kids[..at] + [item] + kids[at..], next, repr - {this} + item.repr);
      }
    }

    /** Drops element i of an array; anything out of range does nothing. */
    method RemoveAt(i: int)
      requires Valid()
      modifies this
      ensures Valid() && model == DropAt(old(model), i) && repr == old(repr) && kind == old(kind)
    {
      if kind.IsArray? && 0 <= i < |kids| {
        ghost var next := DropAt(model, i);
        ForestCut(kids, i, repr - {this});
        hide Forest;
        Hold(kind, keys, kids[..i] + kids[i + 1..], next, repr - {this});
      }
    }

    /** A copy of the whole tree: the same value, and not one node in common with anything that was there. */
    method Clone() returns (out: Node)
      requires Valid()
      ensures out.Valid() && fresh(out.repr) && out.model == model && out.kind == kind
      decreases repr, 1
    {
      var copies, room := CloneAll(kids, repr - {this});
      out := new Node.Leaf(kind);
      Copied(kind, keys, kids, copies, model);
      hide Forest, Shows;
      out.Hold(kind, keys, copies, model, room);
    }

    /** Reads the value off the tree. */
    method Value() returns (v: Json)
      requires Valid()
      ensures v == model
      decreases repr, 1
    {
      match kind
      case IsArray =>
        var vs := ValueAll(kids, repr - {this});
        assert vs == model.items;
        v := Array(vs);
      case IsObject =>
        var vs := ValueAll(kids, repr - {this});
        v := Object(Zip(keys, vs));
        assert v.fields == model.fields;
      case _ =>
        v := Bare(kind);
    }

    /** Makes this node stand for another value, as code that edits the tree in place does: the tree's own
        nodes may be written, and whatever it holds afterwards is new. */
    method Rewrite(v: Json)
      requires Valid()
      modifies repr
      ensures Valid() && model == v && fresh(repr - {this})
    {
      var n := Build(v);
      hide Forest, Shows;
      assert n in n.repr && this !in n.repr;
      Hold(n.kind, n.keys, n.kids, v, n.repr - {n});
    }

    /** Edits the value under a key where it stands. */
    method Edit(key: string, change: Json -> Json)
      requires Valid()
      modifies repr
      ensures Valid() && fresh(repr - old(repr)) && kind == old(kind)
      ensures var v := Get(old(model), key);
              model == if v.Some? then Set(old(model), key, change(v.value)) else old(model)
    {
      var i := IndexOf(key);
      if i != -1 {
        EditAt(i, key, change);
      }
    }

    method EditAt(i: nat, key: string, change: Json -> Json)
      requires Valid() && kind.IsObject? && model.Object? && i < |kids| && i == Find(model.fields, key)
      modifies repr
      ensures Valid() && fresh(repr - old(repr)) && kind == old(kind)
      ensures Get(old(model), key).Some? && model == Set(old(model), key, change(Get(old(model), key).value))
    {
      Parts(this);
      ObjectShows(this);
      hide *;
      ghost var was, space := model, repr - {this};
      assert kids[i].repr <= repr by {
        ForestHas(kids, i, space);
      }
      space := EditOne(kids, i, space, change);
      ShowsEdited(keys, kids, i, was, key);
      Hold(IsObject, keys, kids, Set(was, key, kids[i].model), space);
    }
  }

  lemma PutInPlace(kids: seq<Node>, i: nat, val: Node)
    requires i < |kids|
    ensures val in kids[i := val]
  {
    assert kids[i := val][i] == val;
  }

  lemma PutLast(kids: seq<Node>, val: Node)
    ensures val in kids + [val]
  {
  }

  lemma Parts(n: Node)
    requires n.Valid()
    ensures n in n.repr && Forest(n.kids, n.repr - {n}) && Shows(n.kind, n.keys, n.kids, n.model)
  {
    hide Forest, Shows;
  }

  lemma OnlyArrays(kind: Kind, keys: seq<string>, kids: seq<Node>, model: Json, i: int, x: Json)
    requires Shows(kind, keys, kids, model)
    ensures !kind.IsArray? ==> InsertAt(model, i, x) == model
  {
  }

  lemma PlaceFits(i: int, n: nat)
    ensures Place(i, n) <= n
  {
  }

  lemma ShowsInserted(keys: seq<string>, kids: seq<Node>, i: int, item: Node, model: Json)
    requires Shows(IsArray, keys, kids, model)
    ensures var at := Place(i, |kids|); Shows(IsArray, keys, kids[..at] + [item] + kids[at..], InsertAt(model, i, item.model))
  {
  }

  lemma OnlyObjects(kind: Kind, keys: seq<string>, kids: seq<Node>, model: Json, key: string, val: Json)
    requires Shows(kind, keys, kids, model)
    ensures !kind.IsObject? ==> Set(model, key, val) == model
  {
  }

  lemma ObjectShows(n: Node)
    requires n.Valid() && n.kind.IsObject?
    ensures n.model.Object? && |n.keys| == |n.kids| == |n.model.fields|
    ensures forall j | 0 <= j < |n.kids| :: n.keys[j] == n.model.fields[j].key && n.kids[j].model == n.model.fields[j].value
    ensures forall key | Find(n.model.fields, key) < |n.kids| :: Get(n.model, key) == Some(n.kids[Find(n.model.fields, key)].model)
  {
  }

  lemma OnlyPresent(model: Json, key: string)
    ensures Get(model, key) == None ==> Delete(model, key) == model
  {
  }

  lemma ShowsCut(keys: seq<string>, kids: seq<Node>, i: nat, model: Json, key: string)
    requires Shows(IsObject, keys, kids, model) && i < |kids| && i == Find(model.fields, key)
    ensures |keys| == |kids| && Shows(IsObject, keys[..i] + keys[i + 1..], kids[..i] + kids[i + 1..], Delete(model, key))
  {
  }

  lemma ShowsReplaced(keys: seq<string>, kids: seq<Node>, i: nat, val: Node, model: Json, key: string)
    requires Shows(IsObject, keys, kids, model) && i < |kids| && i == Find(model.fields, key)
    ensures Shows(IsObject, keys, kids[i := val], Set(model, key, val.model))
  {
  }

  lemma ShowsEdited(keys: seq<string>, kids: seq<Node>, i: nat, model: Json, key: string)
    requires model.Object? && |keys| == |kids| == |model.fields| && i < |kids| && i == Find(model.fields, key)
    requires forall j | 0 <= j < |kids| :: keys[j] == model.fields[j].key
    requires forall j | 0 <= j < |kids| && j != i :: kids[j].model == model.fields[j].value
    ensures Shows(IsObject, keys, kids, Set(model, key, kids[i].model))
  {
  }

  lemma ShowsGrown(keys: seq<string>, kids: seq<Node>, val: Node, model: Json, key: string)
    requires Shows(IsObject, keys, kids, model) && Get(model, key) == None
    ensures Shows(IsObject, keys + [key], kids + [val], Set(model, key, val.model))
  {
  }

  lemma ForestReplaced(kids: seq<Node>, i: nat, val: Node, space: set<Node>)
    requires Forest(kids, space) && i < |kids| && val.Valid() && val.repr !! space
    ensures Forest(kids[i := val], space + val.repr)
  {
  }

  lemma ForestHas(kids: seq<Node>, i: nat, space: set<Node>)
    requires Forest(kids, space) && i < |kids|
    ensures kids[i].Valid() && kids[i] in space && kids[i].repr <= space
  {
    assert kids[i] in kids;
    hide Node.Valid;
  }

  lemma ForestGrown(kids: seq<Node>, val: Node, space: set<Node>)
    requires Forest(kids, space) && val.Valid() && val.repr !! space
    ensures Forest(kids + [val], space + val.repr)
  {
  }

  lemma ForestCut(kids: seq<Node>, i: nat, space: set<Node>)
    requires Forest(kids, space) && i < |kids|
    ensures Forest(kids[..i] + kids[i + 1..], space)
  {
  }

  lemma ForestWithout(kids: seq<Node>, i: nat, space: set<Node>)
    requires Forest(kids, space) && i < |kids|
    ensures Forest(kids[..i] + kids[i + 1..], space - kids[i].repr)
    ensures forall j | 0 <= j < |kids| && j != i :: kids[j] in kids[..i] + kids[i + 1..]
  {
    var others := kids[..i] + kids[i + 1..];
    forall j | 0 <= j < |kids| && j != i ensures kids[j] in others {
      assert kids[j] == others[if j < i then j else j - 1];
    }
  }

  lemma Spliced<T>(s: seq<T>, i: nat)
    requires i < |s|
    ensures var cut := s[..i] + s[i + 1..]; cut[..i] + [s[i]] + cut[i..] == s
  {
  }

  lemma ForestInserted(kids: seq<Node>, i: nat, val: Node, space: set<Node>)
    requires Forest(kids, space) && i <= |kids| && val.Valid() && val.repr !! space
    ensures Forest(kids[..i] + [val] + kids[i..], space + val.repr)
  {
  }

  /** Where an index lands in a list of n elements. */
  function Place(i: int, n: nat): (k: nat)
    ensures k <= n && (0 <= i <= n ==> k == i)
  {
    if i < 0 then 0 else if i >= n then n else i
  }

  function InsertAt(v: Json, i: int, x: Json): Json {
    if !v.Array? then v
    else
      var at := Place(i, |v.items|);
      Array(v.items[..at] + [x] + v.items[at..])
  }

  function DropAt(v: Json, i: int): Json {
    if v.Array? && 0 <= i < |v.items| then Array(v.items[..i] + v.items[i + 1..]) else v
  }

  /** What is inserted can be taken out again, and everything else is where it was. */
  lemma DropAfterInsert(v: Json, i: int, x: Json)
    requires v.Array?
    ensures var at := Place(i, |v.items|);
            InsertAt(v, i, x).items[at] == x && DropAt(InsertAt(v, i, x), at) == v
  {
    var at := Place(i, |v.items|);
    var w := InsertAt(v, i, x).items;
    assert w[..at] == v.items[..at] && w[at + 1..] == v.items[at..];
    assert v.items == v.items[..at] + v.items[at..];
  }

  method CloneAll(kids: seq<Node>, ghost space: set<Node>) returns (copies: seq<Node>, ghost room: set<Node>)
    requires Forest(kids, space)
    ensures Forest(copies, room) && fresh(room)
    ensures |copies| == |kids| && forall i | 0 <= i < |kids| :: copies[i].model == kids[i].model
    decreases space, 3
  {
    copies, room := [], {};
    while |copies| < |kids|
      invariant |copies| <= |kids|
      invariant Forest(copies, room) && fresh(room)
      invariant forall i | 0 <= i < |copies| :: copies[i].model == kids[i].model
    {
      var c := CloneOne(kids, |copies|, space);
      ForestGrown(copies, c, room);
      copies, room := copies + [c], room + c.repr;
    }
  }

  method CloneOne(kids: seq<Node>, i: nat, ghost space: set<Node>) returns (c: Node)
    requires Forest(kids, space) && i < |kids|
    ensures c.Valid() && fresh(c.repr) && c.model == kids[i].model
    decreases space, 2
  {
    assert kids[i] in kids;
    c := kids[i].Clone();
  }

  lemma Copied(kind: Kind, keys: seq<string>, kids: seq<Node>, copies: seq<Node>, model: Json)
    requires Shows(kind, keys, kids, model)
    requires |copies| == |kids| && forall i | 0 <= i < |kids| :: copies[i].model == kids[i].model
    ensures Shows(kind, keys, copies, model)
  {
  }

  /** Edits one tree of a forest where it stands. */
  method EditOne(kids: seq<Node>, i: nat, ghost space: set<Node>, change: Json -> Json) returns (ghost room: set<Node>)
    requires Forest(kids, space) && i < |kids|
    modifies kids[i].repr
    ensures Forest(kids, room) && fresh(room - space)
    ensures kids[i].model == change(old(kids[i].model))
    ensures forall j | 0 <= j < |kids| && j != i :: kids[j].model == old(kids[j].model)
  {
    var child := kids[i];
    assert child in kids;
    ghost var others := kids[..i] + kids[i + 1..];
    room := space - child.repr;
    ForestWithout(kids, i, space);
    var v := child.Value();
    assert forall j | 0 <= j < |kids| && j != i :: kids[j] in others && kids[j] in room;
    Spliced(kids, i);
    hide *;
    child.Rewrite(change(v));
    ForestInserted(others, i, child, room);
    room := room + child.repr;
  }

  method ValueAll(kids: seq<Node>, ghost space: set<Node>) returns (vs: seq<Json>)
    requires Forest(kids, space)
    ensures |vs| == |kids| && forall i | 0 <= i < |kids| :: vs[i] == kids[i].model
    decreases space, 3
  {
    vs := [];
    while |vs| < |kids|
      invariant |vs| <= |kids|
      invariant forall i | 0 <= i < |vs| :: vs[i] == kids[i].model
    {
      var v := ValueOne(kids, |vs|, space);
      vs := vs + [v];
    }
  }

  method ValueOne(kids: seq<Node>, i: nat, ghost space: set<Node>) returns (v: Json)
    requires Forest(kids, space) && i < |kids|
    ensures v == kids[i].model
    decreases space, 2
  {
    assert kids[i] in kids;
    v := kids[i].Value();
  }

  /** A new tree that stands for a value. */
  method Build(v: Json) returns (n: Node)
    ensures n.Valid() && fresh(n.repr) && n.model == v
    decreases v, 1
  {
    var kids, room := BuildAll(v, Children(v));
    n := new Node.Leaf(KindOf(v));
    n.Hold(KindOf(v), KeysOf(v), kids, v, room);
  }

  function KindOf(v: Json): Kind {
    match v
    case Null => IsNull
    case False => IsBool(false)
    case True => IsBool(true)
    case Number(n) => IsNumber(n)
    case String(s) => IsString(s)
    case Array(_) => IsArray
    case Object(_) => IsObject
  }

  function Zip(keys: seq<string>, vals: seq<Json>): (r: seq<Field>)
    requires |keys| == |vals|
    ensures |r| == |keys| && forall i | 0 <= i < |r| :: r[i] == Field(keys[i], vals[i])
  {
    seq(|keys|, i requires 0 <= i < |keys| => Field(keys[i], vals[i]))
  }

  function KeysOf(v: Json): (r: seq<string>)
    ensures if v.Object? then |r| == |v.fields| && (forall i | 0 <= i < |r| :: r[i] == v.fields[i].key) else r == []
  {
    if v.Object? then seq(|v.fields|, i requires 0 <= i < |v.fields| => v.fields[i].key) else []
  }

  function Children(v: Json): (r: seq<Json>)
    ensures forall c <- r :: c < v
    ensures v.Array? ==> r == v.items
    ensures if v.Object? then |r| == |v.fields| && (forall i | 0 <= i < |r| :: r[i] == v.fields[i].value)
            else v.Array? || r == []
  {
    if v.Object? then seq(|v.fields|, i requires 0 <= i < |v.fields| => v.fields[i].value)
    else if v.Array? then v.items
    else []
  }

  method BuildAll(ghost v: Json, vals: seq<Json>) returns (kids: seq<Node>, ghost room: set<Node>)
    requires forall c <- vals :: c < v
    ensures Forest(kids, room) && fresh(room)
    ensures |kids| == |vals| && forall i | 0 <= i < |kids| :: kids[i].model == vals[i]
    decreases v, 0
  {
    kids, room := [], {};
    while |kids| < |vals|
      invariant |kids| <= |vals|
      invariant Forest(kids, room) && fresh(room)
      invariant forall i | 0 <= i < |kids| :: kids[i].model == vals[i]
    {
      assert vals[|kids|] in vals;
      var c := Build(vals[|kids|]);
      ForestGrown(kids, c, room);
      kids, room := kids + [c], room + c.repr;
    }
  }
}
