/** repair.go as it runs: id sets filled while scanning, results inserted into and orphans removed from
    the transcript in place, and repairs counted one by one. Each method does what Repair.dfy says, so
    the theorems of RepairOutcome.dfy and RepairRun.dfy hold of it. */
module RepairLoops {
  import opened JsonTree
  import opened Sorting
  import opened Repair
  import opened RepairProofs

  /** An insertion-ordered set of tool ids. */
  class IdSet {
    var order: seq<string>
    var seen: set<string>

    ghost predicate Valid()
      reads this
    {
      && Distinct(order)
      && forall x :: x in seen <==> x in order
    }

    constructor ()
      ensures Valid() && order == []
    {
      order, seen := [], {};
    }

    method Add(id: string)
      requires Valid()
      modifies this
      ensures Valid() && order == if id in old(order) then old(order) else old(order) + [id]
    {
      if id in seen {
        return;
      }
      seen := seen + {id};
      order := order + [id];
    }

    /** Adds the ids one by one. */
    method AddAll(ids: seq<string>, ghost before: seq<string>)
      requires Valid() && order == Dedup(before)
      modifies this
      ensures Valid() && order == Dedup(before + ids)
    {
      assert before + ids[..0] == before;
      hide *;
      for i := 0 to |ids|
        invariant Valid() && order == Dedup(before + ids[..i])
      {
        DedupStep(before + ids[..i], ids[i]);
        NextId(before, ids, i);
        Add(ids[i]);
      }
      assert ids[..|ids|] == ids;
    }
  }

  lemma NextId(before: seq<string>, ids: seq<string>, i: nat)
    requires i < |ids|
    ensures before + ids[..i + 1] == (before + ids[..i]) + [ids[i]]
  {
    assert ids[..i + 1] == ids[..i] + [ids[i]];
  }

  lemma DedupStep(ids: seq<string>, x: string)
    ensures Dedup(ids + [x]) == if x in Dedup(ids) then Dedup(ids) else Dedup(ids) + [x]
  {
    assert (ids + [x])[..|ids|] == ids;
  }

  lemma FlatStep(f: Json -> seq<string>, msgs: seq<Json>, i: nat)
    requires i < |msgs|
    ensures Flat(f, msgs[..i + 1]) == Flat(f, msgs[..i]) + f(msgs[i])
  {
    assert msgs[..i + 1] == msgs[..i] + [msgs[i]];
    FlatJoin(f, msgs[..i], [msgs[i]]);
    assert [msgs[i]][1..] == [] && Flat(f, [msgs[i]]) == f(msgs[i]) + [];
  }

  method CollectIds(f: Json -> seq<string>, msgs: seq<Json>) returns (ids: IdSet)
    ensures fresh(ids) && ids.Valid() && ids.order == Dedup(Flat(f, msgs))
  {
    ids := new IdSet();
    assert msgs[..0] == [];
    for i := 0 to |msgs|
      invariant fresh(ids) && ids.Valid() && ids.order == Dedup(Flat(f, msgs[..i]))
    {
      FlatStep(f, msgs, i);
      ids.AddAll(f(msgs[i]), Flat(f, msgs[..i]));
    }
    assert msgs[..|msgs|] == msgs;
  }

  /** A messages array, changed in place. */
  class Transcript {
    var items: seq<Json>

    constructor (items: seq<Json>)
      ensures this.items == items
    {
      this.items := items;
    }

    method Insert(i: nat, m: Json)
      requires i <= |items|
      modifies this
      ensures items == InsertAt(old(items), i, m)
    {
      items := items[..i] + [m] + items[i..];
    }

    method RemoveAt(i: nat)
      requires i < |items|
      modifies this
      ensures items == old(items)[..i] + old(items)[i + 1..]
    {
      items := items[..i] + items[i + 1..];
    }

    method SanitizeArguments(parses: string -> bool)
      modifies this
      ensures items == Sanitize(old(items), parses)
    {
      ghost var was := items;
      NoneSanitized(was, parses);
      hide *;
      for i := 0 to |items|
        invariant |items| == |was|
        invariant items == Sanitize(was[..i], parses) + was[i..]
      {
        SanitizeStep(was, i, parses);
        FrontStep(items, was, i, Sanitize(was[..i], parses), SanitizeMessage(was[i], parses));
        items := items[i := SanitizeMessage(items[i], parses)];
      }
      assert was[..|was|] == was && Sanitize(was, parses) + was[|was|..] == Sanitize(was, parses);
    }

    /** The first loop of each strategy: one synthetic result for every unanswered call, in id order. */
    method Answer(f: Format, calls: IdSet, results: IdSet) returns (repairs: nat)
      requires calls.Valid() && results.Valid()
      requires forall x :: x in results.order <==> IsResult(items, x)
      modifies this
      ensures items == Answered(f, old(items), Unanswered(calls.order, old(items)))
      ensures repairs == |Unanswered(calls.order, old(items))|
    {
      hide Answered, IsResult, AnswerOne, Unanswered;
      repairs := 0;
      ghost var todo := Unanswered(calls.order, items);
      assert calls.order[0..] == calls.order;
      for i := 0 to |calls.order|
        invariant todo == Unanswered(calls.order[i..], old(items))
        invariant Answered(f, items, todo) == Answered(f, old(items), Unanswered(calls.order, old(items)))
        invariant repairs + |todo| == |Unanswered(calls.order, old(items))|
      {
        var id := calls.order[i];
        UnansweredStep(calls.order, i, old(items));
        if id in results.seen {
          continue;
        }
        AnsweredStep(f, items, todo);
        match f {
          case OpenAI => InsertTool(id);
          case Anthropic => AddResultBlock(id);
          case Responses => items := items + [OutputItem(id)]; OutputOne(f, id);
        }
        repairs := repairs + 1;
        todo := todo[1..];
      }
      UnansweredEnd(f, calls.order, old(items), items);
    }

    /** Directly behind the assistant message that issued the call and the results already behind it, or at
        the end. */
    method InsertTool(id: string)
      modifies this
      ensures items == AnswerOne(OpenAI, old(items), id)
    {
      hide Issues, ToolMessage;
      var at := FindIssuer(id);
      if at == |items| {
        items := items + [ToolMessage(id)];
        return;
      }
      var j := at + 1;
      while j < |items| && Role(items[j]) == "tool"
        invariant at + 1 <= j <= |items| && RunEnd(items, at + 1) == RunEnd(items, j)
      {
        j := j + 1;
      }
      Insert(j, ToolMessage(id));
    }

    /** Into the next user message behind the call, or a new one at the end. */
    method AddResultBlock(id: string)
      modifies this
      ensures items == AnswerOne(Anthropic, old(items), id)
    {
      hide UserMessage, AppendBlock, ResultBlock;
      var target := FindTarget(id);
      if target < |items| {
        items := items[target := AppendBlock(items[target], ResultBlock(id))];
      } else {
        items := items + [UserMessage(id)];
      }
    }

    method FindIssuer(id: string) returns (i: nat)
      ensures i == FirstIssuer(items, id)
    {
      hide Issues;
      i := 0;
      while i < |items| && !Issues(items[i], id)
        invariant i <= |items| && FirstIssuer(items, id) == i + FirstIssuer(items[i..], id)
      {
        assert items[i..][1..] == items[i + 1..];
        i := i + 1;
      }
    }

    /** The backward pass of the OpenAI and Responses strategies. */
    method DropUncalled(f: Format, calls: IdSet) returns (repairs: nat)
      requires calls.Valid() && !f.Anthropic?
      modifies this
      ensures items == DropOrphans(f, old(items), calls.order)
      ensures repairs == |old(items)| - |items|
    {
      repairs := 0;
      var i := |items|;
      ghost var was := items;
      NoneDropped(f, was, calls.order);
      hide *;
      while i > 0
        invariant 0 <= i <= |was|
        invariant items == was[..i] + DropOrphans(f, was[i..], calls.order)
        invariant repairs == |was| - |items|
      {
        i := i - 1;
        DropOneMore(f, was, i, calls.order);
        BackStep(items, was, i, DropOrphans(f, was[i + 1..], calls.order));
        var m := items[i];
        if Orphan(f, m, calls.order) {
          RemoveAt(i);
          repairs := repairs + 1;
        }
      }
      assert was[..0] + DropOrphans(f, was[0..], calls.order) == DropOrphans(f, was[0..], calls.order);
      assert was[0..] == was;
    }

    /** One walk: the message carrying the tool_use, then the first user message behind it with blocks. */
    method FindTarget(id: string) returns (i: nat)
      ensures i == TargetUser(items, id, false)
    {
      hide Uses, TakesBlocks;
      var found := false;
      i := 0;
      while i < |items|
        invariant i <= |items| && TargetUser(items, id, false) == i + TargetUser(items[i..], id, found)
      {
        assert items[i..][1..] == items[i + 1..];
        if found && TakesBlocks(items[i]) {
          return;
        }
        if !found && Uses(items[i], id) {
          found := true;
        }
        i := i + 1;
      }
    }

    /** The backward pass of the Anthropic strategy. */
    method TrimUncalled(calls: IdSet) returns (repairs: nat)
      requires calls.Valid()
      modifies this
      ensures items == TrimAll(old(items), calls.order)
      ensures repairs == Orphans(ShapeResults(Anthropic, old(items)), calls.order)
    {
      hide Orphans, ResultsIn, TrimMessage, ShapeResults, TrimAll;
      repairs := 0;
      var i := |items|;
      ghost var was := items;
      TrimNothing(was, calls.order);
      while i > 0
        invariant 0 <= i <= |was|
        invariant items == was[..i] + TrimAll(was[i..], calls.order)
        invariant repairs == Orphans(ShapeResults(Anthropic, was[i..]), calls.order)
      {
        i := i - 1;
        TrimStep(was, i, calls.order);
        assert items[..i] == was[..i] && items[i] == was[i];
        assert items[i + 1..] == TrimAll(was[i + 1..], calls.order);
        var dropped := TrimAt(i, calls);
        repairs := repairs + dropped;
        assert items == was[..i] + (TrimMessage(was[i], calls.order) + TrimAll(was[i + 1..], calls.order));
      }
      assert was[0..] == was;
    }

    /** Orphan blocks of one message go, and the message with them when it is left without blocks. */
    method TrimAt(i: nat, calls: IdSet) returns (dropped: nat)
      requires calls.Valid() && i < |items|
      modifies this
      ensures items == old(items)[..i] + (TrimMessage(old(items)[i], calls.order) + old(items)[i + 1..])
      ensures dropped == if TakesBlocks(old(items)[i])
                         then Orphans(Flat(ResultId, ItemsAt(old(items)[i], "content")), calls.order) else 0
    {
      hide ResultId, Orphans, KeepBlocks, TakesBlocks, ItemsAt, Set;
      var m := items[i];
      Around(items, i, m);
      if !TakesBlocks(m) {
        return 0;
      }
      var kept;
      kept, dropped := FilterBlocks(ItemsAt(m, "content"), calls);
      if kept == [] {
        RemoveAt(i);
      } else {
        Around(items, i, Set(m, "content", Array(kept)));
        items := items[i := Set(m, "content", Array(kept))];
      }
    }

    /** MessageHistoryRepair: the transcript and the number of repairs are what Repaired says. */
    method Repair(parses: string -> bool) returns (repairs: nat)
      modifies this
      ensures (items, repairs) == Repaired(old(items), parses)
    {
      hide Sanitize, Flat, ShapeResults, DetectFormat, Answered, DropOrphans, TrimAll, Orphans, Unanswered, Dedup,
           InShape;
      SanitizeArguments(parses);
      ghost var clean := items;
      var calls := CollectIds(CallsOf, items);
      var results := CollectIds(ResultsOf, items);
      NoIds(Flat(ResultsOf, items));
      if calls.order == [] && results.order == [] {
        return 0;
      }
      assert forall x :: x in results.order <==> IsResult(items, x);
      ghost var missing := Unanswered(calls.order, clean);
      var f := DetectFormat(items);
      AnsweredAdds(f, clean, missing, calls.order);
      var added, dropped;
      added := Answer(f, calls, results);
      if f.Anthropic? {
        dropped := TrimUncalled(calls);
      } else {
        DropCount(f, items, calls.order);
        dropped := DropUncalled(f, calls);
      }
      repairs := added + dropped;
    }
  }

  /** The inner backward loop over one message's blocks. */
  method FilterBlocks(blocks: seq<Json>, calls: IdSet) returns (kept: seq<Json>, dropped: nat)
    requires calls.Valid()
    ensures kept == KeepBlocks(blocks, calls.order) && dropped == Orphans(Flat(ResultId, blocks), calls.order)
  {
    hide ResultId;
    kept, dropped := blocks, 0;
    var j := |blocks|;
    while j > 0
      invariant 0 <= j <= |blocks|
      invariant kept == blocks[..j] + KeepBlocks(blocks[j..], calls.order)
      invariant dropped == |blocks| - |kept|
    {
      j := j - 1;
      assert kept[j] == blocks[j] && blocks[j..][1..] == blocks[j + 1..] && blocks[..j + 1] == blocks[..j] + [blocks[j]];
      if OrphanBlock(kept[j], calls.order) {
        kept := kept[..j] + kept[j + 1..];
        dropped := dropped + 1;
      }
    }
    KeepBlocksFacts(blocks, calls.order, "");
  }

  // ---- steps of the loops ----

  lemma Around(items: seq<Json>, i: nat, m: Json)
    requires i < |items|
    ensures items[i := m] == items[..i] + ([m] + items[i + 1..])
    ensures items[..i] + items[i + 1..] == items[..i] + ([] + items[i + 1..])
    ensures items == items[i := items[i]]
  {
  }

  lemma NoneDropped(f: Format, was: seq<Json>, calls: seq<string>)
    requires !f.Anthropic?
    ensures was == was[..|was|] + DropOrphans(f, was[|was|..], calls)
  {
    hide Orphan;
  }

  lemma DropOneMore(f: Format, was: seq<Json>, i: nat, calls: seq<string>)
    requires !f.Anthropic? && i < |was|
    ensures DropOrphans(f, was[i..], calls)
            == (if Orphan(f, was[i], calls) then [] else [was[i]]) + DropOrphans(f, was[i + 1..], calls)
  {
    hide Orphan;
    assert was[i..][1..] == was[i + 1..];
  }

  /** Stepping back over one message. */
  lemma BackStep(items: seq<Json>, was: seq<Json>, i: nat, rest: seq<Json>)
    requires i < |was| && items == was[..i + 1] + rest
    ensures i < |items| && items[i] == was[i]
    ensures items[..i] + items[i + 1..] == was[..i] + ([] + rest)
    ensures items == was[..i] + ([was[i]] + rest)
  {
  }

  lemma NoneSanitized(was: seq<Json>, parses: string -> bool)
    ensures was == Sanitize(was[..0], parses) + was[0..]
  {
    hide SanitizeMessage;
  }

  /** Stepping over one message. */
  lemma FrontStep(items: seq<Json>, was: seq<Json>, i: nat, done: seq<Json>, m: Json)
    requires i < |was| && |done| == i && items == done + was[i..]
    ensures |items| == |was| && items[i] == was[i]
    ensures items[i := m] == done + [m] + was[i + 1..]
  {
  }

  lemma SanitizeStep(msgs: seq<Json>, i: nat, parses: string -> bool)
    requires i < |msgs|
    ensures Sanitize(msgs[..i + 1], parses) == Sanitize(msgs[..i], parses) + [SanitizeMessage(msgs[i], parses)]
  {
    hide SanitizeMessage;
    assert msgs[..i + 1] == msgs[..i] + [msgs[i]];
    SanitizeJoin(msgs[..i], [msgs[i]], parses);
    assert [msgs[i]][1..] == [];
  }

  lemma {:induction false} SanitizeJoin(a: seq<Json>, b: seq<Json>, parses: string -> bool)
    ensures Sanitize(a + b, parses) == Sanitize(a, parses) + Sanitize(b, parses)
  {
    hide SanitizeMessage;
    if a == [] {
      assert a + b == b;
    } else {
      assert (a + b)[1..] == a[1..] + b;
      SanitizeJoin(a[1..], b, parses);
    }
  }

  lemma UnansweredStep(order: seq<string>, i: nat, msgs: seq<Json>)
    requires i < |order|
    ensures Unanswered(order[i..], msgs)
         == (if IsResult(msgs, order[i]) then [] else [order[i]]) + Unanswered(order[i + 1..], msgs)
    ensures order[0..] == order
  {
    assert order[i..][1..] == order[i + 1..];
  }

  lemma UnansweredEnd(f: Format, order: seq<string>, msgs: seq<Json>, now: seq<Json>)
    ensures Unanswered(order[|order|..], msgs) == [] && Answered(f, now, []) == now
  {
  }

  lemma OutputOne(f: Format, id: string)
    ensures forall msgs :: AnswerOne(Responses, msgs, id) == msgs + [OutputItem(id)]
  {
    hide OutputItem;
  }

  lemma TrimNothing(msgs: seq<Json>, calls: seq<string>)
    ensures TrimAll(msgs[|msgs|..], calls) == [] && msgs[..|msgs|] == msgs
    ensures Orphans(ShapeResults(Anthropic, msgs[|msgs|..]), calls) == 0
  {
  }

  lemma NoIds(ids: seq<string>)
    ensures Dedup(ids) == [] <==> ids == []
  {
    if ids != [] {
      assert ids[0] in Dedup(ids);
    }
  }

  lemma NoneOrphan(calls: seq<string>)
    ensures Orphans([], calls) == 0
  {
  }

  lemma TrimStep(msgs: seq<Json>, i: nat, calls: seq<string>)
    requires i < |msgs|
    ensures TrimAll(msgs[i..], calls) == TrimMessage(msgs[i], calls) + TrimAll(msgs[i + 1..], calls)
    ensures Orphans(ShapeResults(Anthropic, msgs[i..]), calls)
         == Orphans(ShapeResults(Anthropic, msgs[i + 1..]), calls)
            + if TakesBlocks(msgs[i]) then Orphans(Flat(ResultId, ItemsAt(msgs[i], "content")), calls) else 0
  {
    hide TrimMessage, ResultId, Orphans;
    assert msgs[i..][1..] == msgs[i + 1..];
    NoneOrphan(calls);
    OrphansJoin(ResultsIn(Anthropic, msgs[i]), ShapeResults(Anthropic, msgs[i + 1..]), calls);
  }

  lemma {:induction false} DropCount(f: Format, msgs: seq<Json>, calls: seq<string>)
    requires !f.Anthropic?
    ensures |msgs| - |DropOrphans(f, msgs, calls)| == Orphans(ShapeResults(f, msgs), calls)
  {
    if msgs != [] {
      OneResult(f, msgs[0]);
      hide ResultsIn;
      DropCount(f, msgs[1..], calls);
      OrphansJoin(ResultsIn(f, msgs[0]), ShapeResults(f, msgs[1..]), calls);
      OrphansOne(ResultsIn(f, msgs[0]), calls);
    }
  }
}
