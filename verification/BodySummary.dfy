/** Shrinking one tool-result body, compact.go: the summary buffer with snprintf's semantics, the structural
    summary written through it, and the choice between passing through, summarising and keeping head and tail.
    Reading the body as JSON and spelling a number are functions nothing here looks into. */
module BodySummary {
  import opened Basics
  import opened JsonTree
  import opened JsonPrinter

  const SUMMARY_CAP: nat := 2048

  const DESCRIBE_CAP: nat := SUMMARY_CAP - 64

  const TITLE := "[compacted JSON summary]\n"

  // ---- the unbounded description ----

  function Glyph(v: Json): string {
    match v
    case String(_) => "<string>"
    case Number(_) => "<number>"
    case Object(_) => "{...}"
    case Array(_) => "[...]"
    case True => "<bool>"
    case False => "<bool>"
    case Null => "null"
  }

  /** What describeJSON would write with room for everything. */
  function Describe(v: Json, depth: nat, spell: Num -> string): string
    decreases v, if v.Object? then |v.fields| + 1 else 1
  {
    match v
    case Object(fields) =>
      "{" + Pairs(v, 0, depth, spell) + "}" + Tally(v)
    case Array(items) =>
      if items == [] then "[]"
      else
        "[/* " + Decimal(|items|) + " items */" + FirstItem(v, depth, spell) + "]"
    case String(s) => "\"" + (if |s| <= 64 then s else s[..60] + "...") + "\""
    case Number(n) => spell(n)
    case True => "true"
    case False => "false"
    case Null => "null"
  }

  /** An array shows its first item and that there are more. */
  function FirstItem(v: Json, depth: nat, spell: Num -> string): string
    requires v.Array? && v.items != []
    decreases v, 0
  {
    if depth < 2 then " " + Describe(v.items[0], depth + 1, spell) + (if |v.items| > 1 then ", ..." else "") else ""
  }

  /** The fields of an object from the i-th on. */
  function Pairs(v: Json, i: nat, depth: nat, spell: Num -> string): string
    requires v.Object? && i <= |v.fields|
    decreases v, |v.fields| - i
  {
    if i == |v.fields| then ""
    else
      (if i > 0 then ", " else "") + ("\"" + v.fields[i].key + "\": ")
      + (if depth < 2 then Describe(v.fields[i].value, depth + 1, spell) else Glyph(v.fields[i].value))
      + Pairs(v, i + 1, depth, spell)
  }

  function Tally(v: Json): string
    requires v.Object?
  {
    if |v.fields| > 5 then " /* " + Decimal(|v.fields|) + " keys */" else ""
  }

  // ---- the buffer ----

  /** What of a text is in a buffer of this capacity: one byte is kept back. */
  function Cut(s: string, cap: nat): string
    requires cap > 0
  {
    if |s| < cap then s else s[..cap - 1]
  }

  class BoundBuf {
    var buf: string
    var pos: nat
    const cap: nat
    ghost var all: string // everything appended

    /** The first min(pos, cap - 1) bytes of everything appended; pos counts the rest as well. */
    ghost predicate Valid()
      reads this
    {
      cap > 0 && pos == |all| && buf == Cut(all, cap)
    }

    constructor (cap: nat)
      requires cap > 0
      ensures Valid() && all == "" && this.cap == cap
    {
      buf, pos, all := "", 0, "";
      this.cap := cap;
    }

    method Append(s: string)
      requires Valid()
      modifies this
      ensures Valid() && all == old(all) + s
    {
      if pos < cap {
        var room := cap - pos;
        var w := if |s| > room - 1 then s[..room - 1] else s;
        buf := buf[..if pos < |buf| then pos else |buf|] + w;
      }
      pos := pos + |s|;
      all := all + s;
    }
  }

  /** What was appended is the full text, or the two agree on everything up to the capacity. */
  ghost predicate Agrees(all: string, full: string, cap: nat) {
    if |all| < cap then all == full else |full| >= cap && all[..cap] == full[..cap]
  }

  lemma AgreesAppend(all: string, full: string, s: string, cap: nat)
    requires Agrees(all, full, cap)
    ensures Agrees(all + s, full + s, cap)
  {
    if |all| >= cap {
      assert (all + s)[..cap] == all[..cap] && (full + s)[..cap] == full[..cap];
    }
  }

  lemma AgreesSkip(all: string, full: string, s: string, cap: nat)
    requires Agrees(all, full, cap) && |all| >= cap
    ensures Agrees(all, full + s, cap)
  {
    assert (full + s)[..cap] == full[..cap];
  }

  lemma AgreesCut(all: string, full: string, cap: nat)
    requires Agrees(all, full, cap) && cap > 0
    ensures Cut(all, cap) == Cut(full, cap)
  {
    if |all| >= cap {
      assert all[..cap - 1] == all[..cap][..cap - 1];
      assert full[..cap - 1] == full[..cap][..cap - 1];
    }
  }

  lemma AgreesThen(a: string, b: string, c: string, s: string, cap: nat)
    requires Agrees(a, b, cap) && Agrees(c, a + s, cap)
    ensures Agrees(c, b + s, cap)
  {
    AgreesAppend(a, b, s, cap);
  }

  // ---- the summary through the buffer ----

  /** With all its early exits the walk writes the same bytes as one that never stops. */
  method DescribeJSON(v: Json, b: BoundBuf, depth: nat, spell: Num -> string)
    requires b.Valid()
    modifies b
    ensures b.Valid() && Agrees(b.all, old(b.all) + Describe(v, depth, spell), b.cap)
    decreases v, 2
  {
    ghost var was := b.all;
    if b.pos >= b.cap {
      AgreesSkip(was, was, Describe(v, depth, spell), b.cap);
      return;
    }
    if v.Object? {
      DescribeObject(v, b, depth, spell);
    } else if v.Array? {
      DescribeArray(v, b, depth, spell);
    } else if v.String? {
      b.Append(if |v.str| <= 64 then "\"" + v.str + "\"" else "\"" + (v.str[..60] + "...") + "\"");
    } else if v.Number? {
      b.Append(spell(v.num));
    } else {
      b.Append(if v.True? then "true" else if v.False? then "false" else "null");
    }
  }

  method DescribeObject(v: Json, b: BoundBuf, depth: nat, spell: Num -> string)
    requires b.Valid() && v.Object?
    modifies b
    ensures b.Valid() && Agrees(b.all, old(b.all) + Describe(v, depth, spell), b.cap)
    decreases v, 1
  {
    ghost var was, pairs, tally := b.all, Pairs(v, 0, depth, spell), Tally(v);
    assert Describe(v, depth, spell) == "{" + pairs + "}" + tally;
    assert |v.fields| <= 5 ==> tally == "";
    hide *;
    b.Append("{");
    DescribePairs(v, b, depth, spell);
    AgreesAppend(b.all, was + "{" + pairs, "}", b.cap);
    b.Append("}");
    AgreesAppend(b.all, was + "{" + pairs + "}", tally, b.cap);
    if |v.fields| > 5 {
      b.Append(Tally(v));
    } else {
      assert b.all + "" == b.all;
    }
    AssocFive(was, "{", pairs, "}", tally);
  }

  method DescribePairs(v: Json, b: BoundBuf, depth: nat, spell: Num -> string)
    requires b.Valid() && v.Object?
    modifies b
    ensures b.Valid() && Agrees(b.all, old(b.all) + Pairs(v, 0, depth, spell), b.cap)
    decreases v, 0, 1
  {
    ghost var full := b.all;
    Same(b.all, b.cap);
    var i, first := 0, true;
    hide Agrees;
    while i < |v.fields|
      invariant i <= |v.fields| && b.Valid() && (first <==> i == 0)
      invariant Agrees(b.all, full, b.cap)
      invariant full + Pairs(v, i, depth, spell) == old(b.all) + Pairs(v, 0, depth, spell)
    {
      if b.pos >= b.cap {
        AgreesSkip(b.all, full, Pairs(v, i, depth, spell), b.cap);
        return;
      }
      full := DescribePair(v, i, first, b, depth, spell, full);
      first, i := false, i + 1;
    }
    assert full + "" == full;
  }

  lemma Same(all: string, cap: nat)
    ensures Agrees(all, all, cap)
  {
  }

  /** One key and what stands behind it. */
  method DescribePair(v: Json, i: nat, first: bool, b: BoundBuf, depth: nat, spell: Num -> string, ghost full: string)
    returns (ghost next: string)
    requires b.Valid() && v.Object? && i < |v.fields| && (first <==> i == 0) && Agrees(b.all, full, b.cap)
    modifies b
    ensures b.Valid() && Agrees(b.all, next, b.cap)
    ensures next + Pairs(v, i + 1, depth, spell) == full + Pairs(v, i, depth, spell)
    decreases v, 0, 0
  {
    ghost var sep := if i > 0 then ", " else "";
    next := full;
    if !first {
      AgreesAppend(b.all, next, ", ", b.cap);
      b.Append(", ");
    } else {
      assert next + "" == next;
    }
    next := next + sep;
    var head := "\"" + v.fields[i].key + "\": ";
    AgreesAppend(b.all, next, head, b.cap);
    b.Append(head);
    next := next + head;
    var value := v.fields[i].value;
    ghost var text := if depth < 2 then Describe(value, depth + 1, spell) else Glyph(value);
    ghost var was := b.all;
    if depth < 2 {
      assert value < v;
      DescribeJSON(value, b, depth + 1, spell);
      AgreesThen(was, next, b.all, text, b.cap);
    } else {
      AgreesAppend(was, next, text, b.cap);
      b.Append(Glyph(value));
    }
    next := next + text;
    AssocFive(full, sep, head, text, Pairs(v, i + 1, depth, spell));
  }

  method DescribeArray(v: Json, b: BoundBuf, depth: nat, spell: Num -> string)
    requires b.Valid() && v.Array?
    modifies b
    ensures b.Valid() && Agrees(b.all, old(b.all) + Describe(v, depth, spell), b.cap)
    decreases v, 1
  {
    var count := |v.items|;
    if count == 0 {
      b.Append("[]");
      return;
    }
    var head := "[/* " + Decimal(count) + " items */";
    ghost var was, inner := b.all, FirstItem(v, depth, spell);
    assert Describe(v, depth, spell) == head + inner + "]";
    hide *;
    b.Append(head);
    DescribeFirst(v, b, depth, spell);
    AgreesAppend(b.all, was + head + inner, "]", b.cap);
    b.Append("]");
    AssocFour(was, head, inner, "]");
  }

  method DescribeFirst(v: Json, b: BoundBuf, depth: nat, spell: Num -> string)
    requires b.Valid() && v.Array? && v.items != []
    modifies b
    ensures b.Valid() && Agrees(b.all, old(b.all) + FirstItem(v, depth, spell), b.cap)
    decreases v, 0, 0
  {
    ghost var was := b.all;
    if depth >= 2 {
      assert was + "" == was;
      Same(was, b.cap);
      return;
    }
    b.Append(" ");
    assert v.items[0] in v.items;
    ghost var text := Describe(v.items[0], depth + 1, spell);
    ghost var more := if |v.items| > 1 then ", ..." else "";
    assert FirstItem(v, depth, spell) == " " + text + more;
    hide *;
    DescribeJSON(v.items[0], b, depth + 1, spell);
    AgreesAppend(b.all, was + " " + text, more, b.cap);
    if |v.items| > 1 {
      b.Append(", ...");
    } else {
      assert b.all + "" == b.all;
    }
    AssocFour(was, " ", text, more);
  }

  // ---- the summary ----

  function SizeHint(n: nat): string {
    "\n[original: " + Decimal(n) + " bytes]"
  }

  /** The description cut to what the buffer holds, then the size hint in full. */
  function Summary(size: nat, root: Json, spell: Num -> string): string {
    Cut(TITLE + Describe(root, 0, spell), DESCRIBE_CAP) + SizeHint(size)
  }

  lemma HintIsShort(n: nat)
    requires n < 0x8000_0000_0000_0000
    ensures |SizeHint(n)| <= 40
  {
    assert Power(10, 20) > 0x8000_0000_0000_0000 by {
      assert Power(10, 5) == 100_000;
      assert Power(10, 10) == 10_000_000_000 by {
        assert Power(10, 10) == 10 * (10 * (10 * (10 * (10 * Power(10, 5)))));
      }
      assert Power(10, 15) == 1_000_000_000_000_000 by {
        assert Power(10, 15) == 10 * (10 * (10 * (10 * (10 * Power(10, 10)))));
      }
      assert Power(10, 20) == 10 * (10 * (10 * (10 * (10 * Power(10, 15)))));
    }
    DecimalLength(n, 20);
  }

  /** Whatever the document, the size hint is there to its last byte and the whole stays below the buffer's
      size; and the description is whole exactly when it is short enough. */
  lemma HintIsNeverCut(size: nat, root: Json, spell: Num -> string)
    requires size < 0x8000_0000_0000_0000
    ensures var out, whole := Summary(size, root, spell), TITLE + Describe(root, 0, spell);
            && |out| < SUMMARY_CAP
            && out[|out| - |SizeHint(size)|..] == SizeHint(size)
            && (out == whole + SizeHint(size) <==> |whole| < DESCRIBE_CAP)
  {
    HintIsShort(size);
    var whole := TITLE + Describe(root, 0, spell);
    var front, hint := Cut(whole, DESCRIBE_CAP), SizeHint(size);
    hide *;
    assert |whole| >= DESCRIBE_CAP ==> |front + hint| < |whole + hint| by {
      CutShortens(whole, DESCRIBE_CAP);
    }
    CutShortens(whole, DESCRIBE_CAP);
  }

  lemma CutShortens(s: string, cap: nat)
    requires cap > 0
    ensures |Cut(s, cap)| < cap && (|s| < cap ==> Cut(s, cap) == s) && (|s| >= cap ==> |Cut(s, cap)| == cap - 1)
  {
  }

  method SummarizeJSON(size: nat, root: Json, spell: Num -> string) returns (out: string)
    requires size < 0x8000_0000_0000_0000
    ensures out == Summary(size, root, spell)
  {
    var b := new BoundBuf(DESCRIBE_CAP);
    b.Append(TITLE);
    ghost var full := TITLE + Describe(root, 0, spell);
    assert "" + TITLE == TITLE;
    HintIsNeverCut(size, root, spell);
    hide Describe, Summary;
    DescribeJSON(root, b, 0, spell);
    AgreesCut(b.all, full, DESCRIBE_CAP);
    assert Summary(size, root, spell) == Cut(full, DESCRIBE_CAP) + SizeHint(size) by {
      SummaryIs(size, root, spell);
    }
    out := b.buf + SizeHint(size);
    assert |out| <= SUMMARY_CAP - 1; // so the final cut to the buffer's size never happens
  }

  lemma SummaryIs(size: nat, root: Json, spell: Num -> string)
    ensures Summary(size, root, spell) == Cut(TITLE + Describe(root, 0, spell), DESCRIBE_CAP) + SizeHint(size)
  {
  }

  // ---- head and tail ----

  function Notice(omitted: nat): string {
    "\n[... " + Decimal(omitted) + " bytes omitted ...]\n"
  }

  function HeadTail(raw: string, head: nat, tail: nat): string {
    if head + tail >= |raw| then raw
    else raw[..head] + Notice(|raw| - head - tail) + raw[|raw| - tail..]
  }

  /** The kept ends are verbatim and the notice accounts for every byte between them. */
  lemma HeadTailConserves(raw: string, head: nat, tail: nat)
    requires head + tail < |raw|
    ensures var out, omitted := HeadTail(raw, head, tail), |raw| - head - tail;
            && out[..head] == raw[..head] && out[|out| - tail..] == raw[|raw| - tail..]
            && out[head..|out| - tail] == Notice(omitted)
            && raw[..head] + raw[head..head + omitted] + raw[head + omitted..] == raw
  {
    hide Notice;
    var rest := |raw| - head - tail;
    ThreeParts(raw[..head], Notice(rest), raw[|raw| - tail..]);
    WholeAgain(raw, head, rest);
  }

  lemma ThreeParts(a: string, b: string, c: string)
    ensures var out := a + b + c;
            out[..|a|] == a && out[|a|..|out| - |c|] == b && out[|out| - |c|..] == c
  {
  }

  lemma WholeAgain(raw: string, head: nat, rest: nat)
    requires head + rest <= |raw|
    ensures raw[..head] + raw[head..head + rest] + raw[head + rest..] == raw
  {
  }

  // ---- the choice ----

  const DEFAULT_THRESHOLD: int := 4096
  const DEFAULT_HEAD: nat := 512
  const DEFAULT_TAIL: nat := 1024
  const FLOOR: int := 64

  datatype PerTool = PerTool(tool: string, threshold: int)

  datatype Config = Config(enabled: bool, threshold: int, headBytes: int, tailBytes: int, perTool: seq<PerTool>)

  function Override(perTool: seq<PerTool>, tool: string): Option<int> {
    if perTool == [] then None
    else if perTool[0].tool == tool then Some(perTool[0].threshold)
    else Override(perTool[1..], tool)
  }

  /** The threshold that applies; None when compaction is off for this tool. */
  function Threshold(cfg: Config, tool: string): Option<int> {
    var base := if cfg.threshold > 0 then cfg.threshold else DEFAULT_THRESHOLD;
    var own := if tool == "" then None else Override(cfg.perTool, tool);
    if own == Some(-1) then None
    else
      var t := if own.Some? then own.value else base;
      Some(if t < FLOOR then FLOOR else t)
  }

  predicate StartsWithJSON(s: string) {
    if s == "" then false
    else if s[0] in " \t\n\r" || s[0] == 11 as char || s[0] == 12 as char then StartsWithJSON(s[1..])
    else s[0] == '{' || s[0] == '['
  }

  function CompactBody(raw: string, tool: string, cfg: Config, parse: string -> Option<Json>, spell: Num -> string): string {
    var t := Threshold(cfg, tool);
    if raw == "" || t.None? || !cfg.enabled || |raw| <= t.value then raw
    else if StartsWithJSON(raw) && parse(raw).Some? then Summary(|raw|, parse(raw).value, spell)
    else HeadTail(raw, if cfg.headBytes > 0 then cfg.headBytes else DEFAULT_HEAD,
                  if cfg.tailBytes > 0 then cfg.tailBytes else DEFAULT_TAIL)
  }

  /** A body within its threshold is never touched, and one below the floor never at all. */
  lemma SmallBodiesPass(raw: string, tool: string, cfg: Config, parse: string -> Option<Json>, spell: Num -> string)
    ensures |raw| <= FLOOR ==> CompactBody(raw, tool, cfg, parse, spell) == raw
    ensures Threshold(cfg, tool).Some? && |raw| <= Threshold(cfg, tool).value
            ==> CompactBody(raw, tool, cfg, parse, spell) == raw
  {
  }
}
