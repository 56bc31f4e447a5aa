/** The copy pass of JSONCompact: a flat two-bit scanner that knows nothing of the grammar. On the text
    of a valid document it puts every byte where the syntax tree puts it, so the bytes it drops are
    exactly the whitespace between tokens, and what it keeps is the same tree without that whitespace. */
module JsonScanner {
  import opened Basics
  import opened Utf8
  import opened JsonSyntax

  /** Where a byte stands: between tokens, in a token (or opening a literal), or inside a literal. */
  datatype Label = Gap | Token | Inside

  /** The two bits the copy loop carries. */
  datatype Scanner = Scanner(inString: bool, escaped: bool)

  const START := Scanner(false, false)
  const LITERAL := Scanner(true, false)

  function Step(st: Scanner, c: char): Scanner {
    if st.inString then
      if st.escaped then st.(escaped := false)
      else if c == '\\' then st.(escaped := true)
      else if c == '"' then st.(inString := false)
      else st
    else if c == '"' then st.(inString := true)
    else st
  }

  function LabelOf(st: Scanner, c: char): Label {
    if st.inString then Inside else if Space(c) then Gap else Token
  }

  /** The scanner's view of every byte of s, and its state behind the last one. */
  function Labels(s: string, st: Scanner): (ls: seq<Label>)
    ensures |ls| == |s|
  {
    if s == "" then [] else [LabelOf(st, s[0])] + Labels(s[1..], Step(st, s[0]))
  }

  function After(s: string, st: Scanner): Scanner {
    if s == "" then st else After(s[1..], Step(st, s[0]))
  }

  /** The bytes that are not gaps, in order. */
  function Keep(s: string, ls: seq<Label>): (r: string)
    requires |ls| == |s|
    ensures |r| <= |s|
  {
    if s == "" then "" else (if ls[0] == Gap then "" else [s[0]]) + Keep(s[1..], ls[1..])
  }

  /** What the copy pass emits. */
  function Squeeze(s: string): (r: string)
    ensures |r| <= |s|
  {
    Keep(s, Labels(s, START))
  }

  // ---- the same text, seen by the syntax tree ----

  function Times(l: Label, n: nat): (ls: seq<Label>)
    ensures |ls| == n
  {
    seq(n, _ => l)
  }

  function ValueLabels(v: Value): seq<Label> {
    match v
    case Literal(word) => Times(Token, |word|)
    case Num(n) => Times(Token, |n.Text()|)
    case Str(us) => [Token] + Times(Inside, |UnitsText(us)|)
    case EmptyArray(pad) => [Token] + (Times(Gap, |pad|) + [Token])
    case Array(items) => [Token] + ItemsLabels(items)
    case EmptyObject(pad) => [Token] + (Times(Gap, |pad|) + [Token])
    case Object(ms) => [Token] + MembersLabels(ms)
  }

  function ItemsLabels(items: Items): seq<Label> {
    Times(Gap, |items.pre|) + (ValueLabels(items.v) + (Times(Gap, |items.post|) +
    (if items.LastItem? then [Token] else [Token] + ItemsLabels(items.rest))))
  }

  function EntryLabels(m: Entry): seq<Label> {
    Times(Gap, |m.pre|) + ([Token] + (Times(Inside, |UnitsText(m.key)|) + (Times(Gap, |m.mid|) + ([Token] +
    (Times(Gap, |m.pad|) + (ValueLabels(m.v) + Times(Gap, |m.post|)))))))
  }

  function MembersLabels(ms: Members): seq<Label> {
    EntryLabels(ms.m) + (if ms.LastMember? then [Token] else [Token] + MembersLabels(ms.rest))
  }

  function DocumentLabels(doc: Document): seq<Label> {
    Times(Gap, |doc.pre|) + (ValueLabels(doc.v) + Times(Gap, |doc.post|))
  }

  /** The tree with every gap emptied: names, literals, numbers and nesting stay as they are. */
  function Strip(v: Value): Value {
    match v
    case EmptyArray(_) => EmptyArray("")
    case Array(items) => Array(StripItems(items))
    case EmptyObject(_) => EmptyObject("")
    case Object(ms) => Object(StripMembers(ms))
    case _ => v
  }

  function StripItems(items: Items): Items {
    if items.LastItem? then LastItem("", Strip(items.v), "") else Item("", Strip(items.v), "", StripItems(items.rest))
  }

  function StripEntry(m: Entry): Entry {
    Entry("", m.key, "", "", Strip(m.v), "")
  }

  function StripMembers(ms: Members): Members {
    if ms.LastMember? then LastMember(StripEntry(ms.m)) else Member(StripEntry(ms.m), StripMembers(ms.rest))
  }

  function StripDocument(doc: Document): Document {
    Document("", Strip(doc.v), "")
  }

  // ---- one piece of text ----

  /** From outside a literal the scanner reads s as ls, ends outside again, and keeps `kept`. */
  ghost predicate Reads(s: string, ls: seq<Label>, kept: string) {
    Labels(s, START) == ls && After(s, START) == START && Keep(s, Labels(s, START)) == kept
  }

  lemma {:induction false} LabelsJoin(a: string, b: string, st: Scanner)
    ensures Labels(a + b, st) == Labels(a, st) + Labels(b, After(a, st))
    ensures After(a + b, st) == After(b, After(a, st))
  {
    if a == "" {
      assert a + b == b;
    } else {
      assert (a + b)[1..] == a[1..] + b;
      LabelsJoin(a[1..], b, Step(st, a[0]));
    }
  }

  lemma {:induction false} KeepJoin(a: string, b: string, la: seq<Label>, lb: seq<Label>)
    requires |a| == |la| && |b| == |lb|
    ensures Keep(a + b, la + lb) == Keep(a, la) + Keep(b, lb)
  {
    if a == "" {
      assert a + b == b && la + lb == lb;
    } else {
      assert (a + b)[1..] == a[1..] + b && (la + lb)[1..] == la[1..] + lb;
      KeepJoin(a[1..], b, la[1..], lb);
    }
  }

  lemma ReadsJoin(a: string, la: seq<Label>, ka: string, b: string, lb: seq<Label>, kb: string)
    requires Reads(a, la, ka) && Reads(b, lb, kb)
    ensures Reads(a + b, la + lb, ka + kb)
  {
    LabelsJoin(a, b, START);
    KeepJoin(a, b, la, lb);
  }

  lemma {:induction false} ReadsBlank(s: string)
    requires Blank(s)
    ensures Reads(s, Times(Gap, |s|), "")
  {
    if s != "" {
      ReadsBlank(s[1..]);
      assert Times(Gap, |s|) == [Gap] + Times(Gap, |s[1..]|);
      assert Keep(s, Labels(s, START)) == "" + Keep(s[1..], Labels(s[1..], START));
    }
  }

  predicate Plain(s: string) {
    forall c <- s :: !Space(c) && c != '"'
  }

  lemma {:induction false} ReadsPlain(s: string)
    requires Plain(s)
    ensures Reads(s, Times(Token, |s|), s)
  {
    if s != "" {
      ReadsPlain(s[1..]);
      assert Times(Token, |s|) == [Token] + Times(Token, |s[1..]|);
      assert s == [s[0]] + s[1..];
    }
  }

  // ---- inside a literal ----

  /** From inside a literal the scanner reads all of s as inside, and ends in state `end`. */
  ghost predicate Stays(s: string, end: Scanner) {
    Labels(s, LITERAL) == Times(Inside, |s|) && After(s, LITERAL) == end
  }

  lemma StaysJoin(a: string, b: string, end: Scanner)
    requires Stays(a, LITERAL) && Stays(b, end)
    ensures Stays(a + b, end)
  {
    LabelsJoin(a, b, LITERAL);
    assert Times(Inside, |a + b|) == Times(Inside, |a|) + Times(Inside, |b|);
  }

  predicate Safe(s: string) {
    forall c <- s :: c != '"' && c != '\\'
  }

  lemma {:induction false} StaysSafe(s: string)
    requires Safe(s)
    ensures Stays(s, LITERAL)
  {
    if s != "" {
      assert s[0] in s && forall c | c in s[1..] :: c in s;
      StaysSafe(s[1..]);
      assert Times(Inside, |s|) == [Inside] + Times(Inside, |s[1..]|);
    }
  }

  lemma StaysEscape(c: char)
    ensures Stays(['\\', c], LITERAL)
  {
    var s := ['\\', c];
    assert s[1..] == [c] && s[1..][1..] == "";
    assert Labels(s, LITERAL) == [Inside] + Labels([c], Scanner(true, true));
    assert Labels([c], Scanner(true, true)) == [Inside] + Labels("", LITERAL);
    assert After(s, LITERAL) == After([c], Scanner(true, true));
  }

  lemma StaysHex(h: string)
    requires Hex4(h)
    ensures Stays(['\\', 'u'] + h, LITERAL)
  {
    StaysEscape('u');
    StaysSafe(h);
    StaysJoin(['\\', 'u'], h, LITERAL);
  }

  lemma StaysUnit(u: Unit)
    requires u.Valid()
    ensures Stays(u.Text(), LITERAL)
  {
    match u
    case Raw(cp) =>
      RawSafe(cp);
      StaysSafe(Encode(cp));
    case Short(e) => StaysEscape(e);
    case Hex(h) => StaysHex(h);
    case Pair(high, low) =>
      StaysHex(high);
      StaysHex(low);
      StaysJoin(['\\', 'u'] + high, ['\\', 'u'] + low, LITERAL);
  }

  lemma RawSafe(cp: Rune)
    requires Raw(cp).Valid()
    ensures Safe(Encode(cp))
  {
    forall c | c in Encode(cp) ensures c != '"' && c != '\\' {
      if cp < 0x80 {
        assert Encode(cp) == [cp as char];
        assert c as int == cp;
      } else {
        assert c as int >= 0x80;
      }
    }
  }

  lemma {:induction false} StaysUnits(us: seq<Unit>)
    requires ValidUnits(us)
    ensures Stays(UnitsText(us), START)
  {
    if us == [] {
      assert "\""[1..] == "";
      assert Labels("\"", LITERAL) == [Inside] + Labels("", START);
      assert After("\"", LITERAL) == After("", START);
    } else {
      StaysUnit(us[0]);
      StaysUnits(us[1..]);
      StaysJoin(us[0].Text(), UnitsText(us[1..]), START);
    }
  }

  lemma {:induction false} KeepAll(s: string, ls: seq<Label>)
    requires |s| == |ls| && Gap !in ls
    ensures Keep(s, ls) == s
  {
    if s != "" {
      KeepAll(s[1..], ls[1..]);
      assert s == [s[0]] + s[1..];
    }
  }

  lemma ReadsString(us: seq<Unit>)
    requires ValidUnits(us)
    ensures Reads("\"" + UnitsText(us), [Token] + Times(Inside, |UnitsText(us)|), "\"" + UnitsText(us))
  {
    var t := UnitsText(us);
    var s := "\"" + t;
    StaysUnits(us);
    assert s[1..] == t;
    KeepAll(s, Labels(s, START));
  }

  // ---- the tree and the scanner agree ----

  lemma PlainDigits(s: string)
    requires Digits(s)
    ensures Plain(s)
  {
  }

  lemma PlainJoin(a: string, b: string)
    requires Plain(a) && Plain(b)
    ensures Plain(a + b)
  {
  }

  lemma PlainNumber(n: Number)
    requires n.Valid()
    ensures Plain(n.Text())
  {
    PlainDigits(n.whole);
    if n.frac != "" {
      PlainDigits(n.frac[1..]);
      assert n.frac == ['.'] + n.frac[1..];
    }
    if n.exp != "" {
      var k := if Digits(n.exp[1..]) then 1 else 2;
      PlainDigits(n.exp[k..]);
      assert n.exp == n.exp[..k] + n.exp[k..];
      assert Plain(n.exp[..k]);
    }
    PlainJoin(n.frac, n.exp);
    PlainJoin(n.whole, n.frac + n.exp);
    PlainJoin(if n.minus then "-" else "", n.whole + (n.frac + n.exp));
  }

  lemma ReadsEmpty(open: char, pad: string, close: char)
    requires Plain([open, close]) && Blank(pad)
    ensures Reads([open] + (pad + [close]), [Token] + (Times(Gap, |pad|) + [Token]), [open] + ("" + [close]))
  {
    ReadsMark(open);
    ReadsMark(close);
    ReadsBlank(pad);
    ReadsJoin(pad, Times(Gap, |pad|), "", [close], [Token], [close]);
    ReadsJoin([open], [Token], [open], pad + [close], Times(Gap, |pad|) + [Token], "" + [close]);
  }

  lemma ReadsMark(c: char)
    requires !Space(c) && c != '"'
    ensures Reads([c], [Token], [c])
  {
    ReadsPlain([c]);
    assert Times(Token, 1) == [Token];
  }

  lemma {:induction false} ReadsValue(v: Value)
    requires ValidValue(v)
    ensures Reads(ValueText(v), ValueLabels(v), ValueText(Strip(v)))
    decreases v, 2
  {
    match v
    case Literal(word) => ReadsPlain(word);
    case Num(n) =>
      PlainNumber(n);
      ReadsPlain(n.Text());
    case Str(us) => ReadsString(us);
    case EmptyArray(pad) => ReadsEmpty('[', pad, ']');
    case Array(items) =>
      ReadsItems(items);
      ReadsMark('[');
      ReadsJoin("[", [Token], "[", ItemsText(items), ItemsLabels(items), ItemsText(StripItems(items)));
    case EmptyObject(pad) => ReadsEmpty('{', pad, '}');
    case Object(ms) =>
      ReadsMembers(ms);
      ReadsMark('{');
      ReadsJoin("{", [Token], "{", MembersText(ms), MembersLabels(ms), MembersText(StripMembers(ms)));
  }

  lemma {:induction false} ReadsItems(items: Items)
    requires ValidItems(items)
    ensures Reads(ItemsText(items), ItemsLabels(items), ItemsText(StripItems(items)))
    decreases items, 2
  {
    var t, lt, kt := "]", [Token], "]";
    ReadsMark(']');
    if items.Item? {
      ReadsItems(items.rest);
      ReadsMark(',');
      t, lt, kt := "," + ItemsText(items.rest), [Token] + ItemsLabels(items.rest),
                   "," + ItemsText(StripItems(items.rest));
      ReadsJoin(",", [Token], ",", ItemsText(items.rest), ItemsLabels(items.rest), ItemsText(StripItems(items.rest)));
    }
    ReadsBlank(items.pre);
    ReadsValue(items.v);
    ReadsBlank(items.post);
    var v, lv, kv := ValueText(items.v), ValueLabels(items.v), ValueText(Strip(items.v));
    var lpre, lpost := Times(Gap, |items.pre|), Times(Gap, |items.post|);
    ReadsJoin(items.post, lpost, "", t, lt, kt);
    ReadsJoin(v, lv, kv, items.post + t, lpost + lt, "" + kt);
    ReadsJoin(items.pre, lpre, "", v + (items.post + t), lv + (lpost + lt), kv + ("" + kt));
  }

  lemma {:induction false} ReadsEntryValue(m: Entry)
    requires ValidEntry(m)
    ensures Reads(":" + (m.pad + (ValueText(m.v) + m.post)),
                  [Token] + (Times(Gap, |m.pad|) + (ValueLabels(m.v) + Times(Gap, |m.post|))),
                  ":" + ("" + (ValueText(Strip(m.v)) + "")))
    decreases m, 0
  {
    ReadsMark(':');
    ReadsBlank(m.pad);
    ReadsValue(m.v);
    ReadsBlank(m.post);
    var v, lv, kv := ValueText(m.v), ValueLabels(m.v), ValueText(Strip(m.v));
    ReadsJoin(v, lv, kv, m.post, Times(Gap, |m.post|), "");
    ReadsJoin(m.pad, Times(Gap, |m.pad|), "", v + m.post, lv + Times(Gap, |m.post|), kv + "");
    ReadsJoin(":", [Token], ":", m.pad + (v + m.post), Times(Gap, |m.pad|) + (lv + Times(Gap, |m.post|)), "" + (kv + ""));
  }

  lemma {:induction false} ReadsEntry(m: Entry)
    requires ValidEntry(m)
    ensures Reads(EntryText(m), EntryLabels(m), EntryText(StripEntry(m)))
    decreases m, 1
  {
    ReadsBlank(m.pre);
    ReadsString(m.key);
    ReadsBlank(m.mid);
    ReadsEntryValue(m);
    var t := ":" + (m.pad + (ValueText(m.v) + m.post));
    var l := [Token] + (Times(Gap, |m.pad|) + (ValueLabels(m.v) + Times(Gap, |m.post|)));
    var k := ":" + ("" + (ValueText(Strip(m.v)) + ""));
    var key, lkey := UnitsText(m.key), Times(Inside, |UnitsText(m.key)|);
    ReadsJoin(m.mid, Times(Gap, |m.mid|), "", t, l, k);
    ReadsJoin("\"" + key, [Token] + lkey, "\"" + key, m.mid + t, Times(Gap, |m.mid|) + l, "" + k);
    Assoc("\"", key, m.mid + t);
    Assoc("\"", key, "" + k);
    Assoc([Token], lkey, Times(Gap, |m.mid|) + l);
    ReadsJoin(m.pre, Times(Gap, |m.pre|), "", "\"" + (key + (m.mid + t)),
              [Token] + (lkey + (Times(Gap, |m.mid|) + l)), "\"" + (key + ("" + k)));
  }

  lemma {:induction false} ReadsMembers(ms: Members)
    requires ValidMembers(ms)
    ensures Reads(MembersText(ms), MembersLabels(ms), MembersText(StripMembers(ms)))
    decreases ms, 2
  {
    var t, lt, kt := "}", [Token], "}";
    ReadsMark('}');
    if ms.Member? {
      ReadsMembers(ms.rest);
      ReadsMark(',');
      t, lt, kt := "," + MembersText(ms.rest), [Token] + MembersLabels(ms.rest),
                   "," + MembersText(StripMembers(ms.rest));
      ReadsJoin(",", [Token], ",", MembersText(ms.rest), MembersLabels(ms.rest), MembersText(StripMembers(ms.rest)));
    }
    ReadsEntry(ms.m);
    ReadsJoin(EntryText(ms.m), EntryLabels(ms.m), EntryText(StripEntry(ms.m)), t, lt, kt);
  }

  /** At every byte of a valid text the two-bit scanner and the syntax tree agree, and what the copy
      pass emits is the text of the same tree without its gaps. */
  lemma ScannerAgrees(doc: Document)
    requires doc.Valid()
    ensures Labels(doc.Text(), START) == DocumentLabels(doc)
    ensures Squeeze(doc.Text()) == StripDocument(doc).Text()
  {
    ReadsBlank(doc.pre);
    ReadsValue(doc.v);
    ReadsBlank(doc.post);
    var v, lv, kv := ValueText(doc.v), ValueLabels(doc.v), ValueText(Strip(doc.v));
    ReadsJoin(v, lv, kv, doc.post, Times(Gap, |doc.post|), "");
    ReadsJoin(doc.pre, Times(Gap, |doc.pre|), "", v + doc.post, lv + Times(Gap, |doc.post|), kv + "");
  }
}
