/** Condensing tool output by lines, condense_family.go and condense_primitives.go: which lines are kept, the
    markers that stand for the rest, and runs of repeated lines. Which lines count as a failure or are worth
    keeping are predicates nothing here looks into. */
module Condense {
  import opened Basics
  import opened JsonPrinter

  // ---- lines ----

  /** strings.Split on newlines: a trailing newline makes a last empty line. */
  function Split(s: string): (lines: seq<string>)
    ensures |lines| > 0
  {
    if s == "" then [""]
    else if s[0] == '\n' then [""] + Split(s[1..])
    else
      var rest := Split(s[1..]);
      [[s[0]] + rest[0]] + rest[1..]
  }

  function Join(lines: seq<string>): string {
    if lines == [] then ""
    else if |lines| == 1 then lines[0]
    else lines[0] + ("\n" + Join(lines[1..]))
  }

  /** Splitting loses nothing. */
  lemma {:induction false} JoinOfSplit(s: string)
    ensures Join(Split(s)) == s
    ensures forall l <- Split(s) :: '\n' !in l
  {
    if s != "" {
      var rest := Split(s[1..]);
      JoinOfSplit(s[1..]);
      assert s == [s[0]] + s[1..];
      if s[0] == '\n' {
        assert ([""] + rest)[1..] == rest;
        assert "" + ("\n" + Join(rest)) == ['\n'] + Join(rest);
      } else {
        var lines := [[s[0]] + rest[0]] + rest[1..];
        assert lines[1..] == rest[1..] && rest == [rest[0]] + rest[1..];
        HeadGrows(s[0], rest[0], rest[1..]);
      }
    }
  }

  lemma HeadGrows(c: char, head: string, tail: seq<string>)
    ensures Join([[c] + head] + tail) == [c] + Join([head] + tail)
  {
    assert ([[c] + head] + tail)[1..] == tail && ([head] + tail)[1..] == tail;
    if tail != [] {
      var rest := "\n" + Join(tail);
      assert ([c] + head) + rest == [c] + (head + rest);
    }
  }

  // ---- what is shown ----

  /** One piece of the output: a line verbatim, or a marker for a run of lines left out. */
  datatype Piece = Line(text: string) | Elided(count: nat)
  {
    function Text(): string {
      match this
      case Line(text) => text
      case Elided(count) => "... " + Decimal(count) + " lines elided ..."
    }

    /** The input lines this piece stands for, as far as it shows them. */
    function Stands(): seq<Slot> {
      match this
      case Line(text) => [Shown(text)]
      case Elided(count) => seq(count, i => Hidden)
    }
  }

  datatype Slot = Shown(text: string) | Hidden

  function Flush(elided: nat): seq<Piece> {
    if elided > 0 then [Elided(elided)] else []
  }

  /** The pieces for the lines still to come, with `elided` lines waiting to be announced. */
  function Pieces(lines: seq<string>, keep: seq<bool>, elided: nat): seq<Piece>
    requires |lines| == |keep|
  {
    if lines == [] then Flush(elided)
    else if keep[0] then Flush(elided) + [Line(lines[0])] + Pieces(lines[1..], keep[1..], 0)
    else Pieces(lines[1..], keep[1..], elided + 1)
  }

  function Expand(pieces: seq<Piece>): seq<Slot> {
    if pieces == [] then [] else pieces[0].Stands() + Expand(pieces[1..])
  }

  /** The input with what is not kept blanked out. */
  function Masked(lines: seq<string>, keep: seq<bool>): (r: seq<Slot>)
    requires |lines| == |keep|
    ensures |r| == |lines|
  {
    seq(|lines|, i requires 0 <= i < |lines| => if keep[i] then Shown(lines[i]) else Hidden)
  }

  predicate IsElided(pieces: seq<Piece>, i: nat)
    requires i < |pieces|
  {
    pieces[i].Elided?
  }

  /** Markers are for at least one line, and no two stand next to each other. */
  predicate RunsAreMaximal(pieces: seq<Piece>) {
    && (forall i | 0 <= i < |pieces| && IsElided(pieces, i) :: pieces[i].count > 0)
    && (forall i | 0 <= i < |pieces| && IsElided(pieces, i) :: i + 1 < |pieces| ==> !IsElided(pieces, i + 1))
  }

  function Blanks(n: nat): seq<Slot> {
    seq(n, i => Hidden)
  }

  lemma ExpandCons(p: Piece, rest: seq<Piece>)
    ensures Expand([p] + rest) == p.Stands() + Expand(rest)
  {
    assert ([p] + rest)[1..] == rest;
  }

  lemma ExpandFlush(elided: nat, rest: seq<Piece>)
    ensures Expand(Flush(elided) + rest) == Blanks(elided) + Expand(rest)
  {
    if elided > 0 {
      ExpandCons(Elided(elided), rest);
    } else {
      assert Flush(elided) + rest == rest && Blanks(0) + Expand(rest) == Expand(rest);
    }
  }

  /** The lines are conserved: put back as many blanks as each marker says and the output is the input with
      exactly the lines that are not kept blanked out. */
  lemma {:induction false} PiecesConserve(lines: seq<string>, keep: seq<bool>, elided: nat)
    requires |lines| == |keep|
    ensures Expand(Pieces(lines, keep, elided)) == Blanks(elided) + Masked(lines, keep)
  {
    if lines == [] {
      ExpandFlush(elided, []);
      assert Flush(elided) + [] == Flush(elided) && Masked(lines, keep) == [];
    } else {
      MaskedStep(lines, keep);
      var rest := Masked(lines[1..], keep[1..]);
      hide Masked, Blanks;
      if keep[0] {
        var tail := Pieces(lines[1..], keep[1..], 0);
        PiecesConserve(lines[1..], keep[1..], 0);
        ExpandCons(Line(lines[0]), tail);
        ExpandFlush(elided, [Line(lines[0])] + tail);
        assert Flush(elided) + [Line(lines[0])] + tail == Flush(elided) + ([Line(lines[0])] + tail);
        NoBlanks(rest);
      } else {
        PiecesConserve(lines[1..], keep[1..], elided + 1);
        OneMoreBlank(elided, rest);
      }
    }
  }

  lemma MaskedStep(lines: seq<string>, keep: seq<bool>)
    requires |lines| == |keep| > 0
    ensures Masked(lines, keep) == [if keep[0] then Shown(lines[0]) else Hidden] + Masked(lines[1..], keep[1..])
  {
  }

  lemma NoBlanks(rest: seq<Slot>)
    ensures Blanks(0) + rest == rest
  {
  }

  lemma OneMoreBlank(n: nat, rest: seq<Slot>)
    ensures Blanks(n + 1) + rest == Blanks(n) + ([Hidden] + rest)
  {
  }

  lemma {:induction false} PiecesAreMaximal(lines: seq<string>, keep: seq<bool>, elided: nat)
    requires |lines| == |keep|
    ensures var ps := Pieces(lines, keep, elided);
            RunsAreMaximal(ps) && (elided > 0 ==> ps != [])
  {
    if lines != [] {
      if keep[0] {
        var tail := Pieces(lines[1..], keep[1..], 0);
        PiecesAreMaximal(lines[1..], keep[1..], 0);
        MaximalCons(Line(lines[0]), tail);
        if elided > 0 {
          MaximalCons(Elided(elided), [Line(lines[0])] + tail);
          assert Flush(elided) + [Line(lines[0])] + tail == [Elided(elided)] + ([Line(lines[0])] + tail);
        } else {
          assert Flush(elided) + [Line(lines[0])] + tail == [Line(lines[0])] + tail;
        }
      } else {
        PiecesAreMaximal(lines[1..], keep[1..], elided + 1);
      }
    }
  }

  lemma MaximalCons(p: Piece, rest: seq<Piece>)
    requires RunsAreMaximal(rest) && (p.Elided? ==> p.count > 0 && (rest != [] ==> rest[0].Line?))
    ensures RunsAreMaximal([p] + rest)
  {
    var all := [p] + rest;
    forall i | 0 <= i < |all| && IsElided(all, i)
      ensures all[i].count > 0 && (i + 1 < |all| ==> !IsElided(all, i + 1))
    {
      if i > 0 {
        assert IsElided(rest, i - 1);
        assert i < |rest| ==> all[i + 1] == rest[i] && !IsElided(rest, (i - 1) + 1);
      }
    }
  }

  // ---- which lines are kept ----

  datatype Rule = Rule(
    fails: string -> bool,
    keeps: string -> bool,
    requireFailNonzero: bool,
    head: int,
    tail: int,
    ctxBefore: int,
    ctxAfter: int)

  /** In the window around a failure line. */
  predicate NearFailure(lines: seq<string>, i: int, rule: Rule) {
    exists f | 0 <= f < |lines| :: rule.fails(lines[f]) && f - rule.ctxBefore <= i <= f + rule.ctxAfter
  }

  predicate Keeps(lines: seq<string>, i: int, rule: Rule)
    requires 0 <= i < |lines|
  {
    i < rule.head || i + rule.tail >= |lines| || rule.keeps(lines[i]) || NearFailure(lines, i, rule)
  }

  function KeepMask(lines: seq<string>, rule: Rule): (keep: seq<bool>)
    ensures |keep| == |lines|
  {
    seq(|lines|, i requires 0 <= i < |lines| => Keeps(lines, i, rule))
  }

  predicate AnyFailure(lines: seq<string>, rule: Rule) {
    exists i | 0 <= i < |lines| :: rule.fails(lines[i])
  }

  datatype Filtered = Passthrough | Condensed(pieces: seq<Piece>)

  function Filter(exitCode: int, lines: seq<string>, rule: Rule): Filtered {
    if rule.requireFailNonzero && exitCode != 0 && !AnyFailure(lines, rule) then Passthrough
    else Condensed(Pieces(lines, KeepMask(lines, rule), 0))
  }

  lemma {:induction false} ExpandShows(pieces: seq<Piece>, i: nat, text: string)
    requires i < |Expand(pieces)| && Expand(pieces)[i] == Shown(text)
    ensures Line(text) in pieces
  {
    var n := |pieces[0].Stands()|;
    assert pieces == [pieces[0]] + pieces[1..];
    if i >= n {
      ExpandShows(pieces[1..], i - n, text);
    }
  }

  /** Every line is shown or counted: with the windows of all failures in it, the output stands for the input
      line by line, in order. */
  lemma FilterConserves(exitCode: int, lines: seq<string>, rule: Rule)
    ensures var r := Filter(exitCode, lines, rule);
            r.Condensed? ==>
              && RunsAreMaximal(r.pieces) && |Expand(r.pieces)| == |lines|
              && forall i | 0 <= i < |lines| ::
                   Expand(r.pieces)[i] == if Keeps(lines, i, rule) then Shown(lines[i]) else Hidden
  {
    hide Keeps, RunsAreMaximal, Pieces, Expand, AnyFailure, Blanks;
    var keep := KeepMask(lines, rule);
    PiecesConserve(lines, keep, 0);
    PiecesAreMaximal(lines, keep, 0);
    NoBlanks(Masked(lines, keep));
  }

  /** A command that failed is condensed only if a failure line is there, and then one is shown verbatim; it is
      refused exactly when the cause could not be recognised. */
  lemma FailureStaysVisible(exitCode: int, lines: seq<string>, rule: Rule)
    requires rule.requireFailNonzero && exitCode != 0 && rule.ctxBefore >= 0 && rule.ctxAfter >= 0
    ensures Filter(exitCode, lines, rule) == Passthrough <==> forall l <- lines :: !rule.fails(l)
    ensures var r := Filter(exitCode, lines, rule);
            r.Condensed? ==> exists l <- lines :: rule.fails(l) && Line(l) in r.pieces
  {
    FilterConserves(exitCode, lines, rule);
    if AnyFailure(lines, rule) {
      var f :| 0 <= f < |lines| && rule.fails(lines[f]);
      assert lines[f] in lines && NearFailure(lines, f, rule);
      var pieces := Filter(exitCode, lines, rule).pieces;
      ExpandShows(pieces, f, lines[f]);
    }
    hide Pieces, KeepMask, Expand, NearFailure;
  }

  // ---- the filter as it runs ----

  /** The mask so far: the first n lines have been looked at. */
  predicate Marked(lines: seq<string>, i: int, n: int, rule: Rule)
    requires 0 <= i < |lines|
  {
    || (i < n && (i < rule.head || i + rule.tail >= |lines| || rule.keeps(lines[i])))
    || exists f | 0 <= f < n && f < |lines| :: rule.fails(lines[f]) && f - rule.ctxBefore <= i <= f + rule.ctxAfter
  }

  lemma MarkedNext(lines: seq<string>, i: int, n: int, rule: Rule)
    requires 0 <= i < |lines| && 0 <= n < |lines|
    ensures Marked(lines, i, n + 1, rule) <==>
            || Marked(lines, i, n, rule)
            || (i == n && (i < rule.head || i + rule.tail >= |lines| || rule.keeps(lines[i])))
            || (rule.fails(lines[n]) && n - rule.ctxBefore <= i <= n + rule.ctxAfter)
  {
  }

  method MarkLines(lines: seq<string>, rule: Rule) returns (keep: array<bool>)
    ensures fresh(keep) && keep[..] == KeepMask(lines, rule)
  {
    keep := new bool[|lines|](i => false);
    var n := 0;
    while n < |lines|
      invariant 0 <= n <= |lines| == keep.Length
      invariant forall i | 0 <= i < |lines| :: keep[i] == Marked(lines, i, n, rule)
    {
      forall i | 0 <= i < |lines| ensures Marked(lines, i, n + 1, rule) <==>
            || Marked(lines, i, n, rule)
            || (i == n && (i < rule.head || i + rule.tail >= |lines| || rule.keeps(lines[i])))
            || (rule.fails(lines[n]) && n - rule.ctxBefore <= i <= n + rule.ctxAfter)
      {
        MarkedNext(lines, i, n, rule);
      }
      hide Marked;
      if n < rule.head || n + rule.tail >= |lines| || rule.keeps(lines[n]) {
        keep[n] := true;
      }
      if rule.fails(lines[n]) {
        MarkWindow(keep, n - rule.ctxBefore, n + rule.ctxAfter);
      }
      n := n + 1;
    }
    forall i | 0 <= i < |lines| ensures keep[i] == Keeps(lines, i, rule) {
      assert Marked(lines, i, |lines|, rule) <==> Keeps(lines, i, rule);
    }
    assert keep[..] == KeepMask(lines, rule);
  }

  /** Marks a window, cut to the array. */
  method MarkWindow(keep: array<bool>, from: int, to: int)
    modifies keep
    ensures forall i | 0 <= i < keep.Length :: keep[i] == (old(keep[i]) || from <= i <= to)
  {
    var j := if from < 0 then 0 else from;
    var hi := if to > keep.Length - 1 then keep.Length - 1 else to;
    while j <= hi
      invariant 0 <= j && from <= j && (j <= hi + 1 || j == from || j == 0)
      invariant forall i | 0 <= i < keep.Length :: keep[i] == (old(keep[i]) || (from <= i < j && i <= hi))
    {
      keep[j] := true;
      j := j + 1;
    }
  }

  /** tcSignalFilter: the marked array is walked once, the run of unmarked lines flushed ahead of each marked
      one. */
  method SignalFilter(exitCode: int, text: string, rule: Rule) returns (out: string, ok: bool)
    ensures var r := Filter(exitCode, Split(text), rule);
            (ok <==> r.Condensed?) && out == if r.Condensed? then Join(Texts(r.pieces)) else ""
  {
    var lines := Split(text);
    var anyFail := HasFailure(lines, rule);
    if rule.requireFailNonzero && exitCode != 0 && !anyFail {
      return "", false;
    }
    var keep := MarkLines(lines, rule);
    var pieces := Collapse(lines, keep[..]);
    return Join(Texts(pieces)), true;
  }

  method HasFailure(lines: seq<string>, rule: Rule) returns (any: bool)
    ensures any <==> AnyFailure(lines, rule)
  {
    var i := 0;
    while i < |lines|
      invariant 0 <= i <= |lines| && forall j | 0 <= j < i :: !rule.fails(lines[j])
    {
      if rule.fails(lines[i]) {
        return true;
      }
      i := i + 1;
    }
    any := false;
  }

  method Collapse(lines: seq<string>, keep: seq<bool>) returns (out: seq<Piece>)
    requires |lines| == |keep|
    ensures out == Pieces(lines, keep, 0)
  {
    out := [];
    var elided, i := 0, 0;
    while i < |lines|
      invariant 0 <= i <= |lines|
      invariant Pieces(lines, keep, 0) == out + Pieces(lines[i..], keep[i..], elided)
    {
      assert lines[i..][1..] == lines[i + 1..] && keep[i..][1..] == keep[i + 1..];
      if keep[i] {
        AssocFour(out, Flush(elided), [Line(lines[i])], Pieces(lines[i + 1..], keep[i + 1..], 0));
        out := out + Flush(elided) + [Line(lines[i])];
        elided := 0;
      } else {
        elided := elided + 1;
      }
      i := i + 1;
    }
    out := out + Flush(elided);
  }

  function Texts(pieces: seq<Piece>): (r: seq<string>)
    ensures |r| == |pieces| && forall i | 0 <= i < |r| :: r[i] == pieces[i].Text()
  {
    seq(|pieces|, i requires 0 <= i < |pieces| => pieces[i].Text())
  }

  /** When every line is kept the text comes back byte for byte. */
  lemma AllKeptIsVerbatim(exitCode: int, text: string, rule: Rule)
    requires forall i | 0 <= i < |Split(text)| :: Keeps(Split(text), i, rule)
    requires Filter(exitCode, Split(text), rule).Condensed?
    ensures Join(Texts(Filter(exitCode, Split(text), rule).pieces)) == text
  {
    var lines := Split(text);
    var keep := KeepMask(lines, rule);
    hide Keeps, Split;
    AllLines(lines, keep);
    JoinOfSplit(text);
  }

  lemma {:induction false} AllLines(lines: seq<string>, keep: seq<bool>)
    requires |lines| == |keep| && forall i | 0 <= i < |keep| :: keep[i]
    ensures Texts(Pieces(lines, keep, 0)) == lines
  {
    if lines != [] {
      AllLines(lines[1..], keep[1..]);
      var rest := Pieces(lines[1..], keep[1..], 0);
      assert Pieces(lines, keep, 0) == [] + [Line(lines[0])] + rest;
      hide *;
      assert [] + [Line(lines[0])] + rest == [Line(lines[0])] + rest;
      TextsCons(lines[0], rest);
      assert lines == [lines[0]] + lines[1..];
    }
  }

  lemma TextsCons(l: string, rest: seq<Piece>)
    ensures Texts([Line(l)] + rest) == [l] + Texts(rest)
  {
  }

  // ---- repeated lines ----

  /** A line and how often it stands in a row. */
  datatype Run = Run(text: string, count: nat)
  {
    function Text(): string {
      if count > 1 then text + "  (x" + Decimal(count) + ")" else text
    }
  }

  function RunLength(lines: seq<string>): (n: nat)
    requires lines != []
    ensures 1 <= n <= |lines| && (forall i | 0 <= i < n :: lines[i] == lines[0])
    ensures n < |lines| ==> lines[n] != lines[0]
  {
    if |lines| > 1 && lines[1] == lines[0] then
      assert lines[1..][0] == lines[0];
      1 + RunLength(lines[1..])
    else 1
  }

  function Runs(lines: seq<string>): seq<Run> {
    if lines == [] then []
    else [Run(lines[0], RunLength(lines))] + Runs(lines[RunLength(lines)..])
  }

  function Copies(text: string, n: nat): (r: seq<string>)
    ensures |r| == n && forall i | 0 <= i < n :: r[i] == text
  {
    seq(n, i => text)
  }

  function Unrolled(runs: seq<Run>): seq<string> {
    if runs == [] then [] else Copies(runs[0].text, runs[0].count) + Unrolled(runs[1..])
  }

  predicate NoTwinRuns(runs: seq<Run>) {
    forall i | 0 < i < |runs| :: runs[i].text != runs[i - 1].text
  }

  lemma NoTwinsCons(r: Run, rest: seq<Run>)
    requires NoTwinRuns(rest) && (rest != [] ==> rest[0].text != r.text)
    ensures NoTwinRuns([r] + rest)
  {
  }

  lemma UnrolledCons(r: Run, rest: seq<Run>)
    ensures Unrolled([r] + rest) == Copies(r.text, r.count) + Unrolled(rest)
  {
    assert ([r] + rest)[1..] == rest;
  }

  lemma FrontIsCopies(lines: seq<string>)
    requires lines != []
    ensures Copies(lines[0], RunLength(lines)) + lines[RunLength(lines)..] == lines
  {
  }

  /** Counting immediate repeats loses nothing, and no two neighbouring runs are of the same line. */
  lemma {:induction false} RunsConserve(lines: seq<string>)
    ensures Unrolled(Runs(lines)) == lines && NoTwinRuns(Runs(lines))
    ensures lines != [] ==> Runs(lines) != [] && Runs(lines)[0].text == lines[0]
    decreases |lines|
  {
    if lines != [] {
      var n := RunLength(lines);
      RunsConserve(lines[n..]);
      var r, rest := Run(lines[0], n), Runs(lines[n..]);
      assert n < |lines| ==> lines[n..][0] == lines[n];
      assert n == |lines| ==> lines[n..] == [] && rest == [];
      NoTwinsCons(r, rest);
      UnrolledCons(r, rest);
      FrontIsCopies(lines);
      assert Runs(lines) == [r] + rest;
      hide *;
    }
  }

  method DedupLines(text: string) returns (out: string)
    ensures out == Join(RunTexts(Runs(Split(text))))
  {
    var lines := Split(text);
    var runs: seq<Run>, i := [], 0;
    NoRuns(lines);
    hide *;
    while i < |lines|
      invariant 0 <= i <= |lines|
      invariant Runs(lines) == runs + Runs(lines[i..])
    {
      var run := 1;
      while i + run < |lines| && lines[i + run] == lines[i]
        invariant 1 <= run <= |lines| - i
        invariant forall j | i <= j < i + run :: lines[j] == lines[i]
      {
        run := run + 1;
      }
      NextRun(lines, i, run);
      AppendRun(runs, Run(lines[i], run), Runs(lines[i + run..]));
      runs := runs + [Run(lines[i], run)];
      i := i + run;
    }
    assert runs + [] == runs;
    out := Join(RunTexts(runs));
  }

  lemma NoRuns(lines: seq<string>)
    ensures lines[0..] == lines && [] + Runs(lines) == Runs(lines) && Runs(lines[|lines|..]) == []
  {
  }

  lemma AppendRun(runs: seq<Run>, r: Run, rest: seq<Run>)
    ensures runs + ([r] + rest) == (runs + [r]) + rest
  {
  }

  lemma NextRun(lines: seq<string>, i: nat, run: nat)
    requires i < |lines| && 1 <= run <= |lines| - i && forall j | i <= j < i + run :: lines[j] == lines[i]
    requires i + run < |lines| ==> lines[i + run] != lines[i]
    ensures Runs(lines[i..]) == [Run(lines[i], run)] + Runs(lines[i + run..])
  {
    var rest := lines[i..];
    assert RunLength(rest) == run;
    assert rest[run..] == lines[i + run..];
  }

  function RunTexts(runs: seq<Run>): (r: seq<string>)
    ensures |r| == |runs| && forall i | 0 <= i < |r| :: r[i] == runs[i].Text()
  {
    seq(|runs|, i requires 0 <= i < |runs| => runs[i].Text())
  }

  // ---- head, tail and a signal ----

  function Clamp(n: int): nat {
    if n < 0 then 0 else n
  }

  function TruncateMask(lines: seq<string>, head: int, tail: int, signal: string -> bool): (keep: seq<bool>)
    ensures |keep| == |lines|
  {
    seq(|lines|, i requires 0 <= i < |lines| => i < Clamp(head) || i >= |lines| - Clamp(tail) || signal(lines[i]))
  }

  /** TCTruncateWithSignal, the signal as a predicate on lines. */
  method TruncateWithSignal(text: string, head: int, tail: int, signal: string -> bool) returns (out: string)
    ensures var lines := Split(text);
            out == if Clamp(head) + Clamp(tail) >= |lines| then text
                   else Join(Texts(Pieces(lines, TruncateMask(lines, head, tail, signal), 0)))
  {
    var lines := Split(text);
    if Clamp(head) + Clamp(tail) >= |lines| {
      return text;
    }
    var pieces := Collapse(lines, TruncateMask(lines, head, tail, signal));
    out := Join(Texts(pieces));
  }

  /** The first head and last tail lines are shown, and every line that carries the signal. */
  lemma TruncateConserves(lines: seq<string>, head: int, tail: int, signal: string -> bool)
    ensures var out := Expand(Pieces(lines, TruncateMask(lines, head, tail, signal), 0));
            |out| == |lines| && forall i | 0 <= i < |lines| ::
              out[i] == if i < head || (tail > 0 && i + tail >= |lines|) || signal(lines[i]) then Shown(lines[i]) else Hidden
  {
    var keep := TruncateMask(lines, head, tail, signal);
    PiecesConserve(lines, keep, 0);
    NoBlanks(Masked(lines, keep));
    var out := Expand(Pieces(lines, keep, 0));
    assert out == Masked(lines, keep);
    hide *;
    forall i | 0 <= i < |lines|
      ensures out[i] == if i < head || (tail > 0 && i + tail >= |lines|) || signal(lines[i]) then Shown(lines[i]) else Hidden
    {
      TruncatedAt(lines, head, tail, signal, i);
    }
  }

  lemma TruncatedAt(lines: seq<string>, head: int, tail: int, signal: string -> bool, i: nat)
    requires i < |lines|
    ensures Masked(lines, TruncateMask(lines, head, tail, signal))[i]
            == if i < head || (tail > 0 && i + tail >= |lines|) || signal(lines[i]) then Shown(lines[i]) else Hidden
  {
  }
}
