/** What both command-line parsers make of the segments of a line, given what each makes of one segment. */
module LineMeanings {
  import opened CommandLines
  import opened Commands
  import opened Decimals

  /** The commands of all segments, one after the other. */
  function Meaning(segs: seq<Segment>, f: Segment -> seq<Command>): seq<Command> {
    if segs == [] then [] else f(segs[0]) + Meaning(segs[1..], f)
  }

  predicate AllOk(segs: seq<Segment>, ok: Segment -> bool) {
    forall i :: 0 <= i < |segs| ==> ok(segs[i])
  }

  lemma AllOkRest(seg: Segment, segs: seq<Segment>, ok: Segment -> bool)
    ensures AllOk([seg] + segs, ok) <==> ok(seg) && AllOk(segs, ok)
  {
    assert ([seg] + segs)[0] == seg;
    assert forall i :: 0 <= i < |segs| ==> segs[i] == ([seg] + segs)[i + 1];
  }

  lemma MeaningCons(seg: Segment, segs: seq<Segment>, f: Segment -> seq<Command>)
    ensures Meaning([seg] + segs, f) == f(seg) + Meaning(segs, f)
    ensures Meaning([seg], f) == f(seg)
  {
    assert ([seg] + segs)[1..] == segs && [seg][1..] == [];
  }

  lemma {:induction false} MeaningConcat(a: seq<Segment>, b: seq<Segment>, f: Segment -> seq<Command>)
    ensures Meaning(a + b, f) == Meaning(a, f) + Meaning(b, f)
  {
    if a == [] {
      assert a + b == b;
    } else {
      assert a + b == [a[0]] + (a[1..] + b) && [a[0]] + a[1..] == a;
      MeaningConcat(a[1..], b, f);
      MeaningCons(a[0], a[1..] + b, f);
      var first, x, y := f(a[0]), Meaning(a[1..], f), Meaning(b, f);
      assert first + (x + y) == (first + x) + y;
    }
  }

  // ------------------------------------------------------------------ the first and the last command

  /** The commands with their marks: the first of them may be the first of the line, and all of them the last. */
  function MarkAll(cmds: seq<Command>, first: bool, last: bool): seq<Command> {
    seq(|cmds|, k requires 0 <= k < |cmds| => cmds[k].(first := first && k == 0, last := last))
  }

  lemma MarkAllMore(a: seq<Command>, b: seq<Command>, first: bool, last: bool)
    ensures MarkAll(a + b, first, last) == MarkAll(a, first, last) + MarkAll(b, first && a == [], last)
    ensures MarkAll([], first, last) == []
  {
  }

  /**
   A segment's commands as the parsers mark them. The first command of the line is marked as such, unless it is a
   lone character; marked as the last are those in front of an operator that ends the line, and a lone character.
   */
  function Marks(seg: Segment, none: bool, final: bool, f: Segment -> seq<Command>): seq<Command> {
    MarkAll(f(seg), seg.Segment? && none, seg.Lone? || (final && (seg.pipe || seg.exclamation)))
  }

  /** The commands of all segments with their marks; `none` tells that there was no command before. */
  function MarkedFrom(segs: seq<Segment>, none: bool, f: Segment -> seq<Command>): seq<Command> {
    if segs == [] then []
    else Marks(segs[0], none, |segs| == 1, f) + MarkedFrom(segs[1..], none && f(segs[0]) == [], f)
  }

  /** Without the marks they are what the segments mean. */
  lemma {:induction false} MarkedMeans(segs: seq<Segment>, none: bool, f: Segment -> seq<Command>)
    requires forall seg :: Unmarked(f(seg)) == f(seg)
    ensures Unmarked(MarkedFrom(segs, none, f)) == Meaning(segs, f)
  {
    UnmarkedNone();
    if segs != [] {
      MarkedMeans(segs[1..], none && f(segs[0]) == [], f);
      UnmarkedMore(Marks(segs[0], none, |segs| == 1, f), MarkedFrom(segs[1..], none && f(segs[0]) == [], f));
      assert Unmarked(Marks(segs[0], none, |segs| == 1, f)) == Unmarked(f(segs[0]));
    }
  }

  /** A command that is parsed has arguments. */
  lemma {:induction false} MarkedHaveArgs(segs: seq<Segment>, none: bool, f: Segment -> seq<Command>)
    requires forall seg :: HaveArgs(f(seg))
    ensures HaveArgs(MarkedFrom(segs, none, f))
  {
    if segs != [] {
      MarkedHaveArgs(segs[1..], none && f(segs[0]) == [], f);
    }
  }

  // ------------------------------------------------------------------ reading a line

  /** What is parsed, together with the commands of the rest of the line, are the commands of the line. */
  ghost predicate Stands(line: string, rest: seq<Segment>, done: seq<Command>, ok: Segment -> bool,
                         f: Segment -> seq<Command>)
  {
    AllOk(rest, ok) && done + MarkedFrom(rest, done == [], f) == MarkedFrom(Segments(line, ""), true, f)
  }

  lemma Begin(line: string, ok: Segment -> bool, f: Segment -> seq<Command>)
    requires AllOk(Segments(line, ""), ok) && f(Segment("", false, false, 0)) == []
    ensures Stands(line, Remaining(line, 0, ""), [], ok, f)
  {
    assert line[0..] == line;
    if line == "" {
      var seg := Segment("", false, false, 0);
      assert Segments(line, "") == [seg] && [seg][1..] == [];
      MarkAllMore([], [], true, false);
      assert MarkedFrom([seg], true, f) == [];
    }
  }

  lemma SegmentRead(line: string, seg: Segment, rest: seq<Segment>, done: seq<Command>, ok: Segment -> bool,
                    f: Segment -> seq<Command>)
    requires Stands(line, [seg] + rest, done, ok, f)
    ensures ok(seg) && Stands(line, rest, done + Marks(seg, done == [], rest == [], f), ok, f)
  {
    hide Segments;
    AllOkRest(seg, rest, ok);
    assert ([seg] + rest)[1..] == rest;
    var marked, more := Marks(seg, done == [], rest == [], f), MarkedFrom(rest, done == [] && f(seg) == [], f);
    assert (done + marked == []) == (done == [] && f(seg) == []);
    assert done + (marked + more) == done + marked + more;
  }

  lemma Finished(line: string, done: seq<Command>, ok: Segment -> bool, f: Segment -> seq<Command>)
    requires Stands(line, [], done, ok, f)
    ensures done == MarkedFrom(Segments(line, ""), true, f)
  {
  }

  // ------------------------------------------------------------------ blanks behind an operator

  /** A blank in front of a segment means nothing. */
  ghost predicate BlindToBlanks(ok: Segment -> bool, f: Segment -> seq<Command>) {
    forall seg: Segment | seg.Segment? && ok(seg) :: f(seg.(text := " " + seg.text)) == f(seg)
  }

  /**
   For any line around it: a blank behind an operator and its number makes a difference if and only if a
   single character follows and is read differently behind a blank.
   */
  lemma BlankBehind(before: string, op: char, digits: string, rest: string, ok: Segment -> bool,
                    f: Segment -> seq<Command>)
    requires Complete(before) && IsOperator(op) && AllDigits(digits)
    requires rest != "" && !IsDigit(rest[0]) && !IsOperator(rest[0]) && BlindToBlanks(ok, f)
    requires AllOk(Segments(before + ([op] + digits + rest), ""), ok)
    ensures (Meaning(Segments(before + ([op] + digits + (" " + rest)), ""), f) ==
             Meaning(Segments(before + ([op] + digits + rest), ""), f))
            <==> (|rest| == 1 ==> f(Segment(" " + rest, false, false, 0)) == f(Lone(rest[0])))
  {
    hide Segments, AfterOperator, Meaning, AllOk, BlindToBlanks;
    CutAtOperator(before, op, digits, " " + rest, "");
    CutAtOperator(before, op, digits, rest, "");
    AfterBlank(rest);
    var segs := Segments(before + ([op] + digits), "");
    MeaningConcat(segs, Segments(rest, " "), f);
    MeaningConcat(segs, AfterOperator(rest), f);
    SamePrefix(Meaning(segs, f), Meaning(Segments(rest, " "), f), Meaning(AfterOperator(rest), f));
    if |rest| == 1 {
      OneCharacterLeft(rest);
      MeaningCons(Segment(" " + rest, false, false, 0), [], f);
      MeaningCons(Lone(rest[0]), [], f);
    } else {
      AllOkSuffix(segs, AfterOperator(rest), ok);
      ManyBehind(rest, ok, f);
    }
  }

  lemma AllOkSuffix(a: seq<Segment>, b: seq<Segment>, ok: Segment -> bool)
    requires AllOk(a + b, ok)
    ensures AllOk(b, ok)
  {
    assert forall i :: 0 <= i < |b| ==> b[i] == (a + b)[|a| + i];
  }

  lemma ManyBehind(rest: string, ok: Segment -> bool, f: Segment -> seq<Command>)
    requires |rest| > 1 && !IsOperator(rest[0]) && AllOk(AfterOperator(rest), ok) && BlindToBlanks(ok, f)
    ensures Meaning(Segments(rest, " "), f) == Meaning(AfterOperator(rest), f)
  {
    hide Segments, AfterOperator;
    BehindOperator(rest);
    TextAhead(" ", rest, "");
    assert " " + "" == " ";
    var spaced, tight := Segments(rest, " "), Segments(rest, "");
    assert ok(tight[0]) && f(spaced[0]) == f(tight[0]);
  }
}
