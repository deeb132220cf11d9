/** A line of np_project2 whose commands have a numbered pipe and a user pipe at once. */
module UserPipeExample {
  import opened CommandLines
  import opened Commands
  import opened Decimals
  import opened Splitting
  import opened UserPipeLines
  import opened UserPipeParser
  import opened UserPipeRoundTrip

  const LINE := "a >1|2 b >1|1"
  const A := Command(["a"], "", 2, true, false, false, false, 0, 1)
  const B := Command(["b"], "", 1, true, false, false, false, 0, 1)

  function PieceOf(c: Command, lead: string): Piece {
    Piece([c], [Written(c, "")], Mode(true, false, c.pipeCount), [lead, " ", ""])
  }

  /** A command of one letter with `>1` and a numbered pipe, as it is typed. */
  lemma PieceIs(c: Command, lead: string)
    requires c in {A, B} && lead in {"", " "}
    ensures PieceOf(c, lead).Ok() && PieceOf(c, lead).Typing().Text() == lead + c.args[0] + " >1"
    ensures PieceOf(c, lead).Typing().Operator() == "|" + if c == A then "2" else "1"
  {
    ItemsAre(c);
    TypingOk(c, lead);
    PieceOk(PieceOf(c, lead), c);
  }

  /** A word and `>1`, with blanks around them that the printed form allows. */
  lemma PieceOk(p: Piece, c: Command)
    requires p == Piece([c], [Written(c, "")], Mode(true, false, c.pipeCount), p.gaps)
    requires |c.args| == 1 && IsArg(c.args[0]) && Written(c, "") == [Plain(c.args[0]), Out(1)]
    requires AllTokens(Written(c, "")) == [c.args[0], ">1"] && c.filename == "" && !c.first && !c.last
    requires c.hasPipe && !c.hasExclamation && |p.gaps| == 3 && p.gaps[1] != ""
    requires Printed(p.gaps, [c.args[0], ">1"], true, false, c.pipeCount).Ok()
    ensures p.Ok() && p.Typing() == Printed(p.gaps, [c.args[0], ">1"], true, false, c.pipeCount)
  {
    hide Together, Written, AllTokens, Concat, IsArg, Printed.Ok;
    OneCommand(c, p.mode);
  }

  lemma TypingOk(c: Command, lead: string)
    requires c in {A, B} && lead in {"", " "}
    ensures var p := Printed([lead, " ", ""], [c.args[0], ">1"], true, false, c.pipeCount);
      && p.Ok() && p.Text() == lead + c.args[0] + " >1"
      && p.Operator() == "|" + if c == A then "2" else "1"
  {
    assert Decimal(1) == "1" && Decimal(2) == "2";
    hide Decimal, Spaced;
    WordsAre(c);
    TextOf(c.args[0], ">1", lead);
    assert " " + ">1" == " >1";
  }

  lemma TextOf(w: string, v: string, lead: string)
    ensures Spaced([w, v], [lead, " ", ""]) == lead + w + (" " + v)
  {
    var ws, gaps := [w, v], [lead, " ", ""];
    assert ws[1..] == [v] && ws[1..][1..] == [] && gaps[1..] == [" ", ""] && gaps[1..][1..] == [""];
    assert Spaced(ws[1..], gaps[1..]) == " " + v + "" == " " + v;
  }

  /** The word and `>1`. */
  lemma ItemsAre(c: Command)
    requires c in {A, B}
    ensures Written(c, "") == [Plain(c.args[0]), Out(1)] && AllTokens(Written(c, "")) == [c.args[0], ">1"]
  {
    assert Decimal(1) == "1" && ">" + "1" == ">1";
    var items := [Plain(c.args[0]), Out(1)];
    assert Written(c, "") == items && items[1..] == [Out(1)] && items[1..][1..] == [];
    assert AllTokens([Out(1)]) == [">1"] + [];
  }

  lemma WordsAre(c: Command)
    requires c in {A, B}
    ensures IsArg(c.args[0]) && AreWords([c.args[0], ">1"], "\t ") && AllLack([c.args[0], ">1"], "|!\n\r\0")
  {
  }

  lemma TwoPieces()
    ensures var p, q := PieceOf(A, ""), PieceOf(B, " ");
      Writable([p, q]) && CommandLines.Line(Typings([p, q])) == LINE
  {
    var p, q := PieceOf(A, ""), PieceOf(B, " ");
    hide Together, CanBeTyped, AllTokens, Concat, Spaced, Decimal, Apart, UserPipeRoundTrip.Written, Printed.Ok;
    PieceIs(A, "");
    PieceIs(B, " ");
    PieceTyped(p);
    PieceTyped(q);
    TextIs(p.Typing().Text(), p.Typing().Operator(), q.Typing().Text(), q.Typing().Operator());
    hide Piece.Ok, Piece.Typing, Printed.Text, Printed.Operator, Printed.Ok, Printed.Ends, SegmentOf, PieceOf;
    assert Typings([p, q]) == [p.Typing(), q.Typing()];
    TwoLine(p.Typing(), q.Typing());
  }

  lemma TextIs(a: string, x: string, b: string, y: string)
    requires a == "" + "a" + " >1" && x == "|" + "2" && b == " " + "b" + " >1" && y == "|" + "1"
    ensures a + x + (b + y) == LINE
  {
  }

  /** The line is parsed into the two commands. */
  lemma LineMeans()
    ensures Readable(LINE) && Parsed(LINE) == [A, B]
  {
    var p, q := PieceOf(A, ""), PieceOf(B, " ");
    assert p.cmds == [A] && q.cmds == [B];
    TwoPieces();
    hide Writable, Typings, Readable, Parsed, PieceOf;
    LineRoundTrip([p, q]);
    TwoCommands(p, q);
  }

  lemma TwoLine(p: Printed, q: Printed)
    ensures CommandLines.Line([p, q]) == p.Text() + p.Operator() + (q.Text() + q.Operator())
  {
    assert [p, q][1..] == [q] && [q][1..] == [];
    assert CommandLines.Line([q]) == q.Text() + q.Operator() + "";
  }

  lemma TwoCommands(p: Piece, q: Piece)
    ensures AllCommands([p, q]) == p.cmds + q.cmds
  {
    assert [p, q][1..] == [q] && [q][1..] == [];
    assert AllCommands([q]) == q.cmds + [];
  }

  lemma PieceTyped(p: Piece)
    requires p.Ok() && p.mode.pipe
    ensures p.Typing().Ok() && p.Typing().Ends() && p.Typing().gaps == p.gaps && SegmentOf(p.Typing(), false).Segment?
  {
  }
}
