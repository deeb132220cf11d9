/** Whole lines of np_project2/Parser.cpp: round trip, and the command that is lost at the end. */
module UserPipeLines {
  import opened CommandLines
  import opened Commands
  import opened Decimals
  import opened LineMeanings
  import opened Splitting
  import opened UserPipeParser
  import opened UserPipeRoundTrip

  /** The commands of one segment, each with its items in any order, and the blanks around their words. */
  datatype Piece = Piece(cmds: seq<Command>, groups: seq<seq<Item>>, mode: Mode, gaps: seq<string>) {
    function Items(): seq<Item> {
      Concat(groups)
    }

    function Typing(): Printed {
      Printed(gaps, AllTokens(Items()), mode.pipe, mode.exclamation, mode.count)
    }

    /** The words do not look like redirections, and no file has a name like `>1`. */
    predicate Ok() {
      && cmds != [] && Together(cmds, groups, "", mode) && CanBeTyped(Items())
      && (forall i :: 0 <= i < |Items()| && Items()[i].File? ==> !IsUserPipeOut(Items()[i].name))
      && Typing().Ok() && Apart(gaps)
    }
  }

  function Typings(pieces: seq<Piece>): seq<Printed> {
    seq(|pieces|, i requires 0 <= i < |pieces| => pieces[i].Typing())
  }

  function AllCommands(pieces: seq<Piece>): seq<Command> {
    if pieces == [] then [] else pieces[0].cmds + AllCommands(pieces[1..])
  }

  /** Every segment but the last ends with an operator; a last segment of one character needs a blank. */
  predicate Writable(pieces: seq<Piece>) {
    && Typed(Typings(pieces))
    && (forall i :: 0 <= i < |pieces| ==> pieces[i].Ok())
    && (forall i :: 0 < i < |pieces| ==> SegmentOf(pieces[i].Typing(), false).Segment?)
  }

  lemma {:induction false} NothingSwallowed(items: seq<Item>)
    requires forall i :: 0 <= i < |items| ==> items[i].File? ==> !IsUserPipeOut(items[i].name)
    ensures Swallowed(items) == 0
  {
    if items != [] {
      NothingSwallowed(items[1..]);
    }
  }

  /** The text of a piece, whatever the blanks are, means its commands. */
  lemma PieceMeans(p: Piece)
    requires p.Ok()
    ensures var seg := SegmentOf(p.Typing(), true);
      seg.Segment? && SegmentOk(seg) && CommandsOf(seg) == p.cmds
  {
    hide Tokens, Spaced, SegmentCommands, FilesNamed, UserPipeParser.Items, Together, CanBeTyped;
    var t := p.Typing();
    assert t.Text() == Spaced(t.words, t.gaps);
    TokensSpaced(t.words, t.gaps, DELIMS);
    SegmentItems(p.Items());
    SegmentRoundTrip(p.cmds, p.groups, "", p.mode);
    NothingSwallowed(p.Items());
  }

  lemma {:induction false} PiecesMean(pieces: seq<Piece>, first: bool)
    requires forall i :: 0 <= i < |pieces| ==> pieces[i].Ok()
    requires forall i :: (if first then 1 else 0) <= i < |pieces| ==> SegmentOf(pieces[i].Typing(), false).Segment?
    ensures var segs := SegmentsOf(Typings(pieces), first);
      AllOk(segs, SegmentOk) && Meaning(segs, CommandsOf) == AllCommands(pieces)
  {
    hide SegmentOk, CommandsOf, Piece.Ok, Piece.Typing;
    if pieces != [] {
      var seg, rest := SegmentOf(pieces[0].Typing(), first), SegmentsOf(Typings(pieces[1..]), false);
      PieceMeans(pieces[0]);
      PiecesMean(pieces[1..], false);
      assert Typings(pieces)[1..] == Typings(pieces[1..]);
      assert SegmentsOf(Typings(pieces), first) == [seg] + rest;
      MeaningCons(seg, rest, CommandsOf);
      AllOkRest(seg, rest, SegmentOk);
    }
  }

  /** Round trip: parsing a written line gives back the commands of all its segments. */
  lemma LineRoundTrip(pieces: seq<Piece>)
    requires Writable(pieces) && pieces != []
    ensures var line := Line(Typings(pieces));
      Readable(line) && Parsed(line) == AllCommands(pieces)
  {
    LineSegments(Typings(pieces));
    LineIsOne(Typings(pieces));
    PiecesMean(pieces, true);
  }

  // ------------------------------------------------------------------ the character that is lost

  lemma Blind()
    ensures BlindToBlanks(SegmentOk, CommandsOf)
  {
    hide SegmentCommands, FilesNamed, Items, Swallowed;
    forall seg: Segment | seg.Segment? && SegmentOk(seg)
      ensures CommandsOf(seg.(text := " " + seg.text)) == CommandsOf(seg)
    {
      TokensSkip(" ", seg.text, DELIMS);
    }
  }

  lemma SpacedCharacter(rest: string)
    requires |rest| == 1
    requires SegmentOk(Segment(" " + rest, false, false, 0))
    ensures CommandsOf(Segment(" " + rest, false, false, 0)) == [] <==> rest[0] in "\t "
  {
    TokensSkip(" ", rest, DELIMS);
    assert rest + "" == rest;
    if rest[0] in DELIMS {
      TokensSkip(rest, "", DELIMS);
    } else {
      TokensWord(rest, "", DELIMS);
      OneToken(rest);
    }
  }

  lemma OneToken(w: string)
    requires |w| == 1 && FilesNamed([w])
    ensures forall mode :: SegmentCommands(Items([w]), "", mode) != []
  {
    ArgIs(w);
    forall mode
      ensures SegmentCommands(Items([w]), "", mode) != []
    {
      OneWord(w, mode);
    }
  }

  /**
   A blank behind an operator matters in this parser if and only if a single character, other than a blank,
   stands between it and the end of the line: without the blank that command is lost.
   */
  lemma BlankMatters(before: string, op: char, digits: string, rest: string)
    requires Complete(before) && IsOperator(op) && AllDigits(digits)
    requires rest != "" && !IsDigit(rest[0]) && !IsOperator(rest[0])
    requires Readable(before + ([op] + digits + (" " + rest))) && Readable(before + ([op] + digits + rest))
    ensures (Parsed(before + ([op] + digits + (" " + rest))) == Parsed(before + ([op] + digits + rest)))
            <==> !(|rest| == 1 && rest[0] !in "\t ")
  {
    hide Segments, SegmentOk, CommandsOf, BlindToBlanks;
    Blind();
    BlankBehind(before, op, digits, rest, SegmentOk, CommandsOf);
    if |rest| == 1 {
      LastIsOk(before, op, digits, rest);
      SpacedCharacter(rest);
      LoneIsLost(rest[0]);
    }
  }

  lemma LoneIsLost(c: char)
    ensures SegmentOk(Lone(c)) && CommandsOf(Lone(c)) == []
  {
  }

  lemma LastIsOk(before: string, op: char, digits: string, rest: string)
    requires Complete(before) && IsOperator(op) && AllDigits(digits) && |rest| == 1 && !IsOperator(rest[0])
    requires AllOk(Segments(before + ([op] + digits + (" " + rest)), ""), SegmentOk)
    ensures SegmentOk(Segment(" " + rest, false, false, 0))
  {
    hide Segments, AfterOperator, SegmentOk;
    CutAtOperator(before, op, digits, " " + rest, "");
    AfterBlank(rest);
    OneCharacterLeft(rest);
    AllOkSuffix(Segments(before + ([op] + digits), ""), Segments(rest, " "), SegmentOk);
    assert SegmentOk([Segment(" " + rest, false, false, 0)][0]);
  }

  /** The case exists: of `ls|x` only the first command is parsed. */
  lemma LostWitness()
    ensures Readable("ls|x")
    ensures Parsed("ls|x") == [Command(["ls"], "", 0, true, false, false, false, 0, 0)]
  {
    hide SegmentOk, CommandsOf, Segments;
    var ls, x := Segment("ls", true, false, 0), Lone('x');
    LsSegments();
    OnlyLs();
    LoneIsLost('x');
    AllOkRest(ls, [x], SegmentOk);
    AllOkRest(x, [], SegmentOk);
    assert [x] + [] == [x];
    MeaningCons(ls, [x], CommandsOf);
    MeaningCons(x, [], CommandsOf);
  }

  lemma LsSegments()
    ensures Segments("ls|x", "") == [Segment("ls", true, false, 0)] + [Lone('x')] && OneLine("ls|x")
  {
    hide Segments, AfterOperator;
    assert "ls" + ("|" + "x") == "ls|x";
    AfterPipe("ls", "x");
    OneCharacterLeft("x");
  }

  lemma OnlyLs()
    ensures var ls := Segment("ls", true, false, 0);
      SegmentOk(ls) && CommandsOf(ls) == [Command(["ls"], "", 0, true, false, false, false, 0, 0)]
  {
    var w: string := "ls";
    TokensWord(w, "", DELIMS);
    assert w + "" == w && Tokens(w, DELIMS) == [w];
    OneWord(w, Mode(true, false, 0));
  }
}
