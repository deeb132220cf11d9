/** What the parser of np_project1 is for: commands survive being written as a line. */
module PipelineRoundTrip {
  import opened CommandLines
  import opened Commands
  import opened Decimals
  import opened LineMeanings
  import opened PipelineParser
  import opened Splitting

  /** The characters that cannot be part of a word on a line. */
  const RESERVED := "|!>\n\r\0"

  predicate IsName(w: string) {
    IsWord(w, "\t ") && Lacks(w, RESERVED)
  }

  /** The commands that can be written: ordinary words, at most one operator, a number only with one. */
  predicate Writable(c: Command) {
    && c.args != [] && (forall i :: 0 <= i < |c.args| ==> IsName(c.args[i]))
    && (c.filename == "" || IsName(c.filename))
    && !(c.hasPipe && c.hasExclamation)
    && (!c.hasPipe && !c.hasExclamation ==> c.pipeCount == 0)
    && !c.first && !c.last && c.userIn == 0 && c.userOut == 0
  }

  /** The words of a command; a file is named behind the first `at` arguments, or behind all if there are fewer. */
  function Words(c: Command, at: nat): seq<string> {
    if c.filename == "" then c.args
    else
      var n := if at <= |c.args| then at else |c.args|;
      c.args[..n] + [">"] + ([c.filename] + c.args[n..])
  }

  /** Blanks around the words: some between two arguments, any number elsewhere, also around `>`. */
  predicate GapsOk(c: Command, at: nat, gaps: seq<string>) {
    var ws := Words(c, at);
    && |gaps| == |ws| + 1 && AllBlank(gaps, "\t ")
    && forall i :: 0 < i < |ws| && ws[i - 1] != ">" && ws[i] != ">" ==> gaps[i] != ""
  }

  function Written(c: Command, at: nat, gaps: seq<string>): Printed {
    Printed(gaps, Words(c, at), c.hasPipe, c.hasExclamation, c.pipeCount)
  }

  function AllWritten(cmds: seq<Command>, at: seq<nat>, gaps: seq<seq<string>>): (r: seq<Printed>)
    requires |cmds| == |at| == |gaps|
    ensures |r| == |cmds| && forall i :: 0 <= i < |cmds| ==> r[i] == Written(cmds[i], at[i], gaps[i])
  {
    seq(|cmds|, i requires 0 <= i < |cmds| => Written(cmds[i], at[i], gaps[i]))
  }

  lemma WrittenOk(c: Command, at: nat, gaps: seq<string>)
    requires Writable(c) && GapsOk(c, at, gaps)
    ensures Written(c, at, gaps).Ok()
  {
    var ws := Words(c, at);
    forall i | 0 <= i < |ws|
      ensures IsWord(ws[i], DELIMS) && Lacks(ws[i], "|!\n\r\0")
    {
      WordIs(c, at, i);
    }
  }

  /** A word is `>` or a name. */
  lemma WordIs(c: Command, at: nat, i: nat)
    requires Writable(c) && i < |Words(c, at)|
    ensures Words(c, at)[i] == ">" || IsName(Words(c, at)[i])
  {
  }

  // ------------------------------------------------------------------ one command

  lemma RedirectAt(before: string, behind: string)
    requires Lacks(before, ">")
    ensures FindRedirect(before) == |before| && before[..|before|] == before
    ensures var s := before + ">" + behind;
      FindRedirect(s) == |before| && s[..|before|] == before && s[|before| + 1..] == behind
  {
    var s := before + ">" + behind;
    assert s[|before|] == '>' && forall k :: 0 <= k < |before| ==> s[k] == before[k];
  }

  lemma ArgsSpaced(args: seq<string>, gaps: seq<string>)
    requires forall i :: 0 <= i < |args| ==> IsName(args[i])
    requires |gaps| == |args| + 1 && AllBlank(gaps, DELIMS) && Apart(gaps)
    ensures Tokens(Spaced(args, gaps), DELIMS) == args && Lacks(Spaced(args, gaps), ">")
  {
    TokensSpaced(args, gaps, DELIMS);
    forall i, k | 0 <= i < |args| && 0 <= k < |args[i]|
      ensures args[i][k] !in ">"
    {
      assert IsName(args[i]) && args[i][k] !in RESERVED;
    }
    SpacedLacks(args, gaps, DELIMS, ">");
  }

  /**
   Words with a `>` among them, whatever the blanks are: the word behind it is the file, and all others, before and
   behind, are the arguments in their order.
   */
  lemma FileAnywhere(a: seq<string>, file: string, b: seq<string>, gaps: seq<string>)
    requires (forall i :: 0 <= i < |a| ==> IsName(a[i])) && IsName(file) && forall i :: 0 <= i < |b| ==> IsName(b[i])
    requires |gaps| == |a| + |b| + 3 && AllBlank(gaps, "\t ")
    requires Apart(gaps[..|a| + 1]) && Apart(gaps[|a| + 1..])
    ensures var text := Spaced(a + [">"] + ([file] + b), gaps);
      TextOk(text) && Args(text) == a + b && Filename(text) == file
  {
    hide FindRedirect, Tokens, Spaced, IsName;
    var text, n := Spaced(a + [">"] + ([file] + b), gaps), |a|;
    var left, right := gaps[..n + 1], gaps[n + 1..];
    SpacedAt(a, ">", [file] + b, gaps);
    assert AllBlank(left, DELIMS) && AllBlank(right, DELIMS);
    ArgsSpaced(a, left);
    ArgsSpaced([file] + b, right);
    RedirectAt(Spaced(a, left), Spaced([file] + b, right));
    assert ([file] + b)[0] == file && ([file] + b)[1..] == b;
  }

  /** The text of one command means that command, wherever its file is named and whatever the blanks are. */
  lemma TextMeans(c: Command, at: nat, gaps: seq<string>)
    requires Writable(c) && GapsOk(c, at, gaps)
    ensures var text := Spaced(Words(c, at), gaps);
      TextOk(text) && Args(text) == c.args && Filename(text) == c.filename
  {
    hide FindRedirect, Tokens, Spaced, IsName;
    if c.filename == "" {
      NoFileApart(c, at, gaps);
      ArgsSpaced(c.args, gaps);
      RedirectAt(Spaced(c.args, gaps), "");
    } else {
      FileApart(c, at, gaps);
      var n := if at <= |c.args| then at else |c.args|;
      FileAnywhere(c.args[..n], c.filename, c.args[n..], gaps);
      assert c.args[..n] + c.args[n..] == c.args;
    }
  }

  lemma NoFileApart(c: Command, at: nat, gaps: seq<string>)
    requires Writable(c) && GapsOk(c, at, gaps) && c.filename == ""
    ensures |gaps| == |c.args| + 1 && Apart(gaps)
  {
    forall i | 0 < i < |c.args|
      ensures gaps[i] != ""
    {
      NoArrow(c.args[i - 1]);
      NoArrow(c.args[i]);
      assert Words(c, at)[i - 1] != ">" && Words(c, at)[i] != ">";
    }
  }

  lemma FileApart(c: Command, at: nat, gaps: seq<string>)
    requires Writable(c) && GapsOk(c, at, gaps) && c.filename != ""
    ensures var n := if at <= |c.args| then at else |c.args|;
      |gaps| == |c.args| + 3 && Apart(gaps[..n + 1]) && Apart(gaps[n + 1..])
  {
    var n, ws := if at <= |c.args| then at else |c.args|, Words(c, at);
    forall i | 0 <= i < |ws| && i != n
      ensures ws[i] != ">"
    {
      assert ws[i] == if i < n then c.args[i] else if i == n + 1 then c.filename else c.args[i - 2];
      NoArrow(ws[i]);
    }
    forall i | 0 < i < |ws| && i != n && i != n + 1
      ensures gaps[i] != ""
    {
      assert ws[i - 1] != ">" && ws[i] != ">";
    }
  }

  lemma NoArrow(w: string)
    requires IsName(w)
    ensures w != ">"
  {
    assert '>' in RESERVED && ">"[0] == '>';
  }

  // ------------------------------------------------------------------ a line

  predicate MayFollow(c: char) {
    !('0' <= c <= '9') && c !in "\t\n\r " && c as int != 11 && c as int != 12
  }

  function FirstWord(c: Command, at: nat): (w: string)
    requires Writable(c)
    ensures w != ""
  {
    Words(c, at)[0]
  }

  /**
   Commands and the blanks around their words: every command but the last ends with an operator, and behind
   an operator no blank is needed unless a digit follows, or white space that is no blank.
   */
  predicate Typeable(cmds: seq<Command>, at: seq<nat>, gaps: seq<seq<string>>) {
    && |cmds| == |at| == |gaps|
    && (forall i :: 0 <= i < |cmds| ==> Writable(cmds[i]) && GapsOk(cmds[i], at[i], gaps[i]))
    && (forall i :: 0 <= i < |cmds| - 1 ==> cmds[i].CheckIfPipe())
    && (forall i :: 0 < i < |cmds| ==> gaps[i][0] != "" || MayFollow(FirstWord(cmds[i], at[i])[0]))
  }

  lemma WrittenTyped(cmds: seq<Command>, at: seq<nat>, gaps: seq<seq<string>>)
    requires Typeable(cmds, at, gaps)
    ensures Typed(AllWritten(cmds, at, gaps))
  {
    var ps := AllWritten(cmds, at, gaps);
    forall i | 0 <= i < |ps|
      ensures ps[i].Ok() && (0 < i ==> ps[i].gaps[0] != "" || !('0' <= ps[i].words[0][0] <= '9'))
    {
      WrittenOk(cmds[i], at[i], gaps[i]);
    }
  }

  lemma SegmentMeans(c: Command, at: nat, gaps: seq<string>, first: bool)
    requires Writable(c) && GapsOk(c, at, gaps)
    requires first || gaps[0] != "" || MayFollow(FirstWord(c, at)[0])
    ensures var seg := SegmentOf(Written(c, at, gaps), first);
      SegmentOk(seg) && CommandsOf(seg) == [c]
  {
    var p := Written(c, at, gaps);
    TextMeans(c, at, gaps);
    if SegmentOf(p, first).Lone? {
      OneCharacter(c, at, gaps);
      assert p.Text() == [p.Text()[0]];
    }
  }

  lemma OneCharacter(c: Command, at: nat, gaps: seq<string>)
    requires Writable(c) && GapsOk(c, at, gaps) && |Spaced(Words(c, at), gaps)| == 1
    ensures gaps[0] == "" && c.filename == "" && c.args == [Spaced(Words(c, at), gaps)]
  {
    var ws := Words(c, at);
    assert ws[0] == FirstWord(c, at);
    var rest := Spaced(ws[1..], gaps[1..]);
    assert Spaced(ws, gaps) == gaps[0] + ws[0] + rest;
    assert |ws| == 1;
    assert gaps[0] + ws[0] + rest == ws[0];
    assert c.args == ws && ws == [ws[0]];
  }

  lemma {:induction false} SegmentsMean(cmds: seq<Command>, at: seq<nat>, gaps: seq<seq<string>>, first: bool)
    requires Typeable(cmds, at, gaps) && |cmds| == |at| == |gaps|
    requires first || cmds == [] || gaps[0][0] != "" || MayFollow(FirstWord(cmds[0], at[0])[0])
    ensures var segs := SegmentsOf(AllWritten(cmds, at, gaps), first);
      AllOk(segs, SegmentOk) && Meaning(segs, CommandsOf) == cmds
  {
    hide CommandsOf, SegmentOk, Typeable, GapsOk, Writable, MayFollow, AllWritten, SegmentsOf, SegmentOf, Written;
    if cmds == [] {
      NothingWritten(first);
      assert gaps == [];
    } else {
      TypeableRest(cmds, at, gaps);
      SegmentMeans(cmds[0], at[0], gaps[0], first);
      SegmentsMean(cmds[1..], at[1..], gaps[1..], false);
      WrittenCons(cmds, at, gaps, first);
      var seg := SegmentOf(Written(cmds[0], at[0], gaps[0]), first);
      var rest := SegmentsOf(AllWritten(cmds[1..], at[1..], gaps[1..]), false);
      MeaningCons(seg, rest, CommandsOf);
      AllOkRest(seg, rest, SegmentOk);
      assert [cmds[0]] + cmds[1..] == cmds;
    }
  }

  lemma NothingWritten(first: bool)
    ensures SegmentsOf(AllWritten([], [], []), first) == []
  {
  }

  lemma WrittenCons(cmds: seq<Command>, at: seq<nat>, gaps: seq<seq<string>>, first: bool)
    requires |cmds| == |at| == |gaps| && cmds != []
    ensures SegmentsOf(AllWritten(cmds, at, gaps), first) ==
            [SegmentOf(Written(cmds[0], at[0], gaps[0]), first)]
            + SegmentsOf(AllWritten(cmds[1..], at[1..], gaps[1..]), false)
  {
    assert AllWritten(cmds, at, gaps)[1..] == AllWritten(cmds[1..], at[1..], gaps[1..]);
  }

  lemma TypeableRest(cmds: seq<Command>, at: seq<nat>, gaps: seq<seq<string>>)
    requires Typeable(cmds, at, gaps) && cmds != []
    ensures |cmds| == |at| == |gaps| && Typeable(cmds[1..], at[1..], gaps[1..]) && Writable(cmds[0])
    ensures GapsOk(cmds[0], at[0], gaps[0])
    ensures |cmds| > 1 ==> cmds[0].CheckIfPipe() && (gaps[1][0] != "" || MayFollow(FirstWord(cmds[1], at[1])[0]))
  {
  }

  /**
   Round trip: parsing a written command line gives back the commands, wherever a command names its file among its
   arguments, and whatever blanks were typed.
   */
  lemma RoundTrip(cmds: seq<Command>, at: seq<nat>, gaps: seq<seq<string>>)
    requires Typeable(cmds, at, gaps) && cmds != []
    ensures Typed(AllWritten(cmds, at, gaps))
    ensures var line := Line(AllWritten(cmds, at, gaps));
      Readable(line) && Parsed(line) == cmds
  {
    var ps := AllWritten(cmds, at, gaps);
    WrittenTyped(cmds, at, gaps);
    LineSegments(ps);
    LineIsOne(ps);
    SegmentsMean(cmds, at, gaps, true);
  }

  /**
   The marks of the commands of a written line: the first command is marked as the first; the last one is marked as the
   last only if it ends with an operator, or is a single character behind one.
   */
  lemma MarksMean(cmds: seq<Command>, at: seq<nat>, gaps: seq<seq<string>>)
    requires Typeable(cmds, at, gaps) && cmds != []
    ensures var marked := Marked(Line(AllWritten(cmds, at, gaps)));
      && |marked| == |cmds|
      && forall k :: 0 <= k < |cmds| ==>
           && marked[k].(first := false, last := false) == cmds[k] && (marked[k].first <==> k == 0)
           && (marked[k].last <==>
                 && k == |cmds| - 1
                 && (cmds[k].hasPipe || cmds[k].hasExclamation ||
                     (k > 0 && |Written(cmds[k], at[k], gaps[k]).Text()| == 1)))
  {
    var ps := AllWritten(cmds, at, gaps);
    WrittenTyped(cmds, at, gaps);
    LineSegments(ps);
    MarksFrom(cmds, at, gaps, true);
  }

  /** A command of a written line with its marks; `first` says that no operator stands before the line. */
  function MarkedAt(cmds: seq<Command>, at: seq<nat>, gaps: seq<seq<string>>, first: bool, k: nat): Command
    requires k < |cmds| == |at| == |gaps|
  {
    var alone := (!first || k > 0) && |Written(cmds[k], at[k], gaps[k]).Text()| == 1;
    cmds[k].(first := first && k == 0,
             last := k == |cmds| - 1 && (cmds[k].hasPipe || cmds[k].hasExclamation || alone))
  }

  lemma {:induction false} MarksFrom(cmds: seq<Command>, at: seq<nat>, gaps: seq<seq<string>>, first: bool)
    requires Typeable(cmds, at, gaps) && cmds != []
    requires first || gaps[0][0] != "" || MayFollow(FirstWord(cmds[0], at[0])[0])
    ensures var marked := MarkedFrom(SegmentsOf(AllWritten(cmds, at, gaps), first), first, CommandsOf);
      |marked| == |cmds| && forall k :: 0 <= k < |cmds| ==> marked[k] == MarkedAt(cmds, at, gaps, first, k)
  {
    hide CommandsOf, SegmentOk, Typeable, GapsOk, Writable, MayFollow, AllWritten, SegmentsOf, Written, MarkedAt;
    TypeableRest(cmds, at, gaps);
    SegmentMeans(cmds[0], at[0], gaps[0], first);
    WrittenCons(cmds, at, gaps, first);
    var seg := SegmentOf(Written(cmds[0], at[0], gaps[0]), first);
    var rest := SegmentsOf(AllWritten(cmds[1..], at[1..], gaps[1..]), false);
    hide SegmentOf, MarkedFrom, Marks;
    MarkedCons(seg, rest, first);
    if |cmds| > 1 {
      SomeWritten(cmds[1..], at[1..], gaps[1..]);
      MarksFrom(cmds[1..], at[1..], gaps[1..], false);
    } else {
      NothingWritten(false);
      assert cmds[1..] == [] && at[1..] == [] && gaps[1..] == [];
    }
    FirstMarks(cmds, at, gaps, first, rest == []);
    forall k | 0 < k < |cmds|
      ensures MarkedAt(cmds, at, gaps, first, k) == MarkedAt(cmds[1..], at[1..], gaps[1..], false, k - 1)
    {
      MarkedRest(cmds, at, gaps, first, k);
    }
  }

  lemma MarkedRest(cmds: seq<Command>, at: seq<nat>, gaps: seq<seq<string>>, first: bool, k: nat)
    requires 0 < k < |cmds| == |at| == |gaps|
    ensures MarkedAt(cmds, at, gaps, first, k) == MarkedAt(cmds[1..], at[1..], gaps[1..], false, k - 1)
  {
  }

  lemma SomeWritten(cmds: seq<Command>, at: seq<nat>, gaps: seq<seq<string>>)
    requires |cmds| == |at| == |gaps| && cmds != []
    ensures SegmentsOf(AllWritten(cmds, at, gaps), false) != []
  {
  }

  lemma MarkedCons(seg: Segment, rest: seq<Segment>, none: bool)
    ensures MarkedFrom([seg] + rest, none, CommandsOf) ==
            Marks(seg, none, rest == [], CommandsOf) + MarkedFrom(rest, none && CommandsOf(seg) == [], CommandsOf)
    ensures MarkedFrom([], none, CommandsOf) == []
  {
    assert ([seg] + rest)[1..] == rest;
  }

  lemma FirstMarks(cmds: seq<Command>, at: seq<nat>, gaps: seq<seq<string>>, first: bool, final: bool)
    requires |cmds| == |at| == |gaps| && cmds != [] && Writable(cmds[0]) && GapsOk(cmds[0], at[0], gaps[0])
    requires CommandsOf(SegmentOf(Written(cmds[0], at[0], gaps[0]), first)) == [cmds[0]]
    requires (final <==> |cmds| == 1) && (!final ==> cmds[0].hasPipe || cmds[0].hasExclamation)
    ensures Marks(SegmentOf(Written(cmds[0], at[0], gaps[0]), first), first, final, CommandsOf) ==
            [MarkedAt(cmds, at, gaps, first, 0)]
  {
    hide CommandsOf;
  }

  // ------------------------------------------------------------------ spacing

  /** A blank in front of a text means nothing. */
  lemma BlankAhead(text: string)
    ensures TextOk(" " + text) == TextOk(text)
    ensures TextOk(text) ==> Args(" " + text) == Args(text) && Filename(" " + text) == Filename(text)
  {
    var n, more := FindRedirect(text), " " + text;
    assert more[1..] == text;
    assert FindRedirect(more) == 1 + n;
    assert more[..1 + n] == " " + text[..n] && (n < |text| ==> more[2 + n..] == text[n + 1..]);
    TokensSkip(" ", text[..n], DELIMS);
  }

  lemma Blind()
    ensures BlindToBlanks(SegmentOk, CommandsOf)
  {
    forall seg: Segment | seg.Segment? && SegmentOk(seg)
      ensures CommandsOf(seg.(text := " " + seg.text)) == CommandsOf(seg)
    {
      BlankAhead(seg.text);
    }
  }

  /** A last character behind a blank is a word of its own unless it is a blank. */
  lemma SpacedCharacter(c: char)
    requires TextOk(" " + [c]) && !IsDigit(c) && !IsLineEnd(c)
    ensures CommandsOf(Segment(" " + [c], false, false, 0)) == CommandsOf(Lone(c)) <==> c as int != 11 && c as int != 12
  {
    BlankAhead([c]);
    var s := [c];
    NoTokens(DELIMS);
    assert s + "" == s;
    hide Tokens, SkipDelims;
    if c == '>' {
      assert false;
    } else {
      assert FindRedirect(s) == 1 && s[..1] == s;
      if c in DELIMS {
        TokensSkip(s, "", DELIMS);
      } else {
        TokensWord(s, "", DELIMS);
        assert Args(s) == [s] && Filename(s) == "";
      }
    }
  }

  /**
   Whether a blank stands behind an operator and its number or not makes no difference, for any line around it,
   except in one case: a vertical tab or form feed as the last character of the line is an argument behind a
   blank and nothing behind the operator.
   */
  lemma SpacingIndependence(before: string, op: char, digits: string, rest: string)
    requires Complete(before) && IsOperator(op) && AllDigits(digits)
    requires rest != "" && !IsDigit(rest[0]) && !IsOperator(rest[0])
    requires Readable(before + ([op] + digits + (" " + rest))) && Readable(before + ([op] + digits + rest))
    ensures (Parsed(before + ([op] + digits + (" " + rest))) == Parsed(before + ([op] + digits + rest)))
            <==> !(|rest| == 1 && (rest[0] as int == 11 || rest[0] as int == 12))
  {
    hide Segments, CommandsOf, TextOk, BlindToBlanks;
    Blind();
    BlankBehind(before, op, digits, rest, SegmentOk, CommandsOf);
    if |rest| == 1 {
      var spaced := before + ([op] + digits + (" " + rest));
      assert rest[0] == spaced[|spaced| - 1] && rest == [rest[0]];
      LastIsOk(before, op, digits, rest);
      SpacedCharacter(rest[0]);
    }
  }

  lemma LastIsOk(before: string, op: char, digits: string, rest: string)
    requires Complete(before) && IsOperator(op) && AllDigits(digits) && |rest| == 1 && !IsOperator(rest[0])
    requires AllOk(Segments(before + ([op] + digits + (" " + rest)), ""), SegmentOk)
    ensures TextOk(" " + rest)
  {
    hide Segments, AfterOperator, TextOk;
    CutAtOperator(before, op, digits, " " + rest, "");
    AfterBlank(rest);
    OneCharacterLeft(rest);
    AllOkSuffix(Segments(before + ([op] + digits), ""), Segments(rest, " "), SegmentOk);
    assert SegmentOk([Segment(" " + rest, false, false, 0)][0]);
  }

  lemma PlainOk(text: string)
    requires Lacks(text, ">")
    ensures TextOk(text)
  {
    RedirectAt(text, "");
  }

  /** The case exists: a form feed at the end is lost behind `|`, and an argument behind `| `. */
  lemma FeedWitness(feed: char)
    requires feed as int == 11 || feed as int == 12
    ensures var spaced, tight := "a" + ("|" + (" " + [feed])), "a" + ("|" + [feed]);
      Readable(spaced) && Readable(tight) && Parsed(spaced) != Parsed(tight)
  {
    hide Segments, AfterOperator, TextOk, CommandsOf;
    var spaced, tight := "a" + ("|" + (" " + [feed])), "a" + ("|" + [feed]);
    AfterPipe("a", " " + [feed]);
    AfterPipe("a", [feed]);
    AfterBlank([feed]);
    OneCharacterLeft([feed]);
    PlainOk("a");
    PlainOk(" " + [feed]);
    assert Readable(spaced) && Readable(tight);
    assert spaced == "a" + (['|'] + "" + (" " + [feed])) && tight == "a" + (['|'] + "" + [feed]);
    assert Complete("a");
    SpacingIndependence("a", '|', "", [feed]);
  }
}
