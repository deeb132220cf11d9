/** The command-line parser of np_project1/Parser.cpp. */
module PipelineParser {
  import opened Commands
  import opened CommandLines
  import opened Decimals
  import opened LineMeanings
  import opened Splitting

  /** `isspace` in the C locale. */
  predicate IsSpace(c: char) {
    c in " \t\n\r" || IsFeed(c)
  }

  /** White space that does not separate words: vertical tab and form feed. */
  predicate IsFeed(c: char) {
    c as int == 11 || c as int == 12
  }

  // ------------------------------------------------------------------ what a segment means

  /** `find`: the position of the first `>`, |s| if there is none. */
  function FindRedirect(s: string): (n: nat)
    ensures n <= |s| && (forall k :: 0 <= k < n ==> s[k] != '>') && (n < |s| ==> s[n] == '>')
  {
    if s == "" || s[0] == '>' then 0 else 1 + FindRedirect(s[1..])
  }

  /** The words behind the first `>`: the name of a file and more arguments. */
  function Behind(s: string): seq<string> {
    var n := FindRedirect(s);
    if n < |s| then Tokens(s[n + 1..], DELIMS) else []
  }

  /** A `>` is followed by the name of a file. */
  predicate TextOk(s: string) {
    FindRedirect(s) < |s| ==> Behind(s) != []
  }

  function Filename(s: string): string
    requires TextOk(s)
  {
    if FindRedirect(s) < |s| then Behind(s)[0] else ""
  }

  function Args(s: string): seq<string>
    requires TextOk(s)
  {
    Tokens(s[..FindRedirect(s)], DELIMS) + if FindRedirect(s) < |s| then Behind(s)[1..] else []
  }

  predicate SegmentOk(seg: Segment) {
    seg.Segment? ==> TextOk(seg.text)
  }

  /**
   The command of a segment, none if it has no words. A lone last character is an argument as it is. (A
   segment with a `>` and no file name has no meaning; it stands for no command here.)
   */
  function CommandsOf(seg: Segment): seq<Command> {
    match seg
    case Segment(text, pipe, exclamation, count) =>
      if !TextOk(text) || Args(text) == [] then []
      else [Command(Args(text), Filename(text), count, pipe, exclamation, false, false, 0, 0)]
    case Lone(c) =>
      if IsSpace(c) || IsDigit(c) then [] else [Command([[c]], "", 0, false, false, false, false, 0, 0)]
  }

  /** The lines the parser is made for: one line, with a file name behind every `>`. */
  predicate Readable(line: string) {
    OneLine(line) && AllOk(Segments(line, ""), SegmentOk)
  }

  /** What a line means. */
  function Parsed(line: string): seq<Command> {
    Meaning(Segments(line, ""), CommandsOf)
  }

  /** The commands of a line, with the marks for the first and the last one. */
  function Marked(line: string): (cmds: seq<Command>)
    ensures Unmarked(cmds) == Parsed(line) && HaveArgs(cmds)
  {
    assert forall seg :: Unmarked(CommandsOf(seg)) == CommandsOf(seg) && HaveArgs(CommandsOf(seg));
    MarkedMeans(Segments(line, ""), true, CommandsOf);
    MarkedHaveArgs(Segments(line, ""), true, CommandsOf);
    MarkedFrom(Segments(line, ""), true, CommandsOf)
  }

  // ------------------------------------------------------------------ the parser

  /** The body of the branch that inserts a command. */
  method ParseSegment(text: string, pipe: bool, exclamation: bool, num: nat, first: bool, last: bool)
    returns (cmds: seq<Command>)
    requires TextOk(text)
    ensures cmds == MarkAll(CommandsOf(Segment(text, pipe, exclamation, num)), first, last)
  {
    var finalCmd, filename, argsAfter := text, "", [];
    var pos := FindRedirect(finalCmd);
    if pos < |finalCmd| {
      filename := finalCmd[pos + 1..];
      argsAfter := SplitWithDelims(filename, DELIMS);
      filename := argsAfter[0];
      argsAfter := argsAfter[1..];
      finalCmd := finalCmd[..pos];
    } else {
      assert text[..pos] == text;
    }
    var args := SplitWithDelims(finalCmd, DELIMS);
    args := args + argsAfter;
    if |args| != 0 {
      cmds := [Command(args, filename, num, pipe, exclamation, first, last, 0, 0)];
    } else {
      cmds := [];
    }
  }

  lemma NoWords()
    ensures CommandsOf(Segment("", false, false, 0)) == []
  {
  }

  lemma SegmentIsOk(seg: Segment)
    ensures SegmentOk(seg) && seg.Segment? ==> TextOk(seg.text)
  {
  }

  lemma LoneWord(c: char)
    requires !IsSpace(c)
    ensures Tokens([c], DELIMS) == [[c]]
  {
    TokensWord([c], "", DELIMS);
    assert [c] + "" == [c];
  }

  /** The branch for a single character behind the last operator. */
  method ParseLone(c: char) returns (cmds: seq<Command>)
    ensures cmds == MarkAll(CommandsOf(Lone(c)), false, true)
  {
    cmds := [];
    if !IsSpace(c) && !IsDigit(c) {
      var charCmd := SplitWithDelims([c], DELIMS);
      LoneWord(c);
      cmds := [Command(charCmd, "", 0, false, false, false, true, 0, 0)];
    }
  }

  /** `get_command_list` of np_project1. */
  method GetCommandList(line: string) returns (cmds: seq<Command>)
    requires Readable(line)
    ensures cmds == Marked(line)
  {
    hide Stands, Segments, AfterOperator, TextOk, SegmentOk, AllOk, CommandsOf, DigitCount, Value, MarkAll;
    cmds := [];
    var temp, pipeTemp, flag, i := "", "", false, 0;
    NoWords();
    Begin(line, SegmentOk, CommandsOf);
    while i < |line|
      invariant i <= |line| && !flag && Stands(line, Remaining(line, i, temp), cmds, SegmentOk, CommandsOf)
      decreases |line| - i
    {
      ghost var i0, temp0 := i, temp;
      var num, exclamation, pipeFlag := 0, false, false;
      if line[i] == '|' || line[i] == '!' {
        exclamation := line[i] == '!';
        pipeFlag := line[i] == '|';
        num, i := ReadNumber(line, i + 1);
        OperatorRemaining(line, i0, temp0, i);
        flag := true;
        pipeTemp := temp;
        temp := "";
      } else {
        TextRemaining(line, i, temp);
      }
      ghost var j := i;
      if i < |line| && !IsLineEnd(line[i]) {
        temp := temp + [line[i]];
        i := i + 1;
      }
      assert flag && j < |line| ==> temp == [line[j]];
      if i == |line| || flag {
        var finalCmd := if flag then pipeTemp else temp;
        ghost var seg := Segment(finalCmd, pipeFlag, exclamation, num);
        ghost var rest := if flag then AfterOperator(line[j..]) else [];
        SegmentRead(line, seg, rest, cmds, SegmentOk, CommandsOf);
        NothingFollows(line, j);
        SegmentIsOk(seg);
        var more := ParseSegment(finalCmd, pipeFlag, exclamation, num, cmds == [], i == |line| && temp == "");
        assert more == Marks(seg, cmds == [], rest == [], CommandsOf);
        cmds := cmds + more;
        if i == |line| && flag && |temp| != 0 {
          SegmentRead(line, Lone(line[j]), [], cmds, SegmentOk, CommandsOf);
          var last := ParseLone(line[i - 1]);
          cmds := cmds + last;
        }
        flag := false;
      }
    }
    Finished(line, cmds, SegmentOk, CommandsOf);
  }
}
