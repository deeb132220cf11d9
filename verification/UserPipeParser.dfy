/** The command-line parser of np_project2/Parser.cpp, which also splits a segment at every `>N`. */
module UserPipeParser {
  import opened CommandLines
  import opened Commands
  import opened Decimals
  import opened LineMeanings
  import opened Splitting

  // ------------------------------------------------------------------ tokens

  /** `^>$`, `^<[0-9]+$` and `^>[0-9]+$`. */
  predicate IsRedirection(arg: string) {
    arg == ">"
  }

  predicate IsUserPipeIn(arg: string) {
    |arg| > 1 && arg[0] == '<' && AllDigits(arg[1..])
  }

  predicate IsUserPipeOut(arg: string) {
    |arg| > 1 && arg[0] == '>' && AllDigits(arg[1..])
  }

  /** What the tokens of a segment say, one after the other. A `>` takes the next token along. */
  datatype Item = Plain(word: string) | In(uid: nat) | Out(uid: nat) | File(name: string)

  /** Behind every `>` stands a token. */
  predicate FilesNamed(tokens: seq<string>) {
    if tokens == [] then true
    else if IsRedirection(tokens[0]) then |tokens| > 1 && FilesNamed(tokens[2..])
    else FilesNamed(tokens[1..])
  }

  function Items(tokens: seq<string>): seq<Item>
    requires FilesNamed(tokens)
  {
    if tokens == [] then []
    else if IsRedirection(tokens[0]) then [File(tokens[1])] + Items(tokens[2..])
    else if IsUserPipeIn(tokens[0]) then [In(Value(tokens[0][1..]))] + Items(tokens[1..])
    else if IsUserPipeOut(tokens[0]) then [Out(Value(tokens[0][1..]))] + Items(tokens[1..])
    else [Plain(tokens[0])] + Items(tokens[1..])
  }

  /** `number_of_user_pipe_out` of a suffix. */
  function OutTokens(tokens: seq<string>): nat {
    if tokens == [] then 0 else (if IsUserPipeOut(tokens[0]) then 1 else 0) + OutTokens(tokens[1..])
  }

  function Outs(items: seq<Item>): nat {
    if items == [] then 0 else (if items[0].Out? then 1 else 0) + Outs(items[1..])
  }

  /** How many `>N` stand where a file name should be. */
  function Swallowed(items: seq<Item>): nat {
    if items == [] then 0
    else (if items[0].File? && IsUserPipeOut(items[0].name) then 1 else 0) + Swallowed(items[1..])
  }

  function Plains(items: seq<Item>): seq<string> {
    if items == [] then []
    else (if items[0].Plain? then [items[0].word] else []) + Plains(items[1..])
  }

  method NumberOfUserPipeOut(splitCmd: seq<string>) returns (number: nat)
    ensures number == OutTokens(splitCmd)
  {
    number := 0;
    var i := 0;
    while i < |splitCmd|
      invariant i <= |splitCmd| && number + OutTokens(splitCmd[i..]) == OutTokens(splitCmd)
    {
      assert splitCmd[i..][1..] == splitCmd[i + 1..];
      if IsUserPipeOut(splitCmd[i]) {
        number := number + 1;
      }
      i := i + 1;
    }
  }

  /** A `>N` is either read as a user pipe or taken for the name of a file. */
  lemma {:induction false} CountSplits(tokens: seq<string>)
    requires FilesNamed(tokens)
    ensures OutTokens(tokens) == Outs(Items(tokens)) + Swallowed(Items(tokens))
  {
    if tokens != [] {
      if IsRedirection(tokens[0]) {
        assert tokens[1..][1..] == tokens[2..];
        CountSplits(tokens[2..]);
      } else {
        CountSplits(tokens[1..]);
      }
    }
  }

  // ------------------------------------------------------------------ one command of a segment

  /** How many items one command takes: up to the next plain word behind a `>N`. */
  function Group(items: seq<Item>, out: bool): (n: nat)
    ensures n <= |items|
    ensures n < |items| ==> items[n].Plain?
    ensures items != [] && !out ==> n > 0
  {
    if items == [] || (out && items[0].Plain?) then 0
    else 1 + Group(items[1..], out || items[0].Out?)
  }

  /** The last of the user pipes read from, those written to, and the files, or what it was before. */
  function LastIn(items: seq<Item>, d: nat): nat {
    if items == [] then d else LastIn(items[1..], if items[0].In? then items[0].uid else d)
  }

  function LastOut(items: seq<Item>, d: nat): nat {
    if items == [] then d else LastOut(items[1..], if items[0].Out? then items[0].uid else d)
  }

  function LastFile(items: seq<Item>, d: string): string {
    if items == [] then d else LastFile(items[1..], if items[0].File? then items[0].name else d)
  }

  /** What a segment contributes to each of its commands. */
  datatype Mode = Mode(pipe: bool, exclamation: bool, count: nat)

  /** A command without arguments is not inserted. */
  function CommandOf(group: seq<Item>, filename: string, mode: Mode): seq<Command> {
    if Plains(group) == [] then []
    else [Command(Plains(group), LastFile(group, filename), mode.count, mode.pipe, mode.exclamation,
                  false, false, LastIn(group, 0), LastOut(group, 0))]
  }

  /** The commands of a segment. A file name stays until the next one; behind the last `>N` nothing is read. */
  function SegmentCommands(items: seq<Item>, filename: string, mode: Mode): seq<Command>
    decreases |items|
  {
    if items == [] then []
    else
      var n := Group(items, false);
      CommandOf(items[..n], filename, mode)
      + if Outs(items[n..]) == 0 then [] else SegmentCommands(items[n..], LastFile(items[..n], filename), mode)
  }

  /** The tokens left over from one item to the next. */
  lemma NextItem(tokens: seq<string>, pos: nat)
    requires pos < |tokens| && FilesNamed(tokens[pos..])
    ensures var items := Items(tokens[pos..]);
      && items != []
      && (if IsRedirection(tokens[pos]) then
            && pos + 1 < |tokens| && items[0] == File(tokens[pos + 1])
            && FilesNamed(tokens[pos + 2..]) && items[1..] == Items(tokens[pos + 2..])
          else
            && (IsUserPipeIn(tokens[pos]) ==> items[0] == In(Value(tokens[pos][1..])))
            && (IsUserPipeOut(tokens[pos]) ==> items[0] == Out(Value(tokens[pos][1..])))
            && (!IsUserPipeIn(tokens[pos]) && !IsUserPipeOut(tokens[pos]) ==> items[0] == Plain(tokens[pos]))
            && FilesNamed(tokens[pos + 1..]) && items[1..] == Items(tokens[pos + 1..]))
  {
    assert tokens[pos..][1..] == tokens[pos + 1..];
    if IsRedirection(tokens[pos]) {
      assert tokens[pos..][2..] == tokens[pos + 2..];
    }
  }

  /** What the loop of one pass still has to find. */
  ghost predicate Pending(items: seq<Item>, flag: bool, rest: seq<Item>, tail: seq<Item>) {
    items == rest + tail && Group(items, flag) == |rest|
  }

  lemma NoItems(tokens: seq<string>, pos: nat)
    requires pos <= |tokens| && FilesNamed(tokens[pos..])
    ensures pos == |tokens| ==> Items(tokens[pos..]) == []
  {
  }

  lemma PendingFirst(items: seq<Item>)
    ensures var n := Group(items, false); Pending(items, false, items[..n], items[n..])
  {
  }

  lemma PendingLast(items: seq<Item>, flag: bool, rest: seq<Item>, tail: seq<Item>)
    requires Pending(items, flag, rest, tail)
    requires items == [] || (flag && items[0].Plain?)
    ensures rest == [] && items == tail
  {
    assert [] + tail == tail;
  }

  lemma PendingStep(items: seq<Item>, flag: bool, rest: seq<Item>, tail: seq<Item>)
    requires Pending(items, flag, rest, tail) && items != [] && !(flag && items[0].Plain?)
    ensures rest != [] && rest[0] == items[0]
    ensures Pending(items[1..], flag || items[0].Out?, rest[1..], tail)
  {
    assert items[1..] == rest[1..] + tail;
  }

  /** What one pass has found. */
  datatype Found = Found(args: seq<string>, filename: string, userIn: nat, userOut: nat, left: int) {
    function Add(item: Item): Found {
      match item
      case Plain(word) => this.(args := args + [word])
      case In(uid) => this.(userIn := uid)
      case Out(uid) => this.(userOut := uid, left := left - 1)
      case File(name) => this.(filename := name)
    }

    function AddAll(items: seq<Item>): Found
      decreases |items|
    {
      if items == [] then this else Add(items[0]).AddAll(items[1..])
    }

    lemma {:induction false} AddAllIs(items: seq<Item>)
      ensures AddAll(items) == Found(args + Plains(items), LastFile(items, filename), LastIn(items, userIn),
                                     LastOut(items, userOut), left - Outs(items))
      decreases |items|
    {
      if items == [] {
        assert args + Plains(items) == args;
      } else {
        Add(items[0]).AddAllIs(items[1..]);
        assert Plains(items) == (if items[0].Plain? then [items[0].word] else []) + Plains(items[1..]);
      }
    }
  }

  /** The `for` loop over the tokens of one command. */
  method OnePass(splitCmd: seq<string>, start: nat, name: string, outsLeft: int)
    returns (pos: nat, filename: string, args: seq<string>, userIn: nat, userOut: nat, left: int)
    requires start <= |splitCmd| && FilesNamed(splitCmd[start..])
    ensures start <= pos <= |splitCmd| && FilesNamed(splitCmd[pos..])
    ensures
      var items := Items(splitCmd[start..]);
      var n := Group(items, false);
      && Items(splitCmd[pos..]) == items[n..]
      && args == Plains(items[..n]) && filename == LastFile(items[..n], name)
      && userIn == LastIn(items[..n], 0) && userOut == LastOut(items[..n], 0)
      && left == outsLeft - Outs(items[..n])
  {
    hide Items, FilesNamed, Pending, Plains, LastFile, LastIn, LastOut, Outs;
    ghost var items := Items(splitCmd[start..]);
    ghost var group, tail := items[..Group(items, false)], items[Group(items, false)..];
    ghost var rest, all := group, Found([], name, 0, 0, outsLeft).AddAll(group);
    PendingFirst(items);
    var flag := false;
    pos, filename, args, userIn, userOut, left := start, name, [], 0, 0, outsLeft;
    while pos < |splitCmd|
      invariant start <= pos <= |splitCmd| && FilesNamed(splitCmd[pos..])
      invariant Pending(Items(splitCmd[pos..]), flag, rest, tail)
      invariant Found(args, filename, userIn, userOut, left).AddAll(rest) == all
      decreases |splitCmd| - pos
    {
      var currentArg := splitCmd[pos];
      NextItem(splitCmd, pos);
      ghost var now, was := Items(splitCmd[pos..]), flag;
      if IsRedirection(currentArg) {
        pos := pos + 1;
        filename := splitCmd[pos];
      } else if IsUserPipeIn(currentArg) {
        userIn := Value(currentArg[1..]);
      } else if IsUserPipeOut(currentArg) {
        userOut := Value(currentArg[1..]);
        flag := true;
        left := left - 1;
      } else {
        if !flag {
          args := args + [currentArg];
        } else {
          break;
        }
      }
      PendingStep(now, was, rest, tail);
      rest := rest[1..];
      pos := pos + 1;
    }
    NoItems(splitCmd, pos);
    PendingLast(Items(splitCmd[pos..]), flag, rest, tail);
    Found([], name, 0, 0, outsLeft).AddAllIs(group);
    assert [] + Plains(group) == Plains(group);
  }

  // ------------------------------------------------------------------ the do/while loop

  lemma {:induction false} CountsSplit(items: seq<Item>, n: nat)
    requires n <= |items|
    ensures Outs(items) == Outs(items[..n]) + Outs(items[n..])
    ensures Swallowed(items) == Swallowed(items[..n]) + Swallowed(items[n..])
  {
    if n > 0 {
      assert items[..n][1..] == items[1..][..n - 1] && items[1..][n - 1..] == items[n..];
      CountsSplit(items[1..], n - 1);
    } else {
      assert items[0..] == items && items[..0] == [];
    }
  }

  lemma NothingLeft(items: seq<Item>)
    ensures items == [] ==> Outs(items) == 0 && Swallowed(items) == 0
  {
  }

  /** The body of the `do` loop that inserts a command. */
  method Insert(args: seq<string>, filename: string, userIn: nat, userOut: nat, mode: Mode, first: bool, last: bool)
    returns (cmds: seq<Command>)
    ensures cmds == if args == [] then []
            else [Command(args, filename, mode.count, mode.pipe, mode.exclamation, first, last, userIn, userOut)]
  {
    if |args| != 0 {
      cmds := [Command(args, filename, mode.count, mode.pipe, mode.exclamation, first, last, userIn, userOut)];
    } else {
      cmds := [];
    }
  }

  /** What the passes still have to insert. */
  ghost function ToInsert(items: seq<Item>, filename: string, mode: Mode, again: bool): seq<Command> {
    if again then SegmentCommands(items, filename, mode) else []
  }

  lemma InsertStep(items: seq<Item>, filename: string, mode: Mode, done: seq<Command>)
    ensures var n := Group(items, false);
      var (g, r) := (items[..n], items[n..]);
      done + ToInsert(items, filename, mode, true) ==
      done + CommandOf(g, filename, mode) + ToInsert(r, LastFile(g, filename), mode, Outs(r) > 0)
  {
    hide CommandOf, Group, LastFile, Outs;
    var n := Group(items, false);
    if items == [] {
      NothingLeft(items);
      assert items[..n] == [] && items[n..] == [];
      NoCommand(filename, mode);
    } else {
      var (c, more) := (CommandOf(items[..n], filename, mode),
                        ToInsert(items[n..], LastFile(items[..n], filename), mode, Outs(items[n..]) > 0));
      assert SegmentCommands(items, filename, mode) == c + more;
      assert done + (c + more) == done + c + more;
    }
  }

  /** What a pass inserts, with its marks. */
  lemma InsertedIs(group: seq<Item>, filename: string, mode: Mode, first: bool, last: bool)
    ensures MarkAll(CommandOf(group, filename, mode), first, last) ==
            if Plains(group) == [] then []
            else [Command(Plains(group), LastFile(group, filename), mode.count, mode.pipe, mode.exclamation, first,
                          last, LastIn(group, 0), LastOut(group, 0))]
    ensures CommandOf(group, filename, mode) == [] <==> Plains(group) == []
  {
  }

  lemma NoCommand(filename: string, mode: Mode)
    ensures CommandOf([], filename, mode) == []
  {
  }

  /**
   The `do`/`while` loop. It ends because no `>N` is taken for a file name: then the counter is the number
   of `>N` that are still to be read.
   */
  method SplitSegment(splitCmd: seq<string>, mode: Mode, first: bool, last: bool) returns (cmds: seq<Command>)
    requires FilesNamed(splitCmd) && Swallowed(Items(splitCmd)) == 0
    ensures cmds == MarkAll(SegmentCommands(Items(splitCmd), "", mode), first, last)
  {
    hide Items, FilesNamed, Outs, Swallowed, SegmentCommands, MarkAll, OutTokens, Plains, CommandOf, Group, LastIn;
    hide LastOut;
    hide LastFile;
    cmds := [];
    var filename, pos := "", 0;
    var left: int := NumberOfUserPipeOut(splitCmd);
    CountSplits(splitCmd);
    assert splitCmd[0..] == splitCmd;
    var again := true;
    ghost var done: seq<Command> := [];
    MarkAllMore([], [], first, last);
    while again
      invariant pos <= |splitCmd| && FilesNamed(splitCmd[pos..])
      invariant left == Outs(Items(splitCmd[pos..])) == OutTokens(splitCmd[pos..])
      invariant Swallowed(Items(splitCmd[pos..])) == 0
      invariant cmds == MarkAll(done, first, last) && (cmds == [] <==> done == [])
      invariant done + ToInsert(Items(splitCmd[pos..]), filename, mode, again) == SegmentCommands(Items(splitCmd), "",
                                                                                                  mode)
      decreases again, |splitCmd| - pos
    {
      ghost var items := Items(splitCmd[pos..]);
      ghost var n, was := Group(items, false), filename;
      InsertStep(items, filename, mode, done);
      ghost var command := CommandOf(items[..n], filename, mode);
      CountsSplit(items, n);
      var args, userIn, userOut;
      pos, filename, args, userIn, userOut, left := OnePass(splitCmd, pos, filename, left);
      CountSplits(splitCmd[pos..]);
      var more := Insert(args, filename, userIn, userOut, mode, first && cmds == [], last);
      MarkAllMore(done, command, first, last);
      InsertedIs(items[..n], was, mode, first && cmds == [], last);
      done := done + command;
      cmds := cmds + more;
      again := left > 0;
    }
    assert done + [] == done;
  }

  // ------------------------------------------------------------------ the whole line

  predicate SegmentOk(seg: Segment) {
    seg.Segment? ==>
      var tokens := Tokens(seg.text, DELIMS);
      FilesNamed(tokens) && Swallowed(Items(tokens)) == 0
  }

  /**
   The commands of a segment. A lone last character is lost. (A segment the splitting loop is not made for has
   no meaning; it stands for no command here.)
   */
  function CommandsOf(seg: Segment): seq<Command> {
    match seg
    case Segment(text, pipe, exclamation, count) =>
      if !SegmentOk(seg) then []
      else SegmentCommands(Items(Tokens(text, DELIMS)), "", Mode(pipe, exclamation, count))
    case Lone(_) => []
  }

  /** The lines the parser is made for: a token behind every `>`, and not one of the form `>N`. */
  predicate Readable(line: string) {
    OneLine(line) && AllOk(Segments(line, ""), SegmentOk)
  }

  /** What a line means. */
  function Parsed(line: string): seq<Command> {
    Meaning(Segments(line, ""), CommandsOf)
  }

  /** The commands of a line, with the marks for the first and the last one. */
  function Marked(line: string): (cmds: seq<Command>)
    ensures Unmarked(cmds) == Parsed(line) && HaveArgs(cmds)
  {
    assert forall seg :: Unmarked(CommandsOf(seg)) == CommandsOf(seg) && HaveArgs(CommandsOf(seg)) by {
      forall seg
        ensures Unmarked(CommandsOf(seg)) == CommandsOf(seg) && HaveArgs(CommandsOf(seg))
      {
        NoMarks(seg);
      }
    }
    MarkedMeans(Segments(line, ""), true, CommandsOf);
    MarkedHaveArgs(Segments(line, ""), true, CommandsOf);
    MarkedFrom(Segments(line, ""), true, CommandsOf)
  }

  /** What a segment means has no marks, and every command of it has arguments. */
  lemma NoMarks(seg: Segment)
    ensures Unmarked(CommandsOf(seg)) == CommandsOf(seg) && HaveArgs(CommandsOf(seg))
  {
    UnmarkedNone();
    if seg.Segment? && SegmentOk(seg) {
      NoMarksIn(Items(Tokens(seg.text, DELIMS)), "", Mode(seg.pipe, seg.exclamation, seg.count));
    }
  }

  lemma {:induction false} NoMarksIn(items: seq<Item>, filename: string, mode: Mode)
    ensures var cmds := SegmentCommands(items, filename, mode); Unmarked(cmds) == cmds && HaveArgs(cmds)
    decreases |items|
  {
    UnmarkedNone();
    if items != [] {
      var n := Group(items, false);
      var g, rest := CommandOf(items[..n], filename, mode), LastFile(items[..n], filename);
      assert Unmarked(g) == g && HaveArgs(g);
      if Outs(items[n..]) == 0 {
        assert g + [] == g;
      } else {
        NoMarksIn(items[n..], rest, mode);
        UnmarkedMore(g, SegmentCommands(items[n..], rest, mode));
      }
    }
  }

  lemma NoWords()
    ensures CommandsOf(Segment("", false, false, 0)) == []
  {
    assert Tokens("", DELIMS) == [];
  }

  /** Splitting a segment into tokens and commands. */
  method ParseSegment(text: string, mode: Mode, first: bool, last: bool) returns (cmds: seq<Command>)
    requires SegmentOk(Segment(text, mode.pipe, mode.exclamation, mode.count))
    ensures cmds == MarkAll(CommandsOf(Segment(text, mode.pipe, mode.exclamation, mode.count)), first, last)
  {
    var splitCmd := SplitWithDelims(text, DELIMS);
    cmds := SplitSegment(splitCmd, mode, first, last);
  }

  /** `get_command_list` of np_project2. */
  method GetCommandList(line: string) returns (cmds: seq<Command>)
    requires Readable(line)
    ensures cmds == Marked(line)
  {
    hide Stands, Segments, AfterOperator, SegmentOk, AllOk, CommandsOf, DigitCount, Value, MarkAll;
    cmds := [];
    var temp, pipeTemp, flag, i := "", "", false, 0;
    NoWords();
    Begin(line, SegmentOk, CommandsOf);
    while i < |line|
      invariant i <= |line| && !flag && Stands(line, Remaining(line, i, temp), cmds, SegmentOk, CommandsOf)
      decreases |line| - i
    {
      ghost var i0, temp0 := i, temp;
      var num, exclamation, pipeFlag := 0, false, false;
      if line[i] == '|' || line[i] == '!' {
        exclamation := line[i] == '!';
        pipeFlag := line[i] == '|';
        num, i := ReadNumber(line, i + 1);
        OperatorRemaining(line, i0, temp0, i);
        flag := true;
        pipeTemp := temp;
        temp := "";
      } else {
        TextRemaining(line, i, temp);
      }
      ghost var j := i;
      if i < |line| && !IsLineEnd(line[i]) {
        temp := temp + [line[i]];
        i := i + 1;
      }
      assert flag && j < |line| ==> temp == [line[j]];
      if i == |line| || flag {
        var finalCmd := if flag then pipeTemp else temp;
        ghost var seg := Segment(finalCmd, pipeFlag, exclamation, num);
        ghost var rest := if flag then AfterOperator(line[j..]) else [];
        SegmentRead(line, seg, rest, cmds, SegmentOk, CommandsOf);
        NothingFollows(line, j);
        var mode := Mode(pipeFlag, exclamation, num);
        var more := ParseSegment(finalCmd, mode, cmds == [], i == |line| && temp == "");
        assert more == Marks(seg, cmds == [], rest == [], CommandsOf);
        cmds := cmds + more;
        if i == |line| && flag && |temp| != 0 {
          LoneRead(line, line[j], cmds);
        }
        flag := false;
      }
    }
    Finished(line, cmds, SegmentOk, CommandsOf);
  }

  lemma LoneRead(line: string, c: char, done: seq<Command>)
    requires Stands(line, [Lone(c)] + [], done, SegmentOk, CommandsOf)
    ensures Stands(line, [], done, SegmentOk, CommandsOf)
  {
    SegmentRead(line, Lone(c), [], done, SegmentOk, CommandsOf);
    assert done + Marks(Lone(c), done == [], true, CommandsOf) == done;
  }
}
