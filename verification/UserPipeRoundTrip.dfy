/** Commands with user pipes survive being written as one segment (np_project2/Parser.cpp). */
module UserPipeRoundTrip {
  import opened Commands
  import opened Decimals
  import opened UserPipeParser

  // ------------------------------------------------------------------ items as they are typed

  /** Anything but a `>`, and but a `<` or `>` with a number behind it. */
  predicate IsArg(w: string) {
    w != ">" && !(|w| > 1 && (w[0] == '<' || w[0] == '>') && forall k :: 1 <= k < |w| ==> '0' <= w[k] <= '9')
  }

  lemma ArgIs(w: string)
    ensures IsArg(w) <==> !IsRedirection(w) && !IsUserPipeIn(w) && !IsUserPipeOut(w)
  {
    if |w| > 1 {
      var more := w[1..];
      assert (forall k :: 1 <= k < |w| ==> '0' <= w[k] <= '9') <==> AllDigits(more) by {
        assert forall k :: 0 <= k < |more| ==> more[k] == w[k + 1];
        assert forall k :: 1 <= k < |w| ==> w[k] == more[k - 1];
      }
    }
  }

  function TokensOf(item: Item): seq<string> {
    match item
    case Plain(word) => [word]
    case In(uid) => ["<" + Decimal(uid)]
    case Out(uid) => [">" + Decimal(uid)]
    case File(name) => [">", name]
  }

  function AllTokens(items: seq<Item>): seq<string> {
    if items == [] then [] else TokensOf(items[0]) + AllTokens(items[1..])
  }

  predicate CanBeTyped(items: seq<Item>) {
    forall i :: 0 <= i < |items| && items[i].Plain? ==> IsArg(items[i].word)
  }

  /** The tokens that are typed for words, user pipes and files in any order are read as just these. */
  lemma {:induction false} SegmentItems(items: seq<Item>)
    requires CanBeTyped(items)
    ensures FilesNamed(AllTokens(items)) && Items(AllTokens(items)) == items
  {
    if items != [] {
      SegmentItems(items[1..]);
      FirstItem(items[0], AllTokens(items[1..]));
      assert [items[0]] + items[1..] == items;
    }
  }

  lemma FirstItem(item: Item, rest: seq<string>)
    requires (item.Plain? ==> IsArg(item.word)) && FilesNamed(rest)
    ensures var tokens := TokensOf(item) + rest; FilesNamed(tokens) && Items(tokens) == [item] + Items(rest)
  {
    var tokens := TokensOf(item) + rest;
    if item.File? {
      assert tokens[2..] == rest;
    } else {
      assert tokens[1..] == rest;
    }
    if item.Plain? {
      ArgIs(item.word);
    }
    if item.In? || item.Out? {
      ValueOfDecimal(item.uid);
      assert tokens[0][1..] == Decimal(item.uid);
    }
  }

  // ------------------------------------------------------------------ what items say

  /** The words are those of the plain items, in their order. */
  lemma {:induction false} PlainsAre(a: seq<Item>, item: Item, b: seq<Item>)
    ensures Plains([]) == []
    ensures Plains(a + [item] + b) == Plains(a) + (if item.Plain? then [item.word] else []) + Plains(b)
  {
    hide Plains;
    var items := a + [item] + b;
    PlainsStep(a);
    PlainsStep(items);
    if a == [] {
      assert items[1..] == b;
    } else {
      assert items[1..] == a[1..] + [item] + b;
      PlainsAre(a[1..], item, b);
    }
  }

  lemma PlainsStep(items: seq<Item>)
    ensures Plains([]) == []
    ensures items != [] ==> Plains(items) == (if items[0].Plain? then [items[0].word] else []) + Plains(items[1..])
  {
  }

  /** The last `<N` counts; `k` is -1 if there is none. */
  lemma {:induction false} LastInIs(items: seq<Item>, d: nat, k: int)
    requires -1 <= k < |items| && (k >= 0 ==> items[k].In?) && forall i :: k < i < |items| ==> !items[i].In?
    ensures LastIn(items, d) == if k >= 0 then items[k].uid else d
  {
    if items != [] {
      LastInIs(items[1..], if items[0].In? then items[0].uid else d, if k > 0 then k - 1 else -1);
    }
  }

  lemma {:induction false} LastOutIs(items: seq<Item>, d: nat, k: int)
    requires -1 <= k < |items| && (k >= 0 ==> items[k].Out?) && forall i :: k < i < |items| ==> !items[i].Out?
    ensures LastOut(items, d) == if k >= 0 then items[k].uid else d
  {
    if items != [] {
      LastOutIs(items[1..], if items[0].Out? then items[0].uid else d, if k > 0 then k - 1 else -1);
    }
  }

  lemma {:induction false} LastFileIs(items: seq<Item>, d: string, k: int)
    requires -1 <= k < |items| && (k >= 0 ==> items[k].File?) && forall i :: k < i < |items| ==> !items[i].File?
    ensures LastFile(items, d) == if k >= 0 then items[k].name else d
  {
    if items != [] {
      LastFileIs(items[1..], if items[0].File? then items[0].name else d, if k > 0 then k - 1 else -1);
    }
  }

  predicate HasOut(items: seq<Item>) {
    exists i :: 0 <= i < |items| && items[i].Out?
  }

  /** No word stands behind a `>N`. */
  predicate IsGroup(items: seq<Item>) {
    forall i, j :: 0 <= i < j < |items| && items[i].Out? ==> !items[j].Plain?
  }

  lemma {:induction false} OutsIs(items: seq<Item>)
    ensures Outs(items) > 0 <==> HasOut(items)
  {
    if items != [] {
      OutsIs(items[1..]);
      assert HasOut(items) <==> items[0].Out? || HasOut(items[1..]) by {
        if i :| 0 <= i < |items| && items[i].Out? && i > 0 {
          assert items[1..][i - 1] == items[i];
        }
        if i :| 0 <= i < |items| - 1 && items[1..][i].Out? {
          assert items[i + 1].Out?;
        }
      }
    }
  }

  /** One command takes the items up to the first word behind a `>N`, and all if there is none. */
  lemma {:induction false} GroupIs(g: seq<Item>, rest: seq<Item>, out: bool)
    requires IsGroup(g) && (out ==> forall i :: 0 <= i < |g| ==> !g[i].Plain?)
    requires rest == [] || (rest[0].Plain? && (out || HasOut(g)))
    ensures Group(g + rest, out) == |g|
  {
    if g == [] {
      assert g + rest == rest;
    } else {
      assert (g + rest)[1..] == g[1..] + rest;
      if i :| 0 <= i < |g| && g[i].Out? && i > 0 {
        assert g[1..][i - 1].Out?;
      }
      GroupIs(g[1..], rest, out || g[0].Out?);
    }
  }

  // ------------------------------------------------------------------ items to commands

  /** The items mean the command, if `before` is the file name that the segment had before. */
  predicate Says(g: seq<Item>, c: Command, before: string, mode: Mode) {
    && Plains(g) == c.args && c.args != []
    && LastFile(g, before) == c.filename && LastIn(g, 0) == c.userIn && LastOut(g, 0) == c.userOut
    && c.pipeCount == mode.count && c.hasPipe == mode.pipe && c.hasExclamation == mode.exclamation
    && !c.first && !c.last
  }

  function FileBefore(cmds: seq<Command>, before: string, i: nat): string
    requires i <= |cmds|
  {
    if i == 0 then before else cmds[i - 1].filename
  }

  /**
   The commands that one segment can hold, each with its items in any order that has no word behind a `>N`: they share
   the operator, a file name stays until the next one, and if there are several, each of them writes to a user pipe,
   and each but the first begins with a word.
   */
  predicate Together(cmds: seq<Command>, groups: seq<seq<Item>>, before: string, mode: Mode) {
    && |groups| == |cmds|
    && (forall i :: 0 <= i < |cmds| ==> IsGroup(groups[i]) && (|cmds| > 1 ==> HasOut(groups[i])))
    && (forall i :: 0 <= i < |cmds| ==> Says(groups[i], cmds[i], FileBefore(cmds, before, i), mode))
    && (forall i :: 0 < i < |cmds| ==> groups[i] != [] && groups[i][0].Plain?)
  }

  function Concat(groups: seq<seq<Item>>): seq<Item> {
    if groups == [] then [] else groups[0] + Concat(groups[1..])
  }

  /** Round trip: the segment written for the commands is split into these commands again. */
  lemma {:induction false} SegmentRoundTrip(cmds: seq<Command>, groups: seq<seq<Item>>, before: string, mode: Mode)
    requires Together(cmds, groups, before, mode) && cmds != []
    ensures SegmentCommands(Concat(groups), before, mode) == cmds
  {
    hide Plains, LastIn, LastOut, LastFile, SegmentCommands, Group, IsGroup, HasOut, Says;
    var g, rest := groups[0], Concat(groups[1..]);
    assert Says(g, cmds[0], FileBefore(cmds, before, 0), mode);
    if |cmds| > 1 {
      TogetherRest(cmds, groups, before, mode);
      SegmentRoundTrip(cmds[1..], groups[1..], cmds[0].filename, mode);
      RestHasOut(groups[1], Concat(groups[2..]));
      assert groups[1..][1..] == groups[2..] && rest == groups[1] + Concat(groups[2..]);
    } else {
      assert groups[1..] == [];
    }
    OutsIs(rest);
    GroupIs(g, rest, false);
    FirstCommand(g, rest, before, mode);
    CommandIs(g, cmds[0], before, mode);
    SaysFile(g, cmds[0], before, mode);
    NoOut();
    assert [cmds[0]] + cmds[1..] == cmds;
  }

  lemma TogetherRest(cmds: seq<Command>, groups: seq<seq<Item>>, before: string, mode: Mode)
    requires Together(cmds, groups, before, mode) && |cmds| > 1
    ensures Together(cmds[1..], groups[1..], cmds[0].filename, mode)
  {
    hide Says, IsGroup, HasOut;
    forall i | 0 <= i < |cmds| - 1
      ensures Says(groups[1..][i], cmds[1..][i], FileBefore(cmds[1..], cmds[0].filename, i), mode)
    {
      assert Says(groups[i + 1], cmds[i + 1], FileBefore(cmds, before, i + 1), mode);
    }
  }

  lemma RestHasOut(g: seq<Item>, rest: seq<Item>)
    requires HasOut(g)
    ensures HasOut(g + rest)
  {
    var i :| 0 <= i < |g| && g[i].Out?;
    assert (g + rest)[i].Out?;
  }

  lemma NoOut()
    ensures !HasOut([])
  {
  }

  lemma FirstCommand(g: seq<Item>, rest: seq<Item>, before: string, mode: Mode)
    requires Group(g + rest, false) == |g|
    ensures SegmentCommands(g + rest, before, mode) ==
            CommandOf(g, before, mode) +
            if Outs(rest) == 0 then [] else SegmentCommands(rest, LastFile(g, before), mode)
  {
    var items := g + rest;
    assert items[..|g|] == g && items[|g|..] == rest;
    if items == [] {
      assert g == [] && rest == [];
    }
  }

  lemma SaysFile(g: seq<Item>, c: Command, before: string, mode: Mode)
    requires Says(g, c, before, mode)
    ensures LastFile(g, before) == c.filename
  {
  }

  lemma CommandIs(g: seq<Item>, c: Command, before: string, mode: Mode)
    requires Says(g, c, before, mode)
    ensures CommandOf(g, before, mode) == [c]
  {
  }

  // ------------------------------------------------------------------ every command can be written

  function Args(args: seq<string>): seq<Item> {
    seq(|args|, i requires 0 <= i < |args| => Plain(args[i]))
  }

  /** Arguments, the pipe read from, the file, the pipe written to. */
  function Written(c: Command, file: string): seq<Item> {
    Args(c.args)
    + (if c.userIn > 0 then [In(c.userIn)] else [])
    + (if file != "" then [File(file)] else [])
    + (if c.userOut > 0 then [Out(c.userOut)] else [])
  }

  /** Only the first command names the file. */
  function AllWritten(cmds: seq<Command>, file: string): seq<seq<Item>> {
    seq(|cmds|, i requires 0 <= i < |cmds| => Written(cmds[i], if i == 0 then file else ""))
  }

  /** Commands that share the operator and the file can be written together. */
  lemma CanBeWritten(cmds: seq<Command>, file: string, mode: Mode)
    requires forall i :: 0 <= i < |cmds| ==>
               && cmds[i].args != [] && cmds[i].filename == file && cmds[i].pipeCount == mode.count
               && cmds[i].hasPipe == mode.pipe && cmds[i].hasExclamation == mode.exclamation
               && !cmds[i].first && !cmds[i].last && (|cmds| > 1 ==> cmds[i].userOut > 0)
    ensures Together(cmds, AllWritten(cmds, file), "", mode)
  {
    hide Plains, LastIn, LastOut, LastFile, Written, IsGroup, HasOut;
    var groups := AllWritten(cmds, file);
    forall i | 0 <= i < |cmds|
      ensures IsGroup(groups[i]) && (|cmds| > 1 ==> HasOut(groups[i])) && groups[i] != [] && groups[i][0].Plain?
      ensures Says(groups[i], cmds[i], FileBefore(cmds, "", i), mode)
    {
      var c, own := cmds[i], if i == 0 then file else "";
      WrittenSays(c, own, FileBefore(cmds, "", i));
      WrittenGroup(c, own);
    }
  }

  lemma WrittenGroup(c: Command, file: string)
    requires c.args != []
    ensures var g := Written(c, file); IsGroup(g) && g != [] && g[0].Plain? && (c.userOut > 0 ==> HasOut(g))
  {
    var g := Written(c, file);
    assert forall i :: 0 <= i < |g| - 1 ==> !g[i].Out?;
    assert c.userOut > 0 ==> g[|g| - 1].Out?;
  }

  lemma WrittenSays(c: Command, file: string, before: string)
    ensures var g := Written(c, file);
      && Plains(g) == c.args && LastIn(g, 0) == c.userIn && LastOut(g, 0) == c.userOut
      && LastFile(g, before) == if file != "" then file else before
  {
    var g, n := Written(c, file), |c.args|;
    var i := if c.userIn > 0 then 1 else 0;
    var f := if file != "" then 1 else 0;
    hide Plains, LastIn, LastOut, LastFile;
    LastInIs(g, 0, if c.userIn > 0 then n else -1);
    LastFileIs(g, before, if file != "" then n + i else -1);
    LastOutIs(g, 0, if c.userOut > 0 then n + i + f else -1);
    WordsFirst(c.args, g);
  }

  lemma {:induction false} WordsFirst(args: seq<string>, g: seq<Item>)
    requires |args| <= |g| && (forall i :: 0 <= i < |args| ==> g[i] == Plain(args[i]))
    requires forall i :: |args| <= i < |g| ==> !g[i].Plain?
    ensures Plains(g) == args
  {
    if g != [] {
      if args == [] {
        WordsFirst(args, g[1..]);
      } else {
        WordsFirst(args[1..], g[1..]);
        assert [args[0]] + args[1..] == args;
      }
    }
  }

  /** A command alone in its segment. */
  lemma OneCommand(c: Command, mode: Mode)
    requires c.args != [] && c.pipeCount == mode.count && c.hasPipe == mode.pipe && c.hasExclamation == mode.exclamation
    requires !c.first && !c.last
    ensures Together([c], [Written(c, c.filename)], "", mode)
    ensures Concat([Written(c, c.filename)]) == Written(c, c.filename)
    ensures SegmentCommands(Written(c, c.filename), "", mode) == [c]
  {
    var groups: seq<seq<Item>> := [Written(c, c.filename)];
    hide Together, Written, SegmentCommands;
    CanBeWritten([c], c.filename, mode);
    assert AllWritten([c], c.filename) == groups;
    assert groups[1..] == [] && Concat(groups) == groups[0] + [];
    SegmentRoundTrip([c], groups, "", mode);
  }

  /** A command of one word. */
  lemma OneWord(w: string, mode: Mode)
    requires IsArg(w)
    ensures FilesNamed([w]) && Items([w]) == [Plain(w)] && Swallowed([Plain(w)]) == 0
    ensures SegmentCommands([Plain(w)], "", mode) ==
            [Command([w], "", mode.count, mode.pipe, mode.exclamation, false, false, 0, 0)]
  {
    var items := [Plain(w)];
    assert items[1..] == [] && AllTokens(items) == [w] + [];
    SegmentItems(items);
    var c := Command([w], "", mode.count, mode.pipe, mode.exclamation, false, false, 0, 0);
    OneCommand(c, mode);
    assert Written(c, "") == items;
  }
}
