/** What splitting a segment at `>N` keeps, loses, and when it ends (np_project2/Parser.cpp). */
module UserPipeSplitting {
  import opened Commands
  import opened UserPipeParser

  // ------------------------------------------------------------------ when the loop ends

  /** The items left over after k passes of the `do`/`while` loop. */
  function AfterPasses(items: seq<Item>, k: nat): seq<Item> {
    if k == 0 then items
    else
      var rest := AfterPasses(items, k - 1);
      rest[Group(rest, false)..]
  }

  /** `number_of_user_pipe_out_cmd` after k passes. */
  function Counter(tokens: seq<string>, k: nat): int
    requires FilesNamed(tokens)
  {
    if k == 0 then OutTokens(tokens)
    else
      var rest := AfterPasses(Items(tokens), k - 1);
      Counter(tokens, k - 1) - Outs(rest[..Group(rest, false)])
  }

  /** The counter is what is still to be read, and what never will be read. */
  lemma {:induction false} CounterIs(tokens: seq<string>, k: nat)
    requires FilesNamed(tokens)
    ensures Counter(tokens, k) == Outs(AfterPasses(Items(tokens), k)) + Swallowed(Items(tokens))
  {
    if k == 0 {
      CountSplits(tokens);
    } else {
      CounterIs(tokens, k - 1);
      var rest := AfterPasses(Items(tokens), k - 1);
      CountsSplit(rest, Group(rest, false));
    }
  }

  lemma {:induction false} PassesShrink(items: seq<Item>, k: nat)
    ensures AfterPasses(items, k) == [] || |AfterPasses(items, k)| <= |items| - k
  {
    if k > 0 {
      PassesShrink(items, k - 1);
    }
  }

  predicate EndsAfter(tokens: seq<string>, k: nat)
    requires FilesNamed(tokens)
  {
    k >= 1 && Counter(tokens, k) <= 0
  }

  lemma NoPass(tokens: seq<string>)
    requires FilesNamed(tokens)
    ensures Counter(tokens, 0) == OutTokens(tokens) && AfterPasses(Items(tokens), 0) == Items(tokens)
    ensures !EndsAfter(tokens, 0)
  {
  }

  lemma OnePassMore(tokens: seq<string>, k: nat)
    requires FilesNamed(tokens)
    ensures var rest := AfterPasses(Items(tokens), k);
      && AfterPasses(Items(tokens), k + 1) == rest[Group(rest, false)..]
      && Counter(tokens, k + 1) == Counter(tokens, k) - Outs(rest[..Group(rest, false)])
    ensures EndsAfter(tokens, k + 1) <==> Counter(tokens, k + 1) <= 0
  {
  }

  /**
   The `do`/`while` loop of the code over any tokens, for as long as it runs and at most `k` passes: its counter is
   `Counter`, and it ends where that says so.
   */
  method SplitFor(splitCmd: seq<string>, k: nat) returns (ended: bool, passes: nat, left: int)
    requires FilesNamed(splitCmd)
    ensures passes <= k && left == Counter(splitCmd, passes)
    ensures ended <==> exists j :: 0 <= j <= k && EndsAfter(splitCmd, j)
    ensures ended ==> EndsAfter(splitCmd, passes) && forall j :: 0 <= j < passes ==> !EndsAfter(splitCmd, j)
  {
    hide Items, FilesNamed, Group, Outs, Counter, AfterPasses, EndsAfter;
    left := NumberOfUserPipeOut(splitCmd);
    NoPass(splitCmd);
    var pos, filename := 0, "";
    ended, passes := false, 0;
    assert splitCmd[0..] == splitCmd;
    while passes < k && !ended
      invariant passes <= k && pos <= |splitCmd| && FilesNamed(splitCmd[pos..])
      invariant Items(splitCmd[pos..]) == AfterPasses(Items(splitCmd), passes) && left == Counter(splitCmd, passes)
      invariant ended ==> EndsAfter(splitCmd, passes)
      invariant forall j :: 0 <= j < passes ==> !EndsAfter(splitCmd, j)
      invariant !ended ==> !EndsAfter(splitCmd, passes)
      decreases k - passes, !ended
    {
      var args, userIn, userOut;
      pos, filename, args, userIn, userOut, left := OnePass(splitCmd, pos, filename, left);
      OnePassMore(splitCmd, passes);
      passes := passes + 1;
      ended := left <= 0;
    }
  }

  /** The loop ends if and only if no `>` takes a `>N` for the name of its file. */
  lemma SplittingEnds(tokens: seq<string>)
    requires FilesNamed(tokens)
    ensures (exists k: nat :: EndsAfter(tokens, k)) <==> Swallowed(Items(tokens)) == 0
  {
    var items := Items(tokens);
    if Swallowed(items) == 0 {
      var k := |items| + 1;
      PassesShrink(items, k);
      CounterIs(tokens, k);
      assert EndsAfter(tokens, k);
    } else {
      forall k: nat ensures !EndsAfter(tokens, k) {
        CounterIs(tokens, k);
      }
    }
  }

  /** The loop can fail to end: with a `>` that takes a `>1` for its file, no pass brings the counter to zero. */
  lemma EndlessWitness()
    ensures FilesNamed([">", ">1"])
    ensures forall k: nat :: !EndsAfter([">", ">1"], k)
  {
    var tokens := [">", ">1"];
    assert tokens[2..] == [];
    assert IsUserPipeOut(">1") by {
      assert ">1"[1..] == "1";
    }
    var items := Items(tokens);
    assert items == [File(">1")];
    assert Swallowed(items) == 1;
    SplittingEnds(tokens);
  }

  // ------------------------------------------------------------------ what is kept

  function AllArgs(cmds: seq<Command>): seq<string> {
    if cmds == [] then [] else cmds[0].args + AllArgs(cmds[1..])
  }

  /** The items up to and with the last `>N`. */
  function UpToLastOut(items: seq<Item>): seq<Item> {
    if Outs(items) == 0 then [] else [items[0]] + UpToLastOut(items[1..])
  }

  lemma {:induction false} AllArgsConcat(a: seq<Command>, b: seq<Command>)
    ensures AllArgs(a + b) == AllArgs(a) + AllArgs(b)
  {
    if a == [] {
      assert a + b == b;
    } else {
      assert (a + b)[1..] == a[1..] + b;
      AllArgsConcat(a[1..], b);
    }
  }

  lemma {:induction false} PlainsConcat(a: seq<Item>, b: seq<Item>)
    ensures Plains(a + b) == Plains(a) + Plains(b)
  {
    if a == [] {
      assert a + b == b;
    } else {
      assert (a + b)[1..] == a[1..] + b;
      PlainsConcat(a[1..], b);
    }
  }

  /** The last `>N` of two pieces is in the second one if that has any. */
  lemma {:induction false} UpToLastOutSplit(items: seq<Item>, n: nat)
    requires n <= |items|
    ensures UpToLastOut(items) ==
            if Outs(items[n..]) > 0 then items[..n] + UpToLastOut(items[n..]) else UpToLastOut(items[..n])
  {
    hide Outs, UpToLastOut;
    var g, r := items[..n], items[n..];
    CountsSplit(items, n);
    if n == 0 {
      assert g == [] && r == items;
      UpToLastOutStep(items);
      UpToLastOutStep(g);
      assert g + UpToLastOut(r) == UpToLastOut(r);
    } else {
      var more, h := items[1..], items[1..][..n - 1];
      assert g[1..] == h && more[n - 1..] == r;
      UpToLastOutSplit(more, n - 1);
      UpToLastOutStep(items);
      UpToLastOutStep(g);
      assert [items[0]] + (h + UpToLastOut(r)) == g + UpToLastOut(r);
    }
  }

  lemma UpToLastOutStep(items: seq<Item>)
    ensures Outs(items) == 0 ==> UpToLastOut(items) == []
    ensures items == [] ==> Outs(items) == 0
    ensures Outs(items) > 0 ==> items != [] && UpToLastOut(items) == [items[0]] + UpToLastOut(items[1..])
  {
  }

  /** Behind its first `>N` a command has no plain word. */
  lemma {:induction false} GroupKeeps(items: seq<Item>, out: bool)
    ensures var g := items[..Group(items, out)];
      && (out ==> Plains(g) == [])
      && (Outs(g) > 0 ==> Plains(UpToLastOut(g)) == Plains(g))
      && (!out && Outs(items) == 0 ==> g == items)
  {
    var n := Group(items, out);
    if n > 0 {
      var g, h := items[..n], items[1..][..n - 1];
      assert g[1..] == h;
      GroupKeeps(items[1..], out || items[0].Out?);
      if Outs(g) > 0 {
        UpToLastOutPlains(g);
      }
    }
  }

  lemma UpToLastOutPlains(g: seq<Item>)
    requires Outs(g) > 0
    ensures Plains(UpToLastOut(g)) == (if g[0].Plain? then [g[0].word] else []) + Plains(UpToLastOut(g[1..]))
    ensures Outs(g[1..]) == 0 ==> g[0].Out? && UpToLastOut(g[1..]) == []
  {
    assert ([g[0]] + UpToLastOut(g[1..]))[1..] == UpToLastOut(g[1..]);
  }

  /**
   Conservation: the arguments of the commands are the plain words of the segment in their order, all of
   them if it has no `>N`, and otherwise those before its last `>N`; the words behind that one are lost.
   */
  lemma {:induction false} Conservation(items: seq<Item>, filename: string, mode: Mode)
    ensures AllArgs(SegmentCommands(items, filename, mode)) ==
            Plains(if Outs(items) == 0 then items else UpToLastOut(items))
    decreases |items|
  {
    if items != [] {
      var n := Group(items, false);
      var g, r := items[..n], items[n..];
      GroupKeeps(items, false);
      CountsSplit(items, n);
      UpToLastOutSplit(items, n);
      PlainsConcat(g, UpToLastOut(r));
      AllArgsConcat(CommandOf(g, filename, mode),
                    if Outs(r) == 0 then [] else SegmentCommands(r, LastFile(g, filename), mode));
      assert AllArgs(CommandOf(g, filename, mode)) == Plains(g);
      if Outs(r) > 0 {
        Conservation(r, LastFile(g, filename), mode);
      } else {
        assert Outs(items) == 0 ==> g == items;
      }
    }
  }
}
