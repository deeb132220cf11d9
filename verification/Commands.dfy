/** A parsed command of np_project1/Command.cpp and np_project2/Command.cpp. */
module Commands {
  /**
   `pipeCount` is the number written after `|` or `!`, 0 when none is. The last two fields exist in
   project 2 only: the user pipes `<N` and `>N`, 0 when absent.
   */
  datatype Command = Command(args: seq<string>, filename: string, pipeCount: nat, hasPipe: bool,
                             hasExclamation: bool, first: bool, last: bool, userIn: nat, userOut: nat)
  {
    predicate CheckPipe() {
      hasPipe && pipeCount == 0
    }

    predicate CheckPipeN() {
      hasPipe && pipeCount > 0
    }

    predicate CheckIfPipe(): (r: bool)
      ensures r <==> hasPipe || hasExclamation
    {
      CheckPipe() || CheckPipeN() || hasExclamation
    }

    predicate CheckRedirection(): (r: bool)
      ensures r <==> filename != ""
    {
      |filename| != 0
    }

    /** How many commands ahead the output goes; `|`, `|0`, `!` and `!0` mean the next one. */
    function Delay(): (n: nat)
      requires CheckIfPipe()
      ensures n == if pipeCount > 0 then pipeCount else 1
    {
      if CheckPipe() then 1
      else if CheckPipeN() then pipeCount
      else if pipeCount > 0 then pipeCount else 1
    }
  }

  predicate HaveArgs(cmds: seq<Command>) {
    forall k :: 0 <= k < |cmds| ==> |cmds[k].args| > 0
  }

  /** The commands without the marks `first` and `last`, which nothing reads. */
  function Unmarked(cmds: seq<Command>): seq<Command> {
    seq(|cmds|, i requires 0 <= i < |cmds| => cmds[i].(first := false, last := false))
  }

  lemma UnmarkedNone()
    ensures Unmarked([]) == []
  {
  }

  lemma UnmarkedMore(a: seq<Command>, b: seq<Command>)
    ensures Unmarked(a + b) == Unmarked(a) + Unmarked(b)
  {
  }

  lemma SamePrefix(p: seq<Command>, a: seq<Command>, b: seq<Command>)
    ensures p + a == p + b <==> a == b
  {
    assert (p + a)[|p|..] == a && (p + b)[|p|..] == b;
  }
}
