/**
 What the server of np_project2/np_single_proc.cpp makes of one more input: a connection, a typed `exit`, another
 typed line, in terms of the log that the inputs before it have left.
 */
module ServerLaws {
  import opened Commands
  import opened NpServer
  import opened Options
  import opened SessionLaws
  import opened Sessions

  /** What the first `n` inputs have come to. */
  function After(inputs: seq<Input>, socks: seq<int>, n: nat, directories: set<string>): World
    requires n <= |inputs| == |socks|
  {
    RunOf(RequestsOf(inputs[..n]), socks[..n], directories)
  }

  /** All inputs together: what the server promises to make of them. */
  lemma AfterAll(inputs: seq<Input>, socks: seq<int>, directories: set<string>)
    requires |inputs| == |socks|
    ensures After(inputs, socks, |inputs|, directories) == RunOf(RequestsOf(inputs), socks, directories)
  {
    assert inputs[..|inputs|] == inputs && socks[..|inputs|] == socks;
  }

  lemma Next(inputs: seq<Input>, socks: seq<int>, n: nat, directories: set<string>)
    requires n < |inputs| == |socks| && After(inputs, socks, n, directories).fate.Serving?
    ensures After(inputs, socks, n + 1, directories) ==
            Handle(After(inputs, socks, n, directories).log, RequestOf(inputs[n]), n, socks[n], directories)
  {
    hide Handle, RunOf;
    var requests := RequestsOf(inputs);
    assert RequestsOf(inputs[..n]) == requests[..n] && RequestsOf(inputs[..n + 1]) == requests[..n + 1];
    assert socks[..n + 1] == socks[..n] + [socks[n]];
    RunFurther(requests, socks[..n], socks[n], n, directories);
  }

  /** User `u` is there on this socket, and no user with a lower id is. */
  ghost predicate First(log: seq<Entry>, u: int, sock: int) {
    1 <= u <= 30 && On(log, u, sock) && forall v :: 1 <= v < u ==> !On(log, v, sock)
  }

  lemma FirstIs(log: seq<Entry>, u: int, sock: int)
    requires First(log, u, sock)
    ensures UserFrom(log, sock, 1) == u
  {
    hide On;
    forall v
      ensures On(log, v, sock) <==> SockOf(log, v) == Some(sock)
    {
      OnIs(log, v, sock);
    }
    LowestIs(log, u, sock, 1);
  }

  lemma {:induction false} LowestIs(log: seq<Entry>, u: int, sock: int, i: int)
    requires 1 <= i <= u <= 30 && SockOf(log, u) == Some(sock)
    requires forall v :: i <= v < u ==> SockOf(log, v) != Some(sock)
    ensures UserFrom(log, sock, i) == u
    decreases u - i
  {
    if i < u {
      LowestIs(log, u, sock, i + 1);
    }
  }

  /** A connection gets the lowest id that nobody has, and nothing happens if all thirty are taken. */
  lemma ConnectionEnters(inputs: seq<Input>, socks: seq<int>, n: nat, directories: set<string>, u: int)
    requires n < |inputs| == |socks| && inputs[n].Connection? && After(inputs, socks, n, directories).fate.Serving?
    requires 1 <= u <= 31 && forall v :: 1 <= v < u ==> There(After(inputs, socks, n, directories).log, v)
    requires u <= 30 ==> !There(After(inputs, socks, n, directories).log, u)
    ensures var log := After(inputs, socks, n, directories).log;
      After(inputs, socks, n + 1, directories) ==
      World(if u <= 30 then log + [Login(u, socks[n], n)] else log, Serving)
  {
    var log := After(inputs, socks, n, directories).log;
    Next(inputs, socks, n, directories);
    FreeIs(log, u);
    hide After, FreeFrom;
  }

  lemma FreeIs(log: seq<Entry>, u: int)
    requires 1 <= u <= 31 && (u <= 30 ==> !There(log, u)) && forall v :: 1 <= v < u ==> There(log, v)
    ensures FreeFrom(log, 1) == u
  {
    hide There;
    var free := FreeFrom(log, 1);
    ThereIs(log, u);
    ThereIs(log, free);
  }

  /**
   The line `exit` of a user with a letter to itself ends the server; else the user leaves, and nothing else happens.
   */
  lemma ExitLeaves(inputs: seq<Input>, socks: seq<int>, n: nat, directories: set<string>, u: int, sock: int)
    requires n < |inputs| == |socks| && inputs[n] == Typed(sock, "exit")
    requires After(inputs, socks, n, directories).fate.Serving?
    requires First(After(inputs, socks, n, directories).log, u, sock)
    ensures var log := After(inputs, socks, n, directories).log;
      After(inputs, socks, n + 1, directories) ==
        if exists j: nat :: LetterWaits(log, u, u, j) then World(log, Ended) else World(log + [Logout(u)], Serving)
  {
    var log := After(inputs, socks, n, directories).log;
    Next(inputs, socks, n, directories);
    FirstIs(log, u, sock);
    NoLetter(log, u, u);
  }

  /** A line on a socket that is nobody's. */
  lemma NobodyTypes(inputs: seq<Input>, socks: seq<int>, n: nat, directories: set<string>)
    requires n < |inputs| == |socks| && inputs[n].Typed?
    requires After(inputs, socks, n, directories).fate.Serving?
    requires forall u :: 1 <= u <= 30 ==> !On(After(inputs, socks, n, directories).log, u, inputs[n].sock)
    ensures After(inputs, socks, n + 1, directories) == After(inputs, socks, n, directories)
  {
    var log := After(inputs, socks, n, directories).log;
    Next(inputs, socks, n, directories);
    hide After;
    var u := UserFrom(log, inputs[n].sock, 1);
    OnIs(log, u, inputs[n].sock);
  }

  /**
   Whether a command of user `u` gets a process: it is none of the six built-ins; a file it writes is no directory; and
   if it only sends to a user, that user is there, and no letter from `u` waits there that is not just being taken.
   */
  ghost predicate Starts(log: seq<Entry>, u: int, c: Command, directories: set<string>) {
    && IsExternal(c)
    && if c.hasPipe || c.hasExclamation then true
       else if c.filename != "" then c.filename !in directories
       else if c.userOut > 0 then
         && There(log, c.userOut)
         && ((forall j: nat :: !LetterWaits(log, u, c.userOut, j)) || c.userIn == u == c.userOut)
       else true
  }

  lemma StartsIs(log: seq<Entry>, u: int, c: Command, directories: set<string>)
    ensures Starts(log, u, c, directories) <==> !IsBuiltIn(c) && CanStart(log, u, c, directories)
  {
    hide LetterWaits, There;
    NoLetter(log, u, c.userOut);
    ThereIs(log, c.userOut);
  }

  /** The server does not go on to the next command. */
  predicate Halts(c: Command) {
    || (|c.args| > 0 && c.args[0] in {"tell", "yell"})
    || (IsExternal(c) && (c.hasPipe || c.hasExclamation) && c.userOut > 0)
  }

  /**
   The first `m` commands have entered the log one after the other as those of user `u`, each with a process if it
   starts then. Of them only the last may halt, and it must if there are more.
   */
  ghost predicate Enter(log: seq<Entry>, after: seq<Entry>, u: int, cmds: seq<Command>, m: nat,
                        directories: set<string>) {
    && m <= |cmds| && |after| == |log| + m && after[..|log|] == log
    && (forall i :: |log| <= i < |after| ==>
          after[i] == Did(u, cmds[i - |log|], Starts(after[..i], u, cmds[i - |log|], directories)))
    && (forall i :: 0 <= i < m - 1 ==> !Halts(cmds[i])) && (m < |cmds| ==> m > 0 && Halts(cmds[m - 1]))
  }

  lemma LineEnters(log: seq<Entry>, u: int, cmds: seq<Command>, directories: set<string>) returns (m: nat)
    ensures Enter(log, DoLine(log, u, cmds, directories).log, u, cmds, m, directories)
    ensures DoLine(log, u, cmds, directories).fate.Serving? <==> m == 0 || !Shuts(cmds[m - 1])
  {
    m := LineIs(log, u, cmds, directories);
    var after := DoLine(log, u, cmds, directories).log;
    hide Starts, CanStart, IsBuiltIn;
    forall i | |log| <= i < |after|
      ensures after[i] == Did(u, cmds[i - |log|], Starts(after[..i], u, cmds[i - |log|], directories))
    {
      assert cmds[..m][i - |log|] == cmds[i - |log|];
      StartsIs(after[..i], u, cmds[i - |log|], directories);
    }
    forall i | 0 <= i < |cmds|
      ensures Halts(cmds[i]) <==> Stops(cmds[i])
    {
      HaltsIs(cmds[i]);
    }
  }

  lemma HaltsIs(c: Command)
    ensures Halts(c) <==> Stops(c)
  {
  }

  /**
   Another line executes its commands up to the first that halts, and the server serves on unless that has both a
   numbered pipe and `>N`.
   */
  lemma LineRuns(inputs: seq<Input>, socks: seq<int>, n: nat, directories: set<string>, u: int, sock: int, line: string)
    returns (m: nat)
    requires n < |inputs| == |socks| && inputs[n] == Typed(sock, line) && line != "exit"
    requires After(inputs, socks, n, directories).fate.Serving?
    requires First(After(inputs, socks, n, directories).log, u, sock)
    ensures var log, w, cmds :=
        After(inputs, socks, n, directories).log, After(inputs, socks, n + 1, directories), CommandsOf(line);
      && Enter(log, w.log, u, cmds, m, directories)
      && (w.fate.Serving? <==>
            m == 0 || !IsExternal(cmds[m - 1]) || !(cmds[m - 1].hasPipe || cmds[m - 1].hasExclamation) ||
            cmds[m - 1].userOut == 0)
  {
    var log, cmds := After(inputs, socks, n, directories).log, CommandsOf(line);
    Next(inputs, socks, n, directories);
    FirstIs(log, u, sock);
    hide After, UserFrom, CommandsOf, Enter, DoLine;
    m := LineEnters(log, u, cmds, directories);
  }
}
