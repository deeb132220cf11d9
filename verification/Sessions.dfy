/**
 What the server of np_project2/np_single_proc.cpp promises its users, as a function of what arrives on its
 sockets: a log of logins, commands and logouts, and what follows from it.
 */
module Sessions {
  import opened Commands
  import opened Options

  const MAX_CLIENTS := 30
  const NO_NAME := "(no name)"

  predicate Id(i: int) {
    1 <= i <= MAX_CLIENTS
  }

  // ------------------------------------------------------------------ commands

  predicate IsBuiltIn(c: Command) {
    |c.args| > 0 && c.args[0] in {"setenv", "printenv", "who", "tell", "name", "yell"}
  }

  /** After these the rest of the line is dropped. */
  predicate EndsLine(c: Command) {
    |c.args| > 0 && c.args[0] in {"tell", "yell"}
  }

  /** The kind of output the code takes first wins: numbered pipe, file, user pipe. */
  predicate WantsUserPipe(c: Command) {
    !c.CheckIfPipe() && !c.CheckRedirection() && c.userOut > 0
  }

  /** With a numbered pipe and `>N` at once, the server closes the write end of the numbered pipe it keeps. */
  predicate Shuts(c: Command) {
    !IsBuiltIn(c) && c.CheckIfPipe() && c.userOut > 0
  }

  /** What the code takes for granted about a command, beyond what the parser ensures. */
  predicate CommandOk(c: Command) {
    && |c.args| > 0 && c.userIn <= MAX_CLIENTS && c.userOut <= MAX_CLIENTS
    && (c.args[0] in {"tell", "name"} ==> |c.args| >= 2)
  }

  predicate SetsEnv(c: Command) {
    |c.args| == 3 && c.args[0] == "setenv"
  }

  predicate Renames(c: Command) {
    |c.args| >= 2 && c.args[0] == "name"
  }

  function DelayOf(c: Command, forks: bool): (d: Option<int>)
    ensures d.Some? ==> d.value >= 1
  {
    if forks && c.CheckIfPipe() then Some(c.Delay()) else None
  }

  /** Whether the numbered pipe that is due is closed and erased at this command. */
  predicate ErasesDue(c: Command, forks: bool) {
    if IsBuiltIn(c) then EndsLine(c) else forks || WantsUserPipe(c)
  }

  /** A command that does not start leaves the descriptor open that it was to read. */
  predicate LeaksInput(c: Command, forks: bool) {
    !IsBuiltIn(c) && c.userIn > 0 && !forks
  }

  /** A file that is written stays open, unless a user pipe was asked for as well. */
  predicate LeaksFile(c: Command, forks: bool) {
    !IsBuiltIn(c) && forks && !c.CheckIfPipe() && c.CheckRedirection() && c.userOut == 0
  }

  // ------------------------------------------------------------------ the log

  /**
   A login on a socket, a command with or without a process, a logout. `conn` says which connection it is that
   the socket belongs to: that of the `conn`-th request.
   */
  datatype Entry = Login(uid: int, sock: int, conn: nat) | Did(uid: int, c: Command, forks: bool) | Logout(uid: int)

  function Last(log: seq<Entry>): Entry
    requires log != []
  {
    log[|log| - 1]
  }

  function Before(log: seq<Entry>): (r: seq<Entry>)
    requires log != []
    ensures |r| == |log| - 1 && log == r + [Last(log)]
  {
    log[..|log| - 1]
  }

  /** The login of a user that is there. */
  function LoginAt(log: seq<Entry>, u: int): (k: Option<nat>)
    ensures k.Some? ==> k.value < |log| && log[k.value].Login? && log[k.value].uid == u
  {
    if log == [] then None
    else
      match Last(log)
      case Login(v, _, _) => if v == u then Some(|log| - 1) else LoginAt(Before(log), u)
      case Logout(v) => if v == u then None else LoginAt(Before(log), u)
      case Did(_, _, _) => LoginAt(Before(log), u)
  }

  predicate LiveIn(log: seq<Entry>, u: int) {
    LoginAt(log, u).Some?
  }

  function SockOf(log: seq<Entry>, u: int): Option<int> {
    if LiveIn(log, u) then Some(log[LoginAt(log, u).value].sock) else None
  }

  function ConnOf(log: seq<Entry>, u: int): Option<nat> {
    if LiveIn(log, u) then Some(log[LoginAt(log, u).value].conn) else None
  }

  /** The lowest user from `i` on with this socket, 0 if there is none. */
  function UserFrom(log: seq<Entry>, sock: int, i: int): (u: int)
    requires 1 <= i <= MAX_CLIENTS + 1
    ensures u == 0 || (Id(u) && SockOf(log, u) == Some(sock))
    ensures u == 0 ==> forall v :: i <= v <= MAX_CLIENTS ==> SockOf(log, v) != Some(sock)
    decreases MAX_CLIENTS + 1 - i
  {
    if i == MAX_CLIENTS + 1 then 0
    else if SockOf(log, i) == Some(sock) then i
    else UserFrom(log, sock, i + 1)
  }

  /** The lowest id from `i` on that nobody has, 31 if there is none. */
  function FreeFrom(log: seq<Entry>, i: int): (u: int)
    requires 1 <= i <= MAX_CLIENTS + 1
    ensures i <= u <= MAX_CLIENTS + 1 && (u <= MAX_CLIENTS ==> !LiveIn(log, u))
    ensures forall v :: i <= v < u ==> LiveIn(log, v)
    decreases MAX_CLIENTS + 1 - i
  {
    if i == MAX_CLIENTS + 1 || !LiveIn(log, i) then i else FreeFrom(log, i + 1)
  }

  // ------------------------------------------------------------------ letters between users

  predicate SendsTo(e: Entry, s: int, r: int) {
    e.Did? && e.forks && WantsUserPipe(e.c) && e.uid == s && e.c.userOut == r
  }

  predicate TakesFrom(e: Entry, s: int, r: int) {
    e.Did? && !IsBuiltIn(e.c) && e.c.userIn > 0 && e.c.userIn == s && e.uid == r
  }

  predicate CutsOff(e: Entry, s: int, r: int) {
    e.Logout? && (e.uid == s || e.uid == r)
  }

  /** The command whose output to user `r` waits there from user `s`. */
  function Waiting(log: seq<Entry>, s: int, r: int): (j: Option<nat>)
    ensures j.Some? ==> j.value < |log| && SendsTo(log[j.value], s, r)
  {
    if log == [] then None
    else if SendsTo(Last(log), s, r) then Some(|log| - 1)
    else if TakesFrom(Last(log), s, r) || CutsOff(Last(log), s, r) then None
    else Waiting(Before(log), s, r)
  }

  /** The command whose output command `k` takes. */
  function Took(log: seq<Entry>, k: nat): (j: Option<nat>)
    requires k < |log|
    ensures j.Some? ==> j.value < k
  {
    var e := log[k];
    if e.Did? && TakesFrom(e, e.c.userIn, e.uid) then Waiting(log[..k], e.c.userIn, e.uid) else None
  }

  predicate Undisturbed(log: seq<Entry>, s: int, r: int, j: int) {
    && 0 <= j < |log| && SendsTo(log[j], s, r)
    && forall k :: j < k < |log| ==> !SendsTo(log[k], s, r) && !TakesFrom(log[k], s, r) && !CutsOff(log[k], s, r)
  }

  /** What waits is what was sent last, if since then nobody took it and neither user left. */
  lemma {:induction false} WaitingMeans(log: seq<Entry>, s: int, r: int, j: nat)
    ensures Waiting(log, s, r) == Some(j) <==> Undisturbed(log, s, r, j)
  {
    hide SendsTo, TakesFrom, CutsOff, Undisturbed;
    UndisturbedStep(log, s, r, j);
    if log != [] {
      WaitingMeans(Before(log), s, r, j);
    }
  }

  lemma UndisturbedStep(log: seq<Entry>, s: int, r: int, j: nat)
    ensures log == [] ==> !Undisturbed(log, s, r, j)
    ensures log != [] ==>
              (Undisturbed(log, s, r, j) <==>
                 if SendsTo(Last(log), s, r) then j == |log| - 1
                 else !TakesFrom(Last(log), s, r) && !CutsOff(Last(log), s, r) && Undisturbed(Before(log), s, r, j))
  {
    hide SendsTo, TakesFrom, CutsOff;
    if log != [] {
      var rest, n := Before(log), |log| - 1;
      assert log[n] == Last(log) && forall k :: 0 <= k < n ==> log[k] == rest[k];
    }
  }

  /** A command takes what that user sent last, and nobody has taken that before. */
  lemma TakenIsLast(log: seq<Entry>, k: nat)
    requires k < |log| && Took(log, k).Some?
    ensures Undisturbed(log[..k], log[k].c.userIn, log[k].uid, Took(log, k).value)
  {
    WaitingMeans(log[..k], log[k].c.userIn, log[k].uid, Took(log, k).value);
  }

  /** No output is taken twice. */
  lemma TakenOnce(log: seq<Entry>, k: nat, k': nat)
    requires k < k' < |log| && Took(log, k).Some?
    ensures Took(log, k') != Took(log, k)
  {
    TakenIsLast(log, k);
    if Took(log, k') == Took(log, k) {
      TakenIsLast(log, k');
    }
  }

  // ------------------------------------------------------------------ users

  function EnvOf(log: seq<Entry>, u: int): map<string, string> {
    if log == [] || Last(log).uid != u then (if log == [] then map[] else EnvOf(Before(log), u))
    else
      match Last(log)
      case Login(_, _, _) => map["PATH" := "bin:."]
      case Logout(_) => map[]
      case Did(_, c, _) =>
        if SetsEnv(c) then EnvOf(Before(log), u)[c.args[1] := c.args[2]] else EnvOf(Before(log), u)
  }

  /** `name` takes effect only if nobody has the name. */
  function NameOf(log: seq<Entry>, u: int): string
    decreases |log|
  {
    if log == [] || Last(log).uid != u then (if log == [] then "" else NameOf(Before(log), u))
    else
      match Last(log)
      case Login(_, _, _) => NO_NAME
      case Logout(_) => ""
      case Did(_, c, _) =>
        if Renames(c) && forall i | 1 <= i <= MAX_CLIENTS :: NameOf(Before(log), i) != c.args[1] then c.args[1]
        else NameOf(Before(log), u)
  }

  /** Where in the log the commands of a user are that is logged in. */
  function DoneAt(log: seq<Entry>, u: int): (r: seq<nat>)
    ensures forall n :: 0 <= n < |r| ==> r[n] < |log| && log[r[n]].Did? && log[r[n]].uid == u
    ensures forall m, n :: 0 <= m < n < |r| ==> r[m] < r[n]
  {
    if log == [] then []
    else if Last(log).uid != u then DoneAt(Before(log), u)
    else if Last(log).Did? then DoneAt(Before(log), u) + [|log| - 1]
    else []
  }

  // ------------------------------------------------------------------ numbered pipes

  /** How many commands user `u` gives behind entry `j`, up to and with entry `i`; built-ins count. */
  function Behind(log: seq<Entry>, u: int, j: nat, i: nat): nat
    requires i < |log|
  {
    if i <= j then 0 else Behind(log, u, j, i - 1) + if log[i].Did? && log[i].uid == u then 1 else 0
  }

  /** The user has neither left nor come between the two entries. */
  predicate Stays(log: seq<Entry>, u: int, j: nat, i: nat)
    requires i <= |log|
  {
    forall k :: j < k < i && log[k].uid == u ==> log[k].Did?
  }

  /**
   Entry `i` is the command at which the output of command `j` is due: both are of one session, and `i` is as many
   commands of its user behind `j` as the number says that is typed behind the `|` or `!` of `j`, and 1 without one.
   */
  ghost predicate NumberedTo(log: seq<Entry>, j: nat, i: nat) {
    && j < i < |log| && log[j].Did? && log[j].forks && (log[j].c.hasPipe || log[j].c.hasExclamation)
    && log[i].Did? && log[i].uid == log[j].uid && Stays(log, log[i].uid, j, i)
    && Behind(log, log[i].uid, j, i) == if log[j].c.pipeCount > 0 then log[j].c.pipeCount else 1
  }

  /** The same in terms of the numbers that the commands have in their session. */
  ghost predicate NumberedAt(log: seq<Entry>, j: nat, i: nat) {
    && j < i < |log| && log[j].Did? && log[j].forks && log[j].c.CheckIfPipe() && log[i].Did? && log[i].uid == log[j].uid
    && var at := DoneAt(log[..i], log[i].uid);
      exists n :: 0 <= n < |at| && at[n] == j && n + log[j].c.Delay() == |at|
  }

  /**
   The commands of a user that is there are exactly those since it came, and a command is as far from the end of them
   as there are commands of the user behind it.
   */
  lemma {:induction false} DoneMeans(log: seq<Entry>, u: int, j: nat)
    requires j < |log| && log[j].Did? && log[j].uid == u
    ensures Stays(log, u, j, |log|) ==>
              var at, n := DoneAt(log, u), Behind(log, u, j, |log| - 1); n < |at| && at[|at| - 1 - n] == j
    ensures !Stays(log, u, j, |log|) ==> j !in DoneAt(log, u)
  {
    var rest, last := Before(log), |log| - 1;
    if j < last {
      DoneMeans(rest, u, j);
      SameBehind(rest, log, u, j, last - 1);
      StaysMore(log, u, j);
      hide Stays;
    }
  }

  lemma {:induction false} SameBehind(log: seq<Entry>, more: seq<Entry>, u: int, j: nat, i: nat)
    requires log <= more && i < |log|
    ensures Behind(log, u, j, i) == Behind(more, u, j, i)
  {
    if i > j {
      SameBehind(log, more, u, j, i - 1);
    }
  }

  lemma StaysMore(log: seq<Entry>, u: int, j: nat)
    requires j < |log| - 1
    ensures Stays(log, u, j, |log|) <==>
              Stays(Before(log), u, j, |log| - 1) && (Last(log).uid == u ==> Last(log).Did?)
  {
  }

  lemma NumberedIs(log: seq<Entry>, j: nat, i: nat)
    ensures NumberedTo(log, j, i) <==> NumberedAt(log, j, i)
  {
    if j < i < |log| && log[j].Did? && log[i].Did? && log[i].uid == log[j].uid {
      var u, before := log[i].uid, log[..i];
      DoneMeans(before, u, j);
      SameBehind(before, log, u, j, i - 1);
      assert Stays(log, u, j, i) <==> Stays(before, u, j, i);
      hide Stays;
      var at := DoneAt(before, u);
      if Stays(log, u, j, i) {
        var n := |at| - 1 - Behind(log, u, j, i - 1);
        assert at[n] == j && forall m :: 0 <= m < |at| && at[m] == j ==> m == n;
      }
    }
  }

  /** Some output is due at command `i`. */
  ghost predicate IsDue(log: seq<Entry>, i: nat) {
    exists j: nat :: NumberedTo(log, j, i)
  }

  /** How many commands ahead the outputs in a user's numbered pipes are due. */
  function Ahead(log: seq<Entry>, u: int): set<int> {
    if log == [] then {}
    else if Last(log).uid != u then Ahead(Before(log), u)
    else if Last(log).Did? then Later(Ahead(Before(log), u), DelayOf(Last(log).c, Last(log).forks),
                                      ErasesDue(Last(log).c, Last(log).forks))
    else {}
  }

  /** One command later: with new output due `delay` commands ahead, without the output that is due if it is erased. */
  function Later(pending: set<int>, delay: Option<int>, erase: bool): set<int> {
    (set n | n in pending :: n - 1) + (if delay.Some? then {delay.value} else {}) - (if erase then {0} else {})
  }

  /**
   How many descriptors the server has lost: inputs of commands that did not start, files, and both ends of
   the numbered pipes that a user left behind.
   */
  function Leaked(log: seq<Entry>): nat {
    if log == [] then 0
    else
      var before := Leaked(Before(log));
      match Last(log)
      case Login(_, _, _) => before
      case Did(_, c, forks) => if LeaksInput(c, forks) || LeaksFile(c, forks) then before + 1 else before
      case Logout(u) => before + 2 * |Ahead(Before(log), u)|
  }

  // ------------------------------------------------------------------ requests

  /** Whether an external command can start its process. */
  predicate CanStart(log: seq<Entry>, u: int, c: Command, directories: set<string>) {
    && (!c.CheckIfPipe() && c.CheckRedirection() ==> c.filename !in directories)
    && (WantsUserPipe(c) ==>
          && LiveIn(log, c.userOut)
          && (Waiting(log, u, c.userOut).None? || (c.userIn == u && c.userOut == u)))
  }

  function DoCommand(log: seq<Entry>, u: int, c: Command, directories: set<string>): seq<Entry> {
    log + [Did(u, c, !IsBuiltIn(c) && CanStart(log, u, c, directories))]
  }

  /**
   How a server is after a request: it serves on, it has ended itself, or it has closed a descriptor that its
   table still holds, and the specification says no more.
   */
  datatype Fate = Serving | Ended | Astray

  datatype World = World(log: seq<Entry>, fate: Fate)

  /** The second command asks for the same numbered pipe as the first one, and both close its write end. */
  predicate ShutsTwice(c: Command, d: Command) {
    Shuts(c) && Shuts(d) && c.Delay() == d.Delay() + 1
  }

  /**
   A line is executed up to its first `tell` or `yell`. A command that closes the write end of its numbered
   pipe leads the server astray; the next one for the same pipe ends it.
   */
  function DoLine(log: seq<Entry>, u: int, commands: seq<Command>, directories: set<string>): World
    decreases |commands|
  {
    if commands == [] then World(log, Serving)
    else
      var after := DoCommand(log, u, commands[0], directories);
      if EndsLine(commands[0]) then World(after, Serving)
      else if Shuts(commands[0]) then
        World(after, if |commands| > 1 && ShutsTwice(commands[0], commands[1]) then Ended else Astray)
      else DoLine(after, u, commands[1..], directories)
  }

  /** What arrives at the server: a connection, the line `exit`, another line. */
  datatype Request = Connect(ip: string, port: nat) | ExitLine(sock: int) | Line(sock: int, commands: seq<Command>)

  /**
   Request number `n`; `sock` is the descriptor the kernel gives to a connection that is accepted. The line
   `exit` of a user with a letter to itself ends the server.
   */
  function Handle(log: seq<Entry>, r: Request, n: nat, sock: int, directories: set<string>): World {
    match r
    case Connect(_, _) =>
      var u := FreeFrom(log, 1);
      World(if u <= MAX_CLIENTS then log + [Login(u, sock, n)] else log, Serving)
    case ExitLine(s) =>
      var u := UserFrom(log, s, 1);
      if u == 0 then World(log, Serving)
      else if Waiting(log, u, u).Some? then World(log, Ended)
      else World(log + [Logout(u)], Serving)
    case Line(s, commands) =>
      var u := UserFrom(log, s, 1);
      if u == 0 then World(log, Serving) else DoLine(log, u, commands, directories)
  }

  /** A run of the server; `socks` has the kernel's descriptor for every request. */
  function RunOf(requests: seq<Request>, socks: seq<int>, directories: set<string>): World
    requires |socks| == |requests|
    decreases |requests|
  {
    if requests == [] then World([], Serving)
    else
      var n := |requests| - 1;
      var w := RunOf(requests[..n], socks[..n], directories);
      if w.fate.Serving? then Handle(w.log, requests[n], n, socks[n], directories) else w
  }

  lemma RunFurther(requests: seq<Request>, socks: seq<int>, sock: int, i: nat, directories: set<string>)
    requires i < |requests| && |socks| == i
    ensures var w := RunOf(requests[..i], socks, directories);
      RunOf(requests[..i + 1], socks + [sock], directories) ==
      if w.fate.Serving? then Handle(w.log, requests[i], i, sock, directories) else w
  {
    assert requests[..i + 1][..i] == requests[..i] && (socks + [sock])[..i] == socks;
  }

  /** Nothing is said once the server has ended or gone astray. */
  lemma {:induction false} NothingAfter(requests: seq<Request>, socks: seq<int>, i: nat, directories: set<string>)
    requires i <= |requests| && |socks| == i && RunOf(requests[..i], socks, directories).fate != Serving
    ensures RunOf(requests, socks + seq(|requests| - i, k => 0), directories) == RunOf(requests[..i], socks,
                                                                                       directories)
    decreases |requests| - i
  {
    if i == |requests| {
      assert requests[..i] == requests && socks + seq(|requests| - i, k => 0) == socks;
    } else {
      RunFurther(requests, socks, 0, i, directories);
      NothingAfter(requests, socks + [0], i + 1, directories);
      assert socks + seq(|requests| - i, k => 0) == socks + [0] + seq(|requests| - (i + 1), k => 0);
    }
  }

  /** After these the rest of the line is not executed, or not as the specification says. */
  predicate Stops(c: Command) {
    EndsLine(c) || Shuts(c)
  }

  /** How many commands of a line the specification follows: all, or those up to the first one that stops. */
  predicate IsExecuted(commands: seq<Command>, n: nat) {
    && n <= |commands| && (forall i :: 0 <= i < n - 1 ==> !Stops(commands[i]))
    && (n < |commands| ==> n > 0 && Stops(commands[n - 1]))
  }

  /**
   A line adds its executed commands to the log, in their order and as commands of its user, each with a process if it
   can start one then; the server serves on if and only if the last of them does not close the write end of its
   numbered pipe.
   */
  lemma {:induction false} LineIs(log: seq<Entry>, u: int, commands: seq<Command>, directories: set<string>)
    returns (n: nat)
    ensures IsExecuted(commands, n)
    ensures Extends(log, DoLine(log, u, commands, directories).log, u, commands[..n], directories)
    ensures DoLine(log, u, commands, directories).fate ==
            if n == 0 || !Shuts(commands[n - 1]) then Serving
            else if n < |commands| && ShutsTwice(commands[n - 1], commands[n]) then Ended
            else Astray
    decreases |commands|
  {
    if commands == [] {
      n := 0;
    } else {
      var first := DoCommand(log, u, commands[0], directories);
      if Stops(commands[0]) {
        n := 1;
      } else {
        var m := LineIs(first, u, commands[1..], directories);
        n := m + 1;
        ExtendsMore(log, DoLine(first, u, commands[1..], directories).log, u, commands, m, directories);
      }
    }
  }

  /** The second log is the first one with these commands of user `u`. */
  predicate Extends(log: seq<Entry>, after: seq<Entry>, u: int, commands: seq<Command>, directories: set<string>) {
    && |after| == |log| + |commands| && log <= after
    && forall i :: |log| <= i < |after| ==>
         var c := commands[i - |log|];
         after[i] == Did(u, c, !IsBuiltIn(c) && CanStart(after[..i], u, c, directories))
  }

  lemma ExtendsMore(log: seq<Entry>, after: seq<Entry>, u: int, commands: seq<Command>, m: nat,
                    directories: set<string>)
    requires m < |commands| && Extends(DoCommand(log, u, commands[0], directories), after, u, commands[1..][..m],
                                         directories)
    ensures Extends(log, after, u, commands[..m + 1], directories)
  {
    var first := DoCommand(log, u, commands[0], directories);
    assert first[|log|] == after[|log|] && after[..|log|] == log;
    assert forall i :: 0 <= i < m ==> commands[1..][..m][i] == commands[..m + 1][i + 1];
  }

  lemma More(log: seq<Entry>, e: Entry)
    ensures log + [e] != [] && Last(log + [e]) == e && Before(log + [e]) == log
  {
  }

  // ------------------------------------------------------------------ sessions

  /** Every login is of a connection that was asked for, each of another and later one. */
  predicate LoginsApart(log: seq<Entry>, requests: seq<Request>, socks: seq<int>)
    requires |socks| == |requests|
  {
    forall k :: 0 <= k < |log| && log[k].Login? ==>
      && log[k].conn < |requests| && requests[log[k].conn].Connect? && log[k].sock == socks[log[k].conn]
      && forall i :: 0 <= i < k && log[i].Login? ==> log[i].conn < log[k].conn
  }

  /** Two logins are never of the same connection. */
  lemma {:induction false} ConnectionsApart(requests: seq<Request>, socks: seq<int>, directories: set<string>)
    requires |socks| == |requests|
    ensures LoginsApart(RunOf(requests, socks, directories).log, requests, socks)
    decreases |requests|
  {
    if requests != [] {
      var n := |requests| - 1;
      var w := RunOf(requests[..n], socks[..n], directories);
      ConnectionsApart(requests[..n], socks[..n], directories);
      if w.fate.Serving? {
        var log := Handle(w.log, requests[n], n, socks[n], directories).log;
        NewLogin(w.log, requests[n], n, socks[n], directories);
        assert forall k :: 0 <= k < |w.log| ==> log[k] == w.log[k];
        assert forall k :: 0 <= k < n ==> requests[..n][k] == requests[k] && socks[..n][k] == socks[k];
      }
    }
  }

  /** A request adds at most one login, and that is its own. */
  lemma NewLogin(log: seq<Entry>, r: Request, n: nat, sock: int, directories: set<string>)
    ensures var after := Handle(log, r, n, sock, directories).log;
      && log <= after
      && forall k :: |log| <= k < |after| && after[k].Login? ==>
           k == |log| && r.Connect? && after[k].conn == n && after[k].sock == sock
  {
    if r.Line? {
      var u := UserFrom(log, r.sock, 1);
      if u != 0 {
        var m := LineIs(log, u, r.commands, directories);
      }
    }
  }

  /** The commands of a session lie behind its login, in their order. */
  lemma {:induction false} InSession(log: seq<Entry>, u: int, n: nat)
    requires n < |DoneAt(log, u)|
    ensures var i := DoneAt(log, u)[n];
      LoginAt(log[..i], u) == LoginAt(log, u) && DoneAt(log[..i], u) == DoneAt(log, u)[..n]
  {
    var rest := Before(log);
    if Last(log).Did? && Last(log).uid == u && n == |DoneAt(log, u)| - 1 {
      assert log[..|log| - 1] == rest;
    } else {
      InSession(rest, u, n);
      assert log[..DoneAt(log, u)[n]] == rest[..DoneAt(log, u)[n]];
    }
  }
}
