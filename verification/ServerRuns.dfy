/** Runs of the server of np_project2/np_single_proc.cpp that show what can happen. */
module ServerRuns {
  import opened Commands
  import opened Options
  import opened Processes
  import opened NpServer
  import opened ServerCommand
  import opened ServerLog
  import opened ServerPipes
  import opened ServerTable
  import opened Sessions
  import opened UserPipeExample
  import opened UserPipes

  /** `cat >1` */
  const TO_FIRST := Command(["cat"], "", 0, false, false, false, false, 0, 1)
  /** `number |` */
  const TO_NEXT := Command(["number"], "", 0, true, false, false, false, 0, 0)
  /** `cat <1` */
  const FROM_FIRST := Command(["cat"], "", 0, false, false, false, false, 1, 0)
  /** `cat <1 > dir` */
  const INTO_DIRECTORY := Command(["cat"], "dir", 0, false, false, false, false, 1, 0)

  // ------------------------------------------------------------------ one user is there

  /** The log after a first connection on `sock` and commands of its user that all start. */
  function Session(sock: int, commands: seq<Command>): seq<Entry> {
    [Login(1, sock, 0)] + seq(|commands|, i requires 0 <= i < |commands| => Did(1, commands[i], true))
  }

  lemma SessionMore(sock: int, commands: seq<Command>, c: Command)
    ensures Session(sock, commands + [c]) == Session(sock, commands) + [Did(1, c, true)]
  {
  }

  lemma {:induction false} OneUser(sock: int, commands: seq<Command>)
    ensures LoginAt(Session(sock, commands), 1) == Some(0) && SockOf(Session(sock, commands), 1) == Some(sock)
    ensures UserFrom(Session(sock, commands), sock, 1) == 1
  {
    if commands == [] {
      More([], Login(1, sock, 0));
      assert [] + [Login(1, sock, 0)] == Session(sock, []);
    } else {
      var n := |commands| - 1;
      OneUser(sock, commands[..n]);
      SessionMore(sock, commands[..n], commands[n]);
      assert commands[..n] + [commands[n]] == commands;
      More(Session(sock, commands[..n]), Did(1, commands[n], true));
    }
  }

  /** A line of one command that starts. */
  lemma OneCommand(sock: int, commands: seq<Command>, c: Command, directories: set<string>)
    requires !IsBuiltIn(c) && !Shuts(c) && CanStart(Session(sock, commands), 1, c, directories)
    ensures DoLine(Session(sock, commands), 1, [c], directories) == World(Session(sock, commands + [c]), Serving)
  {
    SessionMore(sock, commands, c);
    assert DoCommand(Session(sock, commands), 1, c, directories) == Session(sock, commands + [c]);
    assert [c][1..] == [] && !EndsLine(c);
    assert DoLine(Session(sock, commands + [c]), 1, [c][1..], directories) == World(Session(sock, commands + [c]),
                                                                                    Serving);
  }

  /** A connection to a server that has just started. */
  method FirstConnection(server: Server) returns (ghost sock: int)
    requires server.Logged() && server.intact && !server.crashed && server.log == []
    modifies server
    ensures server.Logged() && server.intact && !server.crashed && server.log == Session(sock, [])
  {
    sock := server.OnConnect("", 0, 0);
    assert FreeFrom([], 1) == 1;
    assert [] + [Login(1, sock, 0)] == Session(sock, []);
  }

  /** The server's descriptor for its only user is the one in the log. */
  lemma OnlySocket(server: Server, sock: int, commands: seq<Command>)
    requires server.Logged() && server.intact && server.log == Session(sock, commands)
    ensures server.clients[1].fd == sock && Live(server.clients, 1)
  {
    OneUser(sock, commands);
    LiveAgrees(server.clients, server.fds, server.history, server.nextPipe, server.log, server.outs, 1);
  }

  /** A line of the first user with one command that starts. */
  method FirstTypes(server: Server, c: Command, ghost sock: int, ghost commands: seq<Command>, ghost n: nat)
    requires server.Logged() && server.intact && !server.crashed && server.log == Session(sock, commands)
    requires CommandOk(c)
    requires !IsBuiltIn(c) && !Shuts(c) && CanStart(Session(sock, commands), 1, c, server.directories)
    modifies server
    ensures server.Logged() && server.intact && !server.crashed && server.log == Session(sock, commands + [c])
    ensures Handle(Session(sock, commands), Line(sock, [c]), n, 0, server.directories) ==
            World(Session(sock, commands + [c]), Serving)
  {
    OnlySocket(server, sock, commands);
    OneUser(sock, commands);
    OneCommand(sock, commands, c, server.directories);
    server.OnLine(server.clients[1].fd, [c], n);
  }

  // ------------------------------------------------------------------ coming and going

  /** A first connection and the typed line `exit`: the user has left, its slot and its socket are free again. */
  method TypedExitLeaves(directories: set<string>) returns (server: Server, ghost sock: int)
    ensures fresh(server) && server.Logged() && server.intact && server.log == [Login(1, sock, 0), Logout(1)]
    ensures RunOf(RequestsOf([Connection("", 0), Typed(sock, "exit")]), [sock, 0], directories) ==
            World([Login(1, sock, 0), Logout(1)], Serving)
    ensures FreeSlot(server.clients[1]) && sock !in server.fds
  {
    hide Agrees, Sound, Told, Handle, RunOf, UserFrom, LineOk, Session;
    server := new Server(directories);
    sock := FirstConnection(server);
    OneUser(sock, []);
    OnlySocket(server, sock, []);
    ExitHandled(sock, directories);
    server.OnTyped(server.clients[1].fd, "exit", 1);
  }

  lemma ExitHandled(sock: int, directories: set<string>)
    ensures var w := World([Login(1, sock, 0), Logout(1)], Serving);
      && Handle(Session(sock, []), RequestOf(Typed(sock, "exit")), 1, 0, directories) == w
      && RunOf(RequestsOf([Connection("", 0), Typed(sock, "exit")]), [sock, 0], directories) == w
  {
    FirstExit(sock, directories);
    var w := World([Login(1, sock, 0), Logout(1)], Serving);
    hide Handle, RunOf, Session, CommandsOf;
    TwoRequests(sock, ExitLine(sock), w, directories);
    RequestsAre(Connection("", 0), Typed(sock, "exit"));
  }

  lemma FirstExit(sock: int, directories: set<string>)
    ensures Handle(Session(sock, []), ExitLine(sock), 1, 0, directories) ==
            World([Login(1, sock, 0), Logout(1)], Serving)
  {
    OneUser(sock, []);
    NothingWaits(sock);
    assert Session(sock, []) + [Logout(1)] == [Login(1, sock, 0), Logout(1)];
  }

  lemma RequestsAre(a: Input, b: Input)
    ensures RequestsOf([a, b]) == [RequestOf(a), RequestOf(b)]
  {
  }

  // ------------------------------------------------------------------ a pipe to oneself

  /**
   The first user sends to itself by `cat >1` and types `exit`: the server ends itself, and the specification
   says so, too.
   */
  method SelfPipeEndsServer(directories: set<string>) returns (server: Server)
    ensures fresh(server) && server.crashed
    ensures exists sock: int ::
              RunOf([Connect("", 0), Line(sock, [TO_FIRST]), RequestOf(Typed(sock, "exit"))], [sock, 0, 0],
                    directories) ==
              World(Session(sock, [TO_FIRST]), Ended)
  {
    server := new Server(directories);
    ghost var sock := FirstConnection(server);
    OneUser(sock, []);
    NothingWaits(sock);
    FirstTypes(server, TO_FIRST, sock, [], 1);
    OnlySocket(server, sock, [TO_FIRST]);
    OneUser(sock, [TO_FIRST]);
    SelfSent(sock);
    server.OnTyped(server.clients[1].fd, "exit", 2);
    ThreeRequests(sock, Line(sock, [TO_FIRST]), RequestOf(Typed(sock, "exit")), Session(sock, [TO_FIRST]),
                  World(Session(sock, [TO_FIRST]), Ended), directories);
  }

  lemma NothingWaits(sock: int)
    ensures Waiting(Session(sock, []), 1, 1) == None
  {
    More([], Login(1, sock, 0));
    assert [] + [Login(1, sock, 0)] == Session(sock, []);
  }

  lemma SelfSent(sock: int)
    ensures [] + [TO_FIRST] == [TO_FIRST]
    ensures Waiting(Session(sock, [TO_FIRST]), 1, 1) == Some(1)
  {
    SessionMore(sock, [], TO_FIRST);
    More(Session(sock, []), Did(1, TO_FIRST, true));
  }

  /** A run of a connection and two more requests. */
  lemma ThreeRequests(sock: int, second: Request, third: Request, log: seq<Entry>, w: World, directories: set<string>)
    requires Handle(Session(sock, []), second, 1, 0, directories) == World(log, Serving)
    requires Handle(log, third, 2, 0, directories) == w
    ensures RunOf([Connect("", 0), second, third], [sock, 0, 0], directories) == w
  {
    hide Handle, RunOf, Session;
    TwoRequests(sock, second, World(log, Serving), directories);
    var rs, ss := [Connect("", 0), second, third], [sock, 0, 0];
    assert rs[..2] == [Connect("", 0), second] && ss[..2] == [sock, 0];
    RunFurther(rs, ss[..2], 0, 2, directories);
    assert ss[..2] + [0] == ss && rs[..3] == rs;
  }

  lemma TwoRequests(sock: int, second: Request, w: World, directories: set<string>)
    requires Handle(Session(sock, []), second, 1, 0, directories) == w
    ensures RunOf([Connect("", 0), second], [sock, 0], directories) == w
  {
    var rs, ss := [Connect("", 0), second], [sock, 0];
    assert rs[..0] == [] && ss[..0] == [] && FreeFrom([], 1) == 1;
    RunFurther(rs, ss[..0], sock, 0, directories);
    assert ss[..0] + [sock] == ss[..1] && [] + [Login(1, sock, 0)] == Session(sock, []);
    RunFurther(rs, ss[..1], 0, 1, directories);
    assert ss[..1] + [0] == ss && rs[..2] == rs;
  }

  // ------------------------------------------------------------------ a numbered pipe and `>N` at once

  /**
   The first user types `a >1|2 b >1|1`: the second command closes the write end of the numbered pipe that the first one
   has closed, and the server ends itself, as the specification says.
   */
  method ShutTwiceEndsServer(directories: set<string>) returns (server: Server)
    ensures fresh(server) && server.crashed
    ensures exists sock: int ::
              RunOf([Connect("", 0), RequestOf(Typed(sock, LINE))], [sock, 0], directories).fate == Ended
  {
    server := new Server(directories);
    ghost var sock := FirstConnection(server);
    OneUser(sock, []);
    OnlySocket(server, sock, []);
    ShutLine();
    ShutsTwiceIs(sock, CommandsOf(LINE), directories);
    assert LINE != "exit";
    hide LineOk, CommandsOf, Handle, RunOf, Session, Agrees, Sound, Told, UserFrom;
    server.OnTyped(server.clients[1].fd, LINE, 1);
    ghost var w := Handle(Session(sock, []), RequestOf(Typed(sock, LINE)), 1, 0, directories);
    TwoRequests(sock, RequestOf(Typed(sock, LINE)), w, directories);
  }

  lemma ShutsTwiceIs(sock: int, commands: seq<Command>, directories: set<string>)
    requires |commands| == 2 && ShutsTwice(commands[0], commands[1])
    ensures Handle(Session(sock, []), Line(sock, commands), 1, 0, directories).fate == Ended
  {
    OneUser(sock, []);
  }

  lemma ShutLine()
    ensures LineOk(LINE) && |CommandsOf(LINE)| == 2 && ShutsTwice(CommandsOf(LINE)[0], CommandsOf(LINE)[1])
  {
    LineMeans();
    Unmarkable(LINE);
    hide CommandsOf, UserPipeParser.Readable, UserPipeParser.Parsed;
    var cmds := CommandsOf(LINE);
    assert cmds[0].(first := false, last := false) == A && cmds[1].(first := false, last := false) == B;
  }

  /** The first of these commands alone leaves a server that is not in order, with the write end closed. */
  method ShutLeadsAstray(directories: set<string>) returns (server: Server)
    ensures fresh(server) && server.Valid() && !server.intact && !server.crashed
    ensures !Good(server.clients, server.fds, server.history, server.nextPipe, 0) && server.WriteEndShut(1, 2)
  {
    server := new Server(directories);
    ghost var sock := FirstConnection(server);
    OnlySocket(server, sock, []);
    server.LoadEnvironment(server.clients[1].env);
    var stop, kid := server.RunCommand(1, A);
  }

  // ------------------------------------------------------------------ a letter that is lost

  /**
   The first user types `cat >1`, then `number |` and `cat <1`: the last command takes the letter, but reads the
   numbered pipe, and the letter is read by nobody, now and later.
   */
  method LetterIsLost(directories: set<string>) returns (server: Server)
    ensures fresh(server) && server.Logged() && server.intact && |server.outs| == |server.log| == 4
    ensures Took(server.log, 3) == Some(1) && forall i :: 1 <= i < 4 ==> server.outs[i].kid.Some?
    ensures ReadsFrom(server.outs[3].kid.value, server.outs[2].kid.value)
    ensures !ReadsFrom(server.outs[3].kid.value, server.outs[1].kid.value)
  {
    server := new Server(directories);
    ghost var sock := FirstConnection(server);
    NothingWaits(sock);
    OneUser(sock, []);
    FirstTypes(server, TO_FIRST, sock, [], 1);
    FirstTypes(server, TO_NEXT, sock, [] + [TO_FIRST], 2);
    FirstTypes(server, FROM_FIRST, sock, [] + [TO_FIRST] + [TO_NEXT], 3);
    hide CanStart, Session;
    LostIs(sock);
    LostHere(server.log, server.outs);
  }

  lemma LostHere(log: seq<Entry>, outs: seq<Outcome>)
    requires Told(log, outs) && |log| == 4 && Took(log, 3) == Some(1) && NumberedTo(log, 2, 3) && IsDue(log, 3)
    requires forall i :: 1 <= i < 4 ==> log[i].Did? && log[i].forks
    requires !NumberedTo(log, 1, 3)
    ensures |outs| == 4 && forall i :: 1 <= i < 4 ==> outs[i].kid.Some?
    ensures ReadsFrom(outs[3].kid.value, outs[2].kid.value) && !ReadsFrom(outs[3].kid.value, outs[1].kid.value)
  {
    var next: nat :| Chronicle(log, outs, next);
    WhoReadsWhom(log, outs, next, 3, 2);
    WhoReadsWhom(log, outs, next, 3, 1);
  }

  lemma LostIs(sock: int)
    ensures var log := Session(sock, [] + [TO_FIRST] + [TO_NEXT] + [FROM_FIRST]);
      && |log| == 4 && (forall i :: 1 <= i < 4 ==> log[i].Did? && log[i].forks)
      && Took(log, 3) == Some(1) && NumberedTo(log, 2, 3) && IsDue(log, 3) && !NumberedTo(log, 1, 3)
  {
    var log := Session(sock, [] + [TO_FIRST] + [TO_NEXT] + [FROM_FIRST]);
    var one, two := Session(sock, [] + [TO_FIRST]), Session(sock, [] + [TO_FIRST] + [TO_NEXT]);
    SelfSent(sock);
    SessionMore(sock, [], TO_FIRST);
    SessionMore(sock, [] + [TO_FIRST], TO_NEXT);
    SessionMore(sock, [] + [TO_FIRST] + [TO_NEXT], FROM_FIRST);
    assert log[..3] == two;
    More(Session(sock, []), Did(1, TO_FIRST, true));
    More(one, Did(1, TO_NEXT, true));
    More([], Login(1, sock, 0));
    assert [] + [Login(1, sock, 0)] == Session(sock, []);
    assert DoneAt(Session(sock, []), 1) == [] && DoneAt(one, 1) == [1];
    assert DoneAt(two, 1) == DoneAt(one, 1) + [2];
    assert DoneAt(two, 1)[1] == 2;
    var j: nat := 2;
    assert NumberedTo(log, j, 3);
  }

  // ------------------------------------------------------------------ descriptors that are lost

  /** `cat >1` and then `cat <1 > dir`, where `dir` is a directory: the read end of the pipe stays open. */
  method ReadEndIsLost(directories: set<string>) returns (server: Server, ghost fd: int)
    requires "dir" in directories
    ensures fresh(server) && server.Valid() && server.intact
    ensures fd in Unowned(server.clients, server.fds) && fd in server.fds && server.fds[fd].ReadEnd?
  {
    server := new Server(directories);
    ghost var sock := FirstConnection(server);
    NothingWaits(sock);
    OneUser(sock, []);
    FirstTypes(server, TO_FIRST, sock, [], 1);
    OnlySocket(server, sock, [] + [TO_FIRST]);
    SelfSent(sock);
    SelfWaits(server.clients, server.fds, server.history, server.nextPipe, server.log, server.outs, 1);
    server.LoadEnvironment(server.clients[1].env);
    ghost var cl, fds, next := server.clients, server.fds, server.nextPipe;
    assert TakesPipe(cl, 1, INTO_DIRECTORY) && !Starts(cl, 1, INTO_DIRECTORY, directories);
    var stop, kid := server.RunCommand(1, INTO_DIRECTORY);
    ReadEndsLeft(cl, fds, next, server.clients, server.fds, server.nextPipe, 1, INTO_DIRECTORY, directories);
    fd :| fd in Unowned(server.clients, server.fds) - Unowned(cl, fds) && server.fds[fd].ReadEnd?;
  }

  /** `number |` and then `exit`: both ends of the numbered pipe stay open. */
  method PipeIsLost(directories: set<string>) returns (server: Server)
    ensures fresh(server) && server.Logged() && server.intact && |Unowned(server.clients, server.fds)| == 2
  {
    server := new Server(directories);
    ghost var sock := FirstConnection(server);
    OneUser(sock, []);
    FirstTypes(server, TO_NEXT, sock, [], 1);
    hide Handle, CanStart, Session, UserFrom, LineOk, Agrees, Sound, Told;
    OnlySocket(server, sock, [] + [TO_NEXT]);
    LostAtExit(sock, directories);
    server.OnTyped(server.clients[1].fd, "exit", 2);
    LostAre(server);
  }

  lemma LostAre(server: Server)
    requires server.Logged() && server.intact
    ensures Shape(server.clients) && |Unowned(server.clients, server.fds)| == Leaked(server.log)
  {
  }

  lemma LostAtExit(sock: int, directories: set<string>)
    ensures var log := Session(sock, [] + [TO_NEXT]);
      && Handle(log, RequestOf(Typed(sock, "exit")), 2, 0, directories) == World(log + [Logout(1)], Serving)
      && Leaked(log + [Logout(1)]) == 2
  {
    OneUser(sock, [] + [TO_NEXT]);
    var log := Session(sock, [] + [TO_NEXT]);
    NothingWaits(sock);
    SessionMore(sock, [], TO_NEXT);
    More([], Login(1, sock, 0));
    assert [] + [Login(1, sock, 0)] == Session(sock, []);
    More(Session(sock, []), Did(1, TO_NEXT, true));
    More(log, Logout(1));
    assert Ahead(Session(sock, []), 1) == {} && Leaked(Session(sock, [])) == 0;
    assert Ahead(log, 1) == Later({}, Some(1), true) == {1};
    assert Leaked(log) == 0;
  }
}
