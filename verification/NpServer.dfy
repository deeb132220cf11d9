/** The single-process server of np_project2/np_single_proc.cpp. */
module NpServer {
  import opened Commands
  import opened Descriptors
  import opened NumberedPipes
  import opened Options
  import opened ServerChild
  import opened ServerCommand
  import opened ServerLog
  import opened ServerPipes
  import opened ServerTable
  import opened ServerVisits
  import opened Sessions
  import UserPipeParser
  import opened UserPipes

  // ------------------------------------------------------------------ what is typed

  /** What arrives at the sockets: a connection, or a line as it was typed. */
  datatype Input = Connection(ip: string, port: nat) | Typed(sock: int, line: string)

  function CommandsOf(line: string): seq<Command> {
    UserPipeParser.Marked(line)
  }

  lemma Unmarkable(line: string)
    ensures Unmarked(CommandsOf(line)) == UserPipeParser.Parsed(line)
    ensures |CommandsOf(line)| == |UserPipeParser.Parsed(line)|
    ensures forall k :: 0 <= k < |CommandsOf(line)| ==>
              UserPipeParser.Parsed(line)[k] == CommandsOf(line)[k].(first := false, last := false)
  {
    assert |Unmarked(CommandsOf(line))| == |CommandsOf(line)|;
  }

  /** A line that the parser is made for, of commands that the server is made for. */
  predicate LineOk(line: string) {
    UserPipeParser.Readable(line) && forall i :: 0 <= i < |CommandsOf(line)| ==> CommandOk(CommandsOf(line)[i])
  }

  method ReadLine(line: string) returns (commands: seq<Command>)
    requires LineOk(line)
    ensures commands == CommandsOf(line) && forall i :: 0 <= i < |commands| ==> CommandOk(commands[i])
  {
    commands := UserPipeParser.GetCommandList(line);
  }

  predicate InputOk(input: Input) {
    input.Typed? && input.line != "exit" ==> LineOk(input.line)
  }

  function RequestOf(input: Input): Request {
    match input
    case Connection(ip, port) => Connect(ip, port)
    case Typed(sock, line) => if line == "exit" then ExitLine(sock) else Line(sock, CommandsOf(line))
  }

  function RequestsOf(inputs: seq<Input>): (requests: seq<Request>)
    ensures |requests| == |inputs|
  {
    seq(|inputs|, i requires 0 <= i < |inputs| => RequestOf(inputs[i]))
  }

  lemma RequestIs(inputs: seq<Input>, i: nat)
    requires i < |inputs|
    ensures RequestsOf(inputs)[i] == RequestOf(inputs[i])
  {
  }

  class Server {
    var clients: Table
    var fdUid: map<int, int>
    /** The open descriptors of the server process. */
    var fds: Fds
    /** The environment of the server process. */
    var environ: map<string, string>
    var nextPipe: nat
    /** The process has ended itself with an error. */
    var crashed: bool
    /** The names that `open` for writing fails on. */
    const directories: set<string>
    /** No command has closed a descriptor that the table still holds, and the server has not ended itself. */
    ghost var intact: bool
    /** For every user, what the commands of the session did with numbered pipes. */
    ghost var history: seq<seq<Tick>>
    /** What all users did while the server was intact, and what came of it. */
    ghost var log: seq<Entry>
    ghost var outs: seq<Outcome>

    ghost predicate Valid()
      reads this
    {
      && Shape(clients) && |history| == MAX_CLIENTS + 1
      && (intact ==> !crashed && Sound(clients, fds, fdUid, history, nextPipe, 0, None))
    }

    /** Between two requests: all that happened was as the log says, and an intact server is what its log says. */
    ghost predicate Logged()
      reads this
    {
      && Valid() && Told(log, outs)
      && (intact ==> Agrees(clients, fds, history, nextPipe, log, outs))
    }

    /** The log is that of the specification, and so is how the server is, as far as the specification says it. */
    ghost predicate Is(w: World)
      reads this
    {
      log == w.log && (w.fate.Serving? <==> intact) && (w.fate.Ended? ==> crashed)
    }

    /** `set_up_all_clients` on a table the linker has filled with zeros. */
    constructor (directories: set<string>)
      ensures Logged() && intact && !crashed && this.directories == directories && log == []
      ensures forall i :: Id(i) ==> !Live(clients, i)
    {
      this.directories := directories;
      var zeros := seq(MAX_CLIENTS + 1, i => 0);
      var none := seq(MAX_CLIENTS + 1, i => -1);
      var cl := seq(MAX_CLIENTS + 1, i => Client(0, 0, "", "", 0, zeros, zeros, [], map[]));
      var uids: map<int, int> := map[];
      var i := 1;
      while i <= MAX_CLIENTS
        invariant 1 <= i <= MAX_CLIENTS + 1 && Shape(cl)
        invariant forall k :: 1 <= k < i ==> FreeSlot(cl[k]) && cl[k].sentFd == cl[k].sendFd == none
        invariant forall fd :: fd in uids ==> uids[fd] == -1
      {
        uids := uids[cl[i].fd := -1];
        cl := cl[i := Client(-1, -1, "", "", 0, none, none, [], map[])];
        i := i + 1;
      }
      clients, fdUid, environ, nextPipe, crashed := cl, uids, map[], 0, false;
      fds := map[0 := Std, 1 := Std, 2 := Std];
      intact, history, log, outs := true, seq(MAX_CLIENTS + 1, i => []), [], [];
      StartSound(cl, uids, seq(MAX_CLIENTS + 1, i => []));
      StartAgrees(cl, map[0 := Std, 1 := Std, 2 := Std], seq(MAX_CLIENTS + 1, i => []));
      AgreesTells(cl, map[0 := Std, 1 := Std, 2 := Std], seq(MAX_CLIENTS + 1, i => []), 0, [], []);
    }

    // ---------------------------------------------------------------- logins and logouts

    /** `client_init`: the lowest free slot, or MAX_CLIENTS + 1 with nothing changed if there is none. */
    method ClientInit(sock: int, ip: string, port: nat) returns (uid: int)
      requires Shape(clients)
      modifies this`clients
      ensures 1 <= uid <= MAX_CLIENTS + 1
      ensures forall i :: 1 <= i < uid ==> old(clients)[i].uid != -1
      ensures uid == MAX_CLIENTS + 1 ==> clients == old(clients)
      ensures uid <= MAX_CLIENTS ==>
                && old(clients)[uid].uid == -1
                && clients == old(clients)[uid := NewClient(uid, sock, ip, port, old(clients)[uid].env)]
    {
      var i := 1;
      while i <= MAX_CLIENTS
        invariant 1 <= i <= MAX_CLIENTS + 1 && clients == old(clients)
        invariant forall k :: 1 <= k < i ==> clients[k].uid != -1
      {
        if clients[i].uid == -1 {
          var none := seq(MAX_CLIENTS + 1, i => -1);
          clients := clients[i := clients[i].(uid := i, nickname := NO_NAME, fd := sock, ip := ip, port := port,
                                              sentFd := none, sendFd := none,
                                              env := clients[i].env["PATH" := "bin:."], npipes := [])];
          break;
        }
        i := i + 1;
      }
      return i;
    }

    /** The connection number `conn` is accepted: its user gets the lowest free slot and a clean one. */
    method Accept(ip: string, port: nat, conn: nat) returns (uid: int)
      requires Valid() && exists i :: Id(i) && clients[i].uid == -1
      modifies this`clients, this`fds, this`fdUid, this`history
      ensures Valid() && Id(uid) && old(clients)[uid].uid == -1
      ensures forall i :: 1 <= i < uid ==> old(clients)[i].uid != -1
      ensures clients[uid].uid == uid && clients == old(clients)[uid := clients[uid]] && clients[uid].npipes == []
      ensures history == old(history)[uid := []] && clients[uid].nickname == NO_NAME
      ensures var sock := clients[uid].fd;
        sock !in old(fds) && fds == old(fds)[sock := Socket(conn)] && fdUid == old(fdUid)[sock := uid]
      ensures intact ==>
                && clients[uid].env == map["PATH" := "bin:."] && Unowned(clients, fds) == Unowned(old(clients),
                                                                                                  old(fds))
                && MailWithout(old(clients), old(fds), clients, fds, uid)
    {
      ghost var cl, fds0, fdUid0, h := clients, fds, fdUid, history;
      var sock := LowestFree(fds);
      fds := fds[sock := Socket(conn)];
      uid := ClientInit(sock, ip, port);
      fdUid := fdUid[sock := uid];
      history := history[uid := []];
      if intact {
        LoginSound(cl, fds0, fdUid0, h, nextPipe, uid, sock, conn, ip, port);
      }
    }

    /** The pipes of the table mirror each other, and each has its descriptors. */
    ghost predicate InOrder()
      requires Shape(clients)
      reads this
    {
      Mirror(clients) && Separate(clients, fds)
    }

    /**
     `user_pipe_clear`: closes the read end of every user pipe to or from `uid`, each once, and clears
     the other users' entries for them. If the user has a pipe to itself, its read end is closed twice,
     which ends the server.
     */
    method UserPipeClear(uid: int)
      requires Shape(clients) && Id(uid) && !crashed
      modifies this`clients, this`fds, this`crashed
      ensures Shape(clients)
      ensures old(InOrder()) ==> (crashed <==> Sent(old(clients), uid, uid) > 0)
      ensures old(InOrder()) && !crashed ==>
                && Clearing(old(clients), clients, uid, MAX_CLIENTS + 1)
                && fds == old(fds) - Incident(old(clients), uid, MAX_CLIENTS + 1)
    {
      var i := 1;
      ghost var cl, fds0, ok := clients, fds, InOrder();
      ClearStart(clients, fds, uid);
      hide Mirror, Separate, PairStep, Clearing, Incident;
      while i <= MAX_CLIENTS
        invariant 1 <= i <= MAX_CLIENTS + 1 && !crashed && Shape(clients)
        invariant ok ==> Clearing(cl, clients, uid, i) && fds == fds0 - Incident(cl, uid, i)
        invariant ok && i > uid ==> Sent(cl, uid, uid) <= 0
      {
        ghost var cl1, fds1 := clients, fds;
        ClearPair(uid, i);
        if ok {
          PairTurn(cl, fds0, cl1, fds1, clients, fds, uid, i, crashed);
        }
        if crashed {
          return;
        }
        i := i + 1;
      }
    }

    /** One turn of the loop of `user_pipe_clear`. */
    method ClearPair(uid: int, i: int)
      requires Id(uid) && Id(i) && !crashed && Shape(clients)
      modifies this`clients, this`fds, this`crashed
      ensures Shape(clients) && PairStep(old(clients), old(fds), clients, fds, uid, i, crashed)
    {
      var closeSendMe := Sent(clients, uid, i);
      var closeISend := Send(clients, uid, i);
      if closeSendMe > 0 {
        CloseOrExit(closeSendMe);
        if crashed {
          return;
        }
        clients := SetSend(clients, i, uid, -1);
      }
      if closeISend > 0 {
        CloseOrExit(Sent(clients, i, uid));
        if crashed {
          return;
        }
        clients := SetSent(clients, i, uid, -1);
      }
    }

    /** `close_fd`. */
    method CloseOrExit(fd: int)
      modifies this`fds, this`crashed
      ensures crashed == (fd !in old(fds)) && fds == old(fds) - {fd}
    {
      crashed := fd !in fds;
      fds := fds - {fd};
    }

    /** The slot of a user that has left. */
    method FreeTheSlot(uid: int)
      requires Shape(clients) && Id(uid)
      modifies this`clients, this`fdUid
      ensures clients == old(clients)[uid := Freed(old(clients)[uid])]
      ensures fdUid == old(fdUid)[old(clients)[uid].fd := -1]
    {
      clients := clients[uid := clients[uid].(uid := -1)];
      fdUid := fdUid[clients[uid].fd := -1];
      clients := clients[uid := clients[uid].(fd := -1, nickname := "", ip := "", port := 0)];
      var none := seq(MAX_CLIENTS + 1, i => -1);
      clients := clients[uid := clients[uid].(sentFd := none, sendFd := none)];
      clients := clients[uid := clients[uid].(npipes := [], env := map[])];
    }

    /**
     `client_logout`: the user's slot is free, its pipes are cut, everybody else keeps theirs. It ends an intact
     server exactly if the user has a pipe to itself.
     */
    method ClientLogout(uid: int)
      requires Valid() && !crashed && Id(uid) && (intact ==> Live(clients, uid))
      modifies this`clients, this`fds, this`crashed, this`fdUid, this`intact
      ensures Valid() && intact == (old(intact) && !crashed)
      ensures old(intact) ==> (crashed <==> Sent(old(clients), uid, uid) > 0)
      ensures intact ==> fdUid == old(fdUid)[old(clients)[uid].fd := -1]
      ensures intact ==>
                && FreeSlot(clients[uid]) && Cut(old(clients), clients, uid)
                && fds == old(fds) - Incident(old(clients), uid, MAX_CLIENTS + 1) && SocketsStay(old(fds), fds)
                && (forall v :: Id(v) && v != uid ==>
                      clients[v] == old(clients)[v].(sentFd := clients[v].sentFd, sendFd := clients[v].sendFd))
                && MailWithout(old(clients), old(fds), clients, fds, uid)
      // the user's numbered pipes stay open, without a place
      ensures intact ==> Unowned(clients, fds) == Unowned(old(clients), old(fds)) + Ends(old(clients)[uid].npipes)
    {
      ghost var cl, fds0, fdUid0 := clients, fds, fdUid;
      assert intact ==> InOrder();
      UserPipeClear(uid);
      intact := intact && !crashed;
      if crashed {
        return;
      }
      ghost var cleared := clients;
      hide Sound, Unowned, Mail, Ends, Clearing, Incident, Cut, Mirror, Separate;
      if intact {
        ClearedFd(cl, cleared, uid);
        LogoutSound(cl, cleared, fds0, fdUid0, history, nextPipe, uid);
        FreedIsCut(cl, cleared, uid);
      }
      FreeTheSlot(uid);
    }

    /** The input line `exit` on socket `sock`: its user is logged out and the socket is closed. */
    method Exit(sock: int)
      requires Valid() && !crashed && sock in fdUid && Id(fdUid[sock]) && (intact ==> Live(clients, fdUid[sock]))
      modifies this`clients, this`fds, this`crashed, this`fdUid, this`intact
      ensures Valid() && intact == (old(intact) && !crashed)
      ensures old(intact) ==> (crashed <==> Sent(old(clients), old(fdUid[sock]), old(fdUid[sock])) > 0)
      ensures intact ==>
                && FreeSlot(clients[old(fdUid[sock])]) && Cut(old(clients), clients, old(fdUid[sock])) && sock !in fds
                && fds == old(fds) - Incident(old(clients), old(fdUid[sock]), MAX_CLIENTS + 1) - {sock}
      // the log of an intact server gets one more entry
      ensures intact && Agrees(old(clients), old(fds), old(history), old(nextPipe), log, outs) ==>
                exists o :: Agrees(clients, fds, history, nextPipe, log + [Logout(old(fdUid[sock]))], outs + [o])
    {
      ghost var cl, fds0, fdUid0, uid := clients, fds, fdUid, fdUid[sock];
      assert intact ==> SlotOk(clients, fds, fdUid, uid);
      ghost var agreed := Agrees(clients, fds, history, nextPipe, log, outs);
      hide Unowned, Mail, Ends, Sound, Agrees, Cut, Incident;
      ClientLogout(fdUid[sock]);
      if crashed {
        return;
      }
      ghost var fds1 := fds;
      fds := fds - {sock};
      if intact {
        SocketOf(cl, fds0, fdUid0, history, nextPipe, uid);
        CloseSocketSound(clients, fds1, fdUid, history, nextPipe, sock);
        if agreed {
          ghost var o := LogoutAgrees(cl, fds0, fdUid0, history, nextPipe, log, outs, clients, fds1, uid) by {
            SoundParts(clients, fds1, fdUid, history, nextPipe);
          }
          SoundParts(clients, fds1, fdUid, history, nextPipe);
          SoundParts(clients, fds, fdUid, history, nextPipe);
          ClosedAgrees(clients, fds1, fdUid, history, nextPipe, log + [Logout(uid)], outs + [o], sock);
        }
      }
    }

    // ---------------------------------------------------------------- names and environments

    /** `name_exists`. */
    method NameExists(name: string) returns (r: bool)
      requires Shape(clients)
      ensures r <==> exists i :: Id(i) && clients[i].nickname == name
    {
      r := false;
      var i := 1;
      while i <= MAX_CLIENTS
        invariant 1 <= i <= MAX_CLIENTS + 1
        invariant r <==> exists k :: 1 <= k < i && clients[k].nickname == name
      {
        if clients[i].nickname == name {
          r := true;
        }
        i := i + 1;
      }
    }

    /** `rename`: takes effect exactly if nobody has the name. */
    method Rename(uid: int, name: string)
      requires Shape(clients) && Id(uid)
      modifies this`clients
      ensures clients == if NameTaken(old(clients), name) then old(clients)
                         else old(clients)[uid := old(clients)[uid].(nickname := name)]
    {
      var taken := NameExists(name);
      if !taken {
        clients := clients[uid := clients[uid].(nickname := name)];
      }
    }

    /** `clearenv` and `set_env`: the process environment becomes what the user's session exports. */
    method LoadEnvironment(env: map<string, string>)
      modifies this`environ
      ensures environ == Exported(env)
      ensures forall k :: k in environ <==> k in env && k != "" && '=' !in k
      ensures forall k :: k in environ ==> environ[k] == env[k]
    {
      environ := map[];
      var keys := env.Keys;
      while keys != {}
        invariant keys <= env.Keys
        invariant environ == map k | k in env && k !in keys && ValidName(k) :: env[k]
        decreases keys
      {
        var k :| k in keys;
        if ValidName(k) {
          environ := environ[k := env[k]];
        }
        keys := keys - {k};
      }
    }

    /** The process environment is what user `uid` exports. */
    ghost predicate Exporting(uid: int)
      requires Shape(clients) && Id(uid)
      reads this
    {
      environ == Exported(clients[uid].env)
    }

    /** The built-in `setenv`: in the process environment and in the user's. */
    method SetEnv(uid: int, args: seq<string>)
      requires Shape(clients) && Id(uid) && Exporting(uid)
      modifies this`clients, this`environ
      ensures Shape(clients) && Exporting(uid)
      ensures clients == if |args| != 3 then old(clients)
                         else old(clients)[uid := old(clients)[uid].(env := old(clients)[uid].env[args[1] := args[2]])]
    {
      if |args| == 3 {
        if ValidName(args[1]) {
          environ := environ[args[1] := args[2]];
        }
        clients := clients[uid := clients[uid].(env := clients[uid].env[args[1] := args[2]])];
      }
    }

    // ---------------------------------------------------------------- run_npshell

    /** `pipe`. */
    method MakePipe() returns (r: int, w: int)
      modifies this`fds, this`nextPipe
      ensures NewPipe(old(fds), old(nextPipe), fds, nextPipe, r, w)
    {
      r := LowestFree(fds);
      fds := fds[r := ReadEnd(nextPipe)];
      w := LowestFree(fds);
      fds := fds[w := WriteEnd(nextPipe)];
      nextPipe := nextPipe + 1;
    }

    /** `open`. */
    method Open(e: End) returns (fd: int)
      modifies this`fds
      ensures fd >= 0 && fd !in old(fds) && fds == old(fds)[fd := e]
    {
      fd := LowestFree(fds);
      fds := fds[fd := e];
    }

    /** User pipe in: the pipe if it is there, and else the null device; 0 if the command asks for none. */
    method TakeInput(uid: int, c: Command) returns (readfd: int)
      requires Shape(clients) && Id(uid) && CommandOk(c)
      modifies this`clients, this`fds
      ensures Shape(clients) && InputStep(old(clients), old(fds), clients, fds, uid, c, readfd)
    {
      readfd := 0;
      if c.userIn > 0 {
        var from := c.userIn;
        if clients[from].uid > 0 && clients[uid].sentFd[from] > 0 {
          readfd := clients[uid].sentFd[from];
          clients := SetSent(clients, uid, from, -1);
          clients := SetSend(clients, from, uid, -1);
        } else {
          readfd := Open(Null);
        }
      }
    }

    /** The numbered pipe for the output of a command: the user's entry with that counter, or a new one at the end. */
    method OutputPipe(uid: int, c: Command) returns (target: Target)
      requires Shape(clients) && Id(uid) && c.CheckIfPipe()
      modifies this`clients, this`fds, this`nextPipe
      ensures Shape(clients) && PipeStep(old(clients), old(fds), old(nextPipe), clients, fds, nextPipe, uid, c, target)
    {
      var pipeN := if c.CheckPipe() then 1 else if c.CheckPipeN() then c.pipeCount
                   else if c.pipeCount > 0 then c.pipeCount else 1;
      var errPipe := !c.CheckPipe() && !c.CheckPipeN();
      var pipes := clients[uid].npipes;
      var writeIndex := PipeForWriting(pipes, pipeN);
      FirstIsUnique(pipes, pipeN, writeIndex);
      var writefd;
      if writeIndex == -1 {
        var r, w := MakePipe();
        writefd := w;
        clients := SetPipes(clients, uid, pipes + [PipeCounter(r, w, pipeN)]);
        writeIndex := PipeForWriting(clients[uid].npipes, pipeN);
        assert clients[uid].npipes[|pipes|] == PipeCounter(r, w, pipeN);
      } else {
        writefd := pipes[writeIndex].writefd;
      }
      target := ToPipe(writefd, clients[uid].npipes[writeIndex].readfd, errPipe);
    }

    /** User pipe out: a new pipe to user `to`, if there is such a user and no such pipe. */
    method SendUserPipe(uid: int, to: int) returns (sent: bool, target: Target)
      requires Shape(clients) && Id(uid) && Id(to)
      modifies this`clients, this`fds, this`nextPipe
      ensures Shape(clients) && sent == CanSendNow(old(clients), uid, to)
      ensures if sent then
                && target.ToUser? && NewPipe(old(fds), old(nextPipe), fds, nextPipe, target.other, target.fd)
                && clients == SetSend(SetSent(old(clients), to, uid, target.other), uid, to, target.fd)
              else clients == old(clients) && fds == old(fds) && nextPipe == old(nextPipe)
    {
      sent, target := false, ToClient;
      if clients[to].uid > 0 && !(clients[uid].sendFd[to] > 0) {
        var r, w := MakePipe();
        clients := SetSent(clients, to, uid, r);
        clients := SetSend(clients, uid, to, w);
        sent, target := true, ToUser(w, r);
      }
    }

    /** The output of a command; it is not started if its file or user pipe cannot be had. */
    method ChooseOutput(uid: int, c: Command) returns (forks: bool, target: Target)
      requires Shape(clients) && Id(uid) && CommandOk(c)
      modifies this`clients, this`fds, this`nextPipe
      ensures Shape(clients)
      ensures OutputStep(old(clients), old(fds), old(nextPipe), clients, fds, nextPipe, uid, c, directories, forks,
                         target)
    {
      forks, target := true, ToClient;
      if c.CheckIfPipe() {
        target := OutputPipe(uid, c);
      } else if c.CheckRedirection() {
        if c.filename in directories {
          forks := false;
        } else {
          var fd := Open(File(c.filename));
          target := ToFile(fd);
        }
      } else if c.userOut > 0 {
        forks, target := SendUserPipe(uid, c.userOut);
      }
    }

    /** `fork`, and what the child does with its descriptors; a child for which a call fails ends itself. */
    method Fork(uid: int, c: Command, readIndex: int, readfd: int, target: Target) returns (kid: Option<Fds>)
      requires Shape(clients) && Id(uid) && -1 <= readIndex < |clients[uid].npipes|
      ensures ForkStep(clients, fds, uid, c, readIndex, readfd, target, kid)
    {
      kid := ChildOf(fds, if readIndex != -1 then Some(clients[uid].npipes[readIndex]) else None,
                     c.userIn > 0, readfd, clients[uid].fd, target);
    }

    /** `erase_pipe`. */
    method ErasePipe(uid: int, index: int)
      requires Shape(clients) && Id(uid) && -1 <= index < |clients[uid].npipes|
      modifies this`clients, this`fds
      ensures var pipes := old(clients)[uid].npipes;
        var erase := index != -1 && pipes[index].counter == 0;
        && clients == SetPipes(old(clients), uid, PipesLeft(pipes, index, erase))
        && fds == Erased(old(fds), pipes, index, erase)
    {
      assert SetPipes(clients, uid, clients[uid].npipes) == clients;
      if index != -1 {
        var p := clients[uid].npipes[index];
        if p.counter == 0 {
          fds := fds - {p.readfd};
          fds := fds - {p.writefd};
          assert fds == old(fds) - {p.readfd, p.writefd};
          clients := SetPipes(clients, uid, clients[uid].npipes[..index] + clients[uid].npipes[index + 1..]);
        }
      }
    }

    /** What the server closes when a child has been forked, or when a user pipe could not be made. */
    method CleanUp(uid: int, c: Command, forks: bool, readIndex: int, readfd: int, target: Target)
      requires Shape(clients) && Id(uid) && -1 <= readIndex < |clients[uid].npipes| && !crashed
      requires forks && c.userOut > 0 ==> !target.ToClient?
      modifies this`clients, this`fds, this`crashed
      ensures CleanStep(old(clients), old(fds), clients, fds, uid, c, forks, readIndex, readfd, target, crashed)
    {
      assert SetPipes(clients, uid, clients[uid].npipes) == clients;
      if forks || WantsUserPipe(c) {
        ErasePipe(uid, readIndex);
      }
      if forks && c.userIn > 0 {
        CloseOrExit(readfd);
        if crashed {
          return;
        }
      }
      if forks && c.userOut > 0 {
        CloseOrExit(target.fd);
      }
    }

    /** An external command of user `uid`; `way` has the states in between. */
    method RunExternal(uid: int, c: Command, readIndex: int) returns (kid: Option<Fds>, ghost way: Way)
      requires Shape(clients) && Id(uid) && CommandOk(c) && !crashed && |history| == MAX_CLIENTS + 1
      requires -1 <= readIndex < |clients[uid].npipes|
      modifies this`clients, this`fds, this`nextPipe, this`history, this`crashed
      ensures Shape(clients) && clients[uid].env == old(clients)[uid].env
      ensures ExternalStep(old(clients), old(fds), old(nextPipe), clients, fds, nextPipe, uid, c, directories,
                           readIndex, kid, crashed, way)
      ensures history == old(history)[uid := old(history)[uid] + [Seen(kid, c, readIndex)]]
    {
      var readfd := TakeInput(uid, c);
      ghost var cl1, fds1 := clients, fds;
      var forks, target := ChooseOutput(uid, c);
      way := Way(cl1, fds1, readfd, clients, fds, forks, target);
      kid := None;
      if forks {
        kid := Fork(uid, c, readIndex, readfd, target);
      }
      history := history[uid := history[uid] + [Seen(kid, c, readIndex)]];
      CleanUp(uid, c, forks, readIndex, readfd, target);
    }

    /** The start of a command: the user's counters go down, and the pipe that is due is looked up. */
    method Tick(uid: int) returns (readIndex: int)
      requires Shape(clients) && Id(uid)
      modifies this`clients
      ensures clients == SetPipes(old(clients), uid, TickAll(old(clients)[uid].npipes))
      ensures IsFirst(clients[uid].npipes, 0, readIndex)
    {
      var pipes := PipesUpdate(clients[uid].npipes);
      assert pipes == TickAll(clients[uid].npipes);
      clients := SetPipes(clients, uid, pipes);
      readIndex := PipeForReading(clients[uid].npipes);
    }

    /** A built-in command. */
    method RunBuiltIn(uid: int, c: Command, readIndex: int)
      requires Shape(clients) && Id(uid) && CommandOk(c) && IsBuiltIn(c) && Exporting(uid)
      requires -1 <= readIndex < |clients[uid].npipes|
      modifies this`clients, this`fds, this`environ
      ensures Shape(clients) && BuiltInStep(old(clients), old(fds), clients, fds, uid, c, readIndex) && Exporting(uid)
    {
      if c.args[0] == "setenv" {
        SetEnv(uid, c.args);
      } else if c.args[0] == "name" {
        Rename(uid, c.args[1]);
      } else if c.args[0] in {"tell", "yell"} {
        ErasePipe(uid, readIndex);
      }
    }

    /** User `uid` has a numbered pipe due in `n` commands, and its write end is closed. */
    ghost predicate WriteEndShut(uid: int, n: int)
      requires Shape(clients) && Id(uid)
      reads this
    {
      var i := FirstWith(clients[uid].npipes, n);
      i != -1 && clients[uid].npipes[i].writefd !in fds
    }

    /** The command has done what the specification says to an intact server that had the table `cl`. */
    ghost predicate Done(cl: Table, fds0: Fds, h: seq<seq<Tick>>, next: nat, uid: int, c: Command, kid: Option<Fds>)
      reads this
    {
      !crashed && CommandGood(cl, fds0, fdUid, h, next, clients, fds, history, nextPipe, uid, c, directories, kid)
    }

    /** A built-in command, after the clock has ticked. */
    method RunBuiltInTurn(uid: int, c: Command, readIndex: int, ghost cl: Table)
      requires Shape(clients) && Id(uid) && CommandOk(c) && IsBuiltIn(c) && Exporting(uid)
      requires |history| == MAX_CLIENTS + 1
      requires Shape(cl) && clients == SetPipes(cl, uid, TickAll(cl[uid].npipes))
      requires IsFirst(clients[uid].npipes, 0, readIndex)
      requires intact ==> !crashed && Sound(cl, fds, fdUid, history, nextPipe, 0, None) && Live(cl, uid)
      modifies this`clients, this`fds, this`environ, this`history
      ensures Shape(clients) && Exporting(uid) && |history| == MAX_CLIENTS + 1
      ensures intact ==> Done(cl, old(fds), old(history), nextPipe, uid, c, None)
    {
      ghost var fds0, h := fds, history;
      hide Sound, CommandGood, BuiltInStep;
      RunBuiltIn(uid, c, readIndex);
      history := history[uid := history[uid] + [Quiet]];
      if intact {
        BuiltInCommand(cl, fds0, fdUid, h, nextPipe, clients, fds, uid, c, directories, readIndex);
      }
    }

    /** An external command, after the clock has ticked. */
    method RunExternalTurn(uid: int, c: Command, readIndex: int, ghost cl: Table) returns (kid: Option<Fds>)
      requires Shape(clients) && Id(uid) && CommandOk(c) && !IsBuiltIn(c) && Exporting(uid)
      requires |history| == MAX_CLIENTS + 1
      requires Shape(cl) && clients == SetPipes(cl, uid, TickAll(cl[uid].npipes))
      requires IsFirst(clients[uid].npipes, 0, readIndex)
      requires !crashed && (intact ==> Sound(cl, fds, fdUid, history, nextPipe, 0, None) && Live(cl, uid))
      modifies this`clients, this`fds, this`nextPipe, this`history, this`crashed
      ensures Shape(clients) && Exporting(uid) && |history| == MAX_CLIENTS + 1
      ensures intact ==> Done(cl, old(fds), old(history), old(nextPipe), uid, c, kid)
      ensures Shuts(c) && old(WriteEndShut(uid, c.Delay())) ==> crashed
    {
      ghost var cl1, fds0, h, next := clients, fds, history, nextPipe;
      hide Sound, CommandGood, ExternalStep, Seen;
      ghost var way;
      kid, way := RunExternal(uid, c, readIndex);
      if intact {
        ExternalCommand(cl, fds0, fdUid, h, next, clients, fds, nextPipe, uid, c, directories, readIndex, kid,
                        crashed, way);
      }
      if Shuts(c) && old(WriteEndShut(uid, c.Delay())) {
        ShutAgain(cl1, fds0, next, clients, fds, nextPipe, uid, c, directories, readIndex, kid, crashed, way);
      }
    }

    /**
     One command of user `uid`; `stop` tells that the rest of the line is dropped. Of an intact server it makes
     what the specification says, and the server stays in order if and only if the command does not close the write
     end of its numbered pipe; if it does, that is all that is wrong. The next command for that pipe ends the
     server, in whatever state it is.
     */
    method RunCommand(uid: int, c: Command) returns (stop: bool, kid: Option<Fds>)
      requires Valid() && !crashed && Id(uid) && CommandOk(c) && (intact ==> Live(clients, uid)) && Exporting(uid)
      modifies this`clients, this`fds, this`nextPipe, this`history, this`crashed, this`environ, this`intact
      ensures Valid() && Exporting(uid) && stop == EndsLine(c) && intact == (old(intact) && !Shuts(c))
      ensures old(intact) ==> Live(clients, uid) && (Good(clients, fds, history, nextPipe, 0) <==> !Shuts(c))
      ensures old(intact) ==> Done(old(clients), old(fds), old(history), old(nextPipe), uid, c, kid)
      ensures old(intact) && Shuts(c) ==> WriteEndShut(uid, c.Delay())
      ensures Shuts(c) && old(WriteEndShut(uid, c.Delay() + 1)) ==> crashed
    {
      stop, kid := EndsLine(c), None;
      ghost var cl, fds0, h, next := clients, fds, history, nextPipe;
      hide Sound, Good, CommandGood;
      var readIndex := Tick(uid);
      if IsBuiltIn(c) {
        RunBuiltInTurn(uid, c, readIndex, cl);
      } else {
        if Shuts(c) {
          TickedFirst(cl[uid].npipes, c.Delay());
        }
        kid := RunExternalTurn(uid, c, readIndex, cl);
      }
      if intact {
        CommandOrder(cl, fds0, fdUid, h, next, clients, fds, history, nextPipe, uid, c, directories, kid);
      }
      intact := intact && !Shuts(c);
    }

    /** One command of user `uid`, and its entry in the log as long as the server is intact. */
    method LogCommand(uid: int, c: Command) returns (stop: bool)
      requires Logged() && !crashed && Id(uid) && CommandOk(c) && (intact ==> Live(clients, uid)) && Exporting(uid)
      modifies this`clients, this`fds, this`nextPipe, this`history, this`crashed, this`environ, this`intact
      modifies this`log, this`outs
      ensures Logged() && Exporting(uid) && stop == EndsLine(c) && intact == (old(intact) && !Shuts(c))
      ensures log == if old(intact) then DoCommand(old(log), uid, c, directories) else old(log)
      ensures intact ==> Live(clients, uid) && OthersSame(old(clients), clients, uid)
      ensures old(intact) && Shuts(c) ==> WriteEndShut(uid, c.Delay())
      ensures Shuts(c) && old(WriteEndShut(uid, c.Delay() + 1)) ==> crashed
    {
      ghost var cl, fds0, h, next, was := clients, fds, history, nextPipe, intact;
      hide Agrees, Good, Sound, CommandGood, DoCommand, OthersSame, Chronicle, Told;
      assert intact ==> Sound(clients, fds, fdUid, history, nextPipe, 0, None);
      var kid;
      stop, kid := RunCommand(uid, c);
      if was {
        ghost var o := CommandChronicle(cl, fds0, fdUid, h, next, log, outs, clients, fds, history, nextPipe, uid, c,
                                        directories, kid);
        if intact {
          CommandAgrees(cl, fds0, fdUid, h, next, log, outs, clients, fds, history, nextPipe, uid, c, directories,
                        kid, o);
          CommandSparesOthers(cl, fds0, fdUid, h, next, clients, fds, history, nextPipe, uid, c, directories, kid);
        }
        log, outs := DoCommand(log, uid, c, directories), outs + [o];
        Tells(log, outs, nextPipe);
      }
    }

    /** In the middle of a line of user `uid` that makes the log and the fate `w`, with the commands `rest` to come. */
    ghost predicate Leads(w: World, uid: int, rest: seq<Command>, stop: bool)
      requires Shape(clients) && Id(uid)
      reads this
    {
      if intact then w == if stop then World(log, Serving) else DoLine(log, uid, rest, directories)
      else
        && log == w.log && !w.fate.Serving?
        && (w.fate.Ended? ==>
              crashed || (!stop && rest != [] && Shuts(rest[0]) && WriteEndShut(uid, rest[0].Delay() + 1)))
    }

    /** `run_npshell`: the commands of one input line of user `uid`, in the environment of that user. */
    method RunNpshell(uid: int, commands: seq<Command>)
      requires Logged() && !crashed && Id(uid) && (intact ==> Live(clients, uid)) && Exporting(uid)
      requires forall i :: 0 <= i < |commands| ==> CommandOk(commands[i])
      modifies this`clients, this`fds, this`nextPipe, this`history, this`crashed, this`environ, this`intact
      modifies this`log, this`outs
      ensures Logged() && Exporting(uid)
      ensures if old(intact) then Is(DoLine(old(log), uid, commands, directories)) else !intact && log == old(log)
      ensures intact ==> Live(clients, uid) && OthersSame(old(clients), clients, uid)
    {
      hide Agrees, Good, Sound, DoCommand, Told;
      var i := 0;
      var stop := false;
      ghost var was, w := intact, DoLine(log, uid, commands, directories);
      assert commands[0..] == commands;
      while i < |commands| && !stop && !crashed
        invariant 0 <= i <= |commands| && Logged() && (intact ==> Live(clients, uid)) && Exporting(uid)
        invariant if was then Leads(w, uid, commands[i..], stop) else !intact && log == old(log)
        invariant intact ==> OthersSame(old(clients), clients, uid)
        decreases |commands| - i, !stop
      {
        assert commands[i..][1..] == commands[i + 1..];
        stop := LogCommand(uid, commands[i]);
        i := i + 1;
      }
    }

    /** An input line other than `exit` on socket `sock`. */
    method RunLine(sock: int, commands: seq<Command>)
      requires Logged() && !crashed && sock in fdUid && Id(fdUid[sock]) && (intact ==> Live(clients, fdUid[sock]))
      requires forall i :: 0 <= i < |commands| ==> CommandOk(commands[i])
      modifies this`clients, this`fds, this`nextPipe, this`history, this`crashed, this`environ, this`intact
      modifies this`log, this`outs
      ensures Logged() && Exporting(fdUid[sock])
      ensures if old(intact) then Is(DoLine(old(log), fdUid[sock], commands, directories))
              else !intact && log == old(log)
      ensures intact ==> OthersSame(old(clients), clients, fdUid[sock])
    {
      hide Agrees, Sound, Told;
      LoadEnvironment(clients[fdUid[sock]].env);
      RunNpshell(fdUid[sock], commands);
    }

    // ---------------------------------------------------------------- the main loop

    method HasFreeSlot() returns (free: bool)
      requires Shape(clients)
      ensures free <==> exists i :: Id(i) && clients[i].uid == -1
    {
      free := exists i | 1 <= i <= MAX_CLIENTS :: clients[i].uid == -1;
    }

    /** Connection number `n` in a free slot, and its entry in the log. */
    method LogLogin(ip: string, port: nat, n: nat) returns (uid: int)
      requires Logged() && !crashed && exists i :: Id(i) && clients[i].uid == -1
      modifies this
      ensures Logged() && !crashed && intact == old(intact) && Id(uid) && old(clients)[uid].uid == -1
      ensures forall i :: 1 <= i < uid ==> old(clients)[i].uid != -1
      ensures log == if intact then old(log) + [Login(uid, clients[uid].fd, n)] else old(log)
    {
      ghost var cl, fds0, fdUid0, h := clients, fds, fdUid, history;
      hide Good, Sound, Unowned, Mail, Agrees, Told, MailWithout, SocketsStay;
      uid := Accept(ip, port, n);
      if intact {
        SoundParts(clients, fds, fdUid, history, nextPipe);
        NewSocket(fds0, clients[uid].fd, n);
        ghost var o := LoginAgrees(cl, fds0, fdUid0, h, nextPipe, log, outs, clients, fds, history, uid, n);
        log, outs := log + [Login(uid, clients[uid].fd, n)], outs + [o];
        AgreesTells(clients, fds, history, nextPipe, log, outs);
      }
    }

    /** Connection number `n`, if there is a free slot; `sock` is its descriptor. */
    method OnConnect(ip: string, port: nat, n: nat) returns (ghost sock: int)
      requires Logged() && !crashed
      modifies this
      ensures Logged() && !crashed
      ensures if old(intact) then Is(Handle(old(log), Connect(ip, port), n, sock, directories))
              else !intact && log == old(log)
    {
      if intact {
        FreeAgrees(clients, fds, history, nextPipe, log, outs);
        SlotsAre(clients, fds, fdUid);
      }
      ghost var first := FreeFrom(log, 1);
      hide Sound, Agrees, Told, FreeFrom;
      sock := 0;
      var free := HasFreeSlot();
      if free {
        var uid := LogLogin(ip, port, n);
        assert old(intact) ==> first == uid;
        sock := clients[uid].fd;
      }
    }

    /** The line `exit` of a user, and its entry in the log. */
    method LogExit(sock: int)
      requires Logged() && !crashed && sock in fdUid && Id(fdUid[sock]) && (intact ==> Live(clients, fdUid[sock]))
      modifies this
      ensures Logged() && intact == (old(intact) && !crashed)
      ensures old(intact) ==> (crashed <==> Waiting(old(log), old(fdUid[sock]), old(fdUid[sock])).Some?)
      ensures log == if intact then old(log) + [Logout(old(fdUid[sock]))] else old(log)
      ensures intact ==> sock !in fds && FreeSlot(clients[old(fdUid[sock])])
    {
      ghost var uid := fdUid[sock];
      if intact {
        SoundParts(clients, fds, fdUid, history, nextPipe);
        SelfWaits(clients, fds, history, nextPipe, log, outs, uid);
      }
      hide Good, Sound, Agrees, Unowned, Mail, Cut, Incident, Told, Waiting;
      Exit(sock);
      if intact {
        ghost var o :| Agrees(clients, fds, history, nextPipe, log + [Logout(uid)], outs + [o]);
        log, outs := log + [Logout(uid)], outs + [o];
        AgreesTells(clients, fds, history, nextPipe, log, outs);
      }
    }

    /** The line `exit` on a socket. */
    method OnExit(sock: int, ghost n: nat)
      requires Logged() && !crashed
      modifies this
      ensures Logged()
      ensures if old(intact) then Is(Handle(old(log), ExitLine(sock), n, 0, directories))
              else !intact && log == old(log)
      // the slot and the socket of the user that leaves are free again
      ensures intact && UserFrom(old(log), sock, 1) > 0 ==>
                FreeSlot(clients[UserFrom(old(log), sock, 1)]) && sock !in fds
    {
      if intact {
        SoundParts(clients, fds, fdUid, history, nextPipe);
        UserAgrees(clients, fds, fdUid, history, nextPipe, log, outs, sock);
      }
      hide Good, Sound, Agrees, Told, UserFrom, Waiting;
      if sock in fdUid && Id(fdUid[sock]) && clients[fdUid[sock]].uid > 0 {
        LogExit(sock);
      }
    }

    /** Another line on a socket. */
    method OnLine(sock: int, commands: seq<Command>, ghost n: nat)
      requires Logged() && !crashed && forall i :: 0 <= i < |commands| ==> CommandOk(commands[i])
      modifies this
      ensures Logged()
      ensures if old(intact) then Is(Handle(old(log), Line(sock, commands), n, 0, directories))
              else !intact && log == old(log)
    {
      if intact {
        SoundParts(clients, fds, fdUid, history, nextPipe);
        UserAgrees(clients, fds, fdUid, history, nextPipe, log, outs, sock);
      }
      hide Sound, Agrees, Told;
      if sock in fdUid && Id(fdUid[sock]) && clients[fdUid[sock]].uid > 0 {
        RunLine(sock, commands);
      }
    }

    /** A line as it was typed. */
    method OnTyped(sock: int, line: string, ghost n: nat)
      requires Logged() && !crashed && InputOk(Typed(sock, line))
      modifies this
      ensures Logged()
      ensures if old(intact) then Is(Handle(old(log), RequestOf(Typed(sock, line)), n, 0, directories))
              else !intact && log == old(log)
      ensures intact && line == "exit" && UserFrom(old(log), sock, 1) > 0 ==>
                FreeSlot(clients[UserFrom(old(log), sock, 1)]) && sock !in fds
    {
      hide Agrees, Good, Sound, Handle, Told, CommandsOf, LineOk, Valid, Logged;
      if line == "exit" {
        OnExit(sock, n);
      } else {
        var commands := ReadLine(line);
        OnLine(sock, commands, n);
      }
    }

    /** Input number `n`; `sock` is the descriptor of a new connection. */
    method OnInput(input: Input, n: nat) returns (ghost sock: int)
      requires Logged() && !crashed && InputOk(input)
      modifies this
      ensures Logged()
      ensures if old(intact) then Is(Handle(old(log), RequestOf(input), n, sock, directories))
              else !intact && log == old(log)
    {
      hide Agrees, Good, Sound, Handle, Told, CommandsOf, LineOk;
      sock := 0;
      match input {
        case Connection(ip, port) => sock := OnConnect(ip, port, n);
        case Typed(s, line) => OnTyped(s, line, n);
      }
    }

    /**
     The main loop of the server over what arrives on its sockets, for as long as every client leaves by
     `exit`. The users did exactly what the specification says they did, up to the first command that closes a
     descriptor the table still holds; all processes had the descriptors that the log says; as long as no such command
     has come, the server is what its log says, and has ended itself exactly if the specification says so.
     */
    method Serve(inputs: seq<Input>) returns (ghost socks: seq<int>)
      requires Logged() && intact && !crashed && log == [] && forall i :: 0 <= i < |inputs| ==> InputOk(inputs[i])
      modifies this
      ensures Logged() && |socks| == |inputs| && Is(RunOf(RequestsOf(inputs), socks, directories))
    {
      ghost var requests := RequestsOf(inputs);
      hide Agrees, Good, Sound, Handle, Told, RequestsOf, RequestOf, InputOk;
      socks := [];
      var i := 0;
      while i < |inputs| && !crashed
        invariant 0 <= i <= |inputs| && |socks| == i && Logged()
        invariant Is(RunOf(requests[..i], socks, directories))
      {
        ghost var sock := OnInput(inputs[i], i);
        RequestIs(inputs, i);
        RunFurther(requests, socks, sock, i, directories);
        socks := socks + [sock];
        i := i + 1;
      }
      if i == |inputs| {
        assert requests[..i] == requests;
      } else {
        NothingAfter(requests, socks, i, directories);
        socks := socks + seq(|requests| - i, k => 0);
      }
    }
  }
}
