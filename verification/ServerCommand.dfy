/**
 What one command does to the table and the descriptors of np_project2/np_single_proc.cpp: step by step, as the
 code does it, and as a whole.
 */
module ServerCommand {
  import opened Commands
  import opened Descriptors
  import opened NumberedPipes
  import opened Options
  import opened Processes
  import opened ServerChild
  import opened ServerPipes
  import opened ServerTable
  import opened Sessions
  import opened UserPipes

  // ------------------------------------------------------------------ the steps of an external command

  /** The command takes a user pipe. */
  predicate TakesPipe(cl: Table, uid: int, c: Command)
    requires Shape(cl) && Id(uid) && c.userIn <= MAX_CLIENTS
  {
    c.userIn > 0 && Live(cl, c.userIn) && Sent(cl, uid, c.userIn) > 0
  }

  /** User pipe in: the pipe if it is there, and else the null device. */
  ghost predicate InputStep(cl: Table, fds: Fds, cl': Table, fds': Fds, uid: int, c: Command, readfd: int)
    requires Shape(cl) && Id(uid) && c.userIn <= MAX_CLIENTS
  {
    if c.userIn == 0 then cl' == cl && fds' == fds
    else if TakesPipe(cl, uid, c) then
      && readfd == Sent(cl, uid, c.userIn) && fds' == fds
      && cl' == SetSend(SetSent(cl, uid, c.userIn, -1), c.userIn, uid, -1)
    else cl' == cl && readfd !in fds && fds' == fds[readfd := Null]
  }

  /** `pipe`: two descriptors that were not open, for the two ends of a new pipe. */
  predicate NewPipe(fds: Fds, next: nat, fds': Fds, next': nat, r: int, w: int) {
    && r >= 0 && w >= 0 && r !in fds && w !in fds && r != w && next' == next + 1
    && fds' == fds[r := ReadEnd(next)][w := WriteEnd(next)]
  }

  /** Output to a numbered pipe: the user's entry with that counter, or a new one at the end. */
  ghost predicate PipeStep(cl: Table, fds: Fds, next: nat, cl': Table, fds': Fds, next': nat, uid: int, c: Command,
                           target: Target)
    requires Shape(cl) && Id(uid) && c.CheckIfPipe()
  {
    var pipes := cl[uid].npipes;
    var i := FirstWith(pipes, c.Delay());
    && target.ToPipe? && target.errPipe == !c.hasPipe
    && if i != -1 then
         && cl' == cl && fds' == fds && next' == next
         && target.fd == pipes[i].writefd && target.other == pipes[i].readfd
       else
         && NewPipe(fds, next, fds', next', target.other, target.fd)
         && cl' == SetPipes(cl, uid, pipes + [PipeCounter(target.other, target.fd, c.Delay())])
  }

  /** There is such a user, and no pipe to it yet. */
  predicate CanSendNow(cl: Table, uid: int, to: int)
    requires Shape(cl) && Id(uid) && Id(to)
  {
    Live(cl, to) && Send(cl, uid, to) <= 0
  }

  /** The output of a command; `forks` tells whether its process is started. */
  ghost predicate OutputStep(cl: Table, fds: Fds, next: nat, cl': Table, fds': Fds, next': nat, uid: int, c: Command,
                             directories: set<string>, forks: bool, target: Target)
    requires Shape(cl) && Id(uid) && c.userOut <= MAX_CLIENTS
  {
    if c.CheckIfPipe() then forks && PipeStep(cl, fds, next, cl', fds', next', uid, c, target)
    else if c.CheckRedirection() then
      && cl' == cl && next' == next && forks == (c.filename !in directories)
      && if !forks then fds' == fds
         else target.ToFile? && target.fd >= 0 && target.fd !in fds && fds' == fds[target.fd := File(c.filename)]
    else if c.userOut > 0 then
      && forks == CanSendNow(cl, uid, c.userOut)
      && if forks then
           && target.ToUser? && NewPipe(fds, next, fds', next', target.other, target.fd)
           && cl' == SetSend(SetSent(cl, c.userOut, uid, target.other), uid, c.userOut, target.fd)
         else cl' == cl && fds' == fds && next' == next
    else forks && target == ToClient && cl' == cl && fds' == fds && next' == next
  }

  /** The entry that the child is to read. */
  function DueEntry(cl: Table, uid: int, readIndex: int): Option<PipeCounter>
    requires Shape(cl) && Id(uid) && -1 <= readIndex < |cl[uid].npipes|
  {
    if readIndex == -1 then None else Some(cl[uid].npipes[readIndex])
  }

  /** The fork: a child that rearranges its descriptors, or that ends itself because a call fails. */
  ghost predicate ForkStep(cl: Table, fds: Fds, uid: int, c: Command, readIndex: int, readfd: int, target: Target,
                           kid: Option<Fds>)
    requires Shape(cl) && Id(uid) && -1 <= readIndex < |cl[uid].npipes|
  {
    var due := DueEntry(cl, uid, readIndex);
    && (ChildReady(fds, due, c.userIn > 0, readfd, cl[uid].fd, target) ==>
          kid.Some? && Arranged(kid.value, fds, due, c.userIn > 0, readfd, cl[uid].fd, target))
    && (due.Some? && due.value.writefd !in fds ==> kid.None?)
  }

  /** What is still open for the output of a command when its child has been forked. */
  function OutputFds(target: Target): set<int> {
    if target.ToClient? then {} else {target.fd}
  }

  /** `erase_pipe` is called, and finds the entry due. */
  predicate ErasesAt(pipes: seq<PipeCounter>, i: int, c: Command, forks: bool)
    requires -1 <= i < |pipes|
  {
    (forks || WantsUserPipe(c)) && i != -1 && pipes[i].counter == 0
  }

  function Erased(fds: Fds, pipes: seq<PipeCounter>, i: int, erase: bool): Fds
    requires erase ==> 0 <= i < |pipes|
  {
    if erase then fds - {pipes[i].readfd, pipes[i].writefd} else fds
  }

  function PipesLeft(pipes: seq<PipeCounter>, i: int, erase: bool): seq<PipeCounter>
    requires erase ==> 0 <= i < |pipes|
  {
    if erase then Without(pipes, i) else pipes
  }

  /** What the server closes when a child has been forked, or when a user pipe could not be made. */
  ghost predicate CleanStep(cl: Table, fds: Fds, cl': Table, fds': Fds, uid: int, c: Command, forks: bool,
                            readIndex: int, readfd: int, target: Target, crashed: bool)
    requires Shape(cl) && Id(uid) && -1 <= readIndex < |cl[uid].npipes|
  {
    var pipes := cl[uid].npipes;
    var erase := ErasesAt(pipes, readIndex, c, forks);
    var rest := Erased(fds, pipes, readIndex, erase);
    var rest' := if forks && c.userIn > 0 then rest - {readfd} else rest;
    && cl' == SetPipes(cl, uid, PipesLeft(pipes, readIndex, erase))
    && (crashed <==>
          || (forks && c.userIn > 0 && readfd !in rest)
          || (forks && c.userOut > 0 && !(OutputFds(target) <= rest'.Keys)))
    && (!crashed ==> fds' == rest' - if forks && c.userOut > 0 then OutputFds(target) else {})
  }

  /** The states that an external command goes through. */
  datatype Way = Way(cl1: Table, fds1: Fds, readfd: int, cl2: Table, fds2: Fds, forks: bool, target: Target)

  ghost predicate ExternalStep(cl: Table, fds: Fds, next: nat, cl': Table, fds': Fds, next': nat, uid: int, c: Command,
                               directories: set<string>, readIndex: int, kid: Option<Fds>, crashed: bool, way: Way)
  {
    && Shape(cl) && Id(uid) && c.userIn <= MAX_CLIENTS && c.userOut <= MAX_CLIENTS
    && InputStep(cl, fds, way.cl1, way.fds1, uid, c, way.readfd) && Shape(way.cl1)
    && OutputStep(way.cl1, way.fds1, next, way.cl2, way.fds2, next', uid, c, directories, way.forks, way.target)
    && Shape(way.cl2) && -1 <= readIndex < |way.cl2[uid].npipes|
    && (if way.forks then ForkStep(way.cl2, way.fds2, uid, c, readIndex, way.readfd, way.target, kid) else kid.None?)
    && CleanStep(way.cl2, way.fds2, cl', fds', uid, c, way.forks, readIndex, way.readfd, way.target, crashed)
  }

  /** The record of a command, from what its process has. */
  function Seen(kid: Option<Fds>, c: Command, readIndex: int): Tick {
    if kid.Some? && 0 in kid.value && 1 in kid.value then
      Ran(if readIndex != -1 && kid.value[0].ReadEnd? then Some(kid.value[0].obj) else None,
          if c.CheckIfPipe() && kid.value[1].WriteEnd? then Some(Output(kid.value[1].obj, c.Delay())) else None)
    else Quiet
  }

  // ------------------------------------------------------------------ what a command does

  /** The command can make the user pipe it asks for: there is such a user, and no such pipe (any more). */
  predicate CanSend(cl: Table, uid: int, c: Command)
    requires Shape(cl) && Id(uid) && c.userIn <= MAX_CLIENTS && 0 < c.userOut <= MAX_CLIENTS
  {
    && Live(cl, c.userOut)
    && (Send(cl, uid, c.userOut) <= 0 || (TakesPipe(cl, uid, c) && c.userIn == uid && c.userOut == uid))
  }

  /** Whether an external command forks a process. */
  predicate StartsProcess(cl: Table, uid: int, c: Command, directories: set<string>)
    requires Shape(cl) && Id(uid) && c.userIn <= MAX_CLIENTS && c.userOut <= MAX_CLIENTS
  {
    && (!c.CheckIfPipe() && c.CheckRedirection() ==> c.filename !in directories)
    && (WantsUserPipe(c) ==> CanSend(cl, uid, c))
  }

  /** Whether a command of user `uid` forks a process. */
  predicate Starts(cl: Table, uid: int, c: Command, directories: set<string>)
    requires Shape(cl) && Id(uid) && c.userIn <= MAX_CLIENTS && c.userOut <= MAX_CLIENTS
  {
    !IsBuiltIn(c) && StartsProcess(cl, uid, c, directories)
  }

  /**
   What a command leaves open without a place: one descriptor exactly if it leaks its input or its file. It
   is the end of a pipe exactly if it is a user pipe that the command took without starting.
   */
  ghost predicate LeftOpen(cl: Table, fds: Fds, cl': Table, fds': Fds, uid: int, c: Command, starts: bool)
    requires Shape(cl) && Shape(cl') && Id(uid) && c.userIn <= MAX_CLIENTS
  {
    if LeaksInput(c, starts) || LeaksFile(c, starts) then
      exists fd ::
        && fd !in Unowned(cl, fds) && Unowned(cl', fds') == Unowned(cl, fds) + {fd} && fd in fds'
        && (if LeaksInput(c, starts) && TakesPipe(cl, uid, c) then fd == Sent(cl, uid, c.userIn) && fds'[fd].ReadEnd?
            else fds'[fd] == if LeaksFile(c, starts) then File(c.filename) else Null)
    else Unowned(cl', fds') == Unowned(cl, fds)
  }

  /** What stands for a user pipe: the pipe, or the null device if there is none. */
  function UserEnd(took: Option<nat>): End {
    if took.Some? then ReadEnd(took.value) else Null
  }

  /**
   The descriptors of the process of a command of a user with connection `own`; `sent` is the pipe for another user.
   */
  predicate KidOk(kid: Fds, t: Tick, c: Command, own: End, userEnd: End, sent: nat) {
    ProcessOk(kid, t, c, own, if c.userIn > 0 then userEnd else own, if c.userOut > 0 then WriteEnd(sent) else own)
  }

  /** What waits for user `uid` where the command wants to read. */
  function TookFrom(cl: Table, fds: Fds, uid: int, c: Command): Option<nat>
    requires Shape(cl)
  {
    if c.userIn > 0 then Mail(cl, fds, c.userIn, uid) else None
  }

  /** User `uid` has one more command in its history, with its process if there is one. */
  ghost predicate Recording(h: seq<Tick>, h': seq<Tick>, c: Command, starts: bool, kid: Option<Fds>, own: End,
                            userEnd: End, sent: nat)
  {
    && kid.Some? == starts
    && exists t :: h' == h + [t] && Recorded(t, c, starts) && (starts ==> KidOk(kid.value, t, c, own, userEnd, sent))
  }

  /** A command takes the pipe it reads, even if it then fails, and leaves the pipe it sends. */
  ghost predicate MailAfter(cl: Table, fds: Fds, cl': Table, fds': Fds, uid: int, c: Command,
                            directories: set<string>, obj: nat)
    requires Shape(cl) && Shape(cl') && Id(uid) && c.userIn <= MAX_CLIENTS && c.userOut <= MAX_CLIENTS
  {
    forall s, r :: Mail(cl', fds', s, r) ==
      if WantsUserPipe(c) && StartsProcess(cl, uid, c, directories) && s == uid && r == c.userOut then Some(obj)
      else if TakesPipe(cl, uid, c) && s == c.userIn && r == uid then None
      else Mail(cl, fds, s, r)
  }

  predicate SameUser(a: Client, b: Client) {
    b == a.(sentFd := b.sentFd, sendFd := b.sendFd, npipes := b.npipes)
  }

  /** Nothing about the users has changed but their pipes, and the numbered pipes of `uid` only. */
  ghost predicate SameUsers(cl: Table, cl': Table, uid: int)
    requires Shape(cl) && Shape(cl')
  {
    forall v :: Id(v) ==> SameUser(cl[v], cl'[v]) && (v != uid ==> cl'[v].npipes == cl[v].npipes)
  }

  ghost predicate OthersSame(cl: Table, cl': Table, uid: int)
    requires Shape(cl) && Shape(cl')
  {
    forall v :: Id(v) && v != uid ==> SameUser(cl[v], cl'[v]) && cl'[v].npipes == cl[v].npipes
  }

  /** What a command does to the environment and the name of its user. */
  ghost predicate UserAfter(cl: Table, me: Client, uid: int, c: Command)
    requires Shape(cl) && Id(uid) && CommandOk(c)
  {
    var was := cl[uid];
    && me.uid == was.uid && me.fd == was.fd && me.ip == was.ip && me.port == was.port
    && me.env == (if c.args[0] == "setenv" && |c.args| == 3 then was.env[c.args[1] := c.args[2]] else was.env)
    && me.nickname == (if c.args[0] == "name" && !NameTaken(cl, c.args[1]) then c.args[1] else was.nickname)
  }

  /** What a command has before its output: its user pipe is taken, or the null device is open in its place. */
  ghost predicate InputTaken(cl: Table, fds: Fds, cl1: Table, fds1: Fds, uid: int, c: Command, readfd: int)
  {
    && Shape(cl) && Shape(cl1) && Id(uid) && CommandOk(c)
    && Taken(cl, cl1, fds, fds1, uid, c) && SameUsers(cl, cl1, uid) && cl1[uid].npipes == cl[uid].npipes
    && Unowned(cl1, fds1) == Unowned(cl, fds) + (if c.userIn > 0 then {readfd} else {})
    && (c.userIn > 0 ==>
          && readfd !in Unowned(cl, fds) && readfd in fds1
          && if TakesPipe(cl, uid, c) then readfd == Sent(cl, uid, c.userIn) && fds1 == fds else fds1[readfd] == Null)
    && forall fd :: fd in fds ==> fd in fds1 && fds1[fd] == fds[fd]
  }

  /** A command that has taken its user pipe, if it asked for one and it was there. */
  ghost predicate Taken(cl: Table, cl': Table, fds: Fds, fds': Fds, uid: int, c: Command)
    requires Shape(cl) && Id(uid) && c.userIn <= MAX_CLIENTS
  {
    if TakesPipe(cl, uid, c) then cl' == SetSend(SetSent(cl, uid, c.userIn, -1), c.userIn, uid, -1) && fds' == fds
    else cl' == cl && forall fd :: fd in fds ==> fd in fds' && fds'[fd] == fds[fd]
  }

  /** The file or user pipe that is open for output; a numbered pipe is the table's. */
  function OwnFd(target: Target): Option<int> {
    if target.ToFile? || target.ToUser? then Some(target.fd) else None
  }

  function Fd(fd: Option<int>): set<int> {
    if fd.Some? then {fd.value} else {}
  }

  /** What the output of a command does to the table and the descriptors. */
  ghost predicate OutputDone(cl: Table, fds: Fds, next: nat, cl': Table, fds': Fds, next': nat, uid: int, c: Command,
                             directories: set<string>, forks: bool, own: Option<int>)
  {
    && Shape(cl) && Shape(cl') && Id(uid) && CommandOk(c) && next <= next'
    && (forks <==>
          && (!c.CheckIfPipe() && c.CheckRedirection() ==> c.filename !in directories)
          && (WantsUserPipe(c) ==> CanSendNow(cl, uid, c.userOut)))
    && (own.Some? <==> forks && !c.CheckIfPipe() && (c.CheckRedirection() || c.userOut > 0))
    && Unowned(cl', fds') == Unowned(cl, fds) + Fd(own)
    && (own.Some? ==>
          && own.value !in fds && own.value in fds'
          && (c.CheckRedirection() ==> fds'[own.value] == File(c.filename)))
    && MailSent(cl, fds, cl', fds', uid, forks && WantsUserPipe(c), c.userOut, next)
    && (forks && WantsUserPipe(c) ==> next < next')
    && cl[uid].npipes <= cl'[uid].npipes && Extended(cl[uid].npipes, cl'[uid].npipes, DelayOf(c, forks))
    && SameUsers(cl, cl', uid)
    && forall fd :: fd in fds ==> fd in fds' && fds'[fd] == fds[fd]
  }

  /** What an external command does to the table and the descriptors. */
  ghost predicate ExternalDone(cl: Table, fds: Fds, next: nat, cl': Table, fds': Fds, next': nat, uid: int, c: Command,
                               directories: set<string>, readIndex: int, written: seq<PipeCounter>)
  {
    && Shape(cl) && Shape(cl') && Id(uid) && CommandOk(c) && next <= next'
    && var starts := StartsProcess(cl, uid, c, directories);
    && (starts && WantsUserPipe(c) ==> next < next')
    && LeftOpen(cl, fds, cl', fds', uid, c, starts)
    && MailAfter(cl, fds, cl', fds', uid, c, directories, next)
    && SameUsers(cl, cl', uid)
    && cl[uid].npipes <= written && Extended(cl[uid].npipes, written, DelayOf(c, starts)) && -1 <= readIndex < |written|
    && cl'[uid].npipes == (if ErasesDue(c, starts) && readIndex != -1 then Without(written, readIndex) else written)
  }

  /** What a built-in command does to the table and the descriptors. */
  ghost predicate BuiltInDone(cl: Table, fds: Fds, cl': Table, fds': Fds, uid: int, c: Command, readIndex: int) {
    && Shape(cl) && Shape(cl') && Id(uid) && CommandOk(c) && -1 <= readIndex < |cl[uid].npipes|
    && SameMail(cl, fds, cl', fds') && Unowned(cl', fds') == Unowned(cl, fds)
    && OthersSame(cl, cl', uid) && UserAfter(cl, cl'[uid], uid, c)
    && cl'[uid].npipes ==
       (if EndsLine(c) && readIndex != -1 then Without(cl[uid].npipes, readIndex) else cl[uid].npipes)
  }

  /** What a command does to the table and the descriptors. */
  ghost predicate CommandDone(cl: Table, fds: Fds, next: nat, cl': Table, fds': Fds, next': nat, uid: int, c: Command,
                              directories: set<string>)
  {
    && Shape(cl) && Shape(cl') && Id(uid) && CommandOk(c) && next <= next'
    && var starts := Starts(cl, uid, c, directories);
    && (starts && WantsUserPipe(c) ==> next < next')
    && LeftOpen(cl, fds, cl', fds', uid, c, starts)
    && (if IsBuiltIn(c) then SameMail(cl, fds, cl', fds') else MailAfter(cl, fds, cl', fds', uid, c, directories, next))
    && OthersSame(cl, cl', uid) && UserAfter(cl, cl'[uid], uid, c)
    && VectorStep(cl[uid].npipes, cl'[uid].npipes, DelayOf(c, starts), ErasesDue(c, starts))
  }

  /** The object of the numbered pipe that is due. */
  function DueObject(cl: Table, fds: Fds, uid: int, index: int): Option<nat>
    requires Shape(cl) && Id(uid) && -1 <= index < |cl[uid].npipes|
  {
    if index != -1 && OpenPipe(cl[uid].npipes[index], fds) then Some(fds[cl[uid].npipes[index].readfd].obj) else None
  }

  // ------------------------------------------------------------------ every step keeps the table in order

  /** A descriptor that is not part of a pipe is opened. */
  lemma OpenSound(cl: Table, fds: Fds, fdUid: map<int, int>, hist: seq<seq<Tick>>, next: nat, busy: int, fd: int,
                  e: End)
    requires Sound(cl, fds, fdUid, hist, next, busy, None) && fd !in fds && (e.Null? || e.File?)
    ensures Sound(cl, fds[fd := e], fdUid, hist, next, busy, None) && SameMail(cl, fds, cl, fds[fd := e])
    ensures Unowned(cl, fds[fd := e]) == Unowned(cl, fds) + {fd} && fd !in Unowned(cl, fds)
  {
    var fds' := fds[fd := e];
    UnownedOpened(cl, fds, fd, e);
    UnusedDescriptors(cl, fds, fds', hist, next, next, busy);
    TableFrame(cl, fds, fdUid, cl, fds');
    MailStays(cl, cl, fds, fds');
    SingleStays(fds, fds', next, next);
    hide Mail;
    UnwrittenStays(cl, fds, cl, fds', next, None);
  }

  /** No descriptor is the write end of what `fd` reads. */
  ghost predicate NoWriter(fds: Fds, fd: int) {
    fd in fds && (fds[fd].ReadEnd? ==> forall f :: f in fds ==> fds[f] != WriteEnd(fds[fd].obj))
  }

  /** A user pipe is taken. */
  lemma TakeSound(cl: Table, fds: Fds, fdUid: map<int, int>, hist: seq<seq<Tick>>, next: nat, uid: int, c: Command)
    requires Sound(cl, fds, fdUid, hist, next, uid, None) && Live(cl, uid) && CommandOk(c) && TakesPipe(cl, uid, c)
    ensures var cl1, readfd := SetSend(SetSent(cl, uid, c.userIn, -1), c.userIn, uid, -1), Sent(cl, uid, c.userIn);
      Sound(cl1, fds, fdUid, hist, next, uid, None) && InputTaken(cl, fds, cl1, fds, uid, c, readfd) && NoWriter(fds,
                                                                                                                 readfd)
  {
    var cl1, readfd := SetSend(SetSent(cl, uid, c.userIn, -1), c.userIn, uid, -1), Sent(cl, uid, c.userIn);
    assert Has(cl, UserPipe(uid, c.userIn)) && FdOf(cl, UserPipe(uid, c.userIn)) == readfd;
    assert Mail(cl, fds, c.userIn, uid) == Some(fds[readfd].obj);
    Receives(cl, fds, hist, next, uid, uid, c.userIn);
    UnownedTaken(cl, fds, uid, c.userIn);
    TableFrame(cl, fds, fdUid, cl1, fds);
    UnwrittenStays(cl, fds, cl1, fds, next, None);
  }

  lemma InputSound(cl: Table, fds: Fds, fdUid: map<int, int>, hist: seq<seq<Tick>>, next: nat, cl1: Table, fds1: Fds,
                   uid: int, c: Command, readfd: int)
    requires Sound(cl, fds, fdUid, hist, next, uid, None) && Live(cl, uid) && CommandOk(c)
    requires InputStep(cl, fds, cl1, fds1, uid, c, readfd)
    ensures Sound(cl1, fds1, fdUid, hist, next, uid, None) && Live(cl1, uid)
    ensures InputTaken(cl, fds, cl1, fds1, uid, c, readfd) && (c.userIn > 0 ==> NoWriter(fds1, readfd))
  {
    if TakesPipe(cl, uid, c) {
      TakeSound(cl, fds, fdUid, hist, next, uid, c);
    } else if c.userIn > 0 {
      OpenSound(cl, fds, fdUid, hist, next, uid, readfd, Null);
    }
  }

  /** The history of a command, from what is due and where its output goes. */
  function TickOf(due: Option<nat>, c: Command, forks: bool, fds: Fds, target: Target): Tick {
    if !forks then Quiet
    else Ran(due, if c.CheckIfPipe() then Some(Output(OutObject(fds, target), c.Delay())) else None)
  }

  function OutObject(fds: Fds, target: Target): nat {
    if target.ToPipe? && target.other in fds && fds[target.other].ReadEnd? then fds[target.other].obj else 0
  }

  /** The write end of a user pipe that has just been made. */
  function HeldBy(forks: bool, target: Target): Option<int> {
    if forks && target.ToUser? then Some(target.fd) else None
  }

  /** A pipe of a history is one of the user's own, or a new one. */
  ghost predicate NewOrOwn(t: Tick, h: seq<Tick>, next: nat) {
    t.Ran? && t.output.Some? ==>
      t.output.value.obj >= next || exists j :: Writer(h, j) && Out(h, j) == t.output.value.obj
  }

  /** The output is where the table and the command want it, and nowhere in what was open before the command. */
  ghost predicate TargetPlaced(cl: Table, fds: Fds, next: nat, uid: int, c: Command, readIndex: int, target: Target)
    requires Shape(cl) && Id(uid)
  {
    match target
    case ToClient => !c.CheckIfPipe() && !c.CheckRedirection() && c.userOut == 0
    case ToFile(fd) =>
      !c.CheckIfPipe() && c.CheckRedirection() && fd in Unowned(cl, fds) && fd in fds && fds[fd] == File(c.filename)
    case ToUser(fd, other) =>
      && WantsUserPipe(c) && fd in Unowned(cl, fds) && fd in fds && fds[fd] == WriteEnd(next)
      && Has(cl, UserPipe(c.userOut, uid)) && other == Sent(cl, c.userOut, uid)
    case ToPipe(fd, other, errPipe) =>
      c.CheckIfPipe() && errPipe == !c.hasPipe && PipeAt(cl, uid, c, readIndex, fd, other)
  }

  ghost predicate PipeAt(cl: Table, uid: int, c: Command, readIndex: int, fd: int, other: int)
    requires Shape(cl) && Id(uid) && c.CheckIfPipe()
  {
    exists i :: 0 <= i < |cl[uid].npipes| && i != readIndex && cl[uid].npipes[i] == PipeCounter(other, fd, c.Delay())
  }

  /** What the choice of the output gives. */
  ghost predicate OutputGood(cl: Table, fds: Fds, fdUid: map<int, int>, hist: seq<seq<Tick>>, next: nat, cl': Table,
                             fds': Fds, next': nat, uid: int, c: Command, directories: set<string>, readIndex: int,
                             forks: bool, target: Target)
  {
    && OutputDone(cl, fds, next, cl', fds', next', uid, c, directories, forks, if forks then OwnFd(target) else None)
    && |hist| == MAX_CLIENTS + 1 && Live(cl', uid) && -1 <= readIndex < |cl[uid].npipes|
    && var t := TickOf(DueObject(cl, fds, uid, readIndex), c, forks, fds', target);
    && Sound(cl', fds', fdUid, hist[uid := hist[uid] + [t]], next', 0, HeldBy(forks, target))
    && NewOrOwn(t, hist[uid], next) && (forks ==> TargetPlaced(cl', fds', next, uid, c, readIndex, target))
  }

  /** What the search finds is what the specification of numbered pipes says the command reads. */
  lemma DueIsServed(cl: Table, fds: Fds, hist: seq<seq<Tick>>, next: nat, u: int, index: int)
    requires Good(cl, fds, hist, next, u) && Live(cl, u) && IsFirst(cl[u].npipes, 0, index)
    ensures Served(hist[u], |hist[u]|, DueObject(cl, fds, u, index))
    ensures index != -1 ==> OpenPipe(cl[u].npipes[index], fds)
  {
    assert OnTime(cl, fds, hist, next, u, u);
    ReadIndexServes(cl[u].npipes, fds, hist[u], next, index);
  }

  /** A command that ends without output to a numbered pipe. */
  lemma EndSound(cl: Table, fds: Fds, fdUid: map<int, int>, hist: seq<seq<Tick>>, next: nat, uid: int,
                 held: Option<int>, t: Tick)
    requires Sound(cl, fds, fdUid, hist, next, uid, held) && Live(cl, uid)
    requires t.Ran? ==> t.output == None && Served(hist[uid], |hist[uid]|, t.input)
    ensures Sound(cl, fds, fdUid, hist[uid := hist[uid] + [t]], next, 0, held)
  {
    EndsOnOldPipes(cl, fds, hist, next, uid, t, -1);
  }

  /** Output to an entry that is there. */
  lemma OldPipeSound(cl: Table, fds: Fds, fdUid: map<int, int>, hist: seq<seq<Tick>>, next: nat, uid: int, c: Command,
                     readIndex: int, i: int, directories: set<string>)
    requires Sound(cl, fds, fdUid, hist, next, uid, None) && Live(cl, uid) && CommandOk(c) && c.CheckIfPipe()
    requires IsFirst(cl[uid].npipes, 0, readIndex) && IsFirst(cl[uid].npipes, c.Delay(), i) && i != -1
    ensures var p := cl[uid].npipes[i];
      OutputGood(cl, fds, fdUid, hist, next, cl, fds, next, uid, c, directories, readIndex, true,
                 ToPipe(p.writefd, p.readfd, !c.hasPipe))
  {
    var p := cl[uid].npipes[i];
    DueIsServed(cl, fds, hist, next, uid, readIndex);
    assert OnTime(cl, fds, hist, next, uid, uid);
    assert Written(p, fds, hist[uid], |hist[uid]|);
    FirstIsUnique(cl[uid].npipes, c.Delay(), i);
    assert cl[uid].npipes == MaybeWithPipe(cl[uid].npipes, Some(c.Delay()), 0, 0);
    var t := TickOf(DueObject(cl, fds, uid, readIndex), c, true, fds, ToPipe(p.writefd, p.readfd, !c.hasPipe));
    assert OutputOf(t, p, fds);
    EndsOnOldPipes(cl, fds, hist, next, uid, t, i);
    assert p == PipeCounter(p.readfd, p.writefd, c.Delay());
    assert PipeAt(cl, uid, c, readIndex, p.writefd, p.readfd);
  }

  /** Output to a new entry. */
  lemma NewPipeSound(cl: Table, fds: Fds, fdUid: map<int, int>, hist: seq<seq<Tick>>, next: nat, fds': Fds, uid: int,
                     c: Command, readIndex: int, r: int, w: int, directories: set<string>)
    requires Sound(cl, fds, fdUid, hist, next, uid, None) && Live(cl, uid) && CommandOk(c) && c.CheckIfPipe()
    requires IsFirst(cl[uid].npipes, 0, readIndex) && IsFirst(cl[uid].npipes, c.Delay(), -1)
    requires NewPipe(fds, next, fds', next + 1, r, w)
    ensures OutputGood(cl, fds, fdUid, hist, next, SetPipes(cl, uid, cl[uid].npipes + [PipeCounter(r, w, c.Delay())]),
                       fds', next + 1, uid, c, directories, readIndex, true, ToPipe(w, r, !c.hasPipe))
  {
    var pipes, p := cl[uid].npipes, PipeCounter(r, w, c.Delay());
    var cl' := SetPipes(cl, uid, pipes + [p]);
    DueIsServed(cl, fds, hist, next, uid, readIndex);
    FirstIsUnique(pipes, c.Delay(), -1);
    assert pipes + [p] == MaybeWithPipe(pipes, Some(c.Delay()), r, w);
    var t := TickOf(DueObject(cl, fds, uid, readIndex), c, true, fds', ToPipe(w, r, !c.hasPipe));
    EndsOnNewPipe(cl, p, fds, fds', hist, next, uid, t);
    UnownedPushed(cl, fds, uid, p, next);
    TableFrame(cl, fds, fdUid, cl', fds');
    PipesMail(cl, fds, fds', uid, pipes + [p]);
    SinglePipe(fds, next, r, w);
    hide Mail, Unowned, Good, TableOk;
    UnwrittenStays(cl, fds, cl', fds', next, None);
    assert cl'[uid].npipes[|pipes|] == p;
    assert PipeAt(cl', uid, c, readIndex, w, r);
  }

  /** Output to a file that can be opened. */
  lemma FileSound(cl: Table, fds: Fds, fdUid: map<int, int>, hist: seq<seq<Tick>>, next: nat, uid: int, c: Command,
                  readIndex: int, fd: int, directories: set<string>)
    requires Sound(cl, fds, fdUid, hist, next, uid, None) && Live(cl, uid) && CommandOk(c) && fd !in fds
    requires !c.CheckIfPipe() && c.CheckRedirection() && c.filename !in directories
    requires IsFirst(cl[uid].npipes, 0, readIndex)
    ensures OutputGood(cl, fds, fdUid, hist, next, cl, fds[fd := File(c.filename)], next, uid, c, directories,
                       readIndex, true, ToFile(fd))
  {
    var fds' := fds[fd := File(c.filename)];
    DueIsServed(cl, fds, hist, next, uid, readIndex);
    OpenSound(cl, fds, fdUid, hist, next, uid, fd, File(c.filename));
    EndSound(cl, fds', fdUid, hist, next, uid, None, Ran(DueObject(cl, fds, uid, readIndex), None));
    NotExtended(cl[uid].npipes);
  }

  /** Output to another user. */
  lemma UserSound(cl: Table, fds: Fds, fdUid: map<int, int>, hist: seq<seq<Tick>>, next: nat, fds': Fds, uid: int,
                  c: Command, readIndex: int, r: int, w: int, directories: set<string>)
    requires Sound(cl, fds, fdUid, hist, next, uid, None) && Live(cl, uid) && CommandOk(c) && WantsUserPipe(c)
    requires CanSendNow(cl, uid, c.userOut) && IsFirst(cl[uid].npipes, 0, readIndex)
    requires NewPipe(fds, next, fds', next + 1, r, w)
    ensures OutputGood(cl, fds, fdUid, hist, next, SetSend(SetSent(cl, c.userOut, uid, r), uid, c.userOut, w), fds',
                       next + 1, uid, c, directories, readIndex, true, ToUser(w, r))
  {
    var cl' := SetSend(SetSent(cl, c.userOut, uid, r), uid, c.userOut, w);
    var due := DueObject(cl, fds, uid, readIndex);
    DueIsServed(cl, fds, hist, next, uid, readIndex);
    assert OnTime(cl, fds, hist, next, uid, uid);
    Sends(cl, fds, fds', hist, next, uid, uid, c.userOut, r, w);
    UnownedSent(cl, fds, uid, c.userOut, r, w, next);
    SentMail(cl, cl', fds, fds', uid, c.userOut, next, w);
    TableFrame(cl, fds, fdUid, cl', fds');
    SinglePipe(fds, next, r, w);
    UnwrittenSent(cl, fds, cl', fds', next, uid, c.userOut, r, w);
    assert Has(cl', UserPipe(c.userOut, uid)) && Live(cl', uid);
    NotExtended(cl[uid].npipes);
    hide Mail, Good, TableOk, Mirror, Separate, Unwritten, Single;
    EndSound(cl', fds', fdUid, hist, next + 1, uid, Some(w), Ran(due, None));
  }

  lemma OutputSound(cl: Table, fds: Fds, fdUid: map<int, int>, hist: seq<seq<Tick>>, next: nat, cl': Table, fds': Fds,
                    next': nat, uid: int, c: Command, directories: set<string>, readIndex: int, forks: bool,
                    target: Target)
    requires Sound(cl, fds, fdUid, hist, next, uid, None) && Live(cl, uid) && CommandOk(c)
    requires IsFirst(cl[uid].npipes, 0, readIndex)
    requires OutputStep(cl, fds, next, cl', fds', next', uid, c, directories, forks, target)
    ensures OutputGood(cl, fds, fdUid, hist, next, cl', fds', next', uid, c, directories, readIndex, forks, target)
  {
    if c.CheckIfPipe() {
      var i := FirstWith(cl[uid].npipes, c.Delay());
      if i != -1 {
        OldPipeSound(cl, fds, fdUid, hist, next, uid, c, readIndex, i, directories);
      } else {
        NewPipeSound(cl, fds, fdUid, hist, next, fds', uid, c, readIndex, target.other, target.fd, directories);
      }
    } else if c.CheckRedirection() && forks {
      FileSound(cl, fds, fdUid, hist, next, uid, c, readIndex, target.fd, directories);
    } else if c.userOut > 0 && forks {
      UserSound(cl, fds, fdUid, hist, next, fds', uid, c, readIndex, target.other, target.fd, directories);
    } else {
      DueIsServed(cl, fds, hist, next, uid, readIndex);
      NotExtended(cl[uid].npipes);
      EndSound(cl, fds, fdUid, hist, next, uid, None,
               TickOf(DueObject(cl, fds, uid, readIndex), c, forks, fds, target));
    }
  }

  // ------------------------------------------------------------------ the fork

  /** All descriptors that a child uses are open, and apart from each other and from the standard ones. */
  lemma ForkApart(cl: Table, fds: Fds, fdUid: map<int, int>, next: nat, uid: int, c: Command, readIndex: int,
                  readfd: int, target: Target)
    requires Terminal(fds) && TableOk(cl, fds, fdUid) && Mirror(cl) && Separate(cl, fds) && Live(cl, uid)
    requires -1 <= readIndex < |cl[uid].npipes| && TargetPlaced(cl, fds, next, uid, c, readIndex, target)
    requires c.userIn > 0 ==> readfd in Unowned(cl, fds) && OwnFd(target) != Some(readfd)
    ensures ChildReady(fds, DueEntry(cl, uid, readIndex), c.userIn > 0, readfd, cl[uid].fd, target)
    ensures fds[cl[uid].fd].Socket?
  {
    var client, due := cl[uid].fd, DueEntry(cl, uid, readIndex);
    assert SlotOk(cl, fds, fdUid, uid);
    if readIndex != -1 {
      assert Has(cl, PipeRead(uid, readIndex)) && Has(cl, PipeWrite(uid, readIndex));
      assert Place(cl, cl[uid].npipes[readIndex].readfd) && Place(cl, cl[uid].npipes[readIndex].writefd);
    }
    match target {
      case ToUser(fd, other) =>
        assert FdOf(cl, UserPipe(c.userOut, uid)) == other;
        assert Place(cl, other);
      case ToPipe(fd, other, _) =>
        var i :| 0 <= i < |cl[uid].npipes| && i != readIndex && cl[uid].npipes[i] == PipeCounter(other, fd, c.Delay());
        assert Has(cl, PipeRead(uid, i)) && Has(cl, PipeWrite(uid, i));
        assert FdOf(cl, PipeRead(uid, i)) == other && FdOf(cl, PipeWrite(uid, i)) == fd;
        assert Place(cl, fd) && Place(cl, other);
      case _ =>
    }
    var input, output := InputFds(due, c.userIn > 0, readfd), TargetFds(target);
    assert forall fd :: fd in input ==> fd in fds && !fds[fd].Std? && !fds[fd].Socket?;
    assert forall fd :: fd in output ==> fd in fds && !fds[fd].Std? && !fds[fd].Socket?;
    assert input !! output;
    hide Unowned, Separate, Mirror, TableOk, TargetPlaced, Has, FdOf;
  }

  /** The server has the write end of what a child is to read at most as a part of the pipe that is due. */
  lemma OneWriter(cl: Table, fds: Fds, fdUid: map<int, int>, hist: seq<seq<Tick>>, next: nat, held: Option<int>,
                  uid: int, readIndex: int, userIn: bool, readfd: int, client: int, fd: int)
    requires Sound(cl, fds, fdUid, hist, next, 0, held) && Live(cl, uid) && -1 <= readIndex < |cl[uid].npipes|
    requires userIn ==> NoWriter(fds, readfd)
    requires client in fds && fds[client].Socket? && fd in fds
    requires var input :=
        if readIndex != -1 then cl[uid].npipes[readIndex].readfd else if userIn then readfd else client;
      input in fds && fds[input].ReadEnd? && fds[fd] == WriteEnd(fds[input].obj)
    ensures readIndex != -1 && fd == cl[uid].npipes[readIndex].writefd
  {
    if readIndex != -1 {
      assert OnTime(cl, fds, hist, next, 0, uid);
      assert OpenPipe(cl[uid].npipes[readIndex], fds);
      assert IsPipeEnd(fds[fd]);
    }
  }

  /** The process of a command has the standard descriptors that it should have, and sees the end of its input. */
  lemma ForkSound(cl: Table, fds: Fds, fdUid: map<int, int>, hist: seq<seq<Tick>>, next0: nat, next: nat,
                  held: Option<int>, uid: int, c: Command, readIndex: int, readfd: int, target: Target,
                  kid: Option<Fds>)
    requires Sound(cl, fds, fdUid, hist, next, 0, held) && Live(cl, uid) && CommandOk(c)
    requires -1 <= readIndex < |cl[uid].npipes| && TargetPlaced(cl, fds, next0, uid, c, readIndex, target)
    requires c.userIn > 0 ==> readfd in Unowned(cl, fds) && OwnFd(target) != Some(readfd) && NoWriter(fds, readfd)
    requires ForkStep(cl, fds, uid, c, readIndex, readfd, target, kid)
    ensures kid.Some? && cl[uid].fd in fds && fds[cl[uid].fd].Socket?
    ensures Seen(kid, c, readIndex) == TickOf(DueObject(cl, fds, uid, readIndex), c, true, fds, target)
    ensures KidOk(kid.value, Seen(kid, c, readIndex), c, fds[cl[uid].fd], if c.userIn > 0 then fds[readfd] else Std,
                  next0)
  {
    var client, due := cl[uid].fd, DueEntry(cl, uid, readIndex);
    ForkApart(cl, fds, fdUid, next0, uid, c, readIndex, readfd, target);
    assert OnTime(cl, fds, hist, next, 0, uid);
    assert readIndex != -1 ==> OpenPipe(cl[uid].npipes[readIndex], fds);
    assert target.ToPipe? ==> fds[target.other].ReadEnd? && fds[target.fd] == WriteEnd(fds[target.other].obj) by {
      if target.ToPipe? {
        var i :| 0 <= i < |cl[uid].npipes| && i != readIndex &&
                 cl[uid].npipes[i] == PipeCounter(target.other, target.fd, c.Delay());
        assert OpenPipe(cl[uid].npipes[i], fds);
      }
    }
    var t := kid.value;
    if t[0].ReadEnd? {
      forall fd | fd in fds && fds[fd] == WriteEnd(t[0].obj)
        ensures fd in InputFds(due, c.userIn > 0, readfd)
      {
        OneWriter(cl, fds, fdUid, hist, next, held, uid, readIndex, c.userIn > 0, readfd, client, fd);
      }
    }
    ChildSeesEnd(t, fds, due, c.userIn > 0, readfd, client, target);
  }

  // ------------------------------------------------------------------ cleaning up

  /** No client's connection is lost or exchanged. */
  ghost predicate SocketsStay(fds: Fds, fds': Fds) {
    forall fd :: fd in fds && fds[fd].Socket? ==> fd in fds' && fds'[fd] == fds[fd]
  }

  /** A descriptor that the table does not use is closed. */
  lemma CloseSound(cl: Table, fds: Fds, fdUid: map<int, int>, hist: seq<seq<Tick>>, next: nat, held: Option<int>,
                   fd: int)
    requires Sound(cl, fds, fdUid, hist, next, 0, held) && fd in Unowned(cl, fds)
    ensures Sound(cl, fds - {fd}, fdUid, hist, next, 0, if held == Some(fd) then None else held)
    ensures fd in fds && SocketsStay(fds, fds - {fd}) && SameMail(cl, fds, cl, fds - {fd})
    ensures Unowned(cl, fds - {fd}) == Unowned(cl, fds) - {fd}
  {
    var fds' := fds - {fd};
    UnownedClosed(cl, fds, fd);
    NotPlaced(cl, fds, fd);
    UnusedDescriptors(cl, fds, fds', hist, next, next, 0);
    TableFrame(cl, fds, fdUid, cl, fds');
    MailStays(cl, cl, fds, fds');
    SingleStays(fds, fds', next, next);
    hide Mail, Unowned;
    UnwrittenStays(cl, fds, cl, fds', next, held);
    if held == Some(fd) {
      UnwrittenClosed(cl, fds, fd);
    }
  }

  /** The numbered pipe that was due is closed and erased. */
  lemma EraseSound(cl: Table, fds: Fds, fdUid: map<int, int>, hist: seq<seq<Tick>>, next: nat, held: Option<int>,
                   uid: int, i: int)
    requires Sound(cl, fds, fdUid, hist, next, 0, held) && Live(cl, uid) && |hist[uid]| > 0
    requires 0 <= i < |cl[uid].npipes| && cl[uid].npipes[i].counter == 0
    ensures var p := cl[uid].npipes[i];
      var cl', fds' := SetPipes(cl, uid, Without(cl[uid].npipes, i)), fds - {p.readfd, p.writefd};
      && Sound(cl', fds', fdUid, hist, next, 0, held)
      && SameMail(cl, fds, cl', fds') && Unowned(cl', fds') == Unowned(cl, fds) && SocketsStay(fds, fds')
  {
    var p := cl[uid].npipes[i];
    var cl', fds' := SetPipes(cl, uid, Without(cl[uid].npipes, i)), fds - {p.readfd, p.writefd};
    assert Has(cl, PipeRead(uid, i)) && FdOf(cl, PipeRead(uid, i)) == p.readfd;
    assert Has(cl, PipeWrite(uid, i)) && FdOf(cl, PipeWrite(uid, i)) == p.writefd;
    Erases(cl, fds, hist, next, uid, i);
    EraseFrame(cl, fds, fdUid, uid, i);
    UnownedErased(cl, fds, uid, i);
    SingleStays(fds, fds', next, next);
    hide Mail, Unowned, Good, TableOk;
    UnwrittenStays(cl, fds, cl', fds', next, held);
  }

  lemma MaybeEraseSound(cl: Table, fds: Fds, fdUid: map<int, int>, hist: seq<seq<Tick>>, next: nat, held: Option<int>,
                        uid: int, i: int, erase: bool)
    requires Sound(cl, fds, fdUid, hist, next, 0, held) && Live(cl, uid) && |hist[uid]| > 0
    requires -1 <= i < |cl[uid].npipes| && (erase ==> i != -1 && cl[uid].npipes[i].counter == 0)
    ensures var pipes := cl[uid].npipes;
      var cl', fds' := SetPipes(cl, uid, PipesLeft(pipes, i, erase)), Erased(fds, pipes, i, erase);
      && Sound(cl', fds', fdUid, hist, next, 0, held)
      && SameMail(cl, fds, cl', fds') && Unowned(cl', fds') == Unowned(cl, fds) && SocketsStay(fds, fds')
  {
    if erase {
      EraseSound(cl, fds, fdUid, hist, next, held, uid, i);
    } else {
      assert SetPipes(cl, uid, cl[uid].npipes) == cl;
    }
  }

  /** What a command holds for itself is closed, and nothing else; no call fails. */
  lemma CleanSound(cl: Table, fds: Fds, fdUid: map<int, int>, hist: seq<seq<Tick>>, next: nat, cl': Table, fds': Fds,
                   uid: int, c: Command, forks: bool, readIndex: int, readfd: int, target: Target, crashed: bool)
    requires Sound(cl, fds, fdUid, hist, next, 0, HeldBy(forks, target)) && Live(cl, uid) && |hist[uid]| > 0
    requires -1 <= readIndex < |cl[uid].npipes| && CommandOk(c) && !Shuts(c) && !IsBuiltIn(c)
    requires c.userIn > 0 ==> readfd in Unowned(cl, fds)
    requires forks && c.userOut > 0 ==> OwnFd(target).Some? && target.fd in Unowned(cl, fds)
    requires forks && c.userOut > 0 && c.userIn > 0 ==> target.fd != readfd
    requires forks && target.ToUser? ==> c.userOut > 0
    requires CleanStep(cl, fds, cl', fds', uid, c, forks, readIndex, readfd, target, crashed)
    ensures !crashed && Sound(cl', fds', fdUid, hist, next, 0, None) && Live(cl', uid) && SameMail(cl, fds, cl', fds')
    ensures Unowned(cl', fds') == Unowned(cl, fds) - (if forks && c.userIn > 0 then {readfd} else {})
                                                   - (if forks && c.userOut > 0 then {target.fd} else {})
    ensures cl' == SetPipes(cl, uid,
                            PipesLeft(cl[uid].npipes, readIndex, ErasesAt(cl[uid].npipes, readIndex, c, forks)))
    ensures (forall fd :: fd in fds' ==> fd in fds && fds'[fd] == fds[fd]) && SocketsStay(fds, fds')
  {
    var pipes := cl[uid].npipes;
    var erase := ErasesAt(pipes, readIndex, c, forks);
    var rest := Erased(fds, pipes, readIndex, erase);
    MaybeEraseSound(cl, fds, fdUid, hist, next, HeldBy(forks, target), uid, readIndex, erase);
    assert forall fd :: fd in rest ==> fd in fds && rest[fd] == fds[fd];
    hide Sound, Unowned, Mail, Erased, PipesLeft, ErasesAt, SameMail;
    var rest' := rest;
    if forks && c.userIn > 0 {
      CloseSound(cl', rest, fdUid, hist, next, HeldBy(forks, target), readfd);
      rest' := rest - {readfd};
    }
    if forks && c.userOut > 0 {
      CloseSound(cl', rest', fdUid, hist, next, HeldBy(forks, target), target.fd);
      assert fds' == rest' - {target.fd};
    } else {
      assert fds' == rest';
    }
  }

  // ------------------------------------------------------------------ an external command

  lemma DueStays(cl: Table, fds: Fds, cl': Table, fds': Fds, uid: int, index: int)
    requires Shape(cl) && Shape(cl') && Id(uid) && -1 <= index < |cl[uid].npipes| && cl[uid].npipes <= cl'[uid].npipes
    requires forall fd :: fd in fds ==> fd in fds' && fds'[fd] == fds[fd]
    requires index != -1 ==> OpenPipe(cl[uid].npipes[index], fds)
    ensures DueObject(cl', fds', uid, index) == DueObject(cl, fds, uid, index)
  {
  }

  lemma TakenMail(cl: Table, cl': Table, fds: Fds, fds': Fds, uid: int, c: Command)
    requires Shape(cl) && Separate(cl, fds) && Id(uid) && c.userIn <= MAX_CLIENTS && Taken(cl, cl', fds, fds', uid, c)
    ensures forall s, r :: Mail(cl', fds', s, r) ==
              if TakesPipe(cl, uid, c) && s == c.userIn && r == uid then None else Mail(cl, fds, s, r)
  {
    if !TakesPipe(cl, uid, c) {
      MailStays(cl, cl', fds, fds');
    }
  }

  lemma SameUsersTwice(cl: Table, cl1: Table, cl2: Table, cl': Table, uid: int)
    requires Shape(cl) && Shape(cl1) && Shape(cl2) && Shape(cl') && Id(uid)
    requires SameUsers(cl, cl1, uid) && SameUsers(cl1, cl2, uid) && cl' == SetPipes(cl2, uid, cl'[uid].npipes)
    ensures SameUsers(cl, cl', uid)
  {
  }

  lemma StartsIs(cl: Table, fds: Fds, cl1: Table, fds1: Fds, uid: int, c: Command, directories: set<string>)
    requires Shape(cl) && Mirror(cl) && Id(uid) && CommandOk(c) && Taken(cl, cl1, fds, fds1, uid, c) && Shape(cl1)
    ensures StartsProcess(cl, uid, c, directories) <==>
              && (!c.CheckIfPipe() && c.CheckRedirection() ==> c.filename !in directories)
              && (WantsUserPipe(c) ==> CanSendNow(cl1, uid, c.userOut))
  {
  }

  lemma MailIs(cl: Table, fds: Fds, cl1: Table, fds1: Fds, cl2: Table, fds2: Fds, next: nat, cl': Table, fds': Fds,
               uid: int, c: Command, directories: set<string>, forked: bool)
    requires Shape(cl) && Separate(cl, fds) && Id(uid) && CommandOk(c) && Taken(cl, cl1, fds, fds1, uid, c)
    requires Shape(cl1) && Shape(cl2) && Shape(cl') && forked == StartsProcess(cl, uid, c, directories)
    requires MailSent(cl1, fds1, cl2, fds2, uid, forked && WantsUserPipe(c), c.userOut, next)
    requires SameMail(cl2, fds2, cl', fds')
    ensures MailAfter(cl, fds, cl', fds', uid, c, directories, next)
  {
    TakenMail(cl, cl1, fds, fds1, uid, c);
    hide Mail, StartsProcess, TakesPipe;
    forall s, r
      ensures Mail(cl', fds', s, r) ==
        if WantsUserPipe(c) && StartsProcess(cl, uid, c, directories) && s == uid && r == c.userOut then Some(next)
        else if TakesPipe(cl, uid, c) && s == c.userIn && r == uid then None
        else Mail(cl, fds, s, r)
    {
      assert Mail(cl', fds', s, r) == Mail(cl2, fds2, s, r);
    }
  }

  lemma TookIs(cl: Table, fds: Fds, cl1: Table, fds1: Fds, uid: int, c: Command, readfd: int)
    requires Shape(cl) && Mirror(cl) && Separate(cl, fds) && InputTaken(cl, fds, cl1, fds1, uid, c, readfd)
    requires c.userIn > 0
    ensures fds1[readfd] == UserEnd(TookFrom(cl, fds, uid, c))
    ensures TakesPipe(cl, uid, c) ==> fds1[readfd].ReadEnd?
  {
    if Sent(cl, uid, c.userIn) > 0 {
      assert Has(cl, UserPipe(uid, c.userIn));
    }
  }

  /** The descriptors that taking, sending and cleaning up leave. */
  lemma LeftOpenIs(cl: Table, fds: Fds, cl1: Table, fds1: Fds, cl2: Table, fds2: Fds, cl': Table, fds': Fds,
                   uid: int, c: Command, starts: bool, readfd: int, own: Option<int>)
    requires Shape(cl) && Shape(cl1) && Shape(cl2) && Shape(cl') && Id(uid) && CommandOk(c) && !IsBuiltIn(c)
    requires Unowned(cl1, fds1) == Unowned(cl, fds) + if c.userIn > 0 then {readfd} else {}
    requires c.userIn > 0 ==> readfd !in Unowned(cl, fds) && readfd in fds1
    requires c.userIn > 0 ==>
               if TakesPipe(cl, uid, c) then readfd == Sent(cl, uid, c.userIn) && fds1[readfd].ReadEnd?
               else fds1[readfd] == Null
    requires forall fd :: fd in fds1 ==> fd in fds2 && fds2[fd] == fds1[fd]
    requires Unowned(cl2, fds2) == Unowned(cl1, fds1) + Fd(own)
    requires own.Some? <==> starts && !c.CheckIfPipe() && (c.CheckRedirection() || c.userOut > 0)
    requires own.Some? ==>
               own.value !in fds1 && own.value in fds2 && (c.CheckRedirection() ==> fds2[own.value] == File(c.filename))
    requires Unowned(cl', fds') == Unowned(cl2, fds2) - (if starts && c.userIn > 0 then {readfd} else {})
                                                      - (if starts && c.userOut > 0 then Fd(own) else {})
    requires forall fd :: fd in fds' ==> fd in fds2 && fds'[fd] == fds2[fd]
    ensures LeftOpen(cl, fds, cl', fds', uid, c, starts)
  {
    if LeaksInput(c, starts) {
      assert readfd in Unowned(cl', fds');
    } else if LeaksFile(c, starts) {
      assert own.value in Unowned(cl', fds') && own.value !in Unowned(cl1, fds1);
    }
  }

  lemma InputKeeps(cl: Table, fds: Fds, cl1: Table, fds1: Fds, uid: int, c: Command, readfd: int)
    requires InputTaken(cl, fds, cl1, fds1, uid, c, readfd)
    ensures Shape(cl1) && cl1[uid].npipes == cl[uid].npipes
    ensures c.userIn > 0 ==> readfd in Unowned(cl1, fds1) && readfd in fds1
  {
  }

  lemma OutputKeeps(cl: Table, fds: Fds, next: nat, cl': Table, fds': Fds, next': nat, uid: int, c: Command,
                    directories: set<string>, forks: bool, own: Option<int>, readfd: int, readIndex: int)
    requires OutputDone(cl, fds, next, cl', fds', next', uid, c, directories, forks, own)
    requires c.userIn > 0 ==> readfd in Unowned(cl, fds)
    requires -1 <= readIndex < |cl[uid].npipes|
    ensures -1 <= readIndex < |cl'[uid].npipes| && cl'[uid].fd == cl[uid].fd
    ensures c.userIn > 0 ==> readfd in Unowned(cl', fds') && readfd in fds && own != Some(readfd)
    ensures own.Some? ==> own.value in Unowned(cl', fds')
    ensures own.Some? <==> forks && !c.CheckIfPipe() && (c.CheckRedirection() || c.userOut > 0)
  {
  }

  /** The readers of a user's input stay as they are while the output is chosen. */
  lemma StillNoWriter(fds: Fds, next: nat, fds': Fds, fd: int)
    requires NoWriter(fds, fd) && Single(fds, next)
    requires forall f :: f in fds ==> f in fds' && fds'[f] == fds[f]
    requires forall f :: f in fds' && f !in fds && fds'[f].WriteEnd? ==> fds'[f].obj >= next
    ensures NoWriter(fds', fd)
  {
    assert fds[fd].ReadEnd? ==> IsPipeEnd(fds[fd]);
  }

  /** Taking, sending and cleaning up make one external command. */
  lemma ExternalIs(cl: Table, fds: Fds, next: nat, cl1: Table, fds1: Fds, cl2: Table, fds2: Fds, next': nat,
                   cl': Table, fds': Fds, uid: int, c: Command, directories: set<string>, forks: bool, readIndex: int,
                   readfd: int, own: Option<int>)
    requires Shape(cl) && Mirror(cl) && Separate(cl, fds) && Shape(cl') && !IsBuiltIn(c)
    requires InputTaken(cl, fds, cl1, fds1, uid, c, readfd)
    requires OutputDone(cl1, fds1, next, cl2, fds2, next', uid, c, directories, forks, own)
    requires -1 <= readIndex < |cl[uid].npipes| && IsFirst(cl[uid].npipes, 0, readIndex)
    requires -1 <= readIndex < |cl2[uid].npipes| && (readIndex != -1 ==> cl2[uid].npipes[readIndex].counter == 0)
    requires cl' == SetPipes(cl2, uid,
                             PipesLeft(cl2[uid].npipes, readIndex, ErasesAt(cl2[uid].npipes, readIndex, c, forks)))
    requires SameMail(cl2, fds2, cl', fds') && forall fd :: fd in fds' ==> fd in fds2 && fds'[fd] == fds2[fd]
    requires Unowned(cl', fds') == Unowned(cl2, fds2) - (if forks && c.userIn > 0 then {readfd} else {})
                                                      - (if forks && c.userOut > 0 then Fd(own) else {})
    ensures forks == StartsProcess(cl, uid, c, directories)
    ensures ExternalDone(cl, fds, next, cl', fds', next', uid, c, directories, readIndex, cl2[uid].npipes)
  {
    StartsIs(cl, fds, cl1, fds1, uid, c, directories);
    MailIs(cl, fds, cl1, fds1, cl2, fds2, next, cl', fds', uid, c, directories, forks);
    if c.userIn > 0 {
      TookIs(cl, fds, cl1, fds1, uid, c, readfd);
    }
    SameUsersTwice(cl, cl1, cl2, cl', uid);
    hide Taken, Mirror, Separate, MailAfter, MailSent, Unowned, Mail, SameMail, StartsProcess, LeftOpen, SameUsers;
    hide Extended;
    LeftOpenIs(cl, fds, cl1, fds1, cl2, fds2, cl', fds', uid, c, forks, readfd, own);
    assert cl2[uid].npipes[..|cl[uid].npipes|] == cl[uid].npipes;
  }

  /**
   The table is in order but for one descriptor: the write end of the user's numbered pipe that is due in `n`
   commands is closed.
   */
  ghost predicate Misses(cl: Table, fds: Fds, hist: seq<seq<Tick>>, next: nat, uid: int, n: int)
    requires Shape(cl) && Id(uid)
  {
    var i := FirstWith(cl[uid].npipes, n);
    && i != -1 && cl[uid].npipes[i].writefd !in fds
    && exists o :: Good(cl, fds[cl[uid].npipes[i].writefd := WriteEnd(o)], hist, next, 0)
  }

  lemma MissesIsBad(cl: Table, fds: Fds, hist: seq<seq<Tick>>, next: nat, uid: int, n: int)
    requires Shape(cl) && Id(uid) && Misses(cl, fds, hist, next, uid, n)
    ensures !Good(cl, fds, hist, next, 0)
  {
    var i := FirstWith(cl[uid].npipes, n);
    assert Has(cl, PipeWrite(uid, i)) && FdOf(cl, PipeWrite(uid, i)) == cl[uid].npipes[i].writefd;
  }

  /** The command cleans up what it would without `>N`, and then closes one more descriptor. */
  lemma ShutIs(cl: Table, fds: Fds, cl': Table, fds': Fds, uid: int, c: Command, readIndex: int, readfd: int,
               target: Target, crashed: bool) returns (rest: Fds, failed: bool)
    requires Shape(cl) && Id(uid) && -1 <= readIndex < |cl[uid].npipes| && Shuts(c) && target.ToPipe?
    requires CleanStep(cl, fds, cl', fds', uid, c, true, readIndex, readfd, target, crashed)
    ensures CleanStep(cl, fds, cl', rest, uid, c.(userOut := 0), true, readIndex, readfd, target, failed)
    ensures crashed <==> failed || target.fd !in rest
    ensures !crashed ==> fds' == rest - {target.fd}
    ensures var pipes := cl[uid].npipes;
      cl' == SetPipes(cl, uid, PipesLeft(pipes, readIndex, ErasesAt(pipes, readIndex, c, true)))
  {
    var pipes := cl[uid].npipes;
    rest := Erased(fds, pipes, readIndex, ErasesAt(pipes, readIndex, c, true));
    failed := c.userIn > 0 && readfd !in rest;
    rest := if c.userIn > 0 then rest - {readfd} else rest;
  }

  /** A numbered pipe and `>N` at once: the write end of the numbered pipe is closed, and that is all that is wrong. */
  lemma ShutSound(cl: Table, fds: Fds, fdUid: map<int, int>, hist: seq<seq<Tick>>, next0: nat, next: nat, cl': Table,
                  fds': Fds, uid: int, c: Command, readIndex: int, readfd: int, target: Target, crashed: bool)
    requires Sound(cl, fds, fdUid, hist, next, 0, None) && Live(cl, uid) && |hist[uid]| > 0
    requires -1 <= readIndex < |cl[uid].npipes| && CommandOk(c) && Shuts(c) && target.ToPipe?
    requires c.userIn > 0 ==> readfd in Unowned(cl, fds)
    requires TargetPlaced(cl, fds, next0, uid, c, readIndex, target)
    requires CleanStep(cl, fds, cl', fds', uid, c, true, readIndex, readfd, target, crashed)
    ensures !crashed && Live(cl', uid) && Misses(cl', fds', hist, next, uid, c.Delay())
  {
    var pipes := cl[uid].npipes;
    var erase := ErasesAt(pipes, readIndex, c, true);
    var rest, failed := ShutIs(cl, fds, cl', fds', uid, c, readIndex, readfd, target, crashed);
    hide CleanStep, Unowned, Mail, TableOk, SameMail, Scheduled, OnTime, Mirror, Separate, Single, Unwritten;
    hide PipesLeft, ErasesAt;
    CleanSound(cl, fds, fdUid, hist, next, cl', rest, uid, c.(userOut := 0), true, readIndex, readfd, target, failed);
    DistinctNow(cl', rest, hist, next, uid);
    var i := EntryStays(pipes, readIndex, erase, target.fd, target.other, c.Delay());
    WriteEndIs(cl', rest, hist, next, uid, i);
    PutBack(rest, target.fd);
  }

  lemma DistinctNow(cl: Table, fds: Fds, hist: seq<seq<Tick>>, next: nat, uid: int)
    requires Good(cl, fds, hist, next, 0) && Live(cl, uid)
    ensures Distinct(cl[uid].npipes)
  {
    assert OnTime(cl, fds, hist, next, 0, uid);
  }

  lemma WriteEndIs(cl: Table, fds: Fds, hist: seq<seq<Tick>>, next: nat, uid: int, i: int)
    requires Good(cl, fds, hist, next, 0) && Id(uid) && 0 <= i < |cl[uid].npipes|
    ensures cl[uid].npipes[i].writefd in fds && fds[cl[uid].npipes[i].writefd].WriteEnd?
  {
    assert Has(cl, PipeWrite(uid, i)) && FdOf(cl, PipeWrite(uid, i)) == cl[uid].npipes[i].writefd;
  }

  /** An entry other than the one that is due is still the first one with its counter when that is erased. */
  lemma EntryStays(pipes: seq<PipeCounter>, index: int, erase: bool, w: int, r: int, n: int) returns (i: int)
    requires -1 <= index < |pipes| && (erase ==> index != -1)
    requires exists k :: 0 <= k < |pipes| && k != index && pipes[k] == PipeCounter(r, w, n)
    requires Distinct(PipesLeft(pipes, index, erase))
    ensures var after := PipesLeft(pipes, index, erase);
      0 <= i < |after| && after[i] == PipeCounter(r, w, n) && FirstWith(after, n) == i
  {
    var after := PipesLeft(pipes, index, erase);
    i :| 0 <= i < |pipes| && i != index && pipes[i] == PipeCounter(r, w, n);
    if erase {
      WithoutKeeps(pipes, index, i);
      i := if i > index then i - 1 else i;
    }
    assert IsFirst(after, n, i);
    FirstIsUnique(after, n, i);
  }

  /** A command for a numbered pipe whose write end is closed closes it again, and that ends the server. */
  lemma ShutAgain(cl: Table, fds: Fds, next: nat, cl': Table, fds': Fds, next': nat, uid: int, c: Command,
                  directories: set<string>, readIndex: int, kid: Option<Fds>, crashed: bool, way: Way)
    requires ExternalStep(cl, fds, next, cl', fds', next', uid, c, directories, readIndex, kid, crashed, way)
    requires Shuts(c)
    requires var i := FirstWith(cl[uid].npipes, c.Delay()); i != -1 && cl[uid].npipes[i].writefd !in fds
    ensures crashed
  {
    assert way.cl1[uid].npipes == cl[uid].npipes;
  }

  /** What comes of an external command, when it starts from a table in order. */
  ghost predicate ExternalGood(cl: Table, fds: Fds, fdUid: map<int, int>, hist: seq<seq<Tick>>, next: nat, cl': Table,
                               fds': Fds, next': nat, uid: int, c: Command, directories: set<string>, readIndex: int,
                               kid: Option<Fds>, written: seq<PipeCounter>)
  {
    && |hist| == MAX_CLIENTS + 1 && Shape(cl) && Shape(cl') && Live(cl', uid) && CommandOk(c) && next <= next'
    && cl[uid].fd in fds
    && var t := Seen(kid, c, readIndex); var hist' := hist[uid := hist[uid] + [t]];
    && Recording(hist[uid], hist'[uid], c, StartsProcess(cl, uid, c, directories), kid, fds[cl[uid].fd],
                 UserEnd(TookFrom(cl, fds, uid, c)), next)
    && NewOrOwn(t, hist[uid], next) && HistoryGood(hist'[uid], next')
    && (StartsProcess(cl, uid, c, directories) && WantsUserPipe(c) ==> next < next')
    && if Shuts(c) then Misses(cl', fds', hist', next', uid, c.Delay())
       else
         && Sound(cl', fds', fdUid, hist', next', 0, None) && SocketsStay(fds, fds')
         && ExternalDone(cl, fds, next, cl', fds', next', uid, c, directories, readIndex, written)
  }

  /** What a history is as far as it does not depend on the vector. */
  ghost predicate HistoryGood(h: seq<Tick>, next: nat) {
    Delivered(h) && forall j :: Writer(h, j) ==> Out(h, j) < next
  }

  lemma GoodHistory(cl: Table, fds: Fds, hist: seq<seq<Tick>>, next: nat, uid: int)
    requires Good(cl, fds, hist, next, 0) && Live(cl, uid)
    ensures HistoryGood(hist[uid], next)
  {
    assert OnTime(cl, fds, hist, next, 0, uid);
    DeliveredIf(hist[uid]);
  }

  lemma RecordingIs(h: seq<Tick>, t: Tick, c: Command, starts: bool, kid: Option<Fds>, own: End, userEnd: End,
                    sent: nat)
    requires kid.Some? == starts && Recorded(t, c, starts) && (starts ==> KidOk(kid.value, t, c, own, userEnd, sent))
    ensures Recording(h, h + [t], c, starts, kid, own, userEnd, sent)
  {
  }

  /** Write ends that come with an output are those of new pipes. */
  lemma NewWriters(cl: Table, fds: Fds, next: nat, cl': Table, fds': Fds, next': nat, uid: int, c: Command,
                   directories: set<string>, forks: bool, target: Target)
    requires Shape(cl) && Id(uid) && c.userOut <= MAX_CLIENTS
    requires OutputStep(cl, fds, next, cl', fds', next', uid, c, directories, forks, target)
    ensures forall f :: f in fds' && f !in fds && fds'[f].WriteEnd? ==> fds'[f].obj >= next
  {
  }

  /** What the fork finds. */
  lemma BeforeFork(cl: Table, fds: Fds, fdUid: map<int, int>, hist: seq<seq<Tick>>, next: nat, next': nat, uid: int,
                   c: Command, directories: set<string>, readIndex: int, way: Way)
    requires Sound(cl, fds, fdUid, hist, next, uid, None) && Live(cl, uid) && CommandOk(c) && !IsBuiltIn(c)
    requires Sound(way.cl1, way.fds1, fdUid, hist, next, uid, None) && Live(way.cl1, uid)
    requires InputTaken(cl, fds, way.cl1, way.fds1, uid, c, way.readfd)
    requires c.userIn > 0 ==> NoWriter(way.fds1, way.readfd)
    requires OutputDone(way.cl1, way.fds1, next, way.cl2, way.fds2, next', uid, c, directories, way.forks,
                        if way.forks then OwnFd(way.target) else None)
    requires -1 <= readIndex < |way.cl1[uid].npipes|
    requires forall f :: f in way.fds2 && f !in way.fds1 && way.fds2[f].WriteEnd? ==> way.fds2[f].obj >= next
    ensures Shape(way.cl2) && -1 <= readIndex < |way.cl2[uid].npipes| && way.cl2[uid].fd == cl[uid].fd
    ensures way.forks == StartsProcess(cl, uid, c, directories)
    ensures DueObject(way.cl2, way.fds2, uid, readIndex) == DueObject(way.cl1, way.fds1, uid, readIndex)
    ensures cl[uid].fd in fds && cl[uid].fd in way.fds2 && way.fds2[cl[uid].fd] == fds[cl[uid].fd]
    ensures c.userIn > 0 ==>
              && way.readfd in Unowned(way.cl2, way.fds2) && NoWriter(way.fds2, way.readfd)
              && (way.forks ==> OwnFd(way.target) != Some(way.readfd))
              && way.fds2[way.readfd] == UserEnd(TookFrom(cl, fds, uid, c))
  {
    StartsIs(cl, fds, way.cl1, way.fds1, uid, c, directories);
    InputKeeps(cl, fds, way.cl1, way.fds1, uid, c, way.readfd);
    OutputKeeps(way.cl1, way.fds1, next, way.cl2, way.fds2, next', uid, c, directories, way.forks,
                if way.forks then OwnFd(way.target) else None, way.readfd, readIndex);
    assert SlotOk(cl, fds, fdUid, uid);
    assert OnTime(way.cl1, way.fds1, hist, next, uid, uid);
    if c.userIn > 0 {
      TookIs(cl, fds, way.cl1, way.fds1, uid, c, way.readfd);
    }
    hide Unowned, Mail, Good, TableOk, OwnFd, StartsProcess, Taken, MailSent, Extended;
    DueStays(way.cl1, way.fds1, way.cl2, way.fds2, uid, readIndex);
    if c.userIn > 0 {
      StillNoWriter(way.fds1, next, way.fds2, way.readfd);
    }
  }

  /** Before the descriptors are closed: the process and its record. */
  lemma ProcessSound(cl: Table, fds: Fds, fdUid: map<int, int>, hist: seq<seq<Tick>>, next: nat, next': nat, uid: int,
                     c: Command, directories: set<string>, readIndex: int, kid: Option<Fds>, way: Way)
    requires Sound(cl, fds, fdUid, hist, next, uid, None) && Live(cl, uid) && CommandOk(c) && !IsBuiltIn(c)
    requires Sound(way.cl1, way.fds1, fdUid, hist, next, uid, None) && Live(way.cl1, uid)
    requires InputTaken(cl, fds, way.cl1, way.fds1, uid, c, way.readfd)
    requires c.userIn > 0 ==> NoWriter(way.fds1, way.readfd)
    requires OutputGood(way.cl1, way.fds1, fdUid, hist, next, way.cl2, way.fds2, next', uid, c, directories, readIndex,
                        way.forks, way.target)
    requires OutputStep(way.cl1, way.fds1, next, way.cl2, way.fds2, next', uid, c, directories, way.forks, way.target)
    requires -1 <= readIndex < |way.cl2[uid].npipes|
    requires if way.forks then ForkStep(way.cl2, way.fds2, uid, c, readIndex, way.readfd, way.target, kid)
             else kid.None?
    ensures Shape(way.cl1) && cl[uid].fd in fds && way.forks == StartsProcess(cl, uid, c, directories)
    ensures Seen(kid, c, readIndex) ==
            TickOf(DueObject(way.cl1, way.fds1, uid, readIndex), c, way.forks, way.fds2, way.target)
    ensures Recording(hist[uid], hist[uid] + [Seen(kid, c, readIndex)], c, way.forks, kid, fds[cl[uid].fd],
                      UserEnd(TookFrom(cl, fds, uid, c)), next)
  {
    NewWriters(way.cl1, way.fds1, next, way.cl2, way.fds2, next', uid, c, directories, way.forks, way.target);
    hide OutputStep;
    BeforeFork(cl, fds, fdUid, hist, next, next', uid, c, directories, readIndex, way);
    hide Unowned, Mail, Good, TableOk, InputTaken, OutputDone, StartsProcess, ForkStep, TargetPlaced, NoWriter;
    hide DueObject;
    var t := Seen(kid, c, readIndex);
    var made := TickOf(DueObject(way.cl1, way.fds1, uid, readIndex), c, way.forks, way.fds2, way.target);
    if way.forks {
      ForkSound(way.cl2, way.fds2, fdUid, hist[uid := hist[uid] + [made]], next, next', HeldBy(true, way.target), uid,
                c, readIndex, way.readfd, way.target, kid);
    }
    RecordingIs(hist[uid], t, c, way.forks, kid, fds[cl[uid].fd], UserEnd(TookFrom(cl, fds, uid, c)), next);
  }

  lemma ExternalSound(cl: Table, fds: Fds, fdUid: map<int, int>, hist: seq<seq<Tick>>, next: nat, cl': Table, fds': Fds,
                      next': nat, uid: int, c: Command, directories: set<string>, readIndex: int, kid: Option<Fds>,
                      crashed: bool, way: Way)
    requires Sound(cl, fds, fdUid, hist, next, uid, None) && Live(cl, uid) && CommandOk(c) && !IsBuiltIn(c)
    requires IsFirst(cl[uid].npipes, 0, readIndex)
    requires ExternalStep(cl, fds, next, cl', fds', next', uid, c, directories, readIndex, kid, crashed, way)
    ensures !crashed
    ensures ExternalGood(cl, fds, fdUid, hist, next, cl', fds', next', uid, c, directories, readIndex, kid,
                         way.cl2[uid].npipes)
  {
    hide InputStep, OutputStep, ForkStep, CleanStep;
    InputSound(cl, fds, fdUid, hist, next, way.cl1, way.fds1, uid, c, way.readfd);
    OutputSound(way.cl1, way.fds1, fdUid, hist, next, way.cl2, way.fds2, next', uid, c, directories, readIndex,
                way.forks, way.target);
    ProcessSound(cl, fds, fdUid, hist, next, next', uid, c, directories, readIndex, kid, way);
    var t := Seen(kid, c, readIndex);
    var hist' := hist[uid := hist[uid] + [t]];
    var own := if way.forks then OwnFd(way.target) else None;
    InputKeeps(cl, fds, way.cl1, way.fds1, uid, c, way.readfd);
    OutputKeeps(way.cl1, way.fds1, next, way.cl2, way.fds2, next', uid, c, directories, way.forks, own, way.readfd,
                readIndex);
    GoodHistory(way.cl2, way.fds2, hist', next', uid);
    assert IsFirst(way.cl2[uid].npipes, 0, readIndex) by {
      IndexStays(way.cl1[uid].npipes, way.cl2[uid].npipes, DelayOf(c, way.forks), readIndex);
    }
    assert |hist| == MAX_CLIENTS + 1 && Mirror(cl) && Separate(cl, fds) && next <= next';
    hide Sound, Unowned, Mail, Misses, Recording, NewOrOwn, InputTaken, HistoryGood, OutputDone, TargetPlaced;
    hide Mirror, Separate;
    ExternalEnds(cl, fds, fdUid, hist', next, cl', fds', next', uid, c, directories, readIndex, crashed, way);
  }

  /** What is left when the descriptors are closed. */
  lemma ExternalEnds(cl: Table, fds: Fds, fdUid: map<int, int>, hist': seq<seq<Tick>>, next: nat, cl': Table, fds': Fds,
                     next': nat, uid: int, c: Command, directories: set<string>, readIndex: int, crashed: bool,
                     way: Way)
    requires Shape(cl) && Mirror(cl) && Separate(cl, fds) && Id(uid) && CommandOk(c) && !IsBuiltIn(c)
    requires InputTaken(cl, fds, way.cl1, way.fds1, uid, c, way.readfd)
    requires OutputDone(way.cl1, way.fds1, next, way.cl2, way.fds2, next', uid, c, directories, way.forks,
                        if way.forks then OwnFd(way.target) else None)
    requires Sound(way.cl2, way.fds2, fdUid, hist', next', 0, HeldBy(way.forks, way.target)) && Live(way.cl2, uid)
    requires |hist'[uid]| > 0 && -1 <= readIndex < |cl[uid].npipes| && IsFirst(cl[uid].npipes, 0, readIndex)
    requires readIndex < |way.cl2[uid].npipes| && IsFirst(way.cl2[uid].npipes, 0, readIndex)
    requires way.forks ==> TargetPlaced(way.cl2, way.fds2, next, uid, c, readIndex, way.target)
    requires CleanStep(way.cl2, way.fds2, cl', fds', uid, c, way.forks, readIndex, way.readfd, way.target, crashed)
    ensures !crashed && Shape(cl') && Live(cl', uid)
    ensures if Shuts(c) then Misses(cl', fds', hist', next', uid, c.Delay())
            else
              && Sound(cl', fds', fdUid, hist', next', 0, None) && SocketsStay(fds, fds')
              && ExternalDone(cl, fds, next, cl', fds', next', uid, c, directories, readIndex, way.cl2[uid].npipes)
  {
    var own := if way.forks then OwnFd(way.target) else None;
    InputKeeps(cl, fds, way.cl1, way.fds1, uid, c, way.readfd);
    OutputKeeps(way.cl1, way.fds1, next, way.cl2, way.fds2, next', uid, c, directories, way.forks, own, way.readfd,
                readIndex);
    assert SocketsStay(fds, way.fds2);
    hide Good, TableOk, Unowned, Mail, Single, Unwritten, Extended, MailSent, SameUsers, Misses, InputTaken, CleanStep;
    if Shuts(c) {
      ShutSound(way.cl2, way.fds2, fdUid, hist', next, next', cl', fds', uid, c, readIndex, way.readfd, way.target,
                crashed);
    } else {
      CleanSound(way.cl2, way.fds2, fdUid, hist', next', cl', fds', uid, c, way.forks, readIndex, way.readfd,
                 way.target, crashed);
      ExternalIs(cl, fds, next, way.cl1, way.fds1, way.cl2, way.fds2, next', cl', fds', uid, c, directories, way.forks,
                 readIndex, way.readfd, own);
    }
  }

  /** What was found due before a push is found after it. */
  lemma IndexStays(pipes: seq<PipeCounter>, written: seq<PipeCounter>, delay: Option<int>, index: int)
    requires Extended(pipes, written, delay) && (delay.Some? ==> delay.value >= 1) && IsFirst(pipes, 0, index)
    ensures IsFirst(written, 0, index)
  {
    var r, w :| written == MaybeWithPipe(pipes, delay, r, w);
    WithPipeKeeps(pipes, delay, r, w);
  }

  // ------------------------------------------------------------------ built-in commands

  ghost predicate BuiltInStep(cl: Table, fds: Fds, cl': Table, fds': Fds, uid: int, c: Command, readIndex: int)
    requires Shape(cl) && Id(uid) && CommandOk(c) && -1 <= readIndex < |cl[uid].npipes|
  {
    var me := cl[uid];
    if EndsLine(c) then
      var erase := readIndex != -1 && me.npipes[readIndex].counter == 0;
      cl' == SetPipes(cl, uid, PipesLeft(me.npipes, readIndex, erase)) && fds' == Erased(fds, me.npipes, readIndex,
                                                                                         erase)
    else
      && fds' == fds
      && cl' == if SetsEnv(c) then cl[uid := me.(env := me.env[c.args[1] := c.args[2]])]
                else if c.args[0] == "name" && !NameTaken(cl, c.args[1]) then cl[uid := me.(nickname := c.args[1])]
                else cl
  }

  /** A change of a name or an environment. */
  lemma MeSound(cl: Table, fds: Fds, fdUid: map<int, int>, hist: seq<seq<Tick>>, next: nat, cl': Table, uid: int)
    requires Sound(cl, fds, fdUid, hist, next, 0, None) && Id(uid)
    requires |cl'| == |cl|
    requires cl' == cl[uid := cl[uid].(env := cl'[uid].env, nickname := cl'[uid].nickname)] && TableOk(cl', fds, fdUid)
    ensures Sound(cl', fds, fdUid, hist, next, 0, None) && SameMail(cl, fds, cl', fds)
    ensures Unowned(cl', fds) == Unowned(cl, fds)
  {
    SamePlaces(cl, cl', fds, hist, next, 0);
    UnownedKept(cl, cl', fds);
    MailStays(cl, cl', fds, fds);
    hide Mail, Good, Unowned;
    UnwrittenStays(cl, fds, cl', fds, next, None);
  }

  /** `setenv` and `name`, after the record of the command. */
  lemma MeDone(cl: Table, fds: Fds, fdUid: map<int, int>, hist: seq<seq<Tick>>, next: nat, cl': Table, fds': Fds,
               uid: int, c: Command, readIndex: int)
    requires Sound(cl, fds, fdUid, hist, next, 0, None) && Live(cl, uid) && CommandOk(c) && IsBuiltIn(c) && !EndsLine(c)
    requires IsFirst(cl[uid].npipes, 0, readIndex) && BuiltInStep(cl, fds, cl', fds', uid, c, readIndex)
    ensures Sound(cl', fds', fdUid, hist, next, 0, None) && Live(cl', uid)
    ensures BuiltInDone(cl, fds, cl', fds', uid, c, readIndex)
    ensures SocketsStay(fds, fds')
  {
    if SetsEnv(c) {
      TableFrame(cl, fds, fdUid, cl', fds);
    } else if c.args[0] == "name" && !NameTaken(cl, c.args[1]) {
      RenameKeepsTable(cl, fds, fdUid, uid, c.args[1]);
    }
    MeSound(cl, fds, fdUid, hist, next, cl', uid);
  }

  /** `tell` and `yell`. */
  lemma EndsDone(cl: Table, fds: Fds, fdUid: map<int, int>, hist: seq<seq<Tick>>, next: nat, cl': Table, fds': Fds,
                 uid: int, c: Command, readIndex: int)
    requires Sound(cl, fds, fdUid, hist, next, 0, None) && Live(cl, uid) && CommandOk(c) && IsBuiltIn(c) && EndsLine(c)
    requires |hist[uid]| > 0
    requires IsFirst(cl[uid].npipes, 0, readIndex) && BuiltInStep(cl, fds, cl', fds', uid, c, readIndex)
    ensures Sound(cl', fds', fdUid, hist, next, 0, None) && Live(cl', uid)
    ensures BuiltInDone(cl, fds, cl', fds', uid, c, readIndex)
    ensures SocketsStay(fds, fds')
  {
    MaybeEraseSound(cl, fds, fdUid, hist, next, None, uid, readIndex, readIndex != -1);
  }

  lemma BuiltInSound(cl: Table, fds: Fds, fdUid: map<int, int>, hist: seq<seq<Tick>>, next: nat, cl': Table,
                     fds': Fds, uid: int, c: Command, readIndex: int)
    requires Sound(cl, fds, fdUid, hist, next, uid, None) && Live(cl, uid) && CommandOk(c) && IsBuiltIn(c)
    requires IsFirst(cl[uid].npipes, 0, readIndex) && BuiltInStep(cl, fds, cl', fds', uid, c, readIndex)
    ensures Sound(cl', fds', fdUid, hist[uid := hist[uid] + [Quiet]], next, 0, None) && Live(cl', uid)
    ensures BuiltInDone(cl, fds, cl', fds', uid, c, readIndex) && SocketsStay(fds, fds')
  {
    EndSound(cl, fds, fdUid, hist, next, uid, None, Quiet);
    if EndsLine(c) {
      EndsDone(cl, fds, fdUid, hist[uid := hist[uid] + [Quiet]], next, cl', fds', uid, c, readIndex);
    } else {
      MeDone(cl, fds, fdUid, hist[uid := hist[uid] + [Quiet]], next, cl', fds', uid, c, readIndex);
    }
  }

  // ------------------------------------------------------------------ a command

  /** The clock ticks for user `uid`. */
  lemma TickSound(cl: Table, fds: Fds, fdUid: map<int, int>, hist: seq<seq<Tick>>, next: nat, uid: int)
    requires Sound(cl, fds, fdUid, hist, next, 0, None) && Live(cl, uid)
    ensures var cl1 := SetPipes(cl, uid, TickAll(cl[uid].npipes));
      Sound(cl1, fds, fdUid, hist, next, uid, None) && Live(cl1, uid)
  {
    var cl1 := SetPipes(cl, uid, TickAll(cl[uid].npipes));
    Ticks(cl, TickAll(cl[uid].npipes), fds, hist, next, uid);
    TableFrame(cl, fds, fdUid, cl1, fds);
    PipesMail(cl, fds, fds, uid, TickAll(cl[uid].npipes));
    hide Mail;
    UnwrittenStays(cl, fds, cl1, fds, next, None);
  }

  /** The tick of the clock changes the counters only. */
  lemma TickChangesLittle(cl: Table, fds: Fds, u: int, c: Command, directories: set<string>, readIndex: int)
    requires Shape(cl) && Separate(cl, fds) && Id(u) && CommandOk(c)
    requires IsFirst(TickAll(cl[u].npipes), 0, readIndex)
    ensures var cl1 := SetPipes(cl, u, TickAll(cl[u].npipes));
      && TakesPipe(cl1, u, c) == TakesPipe(cl, u, c)
      && Starts(cl1, u, c, directories) == Starts(cl, u, c, directories)
      && SameMail(cl, fds, cl1, fds) && Unowned(cl1, fds) == Unowned(cl, fds)
      && (c.userIn > 0 ==> Sent(cl1, u, c.userIn) == Sent(cl, u, c.userIn))
      && TookFrom(cl1, fds, u, c) == TookFrom(cl, fds, u, c)
      && cl1[u].env == cl[u].env && -1 <= readIndex < |cl1[u].npipes|
  {
    var cl1 := SetPipes(cl, u, TickAll(cl[u].npipes));
    PipesMail(cl, fds, fds, u, TickAll(cl[u].npipes));
    UnownedKept(cl, cl1, fds);
    forall r, s | Id(r) && Id(s)
      ensures Sent(cl1, r, s) == Sent(cl, r, s) && Send(cl1, s, r) == Send(cl, s, r)
    {
    }
  }

  lemma CommandIs(cl: Table, fds: Fds, next: nat, cl': Table, fds': Fds, next': nat, uid: int, c: Command,
                  directories: set<string>, readIndex: int, written: seq<PipeCounter>)
    requires Shape(cl) && Separate(cl, fds) && Id(uid) && CommandOk(c) && !IsBuiltIn(c)
    requires IsFirst(TickAll(cl[uid].npipes), 0, readIndex)
    requires ExternalDone(SetPipes(cl, uid, TickAll(cl[uid].npipes)), fds, next, cl', fds', next', uid, c, directories,
                          readIndex, written)
    ensures CommandDone(cl, fds, next, cl', fds', next', uid, c, directories)
    ensures cl'[uid].env == cl[uid].env
  {
    var cl1 := SetPipes(cl, uid, TickAll(cl[uid].npipes));
    var starts := Starts(cl, uid, c, directories);
    TickChangesLittle(cl, fds, uid, c, directories, readIndex);
    ExternalParts(cl1, fds, next, cl', fds', next', uid, c, directories, readIndex, written);
    UserSince(cl, cl1, cl', uid, c);
    hide ExternalDone, Mail, Unowned, Extended, StartsProcess, TakesPipe, LeftOpen, MailAfter, VectorStep, SameMail;
    hide UserAfter, OthersSame, NameTaken, ErasesDue;
    StepIs(cl[uid].npipes, written, cl'[uid].npipes, DelayOf(c, starts), readIndex, ErasesDue(c, starts));
    LeftOpenSince(cl, cl1, fds, cl', fds', uid, c, starts);
    MailAfterSince(cl, cl1, fds, cl', fds', uid, c, directories, next);
  }

  lemma UserSince(cl: Table, cl1: Table, cl': Table, uid: int, c: Command)
    requires Shape(cl) && Shape(cl') && Id(uid) && CommandOk(c) && !IsBuiltIn(c)
    requires Shape(cl1) && cl1 == SetPipes(cl, uid, cl1[uid].npipes) && OthersSame(cl1, cl', uid)
    requires UserAfter(cl1, cl'[uid], uid, c)
    ensures OthersSame(cl, cl', uid) && UserAfter(cl, cl'[uid], uid, c) && cl'[uid].env == cl[uid].env
  {
  }

  /** The parts of `ExternalDone` by name. */
  lemma ExternalParts(cl: Table, fds: Fds, next: nat, cl': Table, fds': Fds, next': nat, uid: int, c: Command,
                      directories: set<string>, readIndex: int, written: seq<PipeCounter>)
    requires ExternalDone(cl, fds, next, cl', fds', next', uid, c, directories, readIndex, written) && !IsBuiltIn(c)
    ensures Shape(cl) && Shape(cl') && Id(uid) && CommandOk(c) && next <= next'
    ensures Starts(cl, uid, c, directories) && WantsUserPipe(c) ==> next < next'
    ensures LeftOpen(cl, fds, cl', fds', uid, c, Starts(cl, uid, c, directories))
    ensures MailAfter(cl, fds, cl', fds', uid, c, directories, next)
    ensures OthersSame(cl, cl', uid) && UserAfter(cl, cl'[uid], uid, c)
    ensures Extended(cl[uid].npipes, written, DelayOf(c, Starts(cl, uid, c, directories)))
    ensures -1 <= readIndex < |written|
    ensures cl'[uid].npipes == if ErasesDue(c, Starts(cl, uid, c, directories)) && readIndex != -1
                               then Without(written, readIndex) else written
  {
  }

  lemma LeftOpenSince(cl: Table, cl1: Table, fds: Fds, cl': Table, fds': Fds, uid: int, c: Command, starts: bool)
    requires Shape(cl) && Shape(cl1) && Shape(cl') && Id(uid) && CommandOk(c)
    requires LeftOpen(cl1, fds, cl', fds', uid, c, starts) && Unowned(cl1, fds) == Unowned(cl, fds)
    requires TakesPipe(cl1, uid, c) == TakesPipe(cl, uid, c)
    requires c.userIn > 0 ==> Sent(cl1, uid, c.userIn) == Sent(cl, uid, c.userIn)
    ensures LeftOpen(cl, fds, cl', fds', uid, c, starts)
  {
    hide Unowned, TakesPipe;
  }

  lemma MailAfterSince(cl: Table, cl1: Table, fds: Fds, cl': Table, fds': Fds, uid: int, c: Command,
                       directories: set<string>, next: nat)
    requires Shape(cl) && Shape(cl1) && Shape(cl') && Id(uid) && CommandOk(c) && !IsBuiltIn(c)
    requires MailAfter(cl1, fds, cl', fds', uid, c, directories, next) && SameMail(cl, fds, cl1, fds)
    requires TakesPipe(cl1, uid, c) == TakesPipe(cl, uid, c)
    requires Starts(cl1, uid, c, directories) == Starts(cl, uid, c, directories)
    ensures MailAfter(cl, fds, cl', fds', uid, c, directories, next)
  {
    hide Mail, TakesPipe, StartsProcess;
  }

  /**
   A command leaves the read end of a pipe open behind itself if and only if it has taken its user pipe and
   could not start.
   */
  lemma ReadEndsLeft(cl: Table, fds: Fds, next: nat, cl': Table, fds': Fds, next': nat, uid: int, c: Command,
                     directories: set<string>)
    requires CommandDone(cl, fds, next, cl', fds', next', uid, c, directories)
    ensures Shape(cl) && Shape(cl') && Id(uid) && CommandOk(c)
    ensures Unowned(cl, fds) <= Unowned(cl', fds')
    ensures (exists fd :: fd in Unowned(cl', fds') - Unowned(cl, fds) && fds'[fd].ReadEnd?) <==>
            !IsBuiltIn(c) && TakesPipe(cl, uid, c) && !Starts(cl, uid, c, directories)
    ensures forall fd :: fd in Unowned(cl', fds') - Unowned(cl, fds) ==> !fds'[fd].WriteEnd?
  {
    hide TakesPipe, StartsProcess, MailAfter, SameMail, Mail, VectorStep, UserAfter, OthersSame;
    var starts := Starts(cl, uid, c, directories);
    InFds(cl, fds);
    InFds(cl', fds');
    assert TakesPipe(cl, uid, c) ==> c.userIn > 0 by { TakesAsks(cl, uid, c); }
    if LeaksInput(c, starts) || LeaksFile(c, starts) {
      var fd :|
        && fd !in Unowned(cl, fds) && Unowned(cl', fds') == Unowned(cl, fds) + {fd} && fd in fds'
        && (if LeaksInput(c, starts) && TakesPipe(cl, uid, c) then fd == Sent(cl, uid, c.userIn) && fds'[fd].ReadEnd?
            else fds'[fd] == if LeaksFile(c, starts) then File(c.filename) else Null);
      assert fd in Unowned(cl', fds') - Unowned(cl, fds);
    }
  }

  lemma InFds(cl: Table, fds: Fds)
    requires Shape(cl)
    ensures forall fd :: fd in Unowned(cl, fds) ==> fd in fds
  {
  }

  lemma TakesAsks(cl: Table, uid: int, c: Command)
    requires Shape(cl) && Id(uid) && CommandOk(c)
    ensures TakesPipe(cl, uid, c) ==> c.userIn > 0
  {
  }

  lemma CommandSpares(cl: Table, fds: Fds, next: nat, cl': Table, fds': Fds, next': nat, uid: int, c: Command,
                      directories: set<string>)
    requires CommandDone(cl, fds, next, cl', fds', next', uid, c, directories)
    ensures Shape(cl) && Shape(cl') && OthersSame(cl, cl', uid)
  {
  }

  lemma BuiltInIs(cl: Table, fds: Fds, next: nat, cl': Table, fds': Fds, uid: int, c: Command, directories: set<string>,
                  readIndex: int)
    requires Shape(cl) && Separate(cl, fds) && Id(uid) && CommandOk(c) && IsBuiltIn(c)
    requires IsFirst(TickAll(cl[uid].npipes), 0, readIndex)
    requires BuiltInDone(SetPipes(cl, uid, TickAll(cl[uid].npipes)), fds, cl', fds', uid, c, readIndex)
    ensures CommandDone(cl, fds, next, cl', fds', next, uid, c, directories)
  {
    TickChangesLittle(cl, fds, uid, c, directories, readIndex);
    hide Mail, Unowned;
    NotExtended(TickAll(cl[uid].npipes));
    StepIs(cl[uid].npipes, TickAll(cl[uid].npipes), cl'[uid].npipes, None, readIndex, EndsLine(c));
  }

  /** What comes of a command of user `uid`, when it starts from a table in order. */
  ghost predicate CommandGood(cl: Table, fds: Fds, fdUid: map<int, int>, hist: seq<seq<Tick>>, next: nat, cl': Table,
                              fds': Fds, hist': seq<seq<Tick>>, next': nat, uid: int, c: Command,
                              directories: set<string>, kid: Option<Fds>)
  {
    && |hist| == MAX_CLIENTS + 1 && Shape(cl) && Shape(cl') && Live(cl', uid) && CommandOk(c) && next <= next'
    && cl[uid].fd in fds && |hist'| == |hist| && hist' == hist[uid := hist'[uid]]
    && Recording(hist[uid], hist'[uid], c, Starts(cl, uid, c, directories), kid, fds[cl[uid].fd],
                 UserEnd(TookFrom(cl, fds, uid, c)), next)
    && (hist'[uid] != [] ==> NewOrOwn(hist'[uid][|hist'[uid]| - 1], hist[uid], next)) && HistoryGood(hist'[uid], next')
    && (Starts(cl, uid, c, directories) && WantsUserPipe(c) ==> next < next')
    && if Shuts(c) then Misses(cl', fds', hist', next', uid, c.Delay())
       else
         && Sound(cl', fds', fdUid, hist', next', 0, None) && SocketsStay(fds, fds')
         && CommandDone(cl, fds, next, cl', fds', next', uid, c, directories)
  }

  lemma ExternalCommand(cl: Table, fds: Fds, fdUid: map<int, int>, hist: seq<seq<Tick>>, next: nat, cl': Table,
                        fds': Fds, next': nat, uid: int, c: Command, directories: set<string>, readIndex: int,
                        kid: Option<Fds>, crashed: bool, way: Way)
    requires Sound(cl, fds, fdUid, hist, next, 0, None) && Live(cl, uid) && CommandOk(c) && !IsBuiltIn(c)
    requires IsFirst(TickAll(cl[uid].npipes), 0, readIndex)
    requires ExternalStep(SetPipes(cl, uid, TickAll(cl[uid].npipes)), fds, next, cl', fds', next', uid, c, directories,
                          readIndex, kid, crashed, way)
    ensures !crashed
    ensures CommandGood(cl, fds, fdUid, hist, next, cl', fds', hist[uid := hist[uid] + [Seen(kid, c, readIndex)]],
                        next', uid, c, directories, kid)
  {
    var cl1 := SetPipes(cl, uid, TickAll(cl[uid].npipes));
    assert Separate(cl, fds);
    TickSound(cl, fds, fdUid, hist, next, uid);
    TickChangesLittle(cl, fds, uid, c, directories, readIndex);
    hide Sound, Mail, Unowned, Misses, Recording, NewOrOwn, HistoryGood, ExternalDone, CommandDone, IsFirst;
    hide ExternalStep, Seen;
    hide StartsProcess, SameMail, TookFrom;
    ExternalSound(cl1, fds, fdUid, hist, next, cl', fds', next', uid, c, directories, readIndex, kid, crashed, way);
    if !Shuts(c) {
      CommandIs(cl, fds, next, cl', fds', next', uid, c, directories, readIndex, way.cl2[uid].npipes);
    }
  }

  lemma BuiltInCommand(cl: Table, fds: Fds, fdUid: map<int, int>, hist: seq<seq<Tick>>, next: nat, cl': Table,
                       fds': Fds, uid: int, c: Command, directories: set<string>, readIndex: int)
    requires Sound(cl, fds, fdUid, hist, next, 0, None) && Live(cl, uid) && CommandOk(c) && IsBuiltIn(c)
    requires IsFirst(TickAll(cl[uid].npipes), 0, readIndex)
    requires BuiltInStep(SetPipes(cl, uid, TickAll(cl[uid].npipes)), fds, cl', fds', uid, c, readIndex)
    ensures CommandGood(cl, fds, fdUid, hist, next, cl', fds', hist[uid := hist[uid] + [Quiet]], next, uid, c,
                        directories, None)
  {
    var cl1 := SetPipes(cl, uid, TickAll(cl[uid].npipes));
    assert Separate(cl, fds) && SlotOk(cl, fds, fdUid, uid);
    TickSound(cl, fds, fdUid, hist, next, uid);
    BuiltInSound(cl1, fds, fdUid, hist, next, cl', fds', uid, c, readIndex);
    BuiltInIs(cl, fds, next, cl', fds', uid, c, directories, readIndex);
    GoodHistory(cl', fds', hist[uid := hist[uid] + [Quiet]], next, uid);
    RecordingIs(hist[uid], Quiet, c, false, None, fds[cl[uid].fd], UserEnd(TookFrom(cl, fds, uid, c)), next);
  }

  /** After a command the table is in order if and only if the command did not close a write end of it. */
  lemma CommandOrder(cl: Table, fds: Fds, fdUid: map<int, int>, hist: seq<seq<Tick>>, next: nat, cl': Table, fds': Fds,
                     hist': seq<seq<Tick>>, next': nat, uid: int, c: Command, directories: set<string>,
                     kid: Option<Fds>)
    requires CommandGood(cl, fds, fdUid, hist, next, cl', fds', hist', next', uid, c, directories, kid)
    ensures Shape(cl') && Live(cl', uid) && |hist'| == MAX_CLIENTS + 1
    ensures Good(cl', fds', hist', next', 0) <==> !Shuts(c)
    ensures !Shuts(c) ==> Sound(cl', fds', fdUid, hist', next', 0, None)
    ensures Shuts(c) ==>
              var i := FirstWith(cl'[uid].npipes, c.Delay()); i != -1 && cl'[uid].npipes[i].writefd !in fds'
  {
    hide Good;
    if Shuts(c) {
      MissesIsBad(cl', fds', hist', next', uid, c.Delay());
    }
  }

  lemma CommandSparesOthers(cl: Table, fds: Fds, fdUid: map<int, int>, hist: seq<seq<Tick>>, next: nat, cl': Table,
                            fds': Fds, hist': seq<seq<Tick>>, next': nat, uid: int, c: Command,
                            directories: set<string>, kid: Option<Fds>)
    requires CommandGood(cl, fds, fdUid, hist, next, cl', fds', hist', next', uid, c, directories, kid) && !Shuts(c)
    ensures Shape(cl) && Shape(cl') && OthersSame(cl, cl', uid)
  {
    CommandSpares(cl, fds, next, cl', fds', next', uid, c, directories);
  }

  lemma TickedFirst(pipes: seq<PipeCounter>, n: int)
    ensures FirstWith(TickAll(pipes), n) == FirstWith(pipes, n + 1)
  {
    var i := FirstWith(pipes, n + 1);
    assert IsFirst(TickAll(pipes), n, i);
    FirstIsUnique(TickAll(pipes), n, i);
  }
}
