/** What a child of the server finds on its standard descriptors (np_project2/np_single_proc.cpp). */
module ServerChild {
  import opened Descriptors
  import opened NumberedPipes
  import opened Options

  /** Where the output goes; `other` is the end of the pipe that the child does not use. */
  datatype Target =
    | ToClient
    | ToFile(fd: int)
    | ToUser(fd: int, other: int)
    | ToPipe(fd: int, other: int, errPipe: bool)

  predicate Usable(fds: Fds, fd: int) {
    fd in fds && fd !in {0, 1, 2}
  }

  function TargetFds(target: Target): set<int> {
    match target
    case ToClient => {}
    case ToFile(fd) => {fd}
    case ToUser(fd, other) => {fd, other}
    case ToPipe(fd, other, _) => {fd, other}
  }

  function InputFds(due: Option<PipeCounter>, userIn: bool, readfd: int): set<int> {
    if due.Some? then {due.value.readfd, due.value.writefd} else if userIn then {readfd} else {}
  }

  /** All that the child works with is open and apart from each other. */
  predicate ChildReady(fds: Fds, due: Option<PipeCounter>, userIn: bool, readfd: int, client: int, target: Target) {
    && 0 in fds && 1 in fds && 2 in fds && Usable(fds, client)
    && (forall fd :: fd in InputFds(due, userIn, readfd) + TargetFds(target) ==> Usable(fds, fd) && fd != client)
    && (due.Some? ==> due.value.readfd != due.value.writefd)
    && (target.ToUser? || target.ToPipe? ==> target.fd != target.other)
    && InputFds(due, userIn, readfd) !! TargetFds(target)
  }

  /** The standard descriptors of the child; of the others it keeps those that are not part of its input or output. */
  predicate Arranged(kid: Fds, fds: Fds, due: Option<PipeCounter>, userIn: bool, readfd: int, client: int,
                     target: Target)
    requires ChildReady(fds, due, userIn, readfd, client, target)
  {
    && 0 in kid && 1 in kid && 2 in kid
    && kid[0] == (if due.Some? then fds[due.value.readfd] else if userIn then fds[readfd] else fds[client])
    && kid[1] == (if target.ToClient? then fds[client] else fds[target.fd])
    && kid[2] == (if target.ToPipe? && target.errPipe then fds[target.fd] else fds[client])
    && forall fd :: fd in kid && fd !in {0, 1, 2} ==>
         fd in fds && kid[fd] == fds[fd] && fd !in InputFds(due, userIn, readfd) + TargetFds(target)
  }

  /** `close_fd`; the process ends itself if that fails. */
  function CloseOrDie(t: Option<Fds>, fd: int): Option<Fds> {
    if t.Some? && fd in t.value then Some(t.value - {fd}) else None
  }

  /** `set_readfd` and `set_writefd`; the process ends itself if that fails. */
  function DupOrDie(t: Option<Fds>, from: int, to: int): Option<Fds> {
    if t.Some? && from in t.value then Some(t.value[to := t.value[from]]) else None
  }

  /** The numbered pipe that is due comes first, then the user pipe, then the client. */
  method ChildInput(fds: Fds, due: Option<PipeCounter>, userIn: bool, readfd: int, client: int) returns (t: Option<Fds>)
    ensures ChildReady(fds, due, userIn, readfd, client, ToClient) ==>
              && t.Some?
              && t.value == if due.Some? then (fds - {due.value.readfd, due.value.writefd})[0 := fds[due.value.readfd]]
                            else if userIn then (fds - {readfd})[0 := fds[readfd]]
                            else fds[0 := fds[client]]
    // the child cannot start if the write end of its input is not open in the server any more
    ensures due.Some? && due.value.writefd !in fds ==> t.None?
  {
    t := Some(fds);
    if due.Some? {
      t := CloseOrDie(t, due.value.writefd);
      t := CloseOrDie(t, 0);
      t := DupOrDie(t, due.value.readfd, 0);
      t := CloseOrDie(t, due.value.readfd);
    } else if userIn {
      t := CloseOrDie(t, 0);
      t := DupOrDie(t, readfd, 0);
      t := CloseOrDie(t, readfd);
    } else {
      t := CloseOrDie(t, 0);
      t := DupOrDie(t, client, 0);
    }
  }

  method ChildOutput(fds: Option<Fds>, target: Target, client: int) returns (t: Option<Fds>)
    ensures fds.Some? && ChildReady(fds.value, None, false, 0, client, target) ==>
              && t.Some? && 1 in t.value && 2 in t.value && 0 in t.value && t.value[0] == fds.value[0]
              && t.value[1] == (if target.ToClient? then fds.value[client] else fds.value[target.fd])
              && t.value[2] == (if target.ToPipe? && target.errPipe then fds.value[target.fd] else fds.value[client])
              && forall fd :: fd in t.value && fd !in {0, 1, 2} ==>
                   fd in fds.value && t.value[fd] == fds.value[fd] && fd !in TargetFds(target)
    ensures fds.None? ==> t.None?
  {
    t := fds;
    if !target.ToClient? {
      if !target.ToFile? {
        t := CloseOrDie(t, target.other);
      }
      t := CloseOrDie(t, 1);
      t := DupOrDie(t, target.fd, 1);
      t := CloseOrDie(t, 2);
      if target.ToPipe? && target.errPipe {
        t := DupOrDie(t, target.fd, 2);
      } else {
        t := DupOrDie(t, client, 2);
      }
      t := CloseOrDie(t, target.fd);
    } else {
      t := CloseOrDie(t, 1);
      t := DupOrDie(t, client, 1);
      t := CloseOrDie(t, 2);
      t := DupOrDie(t, client, 2);
    }
  }

  /** Both rearrangements, one after the other; if all is there, no call fails. */
  method ChildOf(fds: Fds, due: Option<PipeCounter>, userIn: bool, readfd: int, client: int, target: Target)
    returns (kid: Option<Fds>)
    ensures ChildReady(fds, due, userIn, readfd, client, target) ==>
              kid.Some? && Arranged(kid.value, fds, due, userIn, readfd, client, target)
    ensures due.Some? && due.value.writefd !in fds ==> kid.None?
  {
    kid := ChildInput(fds, due, userIn, readfd, client);
    kid := ChildOutput(kid, target, client);
  }

  /**
   A child that is arranged from descriptors where the write end of its input, if it is a pipe, is open at most
   as a part of that input, sees the end of its input.
   */
  lemma ChildSeesEnd(kid: Fds, fds: Fds, due: Option<PipeCounter>, userIn: bool, readfd: int, client: int,
                     target: Target)
    requires ChildReady(fds, due, userIn, readfd, client, target)
    requires Arranged(kid, fds, due, userIn, readfd, client, target) && !fds[client].ReadEnd? && !fds[client].WriteEnd?
    requires kid[0].ReadEnd? ==>
               forall fd :: fd in fds && fds[fd] == WriteEnd(kid[0].obj) ==> fd in InputFds(due, userIn, readfd)
    ensures SeesEnd(kid)
  {
  }
}
