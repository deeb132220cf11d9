/** Logins and logouts in np_project2/np_single_proc.cpp: what they do to the table, its pipes and the descriptors. */
module ServerVisits {
  import opened Descriptors
  import opened NumberedPipes
  import opened Options
  import opened ServerPipes
  import opened ServerTable
  import opened Sessions
  import opened UserPipes

  // ------------------------------------------------------------------ logins and logouts

  /** A login makes nothing but a socket, and the newcomer's rows are empty. */
  lemma EntersAlone(cl: Table, c: Client, fds: Fds, sock: int, conn: nat, u: int)
    requires Shape(cl) && Mirror(cl) && Separate(cl, fds) && Id(u) && !Live(cl, u) && sock !in fds && cl[u].npipes == []
    requires |c.sentFd| == |c.sendFd| == MAX_CLIENTS + 1 && c.npipes == []
    requires forall k :: 0 <= k <= MAX_CLIENTS ==> c.sentFd[k] == -1 && c.sendFd[k] == -1
    ensures Shape(cl[u := c]) && Unowned(cl[u := c], fds[sock := Socket(conn)]) == Unowned(cl, fds)
    ensures forall s, r :: Id(s) && Id(r) ==>
              Mail(cl[u := c], fds[sock := Socket(conn)], s, r) == if s == u || r == u then None else Mail(cl, fds, s,
                                                                                                           r)
  {
    var cl', fds' := cl[u := c], fds[sock := Socket(conn)];
    forall r, s | Id(r) && Id(s)
      ensures Sent(cl', r, s) > 0 <==> Sent(cl, r, s) > 0
      ensures Sent(cl', r, s) > 0 ==> Sent(cl', r, s) == Sent(cl, r, s) && r != u && s != u
    {
      assert Sent(cl, r, s) > 0 ==> Live(cl, r) && Live(cl, s);
    }
    forall a
      ensures Has(cl', a) == Has(cl, a) && (Has(cl, a) ==> FdOf(cl', a) == FdOf(cl, a))
    {
    }
    UnownedOpened(cl, fds, sock, Socket(conn));
    PlacesSame(cl, cl', fds', fds');
    forall s, r | Id(s) && Id(r)
      ensures Mail(cl', fds', s, r) == if s == u || r == u then None else Mail(cl, fds, s, r)
    {
      if Sent(cl, r, s) > 0 {
        assert Has(cl, UserPipe(r, s));
      }
    }
  }

  /** The descriptors of a user's numbered pipes. */
  function Ends(pipes: seq<PipeCounter>): set<int> {
    (set i | 0 <= i < |pipes| :: pipes[i].readfd) + (set i | 0 <= i < |pipes| :: pipes[i].writefd)
  }

  /** A logout closes the user pipes, and leaves the user's numbered pipes open without a place. */
  lemma CutAlone(cl: Table, cl': Table, fds: Fds, u: int)
    requires Shape(cl) && Mirror(cl) && Separate(cl, fds) && Id(u)
    requires Shape(cl') && Cut(cl, cl', u) && cl'[u].npipes == []
    requires forall v :: Id(v) && v != u ==> cl'[v].npipes == cl[v].npipes
    ensures var fds' := fds - Incident(cl, u, MAX_CLIENTS + 1);
      && Unowned(cl', fds') == Unowned(cl, fds) + Ends(cl[u].npipes)
      && forall s, r :: Id(s) && Id(r) ==>
           Mail(cl', fds', s, r) == if s == u || r == u then None else Mail(cl, fds, s, r)
  {
    var fds' := fds - Incident(cl, u, MAX_CLIENTS + 1);
    PlacesCut(cl, cl', u);
    CutUnowned(cl, cl', fds, fds', u);
    hide Unowned, Incident, Place, Ends;
    forall s, r | Id(s) && Id(r)
      ensures Mail(cl', fds', s, r) == if s == u || r == u then None else Mail(cl, fds, s, r)
    {
      MailCut(cl, cl', fds, u, s, r);
    }
  }

  /** The place belongs to user `u`. */
  predicate Of(a: Ref, u: int) {
    if a.UserPipe? then a.receiver == u || a.sender == u else a.user == u
  }

  lemma PlacesCut(cl: Table, cl': Table, u: int)
    requires Shape(cl) && Id(u) && Shape(cl') && Cut(cl, cl', u) && cl'[u].npipes == []
    requires forall v :: Id(v) && v != u ==> cl'[v].npipes == cl[v].npipes
    ensures forall a :: Has(cl', a) <==> Has(cl, a) && !Of(a, u)
    ensures forall a :: Has(cl', a) ==> FdOf(cl', a) == FdOf(cl, a)
  {
  }

  lemma MailCut(cl: Table, cl': Table, fds: Fds, u: int, s: int, r: int)
    requires Shape(cl) && Mirror(cl) && Separate(cl, fds) && Id(u) && Shape(cl') && Cut(cl, cl', u) && Id(s) && Id(r)
    ensures Mail(cl', fds - Incident(cl, u, MAX_CLIENTS + 1), s, r) == if s == u || r == u then None else Mail(cl,
                                                                                                               fds, s,
                                                                                                               r)
  {
    hide Incident;
    if Sent(cl, r, s) > 0 {
      assert Has(cl, UserPipe(r, s)) && FdOf(cl, UserPipe(r, s)) == Sent(cl, r, s);
      IncidentIs(cl, u, Sent(cl, r, s));
    }
  }

  /** A user pipe to or from `u`, and a numbered pipe of `u`, has the descriptor. */
  ghost predicate OwnUserPipe(cl: Table, u: int, fd: int)
    requires Shape(cl)
  {
    exists a {:trigger Has(cl, a)} :: Has(cl, a) && a.UserPipe? && Of(a, u) && FdOf(cl, a) == fd
  }

  ghost predicate OwnNumberedPipe(cl: Table, u: int, fd: int)
    requires Shape(cl)
  {
    exists a {:trigger Has(cl, a)} :: Has(cl, a) && !a.UserPipe? && Of(a, u) && FdOf(cl, a) == fd
  }

  lemma IncidentIs(cl: Table, u: int, fd: int)
    requires Shape(cl) && Id(u)
    ensures fd in Incident(cl, u, MAX_CLIENTS + 1) <==> OwnUserPipe(cl, u, fd)
  {
    if k :| 1 <= k < MAX_CLIENTS + 1 && Sent(cl, u, k) > 0 && Sent(cl, u, k) == fd {
      assert Has(cl, UserPipe(u, k));
    } else if k :| 1 <= k < MAX_CLIENTS + 1 && Sent(cl, k, u) > 0 && Sent(cl, k, u) == fd {
      assert Has(cl, UserPipe(k, u));
    }
  }

  lemma EndsAre(cl: Table, u: int, fd: int)
    requires Shape(cl) && Id(u)
    ensures fd in Ends(cl[u].npipes) <==> OwnNumberedPipe(cl, u, fd)
  {
    if i :| 0 <= i < |cl[u].npipes| && cl[u].npipes[i].readfd == fd {
      assert Has(cl, PipeRead(u, i));
    } else if i :| 0 <= i < |cl[u].npipes| && cl[u].npipes[i].writefd == fd {
      assert Has(cl, PipeWrite(u, i));
    }
  }

  lemma CutUnowned(cl: Table, cl': Table, fds: Fds, fds': Fds, u: int)
    requires Shape(cl) && Separate(cl, fds) && Id(u) && Shape(cl')
    requires forall a :: Has(cl', a) <==> Has(cl, a) && !Of(a, u)
    requires forall a :: Has(cl', a) ==> FdOf(cl', a) == FdOf(cl, a)
    requires fds' == fds - Incident(cl, u, MAX_CLIENTS + 1)
    ensures Unowned(cl', fds') == Unowned(cl, fds) + Ends(cl[u].npipes)
  {
    hide Incident, Ends, Of;
    forall fd
      ensures fd in Unowned(cl', fds') <==> fd in Unowned(cl, fds) || fd in Ends(cl[u].npipes)
    {
      IncidentIs(cl, u, fd);
      EndsAre(cl, u, fd);
      if a :| Has(cl, a) && FdOf(cl, a) == fd {
        assert Place(cl', fd) <==> !Of(a, u);
      } else {
        assert !Place(cl, fd) && !Place(cl', fd);
      }
    }
  }

  /** Only read ends of pipes are closed with the user pipes. */
  lemma IncidentEnds(cl: Table, fds: Fds, u: int)
    requires Shape(cl) && Separate(cl, fds) && Id(u)
    ensures forall fd :: fd in fds && !fds[fd].ReadEnd? ==> fd !in Incident(cl, u, MAX_CLIENTS + 1)
  {
    forall r, s | Id(r) && Id(s) && Sent(cl, r, s) > 0
      ensures Sent(cl, r, s) in fds && fds[Sent(cl, r, s)].ReadEnd?
    {
      assert Has(cl, UserPipe(r, s));
    }
  }

  /** Closing the socket of a user that has left. */
  lemma SocketClosed(cl: Table, fds: Fds, fdUid: map<int, int>, hist: seq<seq<Tick>>, next: nat, sock: int)
    requires TableOk(cl, fds, fdUid) && Good(cl, fds, hist, next, 0)
    requires sock in fdUid && fdUid[sock] == -1 && (sock in fds ==> fds[sock].Socket?)
    ensures TableOk(cl, fds - {sock}, fdUid) && Good(cl, fds - {sock}, hist, next, 0)
  {
    UnusedDescriptors(cl, fds, fds - {sock}, hist, next, next, 0);
    forall i | Id(i)
      ensures SlotOk(cl, fds - {sock}, fdUid, i)
    {
      assert SlotOk(cl, fds, fdUid, i);
    }
  }

  /** Closing the socket of a user that has left changes no pipe. */
  lemma SocketAlone(cl: Table, fds: Fds, sock: int)
    requires Shape(cl) && Separate(cl, fds) && (sock in fds ==> fds[sock].Socket?)
    ensures Unowned(cl, fds - {sock}) == Unowned(cl, fds) && SameMail(cl, fds, cl, fds - {sock})
  {
    MailStays(cl, cl, fds, fds - {sock});
  }

  // ------------------------------------------------------------------ all is in order before and after

  /** The slot of a new user. */
  function NewClient(uid: int, sock: int, ip: string, port: nat, env: map<string, string>): Client {
    var none := seq(MAX_CLIENTS + 1, i => -1);
    Client(uid, sock, NO_NAME, ip, port, none, none, [], env["PATH" := "bin:."])
  }

  /** A user comes: everything stays in order, and nobody else's pipes are concerned. */
  lemma LoginSound(cl: Table, fds: Fds, fdUid: map<int, int>, hist: seq<seq<Tick>>, next: nat, uid: int, sock: int,
                   conn: nat, ip: string, port: nat)
    requires Sound(cl, fds, fdUid, hist, next, 0, None) && Id(uid) && cl[uid].uid == -1 && sock !in fds
    ensures cl[uid].env == map[]
    ensures var cl', fds' := cl[uid := NewClient(uid, sock, ip, port, cl[uid].env)], fds[sock := Socket(conn)];
      && Sound(cl', fds', fdUid[sock := uid], hist[uid := []], next, 0, None) && Live(cl', uid)
      && cl'[uid].env == map["PATH" := "bin:."] && Unowned(cl', fds') == Unowned(cl, fds)
      && forall s, r :: Id(s) && Id(r) ==>
           Mail(cl', fds', s, r) == if s == uid || r == uid then None else Mail(cl, fds, s, r)
  {
    var c := NewClient(uid, sock, ip, port, cl[uid].env);
    var cl', fds' := cl[uid := c], fds[sock := Socket(conn)];
    assert SlotOk(cl, fds, fdUid, uid) && FreeSlot(cl[uid]);
    EntersAlone(cl, c, fds, sock, conn, uid);
    UnusedDescriptors(cl, fds, fds', hist, next, next, 0);
    Enters(cl, c, fds', hist, next, uid);
    LoginKeepsTable(cl, cl', fds, fds', fdUid, uid, conn);
    SingleStays(fds, fds', next, next);
    hide Mail, Unowned, Good, TableOk, Separate, Mirror;
    MailOfUsers(cl', fds');
    UnwrittenStays(cl, fds, cl', fds', next, None);
  }

  lemma MailOfUsers(cl: Table, fds: Fds)
    requires Shape(cl)
    ensures forall s, r :: !Id(s) || !Id(r) ==> Mail(cl, fds, s, r) == None
  {
  }

  /** The slot of a user that has left. */
  function Freed(c: Client): Client {
    var none := seq(MAX_CLIENTS + 1, i => -1);
    Client(-1, -1, "", "", 0, none, none, [], map[])
  }

  lemma SocketOf(cl: Table, fds: Fds, fdUid: map<int, int>, hist: seq<seq<Tick>>, next: nat, uid: int)
    requires Sound(cl, fds, fdUid, hist, next, 0, None) && Live(cl, uid)
    ensures cl[uid].fd in fds && fds[cl[uid].fd].Socket? && cl[uid].fd in fdUid && fdUid[cl[uid].fd] == uid
    ensures forall fd :: fd in fdUid && fdUid[fd] == uid ==> fd == cl[uid].fd
  {
    assert SlotOk(cl, fds, fdUid, uid);
  }

  lemma SoundParts(cl: Table, fds: Fds, fdUid: map<int, int>, hist: seq<seq<Tick>>, next: nat)
    requires Sound(cl, fds, fdUid, hist, next, 0, None)
    ensures Good(cl, fds, hist, next, 0) && TableOk(cl, fds, fdUid) && Mirror(cl) && Separate(cl, fds)
  {
  }

  lemma ClearedFd(cl: Table, cl1: Table, uid: int)
    requires Shape(cl) && Id(uid) && Clearing(cl, cl1, uid, MAX_CLIENTS + 1)
    ensures Shape(cl1) && cl1[uid].fd == cl[uid].fd
  {
  }

  /** The table as it is set up. */
  lemma StartSound(cl: Table, fdUid: map<int, int>, hist: seq<seq<Tick>>)
    requires Shape(cl) && |hist| == MAX_CLIENTS + 1 && forall fd :: fd in fdUid ==> fdUid[fd] == -1
    requires forall i :: Id(i) ==>
               && FreeSlot(cl[i]) && cl[i].sentFd == cl[i].sendFd
               && forall k :: 0 <= k <= MAX_CLIENTS ==> cl[i].sentFd[k] == -1
    ensures Sound(cl, map[0 := Std, 1 := Std, 2 := Std], fdUid, hist, 0, 0, None)
    ensures Unowned(cl, map[0 := Std, 1 := Std, 2 := Std]) == {}
    ensures forall r, s :: Id(r) && Id(s) ==> Sent(cl, r, s) <= 0
  {
    assert forall r, s :: Id(r) && Id(s) ==> Sent(cl, r, s) == -1 && Send(cl, s, r) == -1;
  }

  /** A table whose user pipes to and from `uid` have been cleared, and then the slot. */
  lemma FreedIsCut(cl: Table, cl1: Table, uid: int)
    requires Shape(cl) && Id(uid) && Clearing(cl, cl1, uid, MAX_CLIENTS + 1)
    ensures var cl' := cl1[uid := Freed(cl1[uid])];
      && Shape(cl') && FreeSlot(cl'[uid]) && Cut(cl, cl', uid)
      && forall v :: Id(v) && v != uid ==> cl'[v] == cl[v].(sentFd := cl'[v].sentFd, sendFd := cl'[v].sendFd)
  {
  }

  /**
   A user leaves: everything stays in order, its user pipes are closed, and its numbered pipes stay open without
   a place in the table.
   */
  lemma LogoutSound(cl: Table, cl1: Table, fds: Fds, fdUid: map<int, int>, hist: seq<seq<Tick>>, next: nat, uid: int)
    requires Sound(cl, fds, fdUid, hist, next, 0, None) && Live(cl, uid) && Clearing(cl, cl1, uid, MAX_CLIENTS + 1)
    ensures var cl', fds' := cl1[uid := Freed(cl1[uid])], fds - Incident(cl, uid, MAX_CLIENTS + 1);
      && Sound(cl', fds', fdUid[cl[uid].fd := -1], hist, next, 0, None) && FreeSlot(cl'[uid])
      && Unowned(cl', fds') == Unowned(cl, fds) + Ends(cl[uid].npipes)
      && (forall v :: Id(v) && v != uid ==> cl'[v] == cl[v].(sentFd := cl'[v].sentFd, sendFd := cl'[v].sendFd))
      && (forall fd :: fd in fds && fds[fd].Socket? ==> fd in fds' && fds'[fd] == fds[fd])
      && forall s, r :: Id(s) && Id(r) ==>
           Mail(cl', fds', s, r) == if s == uid || r == uid then None else Mail(cl, fds, s, r)
  {
    var cl', fds' := cl1[uid := Freed(cl1[uid])], fds - Incident(cl, uid, MAX_CLIENTS + 1);
    FreedIsCut(cl, cl1, uid);
    Leaves(cl, cl', fds, hist, next, uid);
    CutAlone(cl, cl', fds, uid);
    IncidentEnds(cl, fds, uid);
    LogoutKeepsTable(cl, cl', fds, fds', fdUid, uid);
    SingleStays(fds, fds', next, next);
    hide Mail, Unowned, Good, TableOk, Separate, Mirror, Cut, Clearing, Incident, Ends, Freed;
    MailOfUsers(cl', fds');
    UnwrittenStays(cl, fds, cl', fds', next, None);
  }

  /** The socket of a user that has left is closed. */
  lemma CloseSocketSound(cl: Table, fds: Fds, fdUid: map<int, int>, hist: seq<seq<Tick>>, next: nat, sock: int)
    requires Sound(cl, fds, fdUid, hist, next, 0, None)
    requires sock in fdUid && fdUid[sock] == -1 && (sock in fds ==> fds[sock].Socket?)
    ensures Sound(cl, fds - {sock}, fdUid, hist, next, 0, None)
    ensures Unowned(cl, fds - {sock}) == Unowned(cl, fds) && SameMail(cl, fds, cl, fds - {sock})
  {
    SocketClosed(cl, fds, fdUid, hist, next, sock);
    SocketAlone(cl, fds, sock);
    SingleStays(fds, fds - {sock}, next, next);
    hide Mail, Unowned, Good, TableOk;
    UnwrittenStays(cl, fds, cl, fds - {sock}, next, None);
  }

  /** A user's numbered pipes have two descriptors each, and all of them a place. */
  lemma EndsCount(cl: Table, fds: Fds, uid: int)
    requires Shape(cl) && Separate(cl, fds) && Id(uid)
    ensures |Ends(cl[uid].npipes)| == 2 * |cl[uid].npipes| && Ends(cl[uid].npipes) !! Unowned(cl, fds)
  {
    OwnEndsApart(cl, fds, uid);
    EndsSize(cl[uid].npipes);
    forall fd | fd in Ends(cl[uid].npipes)
      ensures fd !in Unowned(cl, fds)
    {
      EndsAre(cl, uid, fd);
      var a :| Has(cl, a) && !a.UserPipe? && Of(a, uid) && FdOf(cl, a) == fd;
      assert Place(cl, fd);
    }
  }

  lemma OwnEndsApart(cl: Table, fds: Fds, uid: int)
    requires Shape(cl) && Separate(cl, fds) && Id(uid)
    ensures EndsApart(cl[uid].npipes)
  {
    var pipes := cl[uid].npipes;
    forall i, j | 0 <= i < |pipes| && 0 <= j < |pipes|
      ensures pipes[i].readfd != pipes[j].writefd
      ensures i != j ==> pipes[i].readfd != pipes[j].readfd && pipes[i].writefd != pipes[j].writefd
    {
      assert Has(cl, PipeRead(uid, i)) && Has(cl, PipeWrite(uid, j));
      assert Has(cl, PipeRead(uid, j)) && Has(cl, PipeWrite(uid, i));
    }
  }

  lemma EndsMore(pipes: seq<PipeCounter>, n: nat)
    requires |pipes| == n + 1
    ensures Ends(pipes) == Ends(pipes[..n]) + {pipes[n].readfd, pipes[n].writefd}
  {
    var rest := pipes[..n];
    forall fd
      ensures fd in Ends(pipes) ==> fd in Ends(rest) + {pipes[n].readfd, pipes[n].writefd}
    {
      if i :| 0 <= i < |pipes| && (pipes[i].readfd == fd || pipes[i].writefd == fd) {
        assert i < n ==> rest[i] == pipes[i];
      }
    }
    forall fd
      ensures fd in Ends(rest) ==> fd in Ends(pipes)
    {
      if i :| 0 <= i < n && (rest[i].readfd == fd || rest[i].writefd == fd) {
        assert pipes[i] == rest[i];
      }
    }
  }

  /** No two of the pipes' descriptors are the same. */
  ghost predicate EndsApart(pipes: seq<PipeCounter>) {
    && (forall i, j :: 0 <= i < |pipes| && 0 <= j < |pipes| ==> pipes[i].readfd != pipes[j].writefd)
    && (forall i,
        j :: 0 <= i < j < |pipes| ==> pipes[i].readfd != pipes[j].readfd && pipes[i].writefd != pipes[j].writefd)
  }

  lemma LastEnds(pipes: seq<PipeCounter>, n: nat)
    requires |pipes| == n + 1 && EndsApart(pipes)
    ensures EndsApart(pipes[..n]) && pipes[n].readfd != pipes[n].writefd
    ensures pipes[n].readfd !in Ends(pipes[..n]) && pipes[n].writefd !in Ends(pipes[..n])
  {
    assert forall k :: 0 <= k < n ==> pipes[..n][k] == pipes[k];
  }

  lemma {:induction false} EndsSize(pipes: seq<PipeCounter>)
    requires EndsApart(pipes)
    ensures |Ends(pipes)| == 2 * |pipes|
  {
    assert pipes == [] ==> Ends(pipes) == {};
    hide Ends, EndsApart;
    if pipes != [] {
      var n := |pipes| - 1;
      LastEnds(pipes, n);
      EndsSize(pipes[..n]);
      EndsMore(pipes, n);
    }
  }
}
