/**
 The pipes of np_project2/np_single_proc.cpp among its descriptors: what waits between two users, and which
 descriptors are open without a place in the table.
 */
module ServerPipes {
  import opened Descriptors
  import opened NumberedPipes
  import opened Options
  import opened ServerTable
  import opened Sessions
  import opened UserPipes

  // ------------------------------------------------------------------ what waits between users

  /** The user pipe from `s` to `r` in the table: the pipe the reader will read. */
  function Mail(cl: Table, fds: Fds, s: int, r: int): Option<nat>
    requires Shape(cl)
  {
    if Id(r) && Id(s) && Sent(cl, r, s) > 0 && Sent(cl, r, s) in fds && fds[Sent(cl, r, s)].ReadEnd?
    then Some(fds[Sent(cl, r, s)].obj) else None
  }

  ghost predicate SameMail(cl: Table, fds: Fds, cl': Table, fds': Fds)
    requires Shape(cl) && Shape(cl')
  {
    forall s, r :: Mail(cl', fds', s, r) == Mail(cl, fds, s, r)
  }

  lemma MailStays(cl: Table, cl': Table, fds: Fds, fds': Fds)
    requires Shape(cl) && Shape(cl') && Separate(cl, fds)
    requires forall r, s :: Id(r) && Id(s) ==> Sent(cl', r, s) == Sent(cl, r, s)
    requires forall a {:trigger Has(cl, a)} :: Has(cl, a) && a.UserPipe? ==>
               FdOf(cl, a) in fds' && fds'[FdOf(cl, a)] == fds[FdOf(cl, a)]
    ensures SameMail(cl, fds, cl', fds')
  {
    forall s, r
      ensures Mail(cl', fds', s, r) == Mail(cl, fds, s, r)
    {
      if Id(r) && Id(s) && Sent(cl, r, s) > 0 {
        assert Has(cl, UserPipe(r, s));
      }
    }
  }

  /** All user pipes are as before, but for the one that is sent. */
  ghost predicate MailSent(cl: Table, fds: Fds, cl': Table, fds': Fds, uid: int, sent: bool, to: int, obj: nat)
    requires Shape(cl) && Shape(cl')
  {
    forall s, r :: Mail(cl', fds', s, r) == if sent && s == uid && r == to then Some(obj) else Mail(cl, fds, s, r)
  }

  lemma PipesMail(cl: Table, fds: Fds, fds': Fds, u: int, pipes: seq<PipeCounter>)
    requires Shape(cl) && Separate(cl, fds) && Id(u)
    requires forall fd :: fd in fds ==> fd in fds' && fds'[fd] == fds[fd]
    ensures SameMail(cl, fds, SetPipes(cl, u, pipes), fds')
  {
    var cl' := SetPipes(cl, u, pipes);
    forall r, s | Id(r) && Id(s)
      ensures Sent(cl', r, s) == Sent(cl, r, s)
    {
    }
    MailStays(cl, cl', fds, fds');
  }

  lemma SentMail(cl: Table, cl': Table, fds: Fds, fds': Fds, s: int, r: int, next: nat, wr: int)
    requires Shape(cl) && Separate(cl, fds) && Id(s) && Id(r) && wr !in fds
    requires exists rd {:trigger SetSent(cl, r, s, rd)} :: rd !in fds && rd > 0 && rd != wr &&
               cl' == SetSend(SetSent(cl, r, s, rd), s, r, wr) && fds' == fds[rd := ReadEnd(next)][wr := WriteEnd(next)]
    ensures MailSent(cl, fds, cl', fds', s, true, r, next)
  {
    forall s', r'
      ensures Mail(cl', fds', s', r') == if s' == s && r' == r then Some(next) else Mail(cl, fds, s', r')
    {
      if Id(r') && Id(s') && Sent(cl, r', s') > 0 {
        assert Has(cl, UserPipe(r', s'));
      }
    }
  }

  // ------------------------------------------------------------------ descriptors without a place

  /** Some place of the table has the descriptor. */
  ghost predicate Place(cl: Table, fd: int)
    requires Shape(cl)
  {
    exists a {:trigger Has(cl, a)} :: Has(cl, a) && FdOf(cl, a) == fd
  }

  /** The pipe ends and files that are open without a place in the table: those that a command works with, and leaks. */
  ghost function Unowned(cl: Table, fds: Fds): set<int>
    requires Shape(cl)
  {
    set fd | fd in fds && !fds[fd].Std? && !fds[fd].Socket? && !Place(cl, fd)
  }

  lemma PlacesSame(cl: Table, cl': Table, fds: Fds, fds': Fds)
    requires Shape(cl) && Shape(cl')
    requires forall fd :: Place(cl', fd) <==> Place(cl, fd)
    requires forall fd :: (fd in fds' && !fds'[fd].Std? && !fds'[fd].Socket? && !Place(cl, fd)) <==>
                          (fd in fds && !fds[fd].Std? && !fds[fd].Socket? && !Place(cl, fd))
    ensures Unowned(cl', fds') == Unowned(cl, fds)
  {
  }

  /** The table has the same descriptors if every user has the same matrices and pipes with the same ends. */
  lemma UnownedKept(cl: Table, cl': Table, fds: Fds)
    requires Shape(cl) && Shape(cl')
    requires forall v :: 0 <= v < |cl| ==>
               && cl'[v].sentFd == cl[v].sentFd && |cl'[v].npipes| == |cl[v].npipes|
               && forall i :: 0 <= i < |cl[v].npipes| ==>
                    && cl'[v].npipes[i].readfd == cl[v].npipes[i].readfd
                    && cl'[v].npipes[i].writefd == cl[v].npipes[i].writefd
    ensures Unowned(cl', fds) == Unowned(cl, fds)
  {
    forall a
      ensures Has(cl', a) == Has(cl, a) && (Has(cl, a) ==> FdOf(cl', a) == FdOf(cl, a))
    {
    }
    PlacesSame(cl, cl', fds, fds);
  }

  lemma UnownedOpened(cl: Table, fds: Fds, fd: int, e: End)
    requires Shape(cl) && Separate(cl, fds) && fd !in fds
    ensures Unowned(cl, fds[fd := e]) == Unowned(cl, fds) + if e.Std? || e.Socket? then {} else {fd}
  {
    assert !Place(cl, fd);
  }

  lemma UnownedClosed(cl: Table, fds: Fds, fd: int)
    requires Shape(cl) && fd in Unowned(cl, fds)
    ensures Unowned(cl, fds - {fd}) == Unowned(cl, fds) - {fd}
  {
  }

  lemma NotPlaced(cl: Table, fds: Fds, fd: int)
    requires Shape(cl) && fd in Unowned(cl, fds)
    ensures fd in fds && !fds[fd].Std? && !fds[fd].Socket?
    ensures forall a {:trigger Has(cl, a)} :: Has(cl, a) ==> FdOf(cl, a) != fd
  {
  }

  /** A taken user pipe is the command's own. */
  lemma UnownedTaken(cl: Table, fds: Fds, r: int, s: int)
    requires Shape(cl) && Separate(cl, fds) && Has(cl, UserPipe(r, s))
    ensures Unowned(SetSend(SetSent(cl, r, s, -1), s, r, -1), fds) == Unowned(cl, fds) + {Sent(cl, r, s)}
  {
    var cl' := SetSend(SetSent(cl, r, s, -1), s, r, -1);
    forall a
      ensures Has(cl', a) <==> Has(cl, a) && a != UserPipe(r, s)
      ensures Has(cl', a) ==> FdOf(cl', a) == FdOf(cl, a)
    {
    }
    assert FdOf(cl, UserPipe(r, s)) == Sent(cl, r, s);
    assert forall fd :: Place(cl', fd) <==> Place(cl, fd) && fd != Sent(cl, r, s);
  }

  /** Of a new user pipe the read end has its place; the write end is the command's own. */
  lemma UnownedSent(cl: Table, fds: Fds, s: int, r: int, rd: int, wr: int, next: nat)
    requires Shape(cl) && Separate(cl, fds) && Id(s) && Id(r) && Sent(cl, r, s) <= 0
    requires rd !in fds && wr !in fds && rd != wr && rd > 0
    ensures Unowned(SetSend(SetSent(cl, r, s, rd), s, r, wr), fds[rd := ReadEnd(next)][wr := WriteEnd(next)]) ==
            Unowned(cl, fds) + {wr}
  {
    var cl' := SetSend(SetSent(cl, r, s, rd), s, r, wr);
    forall a
      ensures Has(cl', a) <==> Has(cl, a) || a == UserPipe(r, s)
      ensures Has(cl', a) ==> FdOf(cl', a) == if a == UserPipe(r, s) then rd else FdOf(cl, a)
    {
    }
    assert Has(cl', UserPipe(r, s));
    assert forall fd :: Place(cl', fd) <==> Place(cl, fd) || fd == rd;
    assert !Place(cl, wr);
  }

  /** A new numbered pipe has its places. */
  lemma UnownedPushed(cl: Table, fds: Fds, u: int, p: PipeCounter, next: nat)
    requires Shape(cl) && Separate(cl, fds) && Id(u)
    requires p.readfd !in fds && p.writefd !in fds && p.readfd != p.writefd
    ensures Unowned(SetPipes(cl, u, cl[u].npipes + [p]), fds[p.readfd := ReadEnd(next)][p.writefd := WriteEnd(next)]) ==
            Unowned(cl, fds)
  {
    var n := |cl[u].npipes|;
    var cl' := SetPipes(cl, u, cl[u].npipes + [p]);
    var fds' := fds[p.readfd := ReadEnd(next)][p.writefd := WriteEnd(next)];
    forall r, s | Id(r) && Id(s)
      ensures Sent(cl', r, s) == Sent(cl, r, s)
    {
    }
    forall a
      ensures Has(cl', a) <==> Has(cl, a) || a == PipeRead(u, n) || a == PipeWrite(u, n)
      ensures Has(cl, a) ==> FdOf(cl', a) == FdOf(cl, a)
    {
    }
    assert Has(cl', PipeRead(u, n)) && FdOf(cl', PipeRead(u, n)) == p.readfd;
    assert Has(cl', PipeWrite(u, n)) && FdOf(cl', PipeWrite(u, n)) == p.writefd;
    assert forall fd :: Place(cl', fd) <==> Place(cl, fd) || fd == p.readfd || fd == p.writefd;
  }

  /** An erased numbered pipe is closed. */
  lemma UnownedErased(cl: Table, fds: Fds, u: int, i: nat)
    requires Shape(cl) && Separate(cl, fds) && Id(u) && i < |cl[u].npipes|
    ensures var p := cl[u].npipes[i];
      Unowned(SetPipes(cl, u, Without(cl[u].npipes, i)), fds - {p.readfd, p.writefd}) == Unowned(cl, fds)
  {
    var p := cl[u].npipes[i];
    var cl' := SetPipes(cl, u, Without(cl[u].npipes, i));
    forall r, s | Id(r) && Id(s)
      ensures Sent(cl', r, s) == Sent(cl, r, s)
    {
    }
    forall a | Has(cl', a)
      ensures Has(cl, Shifted(a, u, i)) && FdOf(cl', a) == FdOf(cl, Shifted(a, u, i))
    {
    }
    forall a | Has(cl, a) && FdOf(cl, a) != p.readfd && FdOf(cl, a) != p.writefd
      ensures Place(cl', FdOf(cl, a))
    {
      StillPlaced(cl, u, i, a);
    }
    assert Has(cl, PipeRead(u, i)) && Has(cl, PipeWrite(u, i));
  }

  lemma StillPlaced(cl: Table, u: int, i: nat, a: Ref)
    requires Shape(cl) && Id(u) && i < |cl[u].npipes| && Has(cl, a) && a != PipeRead(u, i) && a != PipeWrite(u, i)
    ensures Place(SetPipes(cl, u, Without(cl[u].npipes, i)), FdOf(cl, a))
  {
    var cl' := SetPipes(cl, u, Without(cl[u].npipes, i));
    var b := match a
      case UserPipe(r, s) => a
      case PipeRead(v, k) => if v == u && k > i then PipeRead(v, k - 1) else a
      case PipeWrite(v, k) => if v == u && k > i then PipeWrite(v, k - 1) else a;
    if !a.UserPipe? && a.user == u {
      WithoutKeeps(cl[u].npipes, i, a.index);
    } else if a.UserPipe? {
      assert Sent(cl', a.receiver, a.sender) == Sent(cl, a.receiver, a.sender);
    }
    assert Has(cl', b) && FdOf(cl', b) == FdOf(cl, a);
  }

  // ------------------------------------------------------------------ pipe ends

  /** Every end of a pipe has at most one descriptor, and only pipes below `next` have been made. */
  ghost predicate Single(fds: Fds, next: nat) {
    forall fd {:trigger IsPipeEnd(fds[fd])} :: fd in fds && IsPipeEnd(fds[fd]) ==>
      fds[fd].obj < next && forall fd' :: fd' in fds && fds[fd'] == fds[fd] ==> fd' == fd
  }

  /** The server holds no write end of what waits for a user, except by the descriptor `held`. */
  ghost predicate Unwritten(cl: Table, fds: Fds, held: Option<int>)
    requires Shape(cl)
  {
    forall s, r, fd {:trigger Mail(cl, fds, s, r), fds[fd]} ::
      fd in fds && held != Some(fd) && Mail(cl, fds, s, r).Some? ==> fds[fd] != WriteEnd(Mail(cl, fds, s, r).value)
  }

  lemma SingleStays(fds: Fds, fds': Fds, next: nat, next': nat)
    requires Single(fds, next) && next <= next'
    requires forall fd :: fd in fds' && IsPipeEnd(fds'[fd]) ==> fd in fds && fds'[fd] == fds[fd]
    ensures Single(fds', next')
  {
    forall fd | fd in fds' && IsPipeEnd(fds'[fd])
      ensures fds'[fd].obj < next' && forall fd' :: fd' in fds' && fds'[fd'] == fds'[fd] ==> fd' == fd
    {
      assert IsPipeEnd(fds[fd]);
    }
  }

  lemma SinglePipe(fds: Fds, next: nat, r: int, w: int)
    requires Single(fds, next) && r !in fds && w !in fds && r != w
    ensures Single(fds[r := ReadEnd(next)][w := WriteEnd(next)], next + 1)
  {
    var fds' := fds[r := ReadEnd(next)][w := WriteEnd(next)];
    forall fd | fd in fds' && IsPipeEnd(fds'[fd])
      ensures fds'[fd].obj < next + 1 && forall fd' :: fd' in fds' && fds'[fd'] == fds'[fd] ==> fd' == fd
    {
      assert fd in fds ==> IsPipeEnd(fds[fd]);
      forall fd' | fd' in fds' && fds'[fd'] == fds'[fd]
        ensures fd' == fd
      {
        assert fd' in fds ==> IsPipeEnd(fds[fd']);
      }
    }
  }

  lemma MailBelow(cl: Table, fds: Fds, next: nat, s: int, r: int)
    requires Shape(cl) && Single(fds, next) && Mail(cl, fds, s, r).Some?
    ensures Mail(cl, fds, s, r).value < next
  {
    assert IsPipeEnd(fds[Sent(cl, r, s)]);
  }

  /** New descriptors that are no write ends of earlier pipes do no harm. */
  lemma UnwrittenStays(cl: Table, fds: Fds, cl': Table, fds': Fds, next: nat, held: Option<int>)
    requires Shape(cl) && Shape(cl') && Single(fds, next) && Unwritten(cl, fds, held)
    requires forall fd :: fd in fds' && fds'[fd].WriteEnd? ==>
               (fd in fds && fds'[fd] == fds[fd]) || fds'[fd].obj >= next
    requires forall s, r :: Mail(cl', fds', s, r).None? || Mail(cl', fds', s, r) == Mail(cl, fds, s, r)
    ensures Unwritten(cl', fds', held)
  {
    forall s, r, fd | fd in fds' && held != Some(fd) && Mail(cl', fds', s, r).Some?
      ensures fds'[fd] != WriteEnd(Mail(cl', fds', s, r).value)
    {
      MailBelow(cl, fds, next, s, r);
    }
  }

  /** Of a new user pipe the server holds the write end until it closes it. */
  lemma UnwrittenSent(cl: Table, fds: Fds, cl': Table, fds': Fds, next: nat, s: int, r: int, rd: int, w: int)
    requires Shape(cl) && Shape(cl') && Single(fds, next) && Unwritten(cl, fds, None)
    requires fds' == fds[rd := ReadEnd(next)][w := WriteEnd(next)] && MailSent(cl, fds, cl', fds', s, true, r, next)
    ensures Unwritten(cl', fds', Some(w))
  {
    hide Mail;
    forall s', r', fd | fd in fds' && fd != w && Mail(cl', fds', s', r').Some?
      ensures fds'[fd] != WriteEnd(Mail(cl', fds', s', r').value)
    {
      if fds'[fd].WriteEnd? {
        assert fd in fds && IsPipeEnd(fds[fd]);
        assert Mail(cl, fds, s', r').Some? ==> fds[fd] != WriteEnd(Mail(cl, fds, s', r').value);
      }
    }
  }

  lemma UnwrittenClosed(cl: Table, fds: Fds, w: int)
    requires Shape(cl) && Unwritten(cl, fds, Some(w)) && SameMail(cl, fds, cl, fds - {w})
    ensures Unwritten(cl, fds - {w}, None)
  {
    hide Mail;
    forall s, r, fd | fd in fds - {w} && Mail(cl, fds - {w}, s, r).Some?
      ensures (fds - {w})[fd] != WriteEnd(Mail(cl, fds - {w}, s, r).value)
    {
      assert Mail(cl, fds, s, r).Some?;
    }
  }

  /** All that the server keeps in order; user `busy`, if any, is in the middle of a command. */
  ghost predicate Sound(cl: Table, fds: Fds, fdUid: map<int, int>, hist: seq<seq<Tick>>, next: nat, busy: int,
                        held: Option<int>) {
    && Shape(cl) && Terminal(fds) && TableOk(cl, fds, fdUid) && Good(cl, fds, hist, next, busy)
    && Single(fds, next) && Unwritten(cl, fds, held)
  }

  /** What erasing a numbered pipe leaves alone. */
  lemma EraseFrame(cl: Table, fds: Fds, fdUid: map<int, int>, u: int, i: nat)
    requires TableOk(cl, fds, fdUid) && Separate(cl, fds) && Terminal(fds) && Live(cl, u) && i < |cl[u].npipes|
    ensures var cl' := SetPipes(cl, u, Without(cl[u].npipes, i));
            var fds' := fds - {cl[u].npipes[i].readfd, cl[u].npipes[i].writefd};
            TableOk(cl', fds', fdUid) && Terminal(fds') && SameMail(cl, fds, cl', fds')
  {
    var cl' := SetPipes(cl, u, Without(cl[u].npipes, i));
    var fds' := fds - {cl[u].npipes[i].readfd, cl[u].npipes[i].writefd};
    assert Has(cl, PipeRead(u, i)) && Has(cl, PipeWrite(u, i));
    TableFrame(cl, fds, fdUid, cl', fds');
    forall a | Has(cl', a)
      ensures Has(cl, Shifted(a, u, i)) && FdOf(cl', a) == FdOf(cl, Shifted(a, u, i))
    {
    }
    forall r, s | Id(r) && Id(s)
      ensures Sent(cl', r, s) == Sent(cl, r, s)
    {
    }
    MailStays(cl, cl', fds, fds');
  }
}
