/**
 The client table of np_project2/np_single_proc.cpp: for every user the user pipes it can read and has
 sent, and its numbered pipes. All of it is kept in one table, changed by every user's commands.
 */
module UserPipes {
  import opened Descriptors
  import opened Options
  import opened NumberedPipes
  import opened Sessions

  /** `sentFd[s]` is the pipe from user `s`, `sendFd[r]` the one to user `r`; -1 when there is none. */
  datatype Client = Client(uid: int, fd: int, nickname: string, ip: string, port: nat,
                           sentFd: seq<int>, sendFd: seq<int>, npipes: seq<PipeCounter>, env: map<string, string>)

  type Table = seq<Client>

  /** Entry 0 of the table and of its rows is not used. */
  predicate Shape(cl: Table) {
    && |cl| == MAX_CLIENTS + 1
    && forall i :: 0 <= i < |cl| ==> |cl[i].sentFd| == MAX_CLIENTS + 1 && |cl[i].sendFd| == MAX_CLIENTS + 1
  }

  predicate Live(cl: Table, i: int)
    requires Shape(cl)
  {
    Id(i) && cl[i].uid > 0
  }

  function Sent(cl: Table, r: int, s: int): int
    requires Shape(cl) && Id(r) && Id(s)
  {
    cl[r].sentFd[s]
  }

  function Send(cl: Table, s: int, r: int): int
    requires Shape(cl) && Id(r) && Id(s)
  {
    cl[s].sendFd[r]
  }

  function SetSent(cl: Table, r: int, s: int, fd: int): (cl': Table)
    requires Shape(cl) && Id(r) && Id(s)
    ensures Shape(cl')
    ensures forall i, j | Id(i) && Id(j) :: Sent(cl', i, j) == if i == r && j == s then fd else Sent(cl, i, j)
    ensures forall i, j | Id(i) && Id(j) :: Send(cl', i, j) == Send(cl, i, j)
    ensures forall i :: 0 <= i < |cl| ==> cl'[i] == cl[i].(sentFd := cl'[i].sentFd)
  {
    cl[r := cl[r].(sentFd := cl[r].sentFd[s := fd])]
  }

  function SetSend(cl: Table, s: int, r: int, fd: int): (cl': Table)
    requires Shape(cl) && Id(r) && Id(s)
    ensures Shape(cl')
    ensures forall i, j | Id(i) && Id(j) :: Send(cl', i, j) == if i == s && j == r then fd else Send(cl, i, j)
    ensures forall i, j | Id(i) && Id(j) :: Sent(cl', i, j) == Sent(cl, i, j)
    ensures forall i :: 0 <= i < |cl| ==> cl'[i] == cl[i].(sendFd := cl'[i].sendFd)
  {
    cl[s := cl[s].(sendFd := cl[s].sendFd[r := fd])]
  }

  function SetPipes(cl: Table, i: int, pipes: seq<PipeCounter>): (cl': Table)
    requires Shape(cl) && Id(i)
    ensures Shape(cl')
    ensures forall k :: 0 <= k < |cl| ==> cl'[k] == if k == i then cl[k].(npipes := pipes) else cl[k]
  {
    cl[i := cl[i].(npipes := pipes)]
  }

  // ------------------------------------------------------------------ user pipes

  /** Both matrices say the same, and only about users that are logged in. */
  ghost predicate Mirror(cl: Table)
    requires Shape(cl)
  {
    forall r, s {:trigger Sent(cl, r, s)} {:trigger Send(cl, s, r)} :: Id(r) && Id(s) ==>
      && (Sent(cl, r, s) > 0 <==> Send(cl, s, r) > 0)
      && (Sent(cl, r, s) > 0 ==> Live(cl, r) && Live(cl, s))
  }

  // ------------------------------------------------------------------ who uses which descriptor

  /** A place in the table that holds a descriptor the server will use again. */
  datatype Ref = UserPipe(receiver: int, sender: int) | PipeRead(user: int, index: int) | PipeWrite(user: int,
                                                                                                    index: int)

  predicate Has(cl: Table, ref: Ref)
    requires Shape(cl)
  {
    match ref
    case UserPipe(r, s) => Id(r) && Id(s) && Sent(cl, r, s) > 0
    case PipeRead(u, i) => Id(u) && 0 <= i < |cl[u].npipes|
    case PipeWrite(u, i) => Id(u) && 0 <= i < |cl[u].npipes|
  }

  function FdOf(cl: Table, ref: Ref): int
    requires Shape(cl) && Has(cl, ref)
  {
    match ref
    case UserPipe(r, s) => Sent(cl, r, s)
    case PipeRead(u, i) => cl[u].npipes[i].readfd
    case PipeWrite(u, i) => cl[u].npipes[i].writefd
  }

  /** Every descriptor in the table is the open end of a pipe, and no two places share one. */
  ghost predicate Separate(cl: Table, fds: Fds)
    requires Shape(cl)
  {
    && (forall a {:trigger Has(cl, a)} :: Has(cl, a) ==>
          FdOf(cl, a) in fds && (if a.PipeWrite? then fds[FdOf(cl, a)].WriteEnd? else fds[FdOf(cl, a)].ReadEnd?))
    && (forall a, b {:trigger Has(cl, a), Has(cl, b)} ::
          Has(cl, a) && Has(cl, b) && FdOf(cl, a) == FdOf(cl, b) ==> a == b)
  }

  /** The numbered pipes of every user are a correct account of that user's commands. */
  ghost predicate Scheduled(cl: Table, fds: Fds, hist: seq<seq<Tick>>, next: nat, busy: int)
    requires Shape(cl)
  {
    && |hist| == MAX_CLIENTS + 1
    && forall u {:trigger OnTime(cl, fds, hist, next, busy, u)} :: Live(cl, u) ==> OnTime(cl, fds, hist, next, busy, u)
  }

  /** User `busy`, if any, is in the middle of a command. */
  ghost predicate OnTime(cl: Table, fds: Fds, hist: seq<seq<Tick>>, next: nat, busy: int, u: int)
    requires Shape(cl) && |hist| == MAX_CLIENTS + 1 && Id(u)
  {
    Tracks(cl[u].npipes, fds, hist[u], if u == busy then |hist[u]| else |hist[u]| - 1, next)
  }

  ghost predicate Good(cl: Table, fds: Fds, hist: seq<seq<Tick>>, next: nat, busy: int) {
    Shape(cl) && Mirror(cl) && Separate(cl, fds) && Scheduled(cl, fds, hist, next, busy)
  }

  // ------------------------------------------------------------------ steps

  /** A step that concerns the numbered pipes of user `u` only. */
  lemma Update(cl: Table, fds: Fds, hist: seq<seq<Tick>>, next: nat, busy: int,
               cl': Table, fds': Fds, hist': seq<seq<Tick>>, next': nat, busy': int, u: int)
    requires Good(cl, fds, hist, next, busy) && Id(u) && next <= next'
    requires Shape(cl') && Mirror(cl') && Separate(cl', fds') && |hist'| == |hist|
    requires busy in {0, u} && busy' in {0, u}
    requires forall v :: Id(v) && v != u ==>
               cl'[v].uid == cl[v].uid && cl'[v].npipes == cl[v].npipes && hist'[v] == hist[v]
    requires forall a {:trigger Has(cl, a)} :: Has(cl, a) && !a.UserPipe? && a.user != u ==>
               FdOf(cl, a) in fds' && fds'[FdOf(cl, a)] == fds[FdOf(cl, a)]
    requires Live(cl', u) ==> OnTime(cl', fds', hist', next', busy', u)
    ensures Good(cl', fds', hist', next', busy')
  {
    forall v | Live(cl', v) && v != u
      ensures OnTime(cl', fds', hist', next', busy', v)
    {
      assert OnTime(cl, fds, hist, next, busy, v);
      forall i | 0 <= i < |cl[v].npipes|
        ensures OpenPipe(cl[v].npipes[i], fds') && Obj(cl[v].npipes[i], fds') == Obj(cl[v].npipes[i], fds)
      {
        assert Has(cl, PipeRead(v, i)) && Has(cl, PipeWrite(v, i));
      }
      OtherDescriptors(cl[v].npipes, fds, fds', hist[v], |hist[v]| - 1, next, next');
    }
  }

  /** Descriptors that no place refers to may come and go. */
  lemma UnusedDescriptors(cl: Table, fds: Fds, fds': Fds, hist: seq<seq<Tick>>, next: nat, next': nat, busy: int)
    requires Good(cl, fds, hist, next, busy) && next <= next'
    requires forall a {:trigger Has(cl, a)} :: Has(cl, a) ==> FdOf(cl, a) in fds' && fds'[FdOf(cl, a)] == fds[FdOf(cl,
                                                                                                                   a)]
    ensures Good(cl, fds', hist, next', busy)
  {
    forall u | Live(cl, u)
      ensures OnTime(cl, fds', hist, next', busy, u)
    {
      assert OnTime(cl, fds, hist, next, busy, u);
      forall i | 0 <= i < |cl[u].npipes|
        ensures OpenPipe(cl[u].npipes[i], fds') && Obj(cl[u].npipes[i], fds') == Obj(cl[u].npipes[i], fds)
      {
        assert Has(cl, PipeRead(u, i)) && Has(cl, PipeWrite(u, i));
      }
      OtherDescriptors(cl[u].npipes, fds, fds', hist[u], if u == busy then |hist[u]| else |hist[u]| - 1, next, next');
    }
  }

  /** Only the places matter: names, addresses and environments do not. */
  lemma SamePlaces(cl: Table, cl': Table, fds: Fds, hist: seq<seq<Tick>>, next: nat, busy: int)
    requires Good(cl, fds, hist, next, busy) && Shape(cl')
    requires forall v :: 0 <= v < |cl| ==>
               && cl'[v].uid == cl[v].uid && cl'[v].npipes == cl[v].npipes
               && cl'[v].sentFd == cl[v].sentFd && cl'[v].sendFd == cl[v].sendFd
    ensures Good(cl', fds, hist, next, busy)
  {
    forall a | Has(cl', a)
      ensures Has(cl, a) && FdOf(cl', a) == FdOf(cl, a)
    {
    }
    forall r, s | Id(r) && Id(s)
      ensures Sent(cl', r, s) == Sent(cl, r, s) && Send(cl', r, s) == Send(cl, r, s)
    {
    }
    forall u | Live(cl', u)
      ensures OnTime(cl', fds, hist, next, busy, u)
    {
      assert OnTime(cl, fds, hist, next, busy, u);
    }
  }

  /** A command of user `u` begins. */
  lemma Ticks(cl: Table, ticked: seq<PipeCounter>, fds: Fds, hist: seq<seq<Tick>>, next: nat, u: int)
    requires Good(cl, fds, hist, next, 0) && Live(cl, u)
    requires |ticked| == |cl[u].npipes| && forall i :: 0 <= i < |ticked| ==> ticked[i] == Ticked(cl[u].npipes[i])
    ensures Good(SetPipes(cl, u, ticked), fds, hist, next, u)
  {
    var cl' := SetPipes(cl, u, ticked);
    SamePipeDescriptors(cl, cl', fds);
    assert OnTime(cl, fds, hist, next, 0, u);
    TickKeepsTrack(cl[u].npipes, ticked, fds, hist[u], |hist[u]| - 1, next);
    Update(cl, fds, hist, next, 0, cl', fds, hist, next, u, u);
  }

  /** The same matrices, and numbered pipes with the same descriptors. */
  lemma SamePipeDescriptors(cl: Table, cl': Table, fds: Fds)
    requires Shape(cl) && Shape(cl') && Mirror(cl) && Separate(cl, fds)
    requires forall v :: 0 <= v < |cl| ==>
               && cl'[v].uid == cl[v].uid && cl'[v].sentFd == cl[v].sentFd && cl'[v].sendFd == cl[v].sendFd
               && |cl'[v].npipes| == |cl[v].npipes|
               && forall i :: 0 <= i < |cl[v].npipes| ==>
                    && cl'[v].npipes[i].readfd == cl[v].npipes[i].readfd
                    && cl'[v].npipes[i].writefd == cl[v].npipes[i].writefd
    ensures Mirror(cl') && Separate(cl', fds)
  {
    forall a
      ensures Has(cl', a) == Has(cl, a) && (Has(cl, a) ==> FdOf(cl', a) == FdOf(cl, a))
    {
    }
    forall r, s | Id(r) && Id(s)
      ensures Sent(cl', r, s) == Sent(cl, r, s) && Send(cl', r, s) == Send(cl, r, s)
    {
    }
  }

  /** A command of user `u` ends without a new pipe. */
  lemma EndsOnOldPipes(cl: Table, fds: Fds, hist: seq<seq<Tick>>, next: nat, u: int, t: Tick, wi: int)
    requires Good(cl, fds, hist, next, u) && Live(cl, u)
    requires t.Ran? ==> Served(hist[u], |hist[u]|, t.input)
    requires t.Ran? && t.output.Some? ==>
               && 0 <= wi < |cl[u].npipes| && OutputOf(t, cl[u].npipes[wi], fds)
               && cl[u].npipes[wi].counter >= 1
    ensures Good(cl, fds, hist[u := hist[u] + [t]], next, 0)
  {
    assert OnTime(cl, fds, hist, next, u, u);
    RunOnOldPipes(cl[u].npipes, fds, hist[u], t, next, wi);
    Update(cl, fds, hist, next, u, cl, fds, hist[u := hist[u] + [t]], next, 0, u);
  }

  /** A command of user `u` ends with its output in a new numbered pipe. */
  lemma EndsOnNewPipe(cl: Table, p: PipeCounter, fds: Fds, fds': Fds, hist: seq<seq<Tick>>, next: nat, u: int, t: Tick)
    requires Good(cl, fds, hist, next, u) && Live(cl, u)
    requires p.counter >= 1 && IsFirst(cl[u].npipes, p.counter, -1)
    requires p.readfd !in fds && p.writefd !in fds && p.readfd != p.writefd
    requires fds' == fds[p.readfd := ReadEnd(next)][p.writefd := WriteEnd(next)]
    requires t.Ran? && Served(hist[u], |hist[u]|, t.input) && t.output == Some(Output(next, p.counter))
    ensures Good(SetPipes(cl, u, cl[u].npipes + [p]), fds', hist[u := hist[u] + [t]], next + 1, 0)
  {
    var cl' := SetPipes(cl, u, cl[u].npipes + [p]);
    var n := |cl[u].npipes|;
    forall r, s | Id(r) && Id(s)
      ensures Sent(cl', r, s) == Sent(cl, r, s) && Send(cl', r, s) == Send(cl, r, s)
    {
    }
    forall a | a != PipeRead(u, n) && a != PipeWrite(u, n)
      ensures Has(cl', a) == Has(cl, a) && (Has(cl, a) ==> FdOf(cl', a) == FdOf(cl, a))
    {
    }
    assert FdOf(cl', PipeRead(u, n)) == p.readfd && FdOf(cl', PipeWrite(u, n)) == p.writefd;
    assert OnTime(cl, fds, hist, next, u, u);
    RunOnNewPipe(cl[u].npipes, p, fds, fds', hist[u], t, next);
    Update(cl, fds, hist, next, u, cl', fds', hist[u := hist[u] + [t]], next + 1, 0, u);
  }

  /** Where a place of the table was before entry `i` of user `u` was erased. */
  function Shifted(a: Ref, u: int, i: int): Ref {
    match a
    case PipeRead(v, k) => if v == u && k >= i then PipeRead(v, k + 1) else a
    case PipeWrite(v, k) => if v == u && k >= i then PipeWrite(v, k + 1) else a
    case UserPipe(_, _) => a
  }

  lemma ErasedPlaces(cl: Table, fds: Fds, u: int, i: nat)
    requires Shape(cl) && Mirror(cl) && Separate(cl, fds) && Id(u) && i < |cl[u].npipes|
    ensures var cl' := SetPipes(cl, u, Without(cl[u].npipes, i));
            Mirror(cl') && Separate(cl', fds - {cl[u].npipes[i].readfd, cl[u].npipes[i].writefd})
  {
    var cl' := SetPipes(cl, u, Without(cl[u].npipes, i));
    assert Has(cl, PipeRead(u, i)) && Has(cl, PipeWrite(u, i));
    forall r, s | Id(r) && Id(s)
      ensures Sent(cl', r, s) == Sent(cl, r, s) && Send(cl', r, s) == Send(cl, r, s)
    {
    }
    forall a | Has(cl', a)
      ensures var b := Shifted(a, u, i);
              b != PipeRead(u, i) && b != PipeWrite(u, i) && Has(cl, b) && FdOf(cl', a) == FdOf(cl, b)
    {
    }
  }

  /** The pipe that was due at the last command of user `u` is closed and erased. */
  lemma Erases(cl: Table, fds: Fds, hist: seq<seq<Tick>>, next: nat, u: int, i: nat)
    requires Good(cl, fds, hist, next, 0) && Live(cl, u) && |hist[u]| > 0
    requires i < |cl[u].npipes| && cl[u].npipes[i].counter == 0
    ensures Good(SetPipes(cl, u, Without(cl[u].npipes, i)), fds - {cl[u].npipes[i].readfd, cl[u].npipes[i].writefd},
                 hist, next, 0)
  {
    var pipes := cl[u].npipes;
    var cl' := SetPipes(cl, u, Without(pipes, i));
    var fds' := fds - {pipes[i].readfd, pipes[i].writefd};
    ErasedPlaces(cl, fds, u, i);
    assert Has(cl, PipeRead(u, i)) && Has(cl, PipeWrite(u, i));
    assert OnTime(cl, fds, hist, next, 0, u);
    EraseOwned(pipes, fds, i);
    EraseKeepsTrack(pipes, fds, fds', hist[u], next, i);
    Update(cl, fds, hist, next, 0, cl', fds', hist, next, 0, u);
  }

  // ------------------------------------------------------------------ user pipes come and go

  /** User `s` sends to user `r`: a new pipe in both matrices. */
  lemma Sends(cl: Table, fds: Fds, fds': Fds, hist: seq<seq<Tick>>, next: nat, busy: int, s: int, r: int, rd: int,
              wr: int)
    requires Good(cl, fds, hist, next, busy) && Live(cl, s) && Live(cl, r) && Send(cl, s, r) <= 0
    requires rd !in fds && wr !in fds && rd != wr && rd > 0 && wr > 0
    requires fds' == fds[rd := ReadEnd(next)][wr := WriteEnd(next)]
    ensures Good(SetSend(SetSent(cl, r, s, rd), s, r, wr), fds', hist, next + 1, busy)
  {
    var cl' := SetSend(SetSent(cl, r, s, rd), s, r, wr);
    forall a | a != UserPipe(r, s)
      ensures Has(cl', a) == Has(cl, a) && (Has(cl, a) ==> FdOf(cl', a) == FdOf(cl, a))
    {
    }
    assert FdOf(cl', UserPipe(r, s)) == rd;
    assert Mirror(cl') && Separate(cl', fds');
    UnusedDescriptors(cl, fds, fds', hist, next, next + 1, busy);
    forall u | Live(cl', u)
      ensures OnTime(cl', fds', hist, next + 1, busy, u)
    {
      assert OnTime(cl, fds', hist, next + 1, busy, u);
    }
  }

  /** User `r` receives from user `s`: the pipe leaves both matrices. */
  lemma Receives(cl: Table, fds: Fds, hist: seq<seq<Tick>>, next: nat, busy: int, r: int, s: int)
    requires Good(cl, fds, hist, next, busy) && Id(s) && Id(r)
    ensures Good(SetSend(SetSent(cl, r, s, -1), s, r, -1), fds, hist, next, busy)
  {
    var cl' := SetSend(SetSent(cl, r, s, -1), s, r, -1);
    forall a | Has(cl', a)
      ensures Has(cl, a) && FdOf(cl', a) == FdOf(cl, a)
    {
    }
    forall u | Live(cl', u)
      ensures OnTime(cl', fds, hist, next, busy, u)
    {
      assert OnTime(cl, fds, hist, next, busy, u);
    }
  }

  // ------------------------------------------------------------------ users come and go

  /** The read ends of all user pipes to or from `u`, as far as the other user is below `n`. */
  ghost function Incident(cl: Table, u: int, n: int): set<int>
    requires Shape(cl) && Id(u) && 1 <= n <= MAX_CLIENTS + 1
  {
    (set k | 1 <= k < n && Sent(cl, u, k) > 0 :: Sent(cl, u, k)) +
    (set k | 1 <= k < n && Sent(cl, k, u) > 0 :: Sent(cl, k, u))
  }

  /** The matrices without the pipes to or from `u`. */
  ghost predicate Cut(cl: Table, cl': Table, u: int)
    requires Shape(cl) && Shape(cl') && Id(u)
  {
    forall r, s {:trigger Sent(cl', r, s)} {:trigger Send(cl', s, r)} :: Id(r) && Id(s) ==>
      if r == u || s == u then Sent(cl', r, s) <= 0 && Send(cl', s, r) <= 0
      else Sent(cl', r, s) == Sent(cl, r, s) && Send(cl', s, r) == Send(cl, s, r)
  }

  /** User `u` leaves: its pipes are cut and closed; everybody else's are untouched. */
  lemma Leaves(cl: Table, cl': Table, fds: Fds, hist: seq<seq<Tick>>, next: nat, u: int)
    requires Good(cl, fds, hist, next, 0) && Live(cl, u)
    requires Shape(cl') && Cut(cl, cl', u) && cl'[u].uid == -1 && cl'[u].npipes == []
    requires forall v :: Id(v) && v != u ==> cl'[v].uid == cl[v].uid && cl'[v].npipes == cl[v].npipes
    ensures Good(cl', fds - Incident(cl, u, MAX_CLIENTS + 1), hist, next, 0)
  {
    var closed := Incident(cl, u, MAX_CLIENTS + 1);
    var fds' := fds - closed;
    forall fd | fd in closed
      ensures exists k :: Id(k) && ((Has(cl, UserPipe(u, k)) && FdOf(cl, UserPipe(u, k)) == fd) ||
                                    (Has(cl, UserPipe(k, u)) && FdOf(cl, UserPipe(k, u)) == fd))
    {
      if fd in (set k | 1 <= k < MAX_CLIENTS + 1 && Sent(cl, u, k) > 0 :: Sent(cl, u, k)) {
        var k :| 1 <= k < MAX_CLIENTS + 1 && Sent(cl, u, k) > 0 && Sent(cl, u, k) == fd;
        assert Has(cl, UserPipe(u, k));
      } else {
        var k :| 1 <= k < MAX_CLIENTS + 1 && Sent(cl, k, u) > 0 && Sent(cl, k, u) == fd;
        assert Has(cl, UserPipe(k, u));
      }
    }
    forall a | Has(cl, a) && !(a.UserPipe? && (a.receiver == u || a.sender == u))
      ensures FdOf(cl, a) in fds' && fds'[FdOf(cl, a)] == fds[FdOf(cl, a)]
    {
      if FdOf(cl, a) in closed {
        var k :| Id(k) && ((Has(cl, UserPipe(u, k)) && FdOf(cl, UserPipe(u, k)) == FdOf(cl, a)) ||
                           (Has(cl, UserPipe(k, u)) && FdOf(cl, UserPipe(k, u)) == FdOf(cl, a)));
      }
    }
    CutPlaces(cl, cl', fds, fds', u);
    Update(cl, fds, hist, next, 0, cl', fds', hist, next, 0, u);
  }

  lemma CutPlaces(cl: Table, cl': Table, fds: Fds, fds': Fds, u: int)
    requires Shape(cl) && Mirror(cl) && Separate(cl, fds) && Id(u)
    requires Shape(cl') && Cut(cl, cl', u) && cl'[u].uid == -1 && cl'[u].npipes == []
    requires forall v :: Id(v) && v != u ==> cl'[v].uid == cl[v].uid && cl'[v].npipes == cl[v].npipes
    requires forall a {:trigger Has(cl, a)} :: Has(cl, a) && !(a.UserPipe? && (a.receiver == u || a.sender == u)) ==>
               FdOf(cl, a) in fds' && fds'[FdOf(cl, a)] == fds[FdOf(cl, a)]
    ensures Mirror(cl') && Separate(cl', fds')
  {
    forall a | Has(cl', a)
      ensures Has(cl, a) && !(a.UserPipe? && (a.receiver == u || a.sender == u)) && FdOf(cl', a) == FdOf(cl, a)
    {
    }
    forall r, s | Id(r) && Id(s)
      ensures Sent(cl', r, s) > 0 <==> Send(cl', s, r) > 0
      ensures Sent(cl', r, s) > 0 ==> Live(cl', r) && Live(cl', s)
    {
    }
  }

  /** A new user in a free slot has no pipes, whoever had the slot before. */
  lemma Enters(cl: Table, c: Client, fds: Fds, hist: seq<seq<Tick>>, next: nat, u: int)
    requires Good(cl, fds, hist, next, 0) && Id(u) && !Live(cl, u)
    requires |c.sentFd| == |c.sendFd| == MAX_CLIENTS + 1 && c.npipes == [] && c.uid == u
    requires forall k :: 0 <= k <= MAX_CLIENTS ==> c.sentFd[k] == -1 && c.sendFd[k] == -1
    ensures Good(cl[u := c], fds, hist[u := []], next, 0)
  {
    var cl' := cl[u := c];
    forall r, s | Id(r) && Id(s)
      ensures Sent(cl', r, s) > 0 <==> Sent(cl, r, s) > 0
      ensures Send(cl', s, r) > 0 <==> Send(cl, s, r) > 0
      ensures Sent(cl', r, s) > 0 ==> Sent(cl', r, s) == Sent(cl, r, s)
    {
      assert Sent(cl, r, s) > 0 ==> Live(cl, r) && Live(cl, s);
    }
    forall a | Has(cl', a)
      ensures Has(cl, a) && FdOf(cl', a) == FdOf(cl, a)
    {
    }
    assert Separate(cl', fds) && Mirror(cl');
    Update(cl, fds, hist, next, 0, cl', fds, hist[u := []], next, 0, u);
  }
}
