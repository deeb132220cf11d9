/**
 The state of the server of np_project2/np_single_proc.cpp against the log of what its users did: the table, the
 descriptors, and the process of every command.
 */
module ServerLog {
  import opened Commands
  import opened Descriptors
  import opened NumberedPipes
  import opened Options
  import opened Processes
  import opened ServerCommand
  import opened ServerPipes
  import opened ServerTable
  import opened ServerVisits
  import opened Sessions
  import opened UserPipes

  // ------------------------------------------------------------------ what came of the entries

  /** What came of an entry: its part in the numbered pipes, its process, and the pipe made for another user. */
  datatype Outcome = Outcome(tick: Tick, kid: Option<Fds>, made: nat)

  /** The pipe that entry `j` has made for another user. */
  function Letter(outs: seq<Outcome>, j: Option<nat>): Option<nat> {
    if j.Some? && j.value < |outs| then Some(outs[j.value].made) else None
  }

  predicate IsLetter(e: Entry) {
    e.Did? && e.forks && WantsUserPipe(e.c)
  }

  function TicksOf(outs: seq<Outcome>, at: seq<nat>): (h: seq<Tick>)
    ensures |h| == |at|
  {
    seq(|at|, n requires 0 <= n < |at| => if at[n] < |outs| then outs[at[n]].tick else Quiet)
  }

  /** The process of a command reads and writes what its entry says, and is connected to its own user's client. */
  predicate EntryOk(log: seq<Entry>, outs: seq<Outcome>, i: nat)
    requires i < |log| == |outs|
  {
    var e, o := log[i], outs[i];
    e.Did? ==>
      && LiveIn(log[..i], e.uid) && Recorded(o.tick, e.c, e.forks) && o.kid.Some? == e.forks
      && (e.forks ==>
            KidOk(o.kid.value, o.tick, e.c, Socket(ConnOf(log[..i], e.uid).value),
                  UserEnd(Letter(outs, Took(log, i))), o.made))
  }

  /** The numbered pipe that entry `i` writes to. */
  function Piped(log: seq<Entry>, outs: seq<Outcome>, i: nat): Option<nat>
    requires i < |log| == |outs|
  {
    if log[i].Did? && outs[i].tick.Ran? && outs[i].tick.output.Some? then Some(outs[i].tick.output.value.obj) else None
  }

  /** Two entries of one session of one user. */
  predicate SameSession(log: seq<Entry>, i: nat, j: nat)
    requires i < |log| && j < |log|
  {
    log[i].uid == log[j].uid && LoginAt(log[..i], log[i].uid) == LoginAt(log[..j], log[j].uid)
  }

  /** Pipes for users are made by one entry each; a numbered pipe belongs to one session. */
  ghost predicate Apart(log: seq<Entry>, outs: seq<Outcome>, next: nat)
    requires |log| == |outs|
  {
    && (forall i :: 0 <= i < |log| && IsLetter(log[i]) ==> outs[i].made < next)
    && (forall i {:trigger Piped(log, outs, i)} :: 0 <= i < |log| && Piped(log, outs, i).Some? ==>
          Piped(log, outs, i).value < next)
    && (forall i, j :: 0 <= i < j < |log| && IsLetter(log[i]) && IsLetter(log[j]) ==> outs[i].made != outs[j].made)
    && (forall i, j {:trigger IsLetter(log[i]), Piped(log, outs, j)} ::
          0 <= i < |log| && 0 <= j < |log| && IsLetter(log[i]) ==> Piped(log, outs, j) != Some(outs[i].made))
    && (forall i, j {:trigger Piped(log, outs, i), Piped(log, outs, j)} ::
          0 <= i < |log| && 0 <= j < |log| && Piped(log, outs, i).Some? &&
          Piped(log, outs, i) == Piped(log, outs, j) ==>
            SameSession(log, i, j))
  }

  /** Numbered pipes deliver in every session, at every time. */
  ghost predicate AllDelivered(log: seq<Entry>, outs: seq<Outcome>) {
    forall p, u {:trigger DoneAt(log[..p], u)} :: 0 <= p <= |log| ==> Delivered(TicksOf(outs, DoneAt(log[..p], u)))
  }

  /** All that happened was as the log says, also to users that have left. */
  ghost predicate Chronicle(log: seq<Entry>, outs: seq<Outcome>, next: nat) {
    && |outs| == |log| && Apart(log, outs, next) && AllDelivered(log, outs)
    && forall i :: 0 <= i < |log| ==> EntryOk(log, outs, i)
  }

  // ------------------------------------------------------------------ what is there now

  /** Which commands of a user erased the numbered pipe that was due at them. */
  function ErasedAt(log: seq<Entry>, at: seq<nat>): (r: seq<bool>)
    ensures |r| == |at|
  {
    seq(|at|, n requires 0 <= n < |at| =>
      at[n] < |log| && log[at[n]].Did? && ErasesDue(log[at[n]].c, log[at[n]].forks))
  }

  function Counters(pipes: seq<PipeCounter>): set<int> {
    set i | 0 <= i < |pipes| :: pipes[i].counter
  }

  /** A user's slot, socket and numbered pipes are what the log says. */
  ghost predicate UserOk(cl: Table, fds: Fds, hist: seq<seq<Tick>>, log: seq<Entry>, outs: seq<Outcome>, u: int)
    requires Shape(cl) && |hist| == MAX_CLIENTS + 1 && Id(u)
  {
    && SockOf(log, u) == (if Live(cl, u) then Some(cl[u].fd) else None)
    && cl[u].nickname == NameOf(log, u) && cl[u].env == EnvOf(log, u)
    && (Live(cl, u) ==>
          && LiveIn(log, u) && cl[u].fd in fds && fds[cl[u].fd] == Socket(ConnOf(log, u).value)
          && hist[u] == TicksOf(outs, DoneAt(log, u))
          && Kept(cl[u].npipes, fds, hist[u], ErasedAt(log, DoneAt(log, u)))
          && Counters(cl[u].npipes) == Ahead(log, u))
  }

  /** What waits between two users is what the log says. */
  ghost predicate MailOk(cl: Table, fds: Fds, log: seq<Entry>, outs: seq<Outcome>)
    requires Shape(cl)
  {
    forall s, r {:trigger Mail(cl, fds, s, r)} :: Id(s) && Id(r) ==>
      Mail(cl, fds, s, r) == Letter(outs, Waiting(log, s, r))
  }

  /** The server is what its log says, down to the number of descriptors it has lost. */
  ghost predicate Agrees(cl: Table, fds: Fds, hist: seq<seq<Tick>>, next: nat, log: seq<Entry>, outs: seq<Outcome>) {
    && Shape(cl) && |hist| == MAX_CLIENTS + 1 && Chronicle(log, outs, next) && MailOk(cl, fds, log, outs)
    && |Unowned(cl, fds)| == Leaked(log)
    && forall u {:trigger UserOk(cl, fds, hist, log, outs, u)} :: Id(u) ==> UserOk(cl, fds, hist, log, outs, u)
  }

  // ------------------------------------------------------------------ one more entry

  /** What is known of earlier entries does not change. */
  lemma EarlierEntries(log: seq<Entry>, outs: seq<Outcome>, e: Entry, o: Outcome, i: nat)
    requires i < |log| == |outs| && EntryOk(log, outs, i)
    ensures EntryOk(log + [e], outs + [o], i)
  {
    assert (log + [e])[..i] == log[..i];
  }

  lemma EarlierTicks(outs: seq<Outcome>, o: Outcome, at: seq<nat>)
    requires forall n :: 0 <= n < |at| ==> at[n] < |outs|
    ensures TicksOf(outs + [o], at) == TicksOf(outs, at)
  {
  }

  lemma OneMoreTick(outs: seq<Outcome>, o: Outcome, at: seq<nat>)
    requires forall n :: 0 <= n < |at| ==> at[n] < |outs|
    ensures TicksOf(outs + [o], at + [|outs|]) == TicksOf(outs, at) + [o.tick]
  {
  }

  lemma DeliveredMore(log: seq<Entry>, outs: seq<Outcome>, e: Entry, o: Outcome)
    requires |outs| == |log| && AllDelivered(log, outs)
    requires e.Did? ==> Delivered(TicksOf(outs, DoneAt(log, e.uid)) + [o.tick])
    ensures AllDelivered(log + [e], outs + [o])
  {
    var log' := log + [e];
    More(log, e);
    hide Delivered, TicksOf;
    forall p, u | 0 <= p <= |log'|
      ensures Delivered(TicksOf(outs + [o], DoneAt(log'[..p], u)))
    {
      if p <= |log| {
        assert log'[..p] == log[..p];
        EarlierTicks(outs, o, DoneAt(log[..p], u));
      } else {
        assert log'[..p] == log' && log[..|log|] == log;
        if e.uid != u {
          EarlierTicks(outs, o, DoneAt(log, u));
        } else if e.Did? {
          OneMoreTick(outs, o, DoneAt(log, u));
        } else {
          NothingDelivered(outs + [o]);
        }
      }
    }
  }

  lemma NothingDelivered(outs: seq<Outcome>)
    ensures Delivered(TicksOf(outs, []))
  {
  }

  /** A new entry, given that its pipes are new or, if numbered, of its own session. */
  lemma ApartMore(log: seq<Entry>, outs: seq<Outcome>, next: nat, e: Entry, o: Outcome, next': nat)
    requires |log| == |outs| && Apart(log, outs, next) && next <= next'
    requires IsLetter(e) ==> next <= o.made < next'
    requires e.Did? ==> Recorded(o.tick, e.c, e.forks) && NewOrOwn(o.tick, TicksOf(outs, DoneAt(log, e.uid)), next)
    requires e.Did? && o.tick.Ran? && o.tick.output.Some? ==> o.tick.output.value.obj < next'
    ensures Apart(log + [e], outs + [o], next')
  {
    var log', outs', n := log + [e], outs + [o], |log|;
    forall i | 0 <= i < n
      ensures Piped(log', outs', i) == Piped(log, outs, i) && log'[..i] == log[..i]
    {
    }
    assert log'[..n] == log;
    var own := NewPiece(log, outs, next, e, o);
    forall i, j | 0 <= i <= n && 0 <= j <= n && Piped(log', outs', i).Some? && Piped(log', outs', i) == Piped(log',
                                                                                                              outs', j)
      ensures SameSession(log', i, j)
    {
      if i < n && j < n {
        assert SameSession(log, i, j);
      } else if i != j {
        assert SameSession(log, if i < n then i else j, own);
      }
    }
  }

  /** An earlier entry of the session with the same numbered pipe, if the new entry has one that is not new. */
  lemma NewPiece(log: seq<Entry>, outs: seq<Outcome>, next: nat, e: Entry, o: Outcome) returns (own: nat)
    requires |log| == |outs| && Apart(log, outs, next)
    requires e.Did? ==> NewOrOwn(o.tick, TicksOf(outs, DoneAt(log, e.uid)), next)
    ensures e.Did? && o.tick.Ran? && o.tick.output.Some? && o.tick.output.value.obj < next ==>
              && own < |log| && Piped(log, outs, own) == Some(o.tick.output.value.obj)
              && log[own].uid == e.uid && LoginAt(log[..own], e.uid) == LoginAt(log, e.uid)
  {
    own := 0;
    if e.Did? && o.tick.Ran? && o.tick.output.Some? && o.tick.output.value.obj < next {
      var at := DoneAt(log, e.uid);
      var h := TicksOf(outs, at);
      var j :| Writer(h, j) && Out(h, j) == o.tick.output.value.obj;
      own := at[j];
      InSession(log, e.uid, j);
    }
  }

  lemma ChronicleMore(log: seq<Entry>, outs: seq<Outcome>, next: nat, e: Entry, o: Outcome, next': nat)
    requires Chronicle(log, outs, next) && next <= next' && EntryOk(log + [e], outs + [o], |log|)
    requires IsLetter(e) ==> next <= o.made < next'
    requires e.Did? ==> NewOrOwn(o.tick, TicksOf(outs, DoneAt(log, e.uid)), next)
    requires e.Did? ==> HistoryGood(TicksOf(outs, DoneAt(log, e.uid)) + [o.tick], next')
    ensures Chronicle(log + [e], outs + [o], next')
  {
    hide Delivered, AllDelivered, KidOk, NewOrOwn;
    DeliveredMore(log, outs, e, o);
    var h := TicksOf(outs, DoneAt(log, e.uid));
    assert e.Did? && o.tick.Ran? && o.tick.output.Some? ==> Writer(h + [o.tick], |h|);
    ApartMore(log, outs, next, e, o, next');
    hide EntryOk, Apart;
    forall i | 0 <= i < |log|
      ensures EntryOk(log + [e], outs + [o], i)
    {
      EarlierEntries(log, outs, e, o, i);
    }
  }

  // ------------------------------------------------------------------ who reads whom

  /** The session of entry `i` up to entry `m` of the same session, with its history. */
  lemma {:induction false} SessionSoFar(log: seq<Entry>, u: int, i: nat, m: nat)
    requires i < m <= |log| && log[i].Did? && log[i].uid == u && LiveIn(log[..m], u)
    requires LoginAt(log[..i], u) == LoginAt(log[..m], u)
    ensures var at, n := DoneAt(log[..m], u), |DoneAt(log[..i], u)|;
      n < |at| && at[n] == i && at[..n] == DoneAt(log[..i], u)
    decreases m
  {
    hide DoneAt, LoginAt;
    DoneStep(log, u, m);
    if i < m - 1 {
      LoginStays(log, u, i, m);
      SessionSoFar(log, u, i, m - 1);
    }
  }

  lemma DoneStep(log: seq<Entry>, u: int, m: nat)
    requires 0 < m <= |log|
    ensures DoneAt(log[..m], u) ==
            if log[m - 1].uid != u then DoneAt(log[..m - 1], u)
            else if log[m - 1].Did? then DoneAt(log[..m - 1], u) + [m - 1]
            else []
  {
    assert Before(log[..m]) == log[..m - 1] && Last(log[..m]) == log[m - 1];
  }

  /** A session that goes on at `m` went on before it. */
  lemma LoginStays(log: seq<Entry>, u: int, i: nat, m: nat)
    requires i < m - 1 < |log| && LiveIn(log[..m], u) && LoginAt(log[..i], u) == LoginAt(log[..m], u)
    ensures LoginAt(log[..m - 1], u) == LoginAt(log[..m], u)
    ensures log[m - 1].uid == u ==> log[m - 1].Did?
  {
    assert Before(log[..m]) == log[..m - 1] && Last(log[..m]) == log[m - 1];
  }

  /** Two commands of one session have their numbers in it, and one's output is due at the other by these numbers. */
  lemma Numbers(log: seq<Entry>, i: nat, j: nat) returns (m: nat, k: nat, n: nat)
    requires i < |log| && j < |log| && log[i].Did? && log[j].Did? && SameSession(log, i, j)
    requires LiveIn(log[..i], log[i].uid)
    ensures m <= |log| && k < |DoneAt(log[..m], log[i].uid)| && n < |DoneAt(log[..m], log[i].uid)|
    ensures DoneAt(log[..m], log[i].uid)[k] == i && DoneAt(log[..m], log[i].uid)[n] == j
    ensures NumberedTo(log, j, i) <==> log[j].forks && log[j].c.CheckIfPipe() && n + log[j].c.Delay() == k
  {
    var u := log[i].uid;
    m := if i > j then i + 1 else j + 1;
    NumberedIs(log, j, i);
    StillThere(log, u, i, j, m);
    SessionSoFar(log, u, i, m);
    SessionSoFar(log, u, j, m);
    var at, before := DoneAt(log[..m], u), DoneAt(log[..i], u);
    k, n := |before|, |DoneAt(log[..j], u)|;
    if NumberedTo(log, j, i) {
      var x :| 0 <= x < |before| && before[x] == j && x + log[j].c.Delay() == k;
      InSession(log[..i], u, x);
      assert log[..i][..j] == log[..j];
    }
  }

  /** In one session a process reads the numbered pipe of another one exactly if it is due there. */
  lemma NumberedMeans(log: seq<Entry>, outs: seq<Outcome>, next: nat, i: nat, j: nat)
    requires Chronicle(log, outs, next) && i < |log| && j < |log| && log[i].Did? && log[i].forks && log[j].Did?
    requires SameSession(log, i, j) && Piped(log, outs, j).Some?
    ensures outs[i].tick.Ran?
    ensures outs[i].tick.input == Piped(log, outs, j) <==> NumberedTo(log, j, i)
  {
    assert EntryOk(log, outs, i) && EntryOk(log, outs, j);
    var m, k, n := Numbers(log, i, j);
    var h := TicksOf(outs, DoneAt(log[..m], log[i].uid));
    assert h[k] == outs[i].tick && h[n] == outs[j].tick && Delivered(h);
    hide AllDelivered, Apart, EntryOk, NumberedTo, KidOk, SameSession;
    assert Writer(h, n) && Due(h, n) == n + log[j].c.Delay();
  }

  lemma StillThere(log: seq<Entry>, u: int, i: nat, j: nat, m: nat)
    requires i < |log| && j < |log| && m == (if i > j then i + 1 else j + 1) && log[i].uid == log[j].uid == u
    requires log[i].Did? && log[j].Did? && LoginAt(log[..i], u) == LoginAt(log[..j], u) && LiveIn(log[..i], u)
    ensures LiveIn(log[..m], u) && LoginAt(log[..i], u) == LoginAt(log[..m], u)
  {
    assert Before(log[..m]) == log[..m - 1] && Last(log[..m]) == log[m - 1];
  }

  /** What the commands of a session up to command `i` did with numbered pipes. */
  lemma SessionTicks(log: seq<Entry>, outs: seq<Outcome>, next: nat, i: nat)
    requires Chronicle(log, outs, next) && i < |log| && log[i].Did? && log[i].forks
    ensures var before := DoneAt(log[..i], log[i].uid);
      var h := TicksOf(outs, before + [i]);
      && Delivered(h) && h[|before|] == outs[i].tick && Recorded(outs[i].tick, log[i].c, true)
      && forall n :: 0 <= n < |before| ==>
           && before[n] < |log| && log[before[n]].Did? && h[n] == outs[before[n]].tick
           && Recorded(h[n], log[before[n]].c, log[before[n]].forks)
  {
    hide KidOk, Recorded;
    assert EntryOk(log, outs, i);
    assert Before(log[..i + 1]) == log[..i] && Last(log[..i + 1]) == log[i];
    var before := DoneAt(log[..i], log[i].uid);
    assert DoneAt(log[..i + 1], log[i].uid) == before + [i];
    forall n | 0 <= n < |before|
      ensures log[before[n]].Did? && Recorded(outs[before[n]].tick, log[before[n]].c, log[before[n]].forks)
    {
      assert EntryOk(log, outs, before[n]) && log[before[n]] == log[..i][before[n]];
    }
  }

  /** A process reads a numbered pipe exactly if some output is due at its command. */
  lemma DueMeans(log: seq<Entry>, outs: seq<Outcome>, next: nat, i: nat)
    requires Chronicle(log, outs, next) && i < |log| && log[i].Did? && log[i].forks
    ensures outs[i].tick.Ran? && (outs[i].tick.input.Some? <==> IsDue(log, i))
    ensures outs[i].tick.input.Some? ==>
              exists j: nat :: j < |log| && NumberedTo(log, j, i) && Piped(log, outs, j) == outs[i].tick.input
  {
    hide NumberedTo, Chronicle, EntryOk, DoneAt, Delivered, TicksOf;
    assert |outs| == |log| by { ChronicleSize(log, outs, next); }
    SessionTicks(log, outs, next, i);
    var before := DoneAt(log[..i], log[i].uid);
    var h := TicksOf(outs, before + [i]);
    DeliveredAt(h, |before|);
    if outs[i].tick.input.Some? {
      var n :| Writer(h, n) && n < |before| && Due(h, n) == |before|;
      NumberedIs(log, before[n], i);
      assert NumberedTo(log, before[n], i) && Piped(log, outs, before[n]) == Some(Out(h, n));
    }
    if j: nat :| NumberedTo(log, j, i) {
      NumberedIs(log, j, i);
      var n :| 0 <= n < |before| && before[n] == j && n + log[j].c.Delay() == |before|;
      assert Writer(h, n) && Due(h, n) == |before|;
    }
  }

  lemma DeliveredAt(h: seq<Tick>, k: nat)
    requires Delivered(h) && k < |h| && h[k].Ran?
    ensures h[k].input.Some? ==> exists j :: Writer(h, j) && j < k && Due(h, j) == k && h[k].input == Some(Out(h, j))
    ensures forall j :: Writer(h, j) && Due(h, j) == k ==> h[k].input == Some(Out(h, j))
  {
    assert h[k].input.Some? ==> DueAt(h, k);
  }

  /** A process that reads a numbered pipe. */
  lemma ReadsNumbered(log: seq<Entry>, outs: seq<Outcome>, next: nat, i: nat, j: nat)
    requires Chronicle(log, outs, next) && i < |log| && j < |log| && log[i].Did? && log[i].forks
    requires outs[i].tick.Ran? && outs[i].tick.input.Some?
    ensures outs[i].tick.input == Piped(log, outs, j) <==> NumberedTo(log, j, i)
    ensures IsLetter(log[j]) ==> outs[i].tick.input != Some(outs[j].made)
  {
    DueMeans(log, outs, next, i);
    var d: nat :| d < |log| && NumberedTo(log, d, i) && Piped(log, outs, d) == outs[i].tick.input;
    hide AllDelivered, EntryOk;
    DueSession(log, outs, next, i, d);
    if Piped(log, outs, j) == outs[i].tick.input {
      assert SameSession(log, j, d);
      NumberedMeans(log, outs, next, i, j);
    } else if NumberedTo(log, j, i) {
      DueSession(log, outs, next, i, j);
      NumberedMeans(log, outs, next, i, j);
    }
  }

  /** A process that reads a letter. */
  lemma ReadsLetter(log: seq<Entry>, outs: seq<Outcome>, next: nat, i: nat, j: nat, o: nat)
    requires Chronicle(log, outs, next) && i < |log| && j < |log| && Took(log, i).Some?
    requires Letter(outs, Took(log, i)) == Some(o)
    ensures Piped(log, outs, j) != Some(o)
    ensures IsLetter(log[j]) ==> (outs[j].made == o <==> Took(log, i) == Some(j))
  {
    TakenIsLetter(log, i);
  }

  /** What a process writes to. */
  lemma WrittenBy(log: seq<Entry>, outs: seq<Outcome>, i: nat, o: nat)
    requires i < |log| == |outs| && EntryOk(log, outs, i) && log[i].Did? && log[i].forks
    ensures outs[i].kid.Some? && 1 in outs[i].kid.value
    ensures outs[i].kid.value[1] == WriteEnd(o) <==>
            Piped(log, outs, i) == Some(o) || (IsLetter(log[i]) && outs[i].made == o)
  {
  }

  /**
   Who reads whom, for any two processes of a whole run, of whichever users and sessions: a process reads what
   another one writes if and only if it is the numbered output that is due at its command, or the letter that its
   command took while nothing was due. A letter that is taken where a numbered output is due is read by nobody.
   */
  lemma WhoReadsWhom(log: seq<Entry>, outs: seq<Outcome>, next: nat, i: nat, j: nat)
    requires Chronicle(log, outs, next) && i < |log| && j < |log|
    requires log[i].Did? && log[i].forks && log[j].Did? && log[j].forks
    ensures outs[i].kid.Some? && outs[j].kid.Some?
    ensures ReadsFrom(outs[i].kid.value, outs[j].kid.value) <==>
            NumberedTo(log, j, i) || (Took(log, i) == Some(j) && !IsDue(log, i))
  {
    var kid := InputIs(log, outs, next, i);
    var o := if kid[0].ReadEnd? then kid[0].obj else 0;
    assert EntryOk(log, outs, j);
    WrittenBy(log, outs, j, o);
    hide AllDelivered, EntryOk, Apart, IsLetter;
    if outs[i].tick.input.Some? {
      ReadsNumbered(log, outs, next, i, j);
    } else {
      if Took(log, i).Some? {
        ReadsLetter(log, outs, next, i, j, o);
        TakenIsLetter(log, i);
      }
      assert !NumberedTo(log, j, i);
    }
  }

  /** What a process reads, in terms of what is due and of what its command took. */
  lemma InputIs(log: seq<Entry>, outs: seq<Outcome>, next: nat, i: nat) returns (kid: Fds)
    requires Chronicle(log, outs, next) && i < |log| && log[i].Did? && log[i].forks
    ensures outs[i].kid == Some(kid) && 0 in kid && LiveIn(log[..i], log[i].uid) && outs[i].tick.Ran?
    ensures outs[i].tick.input.Some? <==> IsDue(log, i)
    ensures kid[0] == if outs[i].tick.input.Some? then ReadEnd(outs[i].tick.input.value)
                      else if Took(log, i).Some? then ReadEnd(outs[Took(log, i).value].made)
                      else if log[i].c.userIn > 0 then Null
                      else Socket(ConnOf(log[..i], log[i].uid).value)
  {
    assert EntryOk(log, outs, i);
    DueMeans(log, outs, next, i);
    kid := outs[i].kid.value;
    if Took(log, i).Some? {
      assert TakesFrom(log[i], log[i].c.userIn, log[i].uid);
    }
  }

  lemma TakenIsLetter(log: seq<Entry>, i: nat)
    requires i < |log|
    ensures Took(log, i).Some? ==> IsLetter(log[Took(log, i).value])
  {
    if Took(log, i).Some? {
      assert log[..i][Took(log, i).value] == log[Took(log, i).value];
    }
  }

  /** What is due at a command comes from its own session. */
  lemma DueSession(log: seq<Entry>, outs: seq<Outcome>, next: nat, i: nat, j: nat)
    requires Chronicle(log, outs, next) && NumberedTo(log, j, i)
    ensures SameSession(log, i, j) && Piped(log, outs, j).Some?
  {
    var u := log[i].uid;
    NumberedIs(log, j, i);
    var n :| 0 <= n < |DoneAt(log[..i], u)| && DoneAt(log[..i], u)[n] == j;
    InSession(log[..i], u, n);
    assert log[..i][..j] == log[..j];
    assert EntryOk(log, outs, j);
  }

  /** A letter that is taken where a numbered output is due is read by nobody, at any time. */
  lemma LostLetter(log: seq<Entry>, outs: seq<Outcome>, next: nat, i: nat, j: nat, k: nat)
    requires Chronicle(log, outs, next) && i < |log| && Took(log, i) == Some(j) && IsDue(log, i)
    requires k < |log| && log[k].Did? && log[k].forks
    ensures IsLetter(log[j]) && outs[j].kid.Some? && outs[k].kid.Some?
    ensures !ReadsFrom(outs[k].kid.value, outs[j].kid.value)
  {
    TakenIsLetter(log, i);
    WhoReadsWhom(log, outs, next, k, j);
    if Took(log, k) == Some(j) && k != i {
      TakenOnce(log, if i < k then i else k, if i < k then k else i);
    }
  }

  /** Where the output and the errors of a process go that nobody else is to read. */
  lemma WritesToClient(log: seq<Entry>, outs: seq<Outcome>, next: nat, i: nat)
    requires Chronicle(log, outs, next) && i < |log| && log[i].Did? && log[i].forks
    ensures outs[i].kid.Some? && 1 in outs[i].kid.value && 2 in outs[i].kid.value && LiveIn(log[..i], log[i].uid)
    ensures var kid, c := outs[i].kid.value, log[i].c; var own := Socket(ConnOf(log[..i], log[i].uid).value);
      && (kid[1] == own <==> !c.hasPipe && !c.hasExclamation && c.filename == "" && c.userOut == 0)
      && (!c.hasPipe && !c.hasExclamation && c.filename != "" ==> kid[1] == File(c.filename))
      && (kid[1].WriteEnd? <==> c.hasPipe || c.hasExclamation || (c.filename == "" && c.userOut > 0))
      && kid[2] == (if c.hasExclamation && !c.hasPipe then kid[1] else own) && SeesEnd(kid)
  {
    assert EntryOk(log, outs, i);
  }

  // ------------------------------------------------------------------ a command

  lemma SameErased(log: seq<Entry>, e: Entry, at: seq<nat>)
    requires forall n :: 0 <= n < |at| ==> at[n] < |log|
    ensures ErasedAt(log + [e], at) == ErasedAt(log, at)
  {
  }

  /** The account of the vector depends on the descriptors of its pipes only. */
  lemma KeptElsewhere(pipes: seq<PipeCounter>, fds: Fds, fds': Fds, h: seq<Tick>, erased: seq<bool>, next: nat,
                      next': nat)
    requires Kept(pipes, fds, h, erased) && Tracks(pipes, fds, h, |h| - 1, next)
    requires Tracks(pipes, fds', h, |h| - 1, next')
    ensures Kept(pipes, fds', h, erased)
  {
    hide Tracks;
    forall j | Writer(h, j)
      ensures Pending(pipes, fds', h, |h| - 1, j) <==> Pending(pipes, fds, h, |h| - 1, j)
    {
      if Pending(pipes, fds, h, |h| - 1, j) {
        var i :| 0 <= i < |pipes| && Obj(pipes[i], fds) == Out(h, j) && DueOf(pipes[i], |h| - 1) == Due(h, j);
        SameObject(pipes, fds', h, |h| - 1, next', i, j);
      }
      if Pending(pipes, fds', h, |h| - 1, j) {
        var i :| 0 <= i < |pipes| && Obj(pipes[i], fds') == Out(h, j) && DueOf(pipes[i], |h| - 1) == Due(h, j);
        SameObject(pipes, fds, h, |h| - 1, next, i, j);
      }
    }
  }

  /** A user that another user's entry does not concern. */
  lemma OtherUser(cl: Table, fds: Fds, hist: seq<seq<Tick>>, next: nat, log: seq<Entry>, outs: seq<Outcome>,
                  cl': Table, fds': Fds, hist': seq<seq<Tick>>, next': nat, e: Entry, o: Outcome, u: int)
    requires Shape(cl) && Shape(cl') && |hist| == |hist'| == MAX_CLIENTS + 1 && Id(u) && e.uid != u && |outs| == |log|
    requires UserOk(cl, fds, hist, log, outs, u)
    requires SameUser(cl[u], cl'[u]) && cl'[u].npipes == cl[u].npipes && hist'[u] == hist[u]
    requires Live(cl, u) ==> Tracks(cl[u].npipes, fds, hist[u], |hist[u]| - 1, next)
    requires Live(cl, u) ==> Tracks(cl[u].npipes, fds', hist[u], |hist[u]| - 1, next')
    requires Live(cl, u) && cl[u].fd in fds ==> cl[u].fd in fds' && fds'[cl[u].fd] == fds[cl[u].fd]
    ensures UserOk(cl', fds', hist', log + [e], outs + [o], u)
  {
    More(log, e);
    if Live(cl, u) {
      EarlierTicks(outs, o, DoneAt(log, u));
      SameErased(log, e, DoneAt(log, u));
      KeptElsewhere(cl[u].npipes, fds, fds', hist[u], ErasedAt(log, DoneAt(log, u)), next, next');
    }
  }

  /** What waits for a user is in the matrix. */
  lemma MailIsSent(cl: Table, fds: Fds, s: int, r: int)
    requires Shape(cl) && Mirror(cl) && Separate(cl, fds) && Id(s) && Id(r)
    ensures Mail(cl, fds, s, r).Some? <==> Sent(cl, r, s) > 0
    ensures Mail(cl, fds, s, r).Some? <==> Send(cl, s, r) > 0
    ensures Mail(cl, fds, s, r).Some? ==> Live(cl, s) && Live(cl, r)
  {
    if Sent(cl, r, s) > 0 {
      assert Has(cl, UserPipe(r, s));
    }
  }

  lemma WaitingAgrees(cl: Table, fds: Fds, log: seq<Entry>, outs: seq<Outcome>, s: int, r: int)
    requires Shape(cl) && MailOk(cl, fds, log, outs) && |outs| == |log| && Id(s) && Id(r)
    ensures Mail(cl, fds, s, r).Some? <==> Waiting(log, s, r).Some?
    ensures Mail(cl, fds, s, r) == Letter(outs, Waiting(log, s, r))
  {
  }

  lemma LiveAgrees(cl: Table, fds: Fds, hist: seq<seq<Tick>>, next: nat, log: seq<Entry>, outs: seq<Outcome>, u: int)
    requires Agrees(cl, fds, hist, next, log, outs) && Id(u)
    ensures Live(cl, u) <==> LiveIn(log, u)
    ensures SockOf(log, u) == if Live(cl, u) then Some(cl[u].fd) else None
    ensures cl[u].nickname == NameOf(log, u) && cl[u].env == EnvOf(log, u)
  {
    assert UserOk(cl, fds, hist, log, outs, u);
  }

  /** The command starts its process exactly if the log says that it can, and has waiting for it what the log has. */
  lemma StartsAgrees(cl: Table, fds: Fds, hist: seq<seq<Tick>>, next: nat, log: seq<Entry>, outs: seq<Outcome>,
                     uid: int, c: Command, directories: set<string>)
    requires Agrees(cl, fds, hist, next, log, outs) && Mirror(cl) && Separate(cl, fds) && Id(uid) && CommandOk(c)
    ensures StartsProcess(cl, uid, c, directories) == CanStart(log, uid, c, directories)
    ensures c.userIn > 0 ==> TakesPipe(cl, uid, c) == Waiting(log, c.userIn, uid).Some?
    ensures TookFrom(cl, fds, uid, c) == if c.userIn > 0 then Letter(outs, Waiting(log, c.userIn, uid)) else None
  {
    if c.userOut > 0 {
      LiveAgrees(cl, fds, hist, next, log, outs, c.userOut);
      MailIsSent(cl, fds, uid, c.userOut);
      WaitingAgrees(cl, fds, log, outs, uid, c.userOut);
    }
    if c.userIn > 0 {
      MailIsSent(cl, fds, c.userIn, uid);
      WaitingAgrees(cl, fds, log, outs, c.userIn, uid);
    }
  }

  lemma RecordIs(h: seq<Tick>, h': seq<Tick>, c: Command, starts: bool, kid: Option<Fds>, own: End, userEnd: End,
                 sent: nat)
    returns (t: Tick)
    requires Recording(h, h', c, starts, kid, own, userEnd, sent)
    ensures h' == h + [t] && Recorded(t, c, starts) && kid.Some? == starts
    ensures starts ==> KidOk(kid.value, t, c, own, userEnd, sent)
  {
    t :| h' == h + [t] && Recorded(t, c, starts) && (starts ==> KidOk(kid.value, t, c, own, userEnd, sent));
  }

  lemma UserParts(cl: Table, fds: Fds, hist: seq<seq<Tick>>, next: nat, log: seq<Entry>, outs: seq<Outcome>, u: int)
    requires Agrees(cl, fds, hist, next, log, outs) && Live(cl, u)
    ensures LiveIn(log, u) && cl[u].fd in fds && fds[cl[u].fd] == Socket(ConnOf(log, u).value)
    ensures hist[u] == TicksOf(outs, DoneAt(log, u)) && |outs| == |log|
    ensures Kept(cl[u].npipes, fds, hist[u], ErasedAt(log, DoneAt(log, u))) && Counters(cl[u].npipes) == Ahead(log, u)
    ensures SockOf(log, u) == Some(cl[u].fd) && cl[u].nickname == NameOf(log, u) && cl[u].env == EnvOf(log, u)
  {
    assert UserOk(cl, fds, hist, log, outs, u);
  }

  /** The record of a command and its process is that of its entry. */
  lemma NewEntryOk(log: seq<Entry>, outs: seq<Outcome>, uid: int, c: Command, forks: bool, t: Tick, kid: Option<Fds>,
                   own: End, next: nat)
    requires |outs| == |log| && LiveIn(log, uid) && own == Socket(ConnOf(log, uid).value) && kid.Some? == forks
    requires Recorded(t, c, forks) && (forks ==> !IsBuiltIn(c))
    requires forks ==>
               KidOk(kid.value, t, c, own,
                     UserEnd(if c.userIn > 0 then Letter(outs, Waiting(log, c.userIn, uid)) else None), next)
    ensures EntryOk(log + [Did(uid, c, forks)], outs + [Outcome(t, kid, next)], |log|)
  {
    var log', outs' := log + [Did(uid, c, forks)], outs + [Outcome(t, kid, next)];
    assert log'[..|log|] == log;
    var w := if c.userIn > 0 then Waiting(log, c.userIn, uid) else None;
    assert forks ==> Took(log', |log|) == w && Letter(outs', w) == Letter(outs, w);
  }

  /** Whatever the command does to the table, its entry in the log is right. */
  lemma CommandChronicle(cl: Table, fds: Fds, fdUid: map<int, int>, hist: seq<seq<Tick>>, next: nat, log: seq<Entry>,
                         outs: seq<Outcome>, cl': Table, fds': Fds, hist': seq<seq<Tick>>, next': nat, uid: int, c:
                         Command,
                         directories: set<string>, kid: Option<Fds>) returns (o: Outcome)
    requires Agrees(cl, fds, hist, next, log, outs) && Sound(cl, fds, fdUid, hist, next, 0, None) && Live(cl, uid)
    requires CommandGood(cl, fds, fdUid, hist, next, cl', fds', hist', next', uid, c, directories, kid)
    ensures DoCommand(log, uid, c, directories) == log + [Did(uid, c, Starts(cl, uid, c, directories))]
    ensures Chronicle(DoCommand(log, uid, c, directories), outs + [o], next')
    ensures hist'[uid] == hist[uid] + [o.tick] && Recorded(o.tick, c, Starts(cl, uid, c, directories)) && o.made == next
  {
    assert Mirror(cl) && Separate(cl, fds);
    hide Sound, Recording, Misses, CommandDone, NewOrOwn, HistoryGood, Apart, AllDelivered, EntryOk, KidOk, CanStart;
    hide StartsProcess, Mirror, Separate, ConnOf, TookFrom, MailOk, DoneAt, Recorded;
    var forks := Starts(cl, uid, c, directories);
    var t := RecordIs(hist[uid], hist'[uid], c, forks, kid, fds[cl[uid].fd], UserEnd(TookFrom(cl, fds, uid, c)), next);
    o := Outcome(t, kid, next);
    UserParts(cl, fds, hist, next, log, outs, uid);
    StartsAgrees(cl, fds, hist, next, log, outs, uid, c, directories);
    NewEntryOk(log, outs, uid, c, forks, t, kid, fds[cl[uid].fd], next);
    ChronicleMore(log, outs, next, Did(uid, c, forks), o, next');
  }

  lemma MailAfterCommand(cl: Table, fds: Fds, next: nat, cl': Table, fds': Fds, next': nat, uid: int, c: Command,
                         directories: set<string>, log: seq<Entry>, outs: seq<Outcome>, forks: bool, o: Outcome)
    requires CommandDone(cl, fds, next, cl', fds', next', uid, c, directories) && o.made == next
    requires MailOk(cl, fds, log, outs) && |outs| == |log| && forks == Starts(cl, uid, c, directories)
    requires c.userIn > 0 ==> TakesPipe(cl, uid, c) == Waiting(log, c.userIn, uid).Some?
    ensures MailOk(cl', fds', log + [Did(uid, c, forks)], outs + [o])
  {
    var e := Did(uid, c, forks);
    More(log, e);
    hide Mail, StartsProcess, TakesPipe, LeftOpen, VectorStep;
    forall s, r | Id(s) && Id(r)
      ensures Mail(cl', fds', s, r) == Letter(outs + [o], Waiting(log + [e], s, r))
    {
      assert Mail(cl, fds, s, r) == Letter(outs, Waiting(log, s, r));
    }
  }

  lemma LeaksCount(cl: Table, fds: Fds, cl': Table, fds': Fds, uid: int, c: Command, starts: bool)
    requires Shape(cl) && Shape(cl') && Id(uid) && c.userIn <= MAX_CLIENTS
    requires LeftOpen(cl, fds, cl', fds', uid, c, starts)
    ensures |Unowned(cl', fds')| == |Unowned(cl, fds)| + if LeaksInput(c, starts) || LeaksFile(c, starts) then 1 else 0
  {
  }

  lemma TickedCounters(pipes: seq<PipeCounter>)
    ensures Counters(TickAll(pipes)) == set n | n in Counters(pipes) :: n - 1
  {
    forall n
      ensures n in Counters(TickAll(pipes)) <==> n + 1 in Counters(pipes)
    {
      if i :| 0 <= i < |pipes| && pipes[i].counter == n + 1 {
        assert TickAll(pipes)[i].counter == n;
      }
    }
  }

  lemma PushedCounters(pipes: seq<PipeCounter>, delay: Option<int>, r: int, w: int)
    ensures Counters(MaybeWithPipe(pipes, delay, r, w)) == Counters(pipes) + if delay.Some? then {delay.value} else {}
  {
    var written := MaybeWithPipe(pipes, delay, r, w);
    forall n
      ensures n in Counters(written) <==> n in Counters(pipes) || delay == Some(n)
    {
      if i :| 0 <= i < |pipes| && pipes[i].counter == n {
        assert written[i].counter == n;
      } else if delay == Some(n) {
        assert written[|pipes|].counter == n;
      }
    }
  }

  /** The counters of the vector are what the log says is ahead. */
  lemma CountersStep(pipes: seq<PipeCounter>, after: seq<PipeCounter>, delay: Option<int>, erase: bool)
    requires VectorStep(pipes, after, delay, erase) && Distinct(pipes) && (delay.Some? ==> delay.value >= 1)
    ensures Counters(after) == Later(Counters(pipes), delay, erase)
  {
    var r, w :| after == OneLater(pipes, delay, r, w, erase);
    var written := MaybeWithPipe(TickAll(pipes), delay, r, w);
    TickedCounters(pipes);
    PushedCounters(TickAll(pipes), delay, r, w);
    if erase {
      NothingDue(pipes, delay, r, w);
      ErasedCounters(written, FirstWith(written, 0));
    }
  }

  lemma ErasedCounters(pipes: seq<PipeCounter>, i: int)
    requires IsFirst(pipes, 0, i)
    requires i != -1 ==> forall p :: p in Without(pipes, i) ==> p.counter != 0
    ensures Counters(if i == -1 then pipes else Without(pipes, i)) == Counters(pipes) - {0}
  {
    if i != -1 {
      var after := Without(pipes, i);
      forall n
        ensures n in Counters(after) <==> n in Counters(pipes) && n != 0
      {
        if n in Counters(pipes) && n != 0 {
          var k :| 0 <= k < |pipes| && pipes[k].counter == n;
          WithoutKeeps(pipes, i, k);
        }
        if n in Counters(after) {
          var k :| 0 <= k < |after| && after[k].counter == n;
          assert after[k] in after && after[k] == pipes[if k < i then k else k + 1];
        }
      }
    }
  }

  /** The parts of `CommandDone` that are about the user itself. */
  lemma CommandParts(cl: Table, fds: Fds, next: nat, cl': Table, fds': Fds, next': nat, uid: int, c: Command,
                     directories: set<string>)
    requires CommandDone(cl, fds, next, cl', fds', next', uid, c, directories)
    ensures Shape(cl) && Shape(cl') && Id(uid) && CommandOk(c)
    ensures cl'[uid].uid == cl[uid].uid && cl'[uid].fd == cl[uid].fd
    ensures cl'[uid].env == if SetsEnv(c) then cl[uid].env[c.args[1] := c.args[2]] else cl[uid].env
    ensures cl'[uid].nickname ==
            if c.args[0] == "name" && !NameTaken(cl, c.args[1]) then c.args[1] else cl[uid].nickname
    ensures var starts := Starts(cl, uid, c, directories);
      VectorStep(cl[uid].npipes, cl'[uid].npipes, DelayOf(c, starts), ErasesDue(c, starts))
  {
  }

  lemma NameAgrees(cl: Table, fds: Fds, hist: seq<seq<Tick>>, next: nat, log: seq<Entry>, outs: seq<Outcome>, uid: int,
                   c: Command, starts: bool)
    requires Agrees(cl, fds, hist, next, log, outs) && Id(uid) && CommandOk(c)
    ensures NameOf(log + [Did(uid, c, starts)], uid) ==
            if c.args[0] == "name" && !NameTaken(cl, c.args[1]) then c.args[1] else cl[uid].nickname
  {
    More(log, Did(uid, c, starts));
    forall i | Id(i)
      ensures NameOf(log, i) == cl[i].nickname
    {
      LiveAgrees(cl, fds, hist, next, log, outs, i);
    }
  }

  /** What the log says of a user after a command of it. */
  lemma DidChanges(log: seq<Entry>, uid: int, c: Command, starts: bool)
    ensures var after := log + [Did(uid, c, starts)];
      && SockOf(after, uid) == SockOf(log, uid) && ConnOf(after, uid) == ConnOf(log, uid)
      && LiveIn(after, uid) == LiveIn(log, uid)
      && EnvOf(after, uid) == (if SetsEnv(c) then EnvOf(log, uid)[c.args[1] := c.args[2]] else EnvOf(log, uid))
      && DoneAt(after, uid) == DoneAt(log, uid) + [|log|]
  {
    More(log, Did(uid, c, starts));
  }

  /** What the log says of numbered pipes and lost descriptors after a command. */
  lemma DidPipes(log: seq<Entry>, uid: int, c: Command, starts: bool)
    ensures var after := log + [Did(uid, c, starts)];
      && Ahead(after, uid) == Later(Ahead(log, uid), DelayOf(c, starts), ErasesDue(c, starts))
      && ErasedAt(after, DoneAt(log, uid) + [|log|]) == ErasedAt(log, DoneAt(log, uid)) + [ErasesDue(c, starts)]
      && Leaked(after) == Leaked(log) + if LeaksInput(c, starts) || LeaksFile(c, starts) then 1 else 0
  {
    More(log, Did(uid, c, starts));
    hide DoneAt;
    SameErased(log, Did(uid, c, starts), DoneAt(log, uid));
  }

  /** The slot of the user whose command it was. */
  lemma OwnUser(cl: Table, fds: Fds, hist: seq<seq<Tick>>, next: nat, log: seq<Entry>, outs: seq<Outcome>, cl': Table,
                fds': Fds, hist': seq<seq<Tick>>, next': nat, uid: int, c: Command, directories: set<string>,
                o: Outcome)
    requires Agrees(cl, fds, hist, next, log, outs) && Live(cl, uid) && |hist'| == MAX_CLIENTS + 1
    requires CommandDone(cl, fds, next, cl', fds', next', uid, c, directories)
    requires hist'[uid] == hist[uid] + [o.tick]
    requires Tracks(cl[uid].npipes, fds, hist[uid], |hist[uid]| - 1, next)
    requires Tracks(cl'[uid].npipes, fds', hist'[uid], |hist'[uid]| - 1, next')
    requires cl[uid].fd in fds ==> cl[uid].fd in fds' && fds'[cl[uid].fd] == fds[cl[uid].fd]
    ensures UserOk(cl', fds', hist', log + [Did(uid, c, Starts(cl, uid, c, directories))], outs + [o], uid)
  {
    assert Distinct(cl[uid].npipes);
    CommandParts(cl, fds, next, cl', fds', next', uid, c, directories);
    hide CommandDone, Tracks, Kept, Recorded, MailOk, StartsProcess, Chronicle, Unowned, Counters, SetsEnv;
    hide UserOk, VectorStep, EnvOf, NameOf, SockOf, ConnOf, DoneAt, TookFrom, Ahead, Leaked, ErasedAt, Later;
    var starts := Starts(cl, uid, c, directories);
    var e, at := Did(uid, c, starts), DoneAt(log, uid);
    UserParts(cl, fds, hist, next, log, outs, uid);
    NameAgrees(cl, fds, hist, next, log, outs, uid, c, starts);
    DidChanges(log, uid, c, starts);
    DidPipes(log, uid, c, starts);
    OneMoreTick(outs, o, at);
    KeptStep(cl[uid].npipes, cl'[uid].npipes, fds, fds', hist[uid], o.tick, ErasedAt(log, at),
             ErasesDue(c, starts), DelayOf(c, starts), next, next');
    CountersStep(cl[uid].npipes, cl'[uid].npipes, DelayOf(c, starts), ErasesDue(c, starts));
    UserIs(cl', fds', hist', log + [e], outs + [o], uid);
  }

  lemma UserIs(cl: Table, fds: Fds, hist: seq<seq<Tick>>, log: seq<Entry>, outs: seq<Outcome>, u: int)
    requires Shape(cl) && |hist| == MAX_CLIENTS + 1 && Live(cl, u) && LiveIn(log, u)
    requires SockOf(log, u) == Some(cl[u].fd) && cl[u].nickname == NameOf(log, u) && cl[u].env == EnvOf(log, u)
    requires cl[u].fd in fds && fds[cl[u].fd] == Socket(ConnOf(log, u).value)
    requires hist[u] == TicksOf(outs, DoneAt(log, u)) && Counters(cl[u].npipes) == Ahead(log, u)
    requires Kept(cl[u].npipes, fds, hist[u], ErasedAt(log, DoneAt(log, u)))
    ensures UserOk(cl, fds, hist, log, outs, u)
  {
  }

  lemma GoodParts(cl: Table, fds: Fds, hist: seq<seq<Tick>>, next: nat, u: int)
    requires Good(cl, fds, hist, next, 0) && Live(cl, u)
    ensures Mirror(cl) && Separate(cl, fds) && |hist| == MAX_CLIENTS + 1
    ensures Tracks(cl[u].npipes, fds, hist[u], |hist[u]| - 1, next)
  {
    assert OnTime(cl, fds, hist, next, 0, u);
  }

  lemma SameLife(a: Client, b: Client)
    requires SameUser(a, b)
    ensures b.uid == a.uid && b.fd == a.fd && b.nickname == a.nickname && b.env == a.env
  {
  }

  ghost predicate OwnHistories(hist: seq<seq<Tick>>, hist': seq<seq<Tick>>, uid: int) {
    |hist'| == |hist| && forall u :: 0 <= u < |hist| && u != uid ==> hist'[u] == hist[u]
  }

  /** Another user after a command of user `uid`. */
  lemma OtherAfter(cl: Table, fds: Fds, fdUid: map<int, int>, hist: seq<seq<Tick>>, next: nat, log: seq<Entry>,
                   outs: seq<Outcome>, cl': Table, fds': Fds, hist': seq<seq<Tick>>, next': nat, uid: int, e: Entry,
                   o: Outcome,
                   u: int)
    requires Agrees(cl, fds, hist, next, log, outs) && Good(cl, fds, hist, next, 0) && TableOk(cl, fds, fdUid)
    requires Good(cl', fds', hist', next', 0) && Id(u) && u != uid && e.uid == uid
    requires OthersSame(cl, cl', uid) && OwnHistories(hist, hist', uid) && SocketsStay(fds, fds')
    ensures Shape(cl') && |hist'| == MAX_CLIENTS + 1 && UserOk(cl', fds', hist', log + [e], outs + [o], u)
  {
    assert UserOk(cl, fds, hist, log, outs, u) && |outs| == |log|;
    SameLife(cl[u], cl'[u]);
    assert Live(cl', u) == Live(cl, u);
    if Live(cl, u) {
      GoodParts(cl, fds, hist, next, u);
      GoodParts(cl', fds', hist', next', u);
      SocketIn(cl, fds, fdUid, u);
    }
    OtherUser(cl, fds, hist, next, log, outs, cl', fds', hist', next', e, o, u);
  }

  /** A command and its entry in the log. */
  lemma CommandAgrees(cl: Table, fds: Fds, fdUid: map<int, int>, hist: seq<seq<Tick>>, next: nat, log: seq<Entry>,
                      outs: seq<Outcome>, cl': Table, fds': Fds, hist': seq<seq<Tick>>, next': nat, uid: int, c:
                      Command,
                      directories: set<string>, kid: Option<Fds>, o: Outcome)
    requires Agrees(cl, fds, hist, next, log, outs) && Sound(cl, fds, fdUid, hist, next, 0, None) && Live(cl, uid)
    requires CommandGood(cl, fds, fdUid, hist, next, cl', fds', hist', next', uid, c, directories, kid) && !Shuts(c)
    requires Chronicle(DoCommand(log, uid, c, directories), outs + [o], next') && hist'[uid] == hist[uid] + [o.tick]
    requires DoCommand(log, uid, c, directories) == log + [Did(uid, c, Starts(cl, uid, c, directories))]
    requires o.made == next
    ensures Agrees(cl', fds', hist', next', DoCommand(log, uid, c, directories), outs + [o])
  {
    assert Good(cl, fds, hist, next, 0) && Good(cl', fds', hist', next', 0) && TableOk(cl, fds, fdUid);
    GoodParts(cl, fds, hist, next, uid);
    GoodParts(cl', fds', hist', next', uid);
    assert CommandDone(cl, fds, next, cl', fds', next', uid, c, directories);
    assert Shape(cl') && |hist'| == MAX_CLIENTS + 1;
    assert OwnHistories(hist, hist', uid) && SocketsStay(fds, fds') && OthersSame(cl, cl', uid);
    hide Sound, CommandGood, Good, MailOk, UserOk, Chronicle, Unowned, DoCommand, LeftOpen, MailAfter, SameMail;
    hide UserAfter;
    hide VectorStep, Mirror, Separate, Tracks, StartsProcess, Leaked;
    var starts := Starts(cl, uid, c, directories);
    var e := Did(uid, c, starts);
    StartsAgrees(cl, fds, hist, next, log, outs, uid, c, directories);
    MailAfterCommand(cl, fds, next, cl', fds', next', uid, c, directories, log, outs, starts, o);
    LeaksCount(cl, fds, cl', fds', uid, c, starts);
    DidPipes(log, uid, c, starts);
    SocketIn(cl, fds, fdUid, uid);
    OwnUser(cl, fds, hist, next, log, outs, cl', fds', hist', next', uid, c, directories, o);
    hide CommandDone, Starts, OwnHistories, SocketsStay, OthersSame;
    forall u | Id(u) && u != uid
      ensures UserOk(cl', fds', hist', log + [e], outs + [o], u)
    {
      OtherAfter(cl, fds, fdUid, hist, next, log, outs, cl', fds', hist', next', uid, e, o, u);
    }
  }

  lemma SocketIn(cl: Table, fds: Fds, fdUid: map<int, int>, u: int)
    requires TableOk(cl, fds, fdUid) && Live(cl, u)
    ensures cl[u].fd in fds && fds[cl[u].fd].Socket?
  {
    assert SlotOk(cl, fds, fdUid, u);
  }

  // ------------------------------------------------------------------ login and logout

  /** An entry that is no command, for user `uid`, as far as it is about the past. */
  lemma VisitChronicle(log: seq<Entry>, outs: seq<Outcome>, next: nat, e: Entry, next': nat) returns (o: Outcome)
    requires Chronicle(log, outs, next) && !e.Did? && next <= next'
    ensures Chronicle(log + [e], outs + [o], next')
  {
    o := Outcome(Quiet, None, 0);
    ChronicleMore(log, outs, next, e, o, next');
  }

  /** Nothing waits to or from somebody who is not there. */
  lemma NothingForAbsent(cl: Table, fds: Fds, log: seq<Entry>, outs: seq<Outcome>, s: int, r: int)
    requires Shape(cl) && Mirror(cl) && Separate(cl, fds) && MailOk(cl, fds, log, outs) && |outs| == |log| && Id(s)
    requires Id(r)
    requires !Live(cl, s) || !Live(cl, r)
    ensures Waiting(log, s, r) == None
  {
    MailIsSent(cl, fds, s, r);
    WaitingAgrees(cl, fds, log, outs, s, r);
  }

  /** What waits after a visit of user `uid` begins or ends. */
  ghost predicate MailWithout(cl: Table, fds: Fds, cl': Table, fds': Fds, uid: int)
    requires Shape(cl) && Shape(cl')
  {
    forall s, r {:trigger Mail(cl', fds', s, r)} :: Id(s) && Id(r) ==>
      Mail(cl', fds', s, r) == if s == uid || r == uid then None else Mail(cl, fds, s, r)
  }

  lemma MailAtVisit(cl: Table, fds: Fds, log: seq<Entry>, outs: seq<Outcome>, cl': Table, fds': Fds, uid: int, e: Entry,
                    o: Outcome)
    requires Shape(cl) && Shape(cl') && Mirror(cl) && Separate(cl, fds) && MailOk(cl, fds, log, outs) && |outs| == |log|
    requires Id(uid) && e.uid == uid && (e.Logout? || (e.Login? && !Live(cl, uid)))
    requires MailWithout(cl, fds, cl', fds', uid)
    ensures MailOk(cl', fds', log + [e], outs + [o])
  {
    hide Mail, Mirror, Separate;
    More(log, e);
    forall s, r | Id(s) && Id(r)
      ensures Mail(cl', fds', s, r) == Letter(outs + [o], Waiting(log + [e], s, r))
    {
      if e.Login? && (s == uid || r == uid) {
        NothingForAbsent(cl, fds, log, outs, s, r);
      } else {
        WaitingAgrees(cl, fds, log, outs, s, r);
      }
    }
  }

  /** The other users when user `uid` comes or goes. */
  lemma OthersAtVisit(cl: Table, fds: Fds, fdUid: map<int, int>, hist: seq<seq<Tick>>, next: nat, log: seq<Entry>,
                      outs: seq<Outcome>, cl': Table, fds': Fds, hist': seq<seq<Tick>>, uid: int, e: Entry, o: Outcome)
    requires Agrees(cl, fds, hist, next, log, outs) && Good(cl, fds, hist, next, 0) && TableOk(cl, fds, fdUid)
    requires Good(cl', fds', hist', next, 0) && Id(uid) && e.uid == uid && SocketsStay(fds, fds')
    requires forall v :: Id(v) && v != uid ==>
               hist'[v] == hist[v] && cl'[v] == cl[v].(sentFd := cl'[v].sentFd, sendFd := cl'[v].sendFd)
    ensures Shape(cl') && |hist'| == MAX_CLIENTS + 1
    ensures forall u {:trigger UserOk(cl', fds', hist', log + [e], outs + [o], u)} :: Id(u) && u != uid ==>
              UserOk(cl', fds', hist', log + [e], outs + [o], u)
  {
    assert |hist'| == MAX_CLIENTS + 1 && |outs| == |log|;
    forall u | Id(u) && u != uid
      ensures UserOk(cl', fds', hist', log + [e], outs + [o], u)
    {
      assert UserOk(cl, fds, hist, log, outs, u);
      if Live(cl, u) {
        GoodParts(cl, fds, hist, next, u);
        GoodParts(cl', fds', hist', next, u);
        SocketIn(cl, fds, fdUid, u);
      }
      OtherUser(cl, fds, hist, next, log, outs, cl', fds', hist', next, e, o, u);
    }
  }

  lemma NewUser(cl: Table, fds: Fds, hist: seq<seq<Tick>>, log: seq<Entry>, outs: seq<Outcome>, uid: int, conn: nat,
                o: Outcome)
    requires Shape(cl) && |hist| == MAX_CLIENTS + 1 && Live(cl, uid) && cl[uid].fd in fds
    requires fds[cl[uid].fd] == Socket(conn)
    requires cl[uid].nickname == NO_NAME && cl[uid].env == map["PATH" := "bin:."] && cl[uid].npipes == []
    requires hist[uid] == []
    ensures UserOk(cl, fds, hist, log + [Login(uid, cl[uid].fd, conn)], outs + [o], uid)
    ensures Leaked(log + [Login(uid, cl[uid].fd, conn)]) == Leaked(log)
  {
    More(log, Login(uid, cl[uid].fd, conn));
  }

  /** A new user and its entry in the log. */
  lemma LoginAgrees(cl: Table, fds: Fds, fdUid: map<int, int>, hist: seq<seq<Tick>>, next: nat, log: seq<Entry>,
                    outs: seq<Outcome>, cl': Table, fds': Fds, hist': seq<seq<Tick>>, uid: int, conn: nat)
    returns (o: Outcome)
    requires Agrees(cl, fds, hist, next, log, outs) && Sound(cl, fds, fdUid, hist, next, 0, None)
    requires Id(uid) && !Live(cl, uid) && Good(cl', fds', hist', next, 0) && Live(cl', uid)
    requires forall v :: Id(v) && v != uid ==> cl'[v] == cl[v] && hist'[v] == hist[v]
    requires cl'[uid].nickname == NO_NAME && cl'[uid].env == map["PATH" := "bin:."] && cl'[uid].npipes == []
    requires hist'[uid] == [] && MailWithout(cl, fds, cl', fds', uid) && Unowned(cl', fds') == Unowned(cl, fds)
    requires SocketsStay(fds, fds') && cl'[uid].fd in fds' && fds'[cl'[uid].fd] == Socket(conn)
    ensures Agrees(cl', fds', hist', next, log + [Login(uid, cl'[uid].fd, conn)], outs + [o])
  {
    hide Sound, UserOk, MailOk, Mail, Tracks, Chronicle, Unowned, Leaked, Good, TableOk, Mirror, Separate;
    SoundParts(cl, fds, fdUid, hist, next);
    GoodShape(cl, fds, hist, next);
    GoodShape(cl', fds', hist', next);
    var e := Login(uid, cl'[uid].fd, conn);
    o := VisitChronicle(log, outs, next, e, next);
    assert |outs| == |log| by { ChronicleSize(log, outs, next); }
    MailAtVisit(cl, fds, log, outs, cl', fds', uid, e, o);
    OthersAtVisit(cl, fds, fdUid, hist, next, log, outs, cl', fds', hist', uid, e, o);
    NewUser(cl', fds', hist', log, outs, uid, conn, o);
  }

  lemma NewSocket(fds: Fds, sock: int, conn: nat)
    requires sock !in fds
    ensures SocketsStay(fds, fds[sock := Socket(conn)])
  {
  }

  lemma ChronicleSize(log: seq<Entry>, outs: seq<Outcome>, next: nat)
    requires Chronicle(log, outs, next)
    ensures |outs| == |log|
  {
  }

  lemma GoneUser(cl: Table, fds: Fds, hist: seq<seq<Tick>>, log: seq<Entry>, outs: seq<Outcome>, uid: int, o: Outcome)
    requires Shape(cl) && |hist| == MAX_CLIENTS + 1 && Id(uid) && FreeSlot(cl[uid])
    ensures UserOk(cl, fds, hist, log + [Logout(uid)], outs + [o], uid)
    ensures Leaked(log + [Logout(uid)]) == Leaked(log) + 2 * |Ahead(log, uid)|
  {
    More(log, Logout(uid));
  }

  /** The descriptors that a logout loses are two for every number of commands that output is ahead. */
  lemma LostAtLogout(cl: Table, fds: Fds, hist: seq<seq<Tick>>, next: nat, log: seq<Entry>, outs: seq<Outcome>,
                     uid: int)
    requires Agrees(cl, fds, hist, next, log, outs) && Good(cl, fds, hist, next, 0) && Live(cl, uid)
    ensures |Unowned(cl, fds) + Ends(cl[uid].npipes)| == Leaked(log) + 2 * |Ahead(log, uid)|
  {
    UserParts(cl, fds, hist, next, log, outs, uid);
    GoodParts(cl, fds, hist, next, uid);
    EndsCount(cl, fds, uid);
    CountersSize(cl[uid].npipes);
    assert Distinct(cl[uid].npipes);
  }

  lemma {:induction false} CountersSize(pipes: seq<PipeCounter>)
    requires Distinct(pipes)
    ensures |Counters(pipes)| == |pipes|
  {
    if pipes != [] {
      var n := |pipes| - 1;
      var rest := pipes[..n];
      CountersSize(rest);
      LastCounter(pipes, n);
    }
  }

  lemma LastCounter(pipes: seq<PipeCounter>, n: nat)
    requires |pipes| == n + 1 && Distinct(pipes)
    ensures Distinct(pipes[..n]) && pipes[n].counter !in Counters(pipes[..n])
    ensures Counters(pipes) == Counters(pipes[..n]) + {pipes[n].counter}
  {
    var rest := pipes[..n];
    forall x
      ensures x in Counters(pipes) <==> x in Counters(rest) || x == pipes[n].counter
    {
      if i :| 0 <= i < n && pipes[i].counter == x {
        assert rest[i].counter == x;
      }
      if x in Counters(rest) {
        var i :| 0 <= i < n && rest[i].counter == x;
        assert pipes[i].counter == x;
      }
    }
  }

  lemma GoodShape(cl: Table, fds: Fds, hist: seq<seq<Tick>>, next: nat)
    requires Good(cl, fds, hist, next, 0)
    ensures Shape(cl)
  {
  }

  /** A user that has left, and the entry in the log. */
  lemma LogoutAgrees(cl: Table, fds: Fds, fdUid: map<int, int>, hist: seq<seq<Tick>>, next: nat, log: seq<Entry>,
                     outs: seq<Outcome>, cl': Table, fds': Fds, uid: int) returns (o: Outcome)
    requires Agrees(cl, fds, hist, next, log, outs) && Sound(cl, fds, fdUid, hist, next, 0, None) && Live(cl, uid)
    requires Good(cl', fds', hist, next, 0) && FreeSlot(cl'[uid])
    requires forall v :: Id(v) && v != uid ==> cl'[v] == cl[v].(sentFd := cl'[v].sentFd, sendFd := cl'[v].sendFd)
    requires MailWithout(cl, fds, cl', fds', uid) && Unowned(cl', fds') == Unowned(cl, fds) + Ends(cl[uid].npipes)
    requires SocketsStay(fds, fds')
    ensures Agrees(cl', fds', hist, next, log + [Logout(uid)], outs + [o])
  {
    hide Sound, UserOk, MailOk, Mail, Tracks, Chronicle, Unowned, Leaked, Ends, Good, TableOk, Mirror, Separate;
    SoundParts(cl, fds, fdUid, hist, next);
    GoodShape(cl, fds, hist, next);
    GoodShape(cl', fds', hist, next);
    var e := Logout(uid);
    o := VisitChronicle(log, outs, next, e, next);
    assert |outs| == |log| by { ChronicleSize(log, outs, next); }
    MailAtVisit(cl, fds, log, outs, cl', fds', uid, e, o);
    OthersAtVisit(cl, fds, fdUid, hist, next, log, outs, cl', fds', hist, uid, e, o);
    GoneUser(cl', fds', hist, log, outs, uid, o);
    LostAtLogout(cl, fds, hist, next, log, outs, uid);
  }

  /** The socket of a user that has left is closed. */
  lemma ClosedAgrees(cl: Table, fds: Fds, fdUid: map<int, int>, hist: seq<seq<Tick>>, next: nat, log: seq<Entry>,
                     outs: seq<Outcome>, sock: int)
    requires Agrees(cl, fds, hist, next, log, outs) && TableOk(cl, fds, fdUid)
    requires Good(cl, fds, hist, next, 0) && Good(cl, fds - {sock}, hist, next, 0) && sock in fdUid && fdUid[sock] == -1
    requires SameMail(cl, fds, cl, fds - {sock}) && Unowned(cl, fds - {sock}) == Unowned(cl, fds)
    ensures Agrees(cl, fds - {sock}, hist, next, log, outs)
  {
    hide Mail, Unowned, Tracks, Chronicle;
    assert MailOk(cl, fds - {sock}, log, outs);
    forall u | Id(u)
      ensures UserOk(cl, fds - {sock}, hist, log, outs, u)
    {
      assert UserOk(cl, fds, hist, log, outs, u);
      if Live(cl, u) {
        assert SlotOk(cl, fds, fdUid, u);
        GoodParts(cl, fds, hist, next, u);
        GoodParts(cl, fds - {sock}, hist, next, u);
        KeptElsewhere(cl[u].npipes, fds, fds - {sock}, hist[u], ErasedAt(log, DoneAt(log, u)), next, next);
      }
    }
  }

  /** At the start nobody is there, in the table and in the log. */
  lemma StartAgrees(cl: Table, fds: Fds, hist: seq<seq<Tick>>)
    requires Shape(cl) && |hist| == MAX_CLIENTS + 1 && Unowned(cl, fds) == {}
    requires forall u :: Id(u) ==> FreeSlot(cl[u])
    requires forall r, s :: Id(r) && Id(s) ==> Sent(cl, r, s) <= 0
    ensures Agrees(cl, fds, hist, 0, [], [])
  {
    assert AllDelivered([], []);
  }

  /** The log tells what happened. */
  ghost predicate Told(log: seq<Entry>, outs: seq<Outcome>) {
    exists next: nat :: Chronicle(log, outs, next)
  }

  lemma Tells(log: seq<Entry>, outs: seq<Outcome>, next: nat)
    requires Chronicle(log, outs, next)
    ensures Told(log, outs)
  {
  }

  lemma AgreesTells(cl: Table, fds: Fds, hist: seq<seq<Tick>>, next: nat, log: seq<Entry>, outs: seq<Outcome>)
    requires Agrees(cl, fds, hist, next, log, outs)
    ensures Told(log, outs)
  {
  }

  // ------------------------------------------------------------------ requests

  /** The user of a socket in the log is the one of the server's map. */
  lemma UserAgrees(cl: Table, fds: Fds, fdUid: map<int, int>, hist: seq<seq<Tick>>, next: nat, log: seq<Entry>,
                   outs: seq<Outcome>, sock: int)
    requires Agrees(cl, fds, hist, next, log, outs) && TableOk(cl, fds, fdUid)
    ensures UserFrom(log, sock, 1) == if sock in fdUid && Live(cl, fdUid[sock]) then fdUid[sock] else 0
  {
    var u := UserFrom(log, sock, 1);
    if u != 0 {
      LiveAgrees(cl, fds, hist, next, log, outs, u);
      assert SlotOk(cl, fds, fdUid, u);
    } else if sock in fdUid && Live(cl, fdUid[sock]) {
      LiveAgrees(cl, fds, hist, next, log, outs, fdUid[sock]);
    }
  }

  lemma FreeAgrees(cl: Table, fds: Fds, hist: seq<seq<Tick>>, next: nat, log: seq<Entry>, outs: seq<Outcome>)
    requires Agrees(cl, fds, hist, next, log, outs)
    ensures var u := FreeFrom(log, 1);
      && (u <= MAX_CLIENTS ==> !Live(cl, u))
      && forall v :: 1 <= v < u ==> Live(cl, v)
  {
    forall v | Id(v)
      ensures Live(cl, v) <==> LiveIn(log, v)
    {
      LiveAgrees(cl, fds, hist, next, log, outs, v);
    }
  }

  /** A user has a letter to itself in the log exactly if it has a pipe to itself in the table. */
  lemma SelfAgrees(cl: Table, fds: Fds, log: seq<Entry>, outs: seq<Outcome>, u: int)
    requires Shape(cl) && Mirror(cl) && Separate(cl, fds) && MailOk(cl, fds, log, outs) && |outs| == |log| && Id(u)
    ensures Sent(cl, u, u) > 0 <==> Waiting(log, u, u).Some?
  {
    MailIsSent(cl, fds, u, u);
    WaitingAgrees(cl, fds, log, outs, u, u);
  }

  lemma SelfWaits(cl: Table, fds: Fds, hist: seq<seq<Tick>>, next: nat, log: seq<Entry>, outs: seq<Outcome>, u: int)
    requires Agrees(cl, fds, hist, next, log, outs) && Mirror(cl) && Separate(cl, fds) && Id(u)
    ensures Shape(cl) && (Sent(cl, u, u) > 0 <==> Waiting(log, u, u).Some?)
  {
    SelfAgrees(cl, fds, log, outs, u);
  }
}
