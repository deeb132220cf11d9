/** What the functions of a log say, in terms of its entries and the fields of its commands alone. */
module SessionLaws {
  import opened Commands
  import opened Options
  import opened Sessions

  // ------------------------------------------------------------------ users

  /** User `u` has come with entry `k`, and is still there. */
  predicate CameAt(log: seq<Entry>, u: int, k: int) {
    0 <= k < |log| && log[k].Login? && log[k].uid == u && forall i :: k < i < |log| && log[i].uid == u ==> log[i].Did?
  }

  lemma {:induction false} LoginMeans(log: seq<Entry>, u: int, k: nat)
    ensures LoginAt(log, u) == Some(k) <==> CameAt(log, u, k)
  {
    if log != [] {
      LoginMeans(Before(log), u, k);
      CameStep(log, u, k);
      hide CameAt;
    }
  }

  lemma CameStep(log: seq<Entry>, u: int, k: int)
    requires log != []
    ensures CameAt(log, u, k) <==>
              if Last(log).uid != u || Last(log).Did? then CameAt(Before(log), u, k)
              else Last(log).Login? && k == |log| - 1
  {
    var rest, n := Before(log), |log| - 1;
    assert log[n] == Last(log) && forall i :: 0 <= i < n ==> log[i] == rest[i];
  }

  /** User `u` is there, on the socket `sock`. */
  ghost predicate On(log: seq<Entry>, u: int, sock: int) {
    exists k :: CameAt(log, u, k) && log[k].sock == sock
  }

  lemma OnIs(log: seq<Entry>, u: int, sock: int)
    ensures On(log, u, sock) <==> SockOf(log, u) == Some(sock)
  {
    if On(log, u, sock) {
      var k: nat :| CameAt(log, u, k) && log[k].sock == sock;
      LoginMeans(log, u, k);
    } else if SockOf(log, u) == Some(sock) {
      LoginMeans(log, u, LoginAt(log, u).value);
    }
  }

  ghost predicate There(log: seq<Entry>, u: int) {
    exists k :: CameAt(log, u, k)
  }

  lemma ThereIs(log: seq<Entry>, u: int)
    ensures There(log, u) <==> LiveIn(log, u)
  {
    if k: nat :| CameAt(log, u, k) {
      LoginMeans(log, u, k);
    } else if LiveIn(log, u) {
      LoginMeans(log, u, LoginAt(log, u).value);
    }
  }

  // ------------------------------------------------------------------ letters

  /** None of the six commands that the server carries out itself. */
  predicate IsExternal(c: Command) {
    |c.args| > 0 ==> c.args[0] !in {"setenv", "printenv", "who", "tell", "name", "yell"}
  }

  /** Nothing but `>N` says where the output goes. */
  predicate OnlyTo(c: Command, r: int) {
    !c.hasPipe && !c.hasExclamation && c.filename == "" && c.userOut == r && r > 0
  }

  /** The output of command `j` waits at user `r`, sent by user `s`. */
  predicate LetterWaits(log: seq<Entry>, s: int, r: int, j: int) {
    && 0 <= j < |log| && log[j].Did? && log[j].forks && log[j].uid == s && OnlyTo(log[j].c, r)
    && forall i :: j < i < |log| ==>
         match log[i]
         case Login(_, _, _) => true
         case Did(u, c, forks) =>
           && !(forks && u == s && OnlyTo(c, r))
           && !(IsExternal(c) && u == r && c.userIn == s && s > 0)
         case Logout(u) => u != s && u != r
  }

  lemma LetterMeans(log: seq<Entry>, s: int, r: int, j: nat)
    ensures Waiting(log, s, r) == Some(j) <==> LetterWaits(log, s, r, j)
  {
    WaitingMeans(log, s, r, j);
  }

  lemma NoLetter(log: seq<Entry>, s: int, r: int)
    ensures Waiting(log, s, r) == None <==> forall j: nat :: !LetterWaits(log, s, r, j)
  {
    hide LetterWaits;
    if Waiting(log, s, r).Some? {
      LetterMeans(log, s, r, Waiting(log, s, r).value);
    } else {
      forall j: nat
        ensures !LetterWaits(log, s, r, j)
      {
        LetterMeans(log, s, r, j);
      }
    }
  }

  /** An external command with `<N` takes what waits from user N, and nothing else takes anything. */
  lemma TookMeans(log: seq<Entry>, k: nat, j: nat)
    requires k < |log|
    ensures Took(log, k) == Some(j) <==>
              && log[k].Did? && IsExternal(log[k].c) && log[k].c.userIn > 0
              && LetterWaits(log[..k], log[k].c.userIn, log[k].uid, j)
  {
    if log[k].Did? {
      LetterMeans(log[..k], log[k].c.userIn, log[k].uid, j);
    }
  }

  // ------------------------------------------------------------------ environments and names

  /** `setenv x v` with exactly two arguments. */
  predicate Sets(e: Entry, x: string) {
    e.Did? && |e.c.args| == 3 && e.c.args[0] == "setenv" && e.c.args[1] == x
  }

  /** A variable has the value that the user gave it last in its session; at the login `PATH` is all there is. */
  lemma {:induction false} EnvMeans(log: seq<Entry>, u: int, x: string, k: nat)
    requires k < |log| && log[k].uid == u && (log[k].Login? || Sets(log[k], x))
    requires forall i :: k < i < |log| && log[i].uid == u ==> log[i].Did? && !Sets(log[i], x)
    ensures log[k].Login? ==> (x in EnvOf(log, u) <==> x == "PATH") && (x == "PATH" ==> EnvOf(log, u)[x] == "bin:.")
    ensures log[k].Did? ==> x in EnvOf(log, u) && EnvOf(log, u)[x] == log[k].c.args[2]
  {
    if k < |log| - 1 {
      EnvMeans(Before(log), u, x, k);
      assert log[|log| - 1] == Last(log);
    }
  }

  /** Entry `k` is `name` with a name that no user has then. */
  predicate Takes(log: seq<Entry>, k: nat)
    requires k < |log|
  {
    && log[k].Did? && |log[k].c.args| >= 2 && log[k].c.args[0] == "name"
    && forall v :: 1 <= v <= 30 ==> NameOf(log[..k], v) != log[k].c.args[1]
  }

  /** A user has the name that it took last in its session, and no other name before. */
  lemma {:induction false} NameMeans(log: seq<Entry>, u: int, k: nat)
    requires k < |log| && log[k].uid == u && (log[k].Login? || Takes(log, k))
    requires forall i :: k < i < |log| && log[i].uid == u ==> log[i].Did? && !Takes(log, i)
    ensures NameOf(log, u) == if log[k].Login? then "(no name)" else log[k].c.args[1]
  {
    var n := |log| - 1;
    assert log[n] == Last(log) && log[..n] == Before(log);
    if k < n {
      var rest := Before(log);
      assert forall i :: 0 <= i < n ==> log[i] == rest[i] && log[..i] == rest[..i];
      NameMeans(rest, u, k);
    }
  }

  // ------------------------------------------------------------------ numbered pipes

  /** A built-in other than `tell` and `yell`, or a command that does not start and does not only send to a user. */
  predicate LeavesDue(e: Entry) {
    && e.Did?
    && if IsExternal(e.c) then
         !e.forks && (e.c.hasPipe || e.c.hasExclamation || e.c.filename != "" || e.c.userOut == 0)
       else e.c.args[0] !in {"tell", "yell"}
  }

  /** Command `j` of a session that goes on has put its output into a numbered pipe. */
  predicate PutBy(log: seq<Entry>, u: int, j: nat) {
    && j < |log| && log[j].Did? && log[j].uid == u && log[j].forks && (log[j].c.hasPipe || log[j].c.hasExclamation)
    && Stays(log, u, j, |log|)
  }

  /** How many commands ahead the output of `j` is due. */
  function ToGo(log: seq<Entry>, u: int, j: nat): int
    requires PutBy(log, u, j)
  {
    (if log[j].c.pipeCount > 0 then log[j].c.pipeCount else 1) - Behind(log, u, j, |log| - 1)
  }

  /**
   Numbered pipes are there for output that is still to come, and for output that came at a command that left it.
   */
  ghost predicate Pending(log: seq<Entry>, u: int, n: int) {
    exists j: nat :: PendingBy(log, u, n, j)
  }

  ghost predicate PendingBy(log: seq<Entry>, u: int, n: int, j: nat) {
    PutBy(log, u, j) && ToGo(log, u, j) == n && (n <= 0 ==> exists i: nat :: NumberedTo(log, j, i) && LeavesDue(log[i]))
  }

  lemma {:induction false} AheadMeans(log: seq<Entry>, u: int, n: int)
    ensures n in Ahead(log, u) <==> Pending(log, u, n)
  {
    if log != [] {
      hide Pending, ErasesDue, DelayOf;
      PendingStep(log, u, n);
      AheadMeans(Before(log), u, n);
      AheadMeans(Before(log), u, n + 1);
    }
  }

  lemma PendingStep(log: seq<Entry>, u: int, n: int)
    requires log != []
    ensures var rest, e := Before(log), Last(log);
      Pending(log, u, n) <==>
        if e.uid != u then Pending(rest, u, n)
        else e.Did? && (DelayOf(e.c, e.forks) == Some(n) ||
                        (Pending(rest, u, n + 1) && (n == 0 ==> !ErasesDue(e.c, e.forks))))
  {
    var rest, e, last := Before(log), Last(log), |log| - 1;
    NewOutput(log, u, n);
    forall j: nat | j != last
      ensures PendingBy(log, u, n, j) <==>
                if e.uid != u then PendingBy(rest, u, n, j)
                else e.Did? && PendingBy(rest, u, n + 1, j) && (n == 0 ==> !ErasesDue(e.c, e.forks))
    {
      OldOutput(log, u, n, j);
    }
    var m := if e.uid != u then n else n + 1;
    assert !PendingBy(rest, u, m, last);
    hide PendingBy, ErasesDue, DelayOf;
    if k: nat :| PendingBy(rest, u, m, k) {
      assert PendingBy(log, u, n, k) <==> e.uid != u || (e.Did? && (n == 0 ==> !ErasesDue(e.c, e.forks)));
    }
  }

  lemma NewOutput(log: seq<Entry>, u: int, n: int)
    requires log != []
    ensures PendingBy(log, u, n, |log| - 1) <==>
              Last(log).uid == u && Last(log).Did? && DelayOf(Last(log).c, Last(log).forks) == Some(n)
  {
  }

  lemma OldOutput(log: seq<Entry>, u: int, n: int, j: nat)
    requires log != [] && j != |log| - 1
    ensures var rest, e := Before(log), Last(log);
      PendingBy(log, u, n, j) <==>
        if e.uid != u then PendingBy(rest, u, n, j)
        else e.Did? && PendingBy(rest, u, n + 1, j) && (n == 0 ==> !ErasesDue(e.c, e.forks))
  {
    var rest, e, last := Before(log), Last(log), |log| - 1;
    if j < last {
      StaysMore(log, u, j);
      SameBehind(rest, log, u, j, last - 1);
      forall i: nat | i < last
        ensures NumberedTo(log, j, i) <==> NumberedTo(rest, j, i)
        ensures Behind(log, u, j, i) <= Behind(log, u, j, last - 1)
      {
        SameNumbered(rest, log, j, i);
        BehindGrows(log, u, j, i, last - 1);
      }
      assert e.uid == u && e.Did? ==> LeavesDue(e) == !ErasesDue(e.c, e.forks);
      hide Stays, LeavesDue, ErasesDue;
      if PutBy(log, u, j) && ToGo(log, u, j) == 0 && e.uid == u {
        assert NumberedTo(log, j, last);
      }
    }
  }

  lemma SameNumbered(log: seq<Entry>, more: seq<Entry>, j: nat, i: nat)
    requires log <= more && i < |log|
    ensures NumberedTo(log, j, i) <==> NumberedTo(more, j, i)
  {
    if j < i {
      SameBehind(log, more, log[i].uid, j, i);
      assert Stays(log, log[i].uid, j, i) <==> Stays(more, log[i].uid, j, i);
      hide Stays;
    }
  }

  lemma {:induction false} BehindGrows(log: seq<Entry>, u: int, j: nat, i: nat, k: nat)
    requires i <= k < |log|
    ensures Behind(log, u, j, i) <= Behind(log, u, j, k)
  {
    if i < k {
      BehindGrows(log, u, j, i, k - 1);
    }
  }
}
