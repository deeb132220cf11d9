/**
 The table of np_project2/np_single_proc.cpp beyond its pipes: slots, names and environments, and what logins
 and logouts do to it.
 */
module ServerTable {
  import opened Descriptors
  import opened Sessions
  import opened UserPipes

  // ------------------------------------------------------------------ the client table

  predicate FreeSlot(c: Client) {
    c.uid == -1 && c.fd == -1 && c.nickname == "" && c.npipes == [] && c.env == map[]
  }

  /** Slots are free or belong to a user whose socket `fdUid` maps to it. */
  ghost predicate SlotOk(cl: Table, fds: Fds, fdUid: map<int, int>, i: int)
    requires Shape(cl) && Id(i)
  {
    FreeSlot(cl[i]) ||
    (cl[i].uid == i && cl[i].fd in fds && fds[cl[i].fd].Socket? && cl[i].fd in fdUid && fdUid[cl[i].fd] == i)
  }

  /** `fdUid` is the inverse of the sockets of the users that are logged in. */
  ghost predicate Inverse(cl: Table, fdUid: map<int, int>)
    requires Shape(cl)
  {
    forall fd {:trigger fdUid[fd]} :: fd in fdUid ==>
      fdUid[fd] == -1 || (Live(cl, fdUid[fd]) && cl[fdUid[fd]].fd == fd)
  }

  /** Two users have one name only if it is the one given at login. */
  ghost predicate NamesApart(cl: Table)
    requires Shape(cl)
  {
    forall i, j :: Live(cl, i) && Live(cl, j) && cl[i].nickname == cl[j].nickname && i != j ==>
      cl[i].nickname == NO_NAME
  }

  ghost predicate TableOk(cl: Table, fds: Fds, fdUid: map<int, int>) {
    && Shape(cl) && Inverse(cl, fdUid) && NamesApart(cl)
    && forall i {:trigger SlotOk(cl, fds, fdUid, i)} :: Id(i) ==> SlotOk(cl, fds, fdUid, i)
  }

  lemma SlotsAre(cl: Table, fds: Fds, fdUid: map<int, int>)
    requires TableOk(cl, fds, fdUid)
    ensures forall i :: Id(i) ==> (Live(cl, i) <==> cl[i].uid != -1)
  {
    forall i | Id(i)
      ensures Live(cl, i) <==> cl[i].uid != -1
    {
      assert SlotOk(cl, fds, fdUid, i);
    }
  }

  /** The table part is not concerned with pipes and their descriptors. */
  lemma TableFrame(cl: Table, fds: Fds, fdUid: map<int, int>, cl': Table, fds': Fds)
    requires TableOk(cl, fds, fdUid) && Shape(cl')
    requires forall i {:trigger cl'[i]} :: Id(i) ==>
               && cl'[i].uid == cl[i].uid && cl'[i].fd == cl[i].fd && cl'[i].nickname == cl[i].nickname
               && (cl[i].uid == -1 ==> cl'[i].npipes == cl[i].npipes && cl'[i].env == cl[i].env)
    requires forall fd :: fd in fds && fds[fd].Socket? ==> fd in fds' && fds'[fd] == fds[fd]
    ensures TableOk(cl', fds', fdUid)
  {
    forall i | Id(i)
      ensures SlotOk(cl', fds', fdUid, i)
    {
      assert SlotOk(cl, fds, fdUid, i);
    }
    forall i | Id(i)
      ensures Live(cl', i) == Live(cl, i)
    {
    }
  }

  ghost predicate NameTaken(cl: Table, name: string)
    requires Shape(cl)
  {
    exists i :: Id(i) && cl[i].nickname == name
  }

  /** `setenv` refuses other names. */
  predicate ValidName(name: string) {
    name != "" && '=' !in name
  }

  function Exported(env: map<string, string>): map<string, string> {
    map k | k in env && ValidName(k) :: env[k]
  }

  // ------------------------------------------------------------------ logins, logouts, names

  lemma LoginKeepsTable(cl: Table, cl': Table, fds: Fds, fds': Fds, fdUid: map<int, int>, u: int, conn: nat)
    requires TableOk(cl, fds, fdUid) && Id(u) && cl[u].uid == -1 && Shape(cl')
    requires cl' == cl[u := cl'[u]] && cl'[u].uid == u && cl'[u].nickname == NO_NAME
    requires cl'[u].fd !in fds && fds' == fds[cl'[u].fd := Socket(conn)]
    ensures TableOk(cl', fds', fdUid[cl'[u].fd := u])
  {
    var fdUid' := fdUid[cl'[u].fd := u];
    forall i | Id(i)
      ensures SlotOk(cl', fds', fdUid', i)
    {
      assert SlotOk(cl, fds, fdUid, i);
    }
    forall fd | fd in fdUid'
      ensures fdUid'[fd] == -1 || (Live(cl', fdUid'[fd]) && cl'[fdUid'[fd]].fd == fd)
    {
    }
  }

  lemma LogoutKeepsTable(cl: Table, cl': Table, fds: Fds, fds': Fds, fdUid: map<int, int>, u: int)
    requires TableOk(cl, fds, fdUid) && Live(cl, u) && Shape(cl') && FreeSlot(cl'[u])
    requires forall v :: Id(v) && v != u ==>
               cl'[v] == cl[v].(sentFd := cl'[v].sentFd, sendFd := cl'[v].sendFd)
    requires forall fd :: fd in fds && fds[fd].Socket? ==> fd in fds' && fds'[fd] == fds[fd]
    ensures TableOk(cl', fds', fdUid[cl[u].fd := -1])
  {
    var fdUid' := fdUid[cl[u].fd := -1];
    assert SlotOk(cl, fds, fdUid, u);
    forall i | Id(i)
      ensures SlotOk(cl', fds', fdUid', i)
    {
      assert SlotOk(cl, fds, fdUid, i);
    }
    forall fd | fd in fdUid'
      ensures fdUid'[fd] == -1 || (Live(cl', fdUid'[fd]) && cl'[fdUid'[fd]].fd == fd)
    {
    }
  }

  lemma RenameKeepsTable(cl: Table, fds: Fds, fdUid: map<int, int>, u: int, name: string)
    requires TableOk(cl, fds, fdUid) && Live(cl, u)
    requires forall i :: Id(i) ==> cl[i].nickname != name
    ensures TableOk(cl[u := cl[u].(nickname := name)], fds, fdUid)
  {
    var cl' := cl[u := cl[u].(nickname := name)];
    forall i | Id(i)
      ensures SlotOk(cl', fds, fdUid, i)
    {
      assert SlotOk(cl, fds, fdUid, i);
    }
    forall i | Id(i)
      ensures Live(cl', i) == Live(cl, i)
    {
    }
  }

  /** The table while the pipes of user `u` are being cleared, done with the users below `n`. */
  ghost predicate Clearing(cl: Table, cl': Table, u: int, n: int)
    requires Shape(cl) && Id(u)
  {
    && Shape(cl')
    && (forall v :: 0 <= v <= MAX_CLIENTS ==> cl'[v] == cl[v].(sentFd := cl'[v].sentFd, sendFd := cl'[v].sendFd))
    && (forall r, s :: Id(r) && Id(s) && (s != u || r >= n) ==> Sent(cl', r, s) == Sent(cl, r, s))
    && (forall r, s :: Id(r) && Id(s) && (r != u || s >= n) ==> Send(cl', s, r) == Send(cl, s, r))
    && (forall k :: Id(k) && k < n && k != u ==> Sent(cl', k, u) <= 0 && Send(cl', k, u) <= 0)
  }

  /** User pipes have different read ends, all of them open. */
  lemma ReadEndsApart(cl: Table, fds: Fds)
    requires Shape(cl) && Separate(cl, fds)
    ensures forall r, s :: Id(r) && Id(s) && Sent(cl, r, s) > 0 ==> Sent(cl, r, s) in fds
    ensures forall r, s, r', s' | Id(r) && Id(s) && Id(r') && Id(s') ::
              Sent(cl, r, s) > 0 && Sent(cl, r, s) == Sent(cl, r', s') ==> r == r' && s == s'
  {
    forall r, s | Id(r) && Id(s) && Sent(cl, r, s) > 0
      ensures Sent(cl, r, s) in fds
    {
      assert Has(cl, UserPipe(r, s));
    }
    forall r, s, r', s' | Id(r) && Id(s) && Id(r') && Id(s') && Sent(cl, r, s) > 0 && Sent(cl, r, s) == Sent(cl, r', s')
      ensures r == r' && s == s'
    {
      assert Has(cl, UserPipe(r, s)) && Has(cl, UserPipe(r', s'));
    }
  }

  /** What a turn of the loop closes is still open, except for a pipe from the user to itself. */
  lemma ClearStep(cl: Table, fds: Fds, u: int, i: int)
    requires Shape(cl) && Mirror(cl) && Separate(cl, fds) && Id(u) && Id(i)
    ensures Send(cl, u, i) > 0 <==> Sent(cl, i, u) > 0
    ensures Sent(cl, u, i) > 0 ==> Sent(cl, u, i) in fds && Sent(cl, u, i) !in Incident(cl, u, i)
    ensures Sent(cl, i, u) > 0 ==> Sent(cl, i, u) in fds && Sent(cl, i, u) !in Incident(cl, u, i)
    ensures Sent(cl, i, u) > 0 && Sent(cl, u, i) == Sent(cl, i, u) ==> i == u
  {
    ReadEndsApart(cl, fds);
  }

  /** The table after a turn of the loop that does not end the server. */
  lemma ClearingStep(cl: Table, cl': Table, u: int, i: int)
    requires Shape(cl) && Mirror(cl) && Id(u) && Id(i) && Clearing(cl, cl', u, i)
    requires i != u || Sent(cl, u, u) <= 0
    ensures var a := if Sent(cl, u, i) > 0 then SetSend(cl', i, u, -1) else cl';
            var b := if Send(cl, u, i) > 0 then SetSent(a, i, u, -1) else a;
            Clearing(cl, b, u, i + 1)
  {
    assert Sent(cl, u, i) > 0 <==> Send(cl, i, u) > 0;
    assert Sent(cl, i, u) > 0 <==> Send(cl, u, i) > 0;
  }

  lemma IncidentStep(cl: Table, u: int, i: int)
    requires Shape(cl) && Id(u) && Id(i)
    ensures Incident(cl, u, i + 1) == Incident(cl, u, i) + (if Sent(cl, u, i) > 0 then {Sent(cl, u, i)} else {})
                                      + (if Sent(cl, i, u) > 0 then {Sent(cl, i, u)} else {})
  {
  }

  /** What a turn of the loop finds and leaves, given what it has done so far. */
  lemma ClearTurn(cl: Table, fds: Fds, cl': Table, u: int, i: int)
    requires Shape(cl) && Mirror(cl) && Separate(cl, fds) && Id(u) && Id(i) && Clearing(cl, cl', u, i)
    ensures Sent(cl', u, i) == Sent(cl, u, i) && Send(cl', u, i) == Send(cl, u, i)
    ensures Sent(SetSend(cl', i, u, -1), i, u) == Sent(cl', i, u) == Sent(cl, i, u)
    ensures Send(cl, u, i) > 0 <==> Sent(cl, i, u) > 0
    ensures var rest := fds - Incident(cl, u, i);
      && (Sent(cl, u, i) > 0 ==> Sent(cl, u, i) in rest) && (Sent(cl, i, u) > 0 ==> Sent(cl, i, u) in rest)
      && fds - Incident(cl, u, i + 1) == rest - (if Sent(cl, u, i) > 0 then {Sent(cl, u, i)} else {})
                                              - (if Send(cl, u, i) > 0 then {Sent(cl, i, u)} else {})
    ensures Sent(cl, i, u) > 0 && Sent(cl, u, i) == Sent(cl, i, u) ==> i == u
    ensures i != u || Sent(cl, u, u) <= 0 ==>
              var a := if Sent(cl, u, i) > 0 then SetSend(cl', i, u, -1) else cl';
              var b := if Send(cl, u, i) > 0 then SetSent(a, i, u, -1) else a;
              Clearing(cl, b, u, i + 1)
  {
    ClearStep(cl, fds, u, i);
    IncidentStep(cl, u, i);
    hide Separate, Mirror, Incident;
    assert fds - Incident(cl, u, i + 1) ==
           fds - Incident(cl, u, i) - (if Sent(cl, u, i) > 0 then {Sent(cl, u, i)} else {})
                                    - (if Send(cl, u, i) > 0 then {Sent(cl, i, u)} else {});
    if i != u || Sent(cl, u, u) <= 0 {
      ClearingStep(cl, cl', u, i);
    }
  }

  /** One turn of the loop, as the code does it: it ends the server if a descriptor it closes is not open. */
  ghost predicate PairStep(cl: Table, fds: Fds, cl': Table, fds': Fds, u: int, i: int, crashed: bool)
    requires Shape(cl) && Id(u) && Id(i)
  {
    var first, second := Sent(cl, u, i) > 0, Send(cl, u, i) > 0;
    var a := if first then SetSend(cl, i, u, -1) else cl;
    var rest := if first then fds - {Sent(cl, u, i)} else fds;
    && (crashed <==> (first && Sent(cl, u, i) !in fds) || (second && Sent(cl, i, u) !in rest))
    && (!crashed ==>
          && cl' == (if second then SetSent(a, i, u, -1) else a)
          && fds' == (if second then rest - {Sent(cl, i, u)} else rest))
  }

  lemma ClearStart(cl: Table, fds: Fds, u: int)
    requires Shape(cl) && Id(u)
    ensures Clearing(cl, cl, u, 1) && fds == fds - Incident(cl, u, 1)
  {
  }

  /** What a turn of the loop does to a table in order. */
  lemma PairTurn(cl: Table, fds: Fds, cl1: Table, fds1: Fds, cl': Table, fds': Fds, u: int, i: int, crashed: bool)
    requires Shape(cl) && Mirror(cl) && Separate(cl, fds) && Id(u) && Id(i) && Clearing(cl, cl1, u, i)
    requires Shape(cl1) && fds1 == fds - Incident(cl, u, i) && PairStep(cl1, fds1, cl', fds', u, i, crashed)
    ensures crashed <==> i == u && Sent(cl, u, u) > 0
    ensures !crashed ==> Clearing(cl, cl', u, i + 1) && fds' == fds - Incident(cl, u, i + 1)
  {
    ClearTurn(cl, fds, cl1, u, i);
    var rest := fds - Incident(cl, u, i);
    hide Mirror, Separate, Clearing, Incident;
    if Send(cl, u, i) > 0 && i != u {
      assert Sent(cl, i, u) in (if Sent(cl, u, i) > 0 then rest - {Sent(cl, u, i)} else rest);
    }
  }
}
