/**
 The five functions of np_project2/semaphore.cpp as a process runs them, while the other processes do
 anything disciplined between its system calls.
 */
module SemaphoreCalls {
  import opened Sums
  import opened Semaphore
  import opened SemaphoreLaws
  import opened SemaphoreSafety

  function Max(x: int, y: int): int {
    if x < y then y else x
  }

  /** What the other processes leave alone of process `p`. */
  ghost predicate Unmoved(s: State, s': State, p: nat) {
    && p < |s.procs| <= |s'.procs|
    && s'.procs[p].(adj := ZERO) == s.procs[p].(adj := ZERO)
    && s.nextGen <= s'.nextGen
    && (!Alive(s.cur, s.procs[p].id) ==> !Alive(s'.cur, s.procs[p].id))
    && (Inside(s.cur, s.procs[p]) ==> Alive(s'.cur, s.procs[p].id))
    && References(s') <= Max(MAX_CLIENTS, References(s))
  }

  /** A step of another process that keeps to the rules and to MAX_CLIENTS references. */
  predicate Foreign(s: State, e: Event, p: nat, initval: int) {
    && (e.a.Spawn? || e.p != p)
    && Disciplined(s, e)
    && Step(s, e, initval).Some?
    && References(Step(s, e, initval).value) <= Max(MAX_CLIENTS, References(s))
  }

  lemma ForeignStep(s: State, e: Event, p: nat, initval: int)
    requires Inv(s, initval) && 0 <= initval <= SEMVMX && p < |s.procs| && Foreign(s, e, p, initval)
    ensures var s' := Step(s, e, initval).value; Inv(s', initval) && Unmoved(s, s', p)
  {
    var s' := Step(s, e, initval).value;
    StepKeepsInv(s, e, initval);
    if e.a == Advance && s.procs[e.p].pc == CloseRm {
      if Inside(s.cur, s.procs[p]) && Alive(s.cur, s.procs[e.p].id) {
        OnlyInside(s, initval, p, e.p);
      }
    } else if e.a == Advance {
      OthersCall(s, e.p, p, initval);
    }
  }

  /** A call of another process that does not remove the set. */
  lemma OthersCall(s: State, i: nat, p: nat, initval: int)
    requires Inv(s, initval) && p < |s.procs| && i < |s.procs| && i != p
    requires Call(s, i, initval).Some? && s.procs[i].pc != CloseRm
    ensures var s' := Call(s, i, initval).value;
            && |s'.procs| == |s.procs| && s.nextGen <= s'.nextGen
            && s'.procs[p].(adj := ZERO) == s.procs[p].(adj := ZERO)
            && (Alive(s.cur, s.procs[p].id) <==> Alive(s'.cur, s.procs[p].id))
  {
  }

  /** Changing one process without touching its reference count changes no count. */
  lemma SameReferences(s: State, s': State, p: nat)
    requires p < |s.procs| && |s'.procs| == |s.procs| && s'.procs == s.procs[p := s'.procs[p]]
    requires s'.procs[p].refs == s.procs[p].refs
    ensures References(s') == References(s)
  {
    SumUpdate(s.procs, p, s'.procs[p], RefW());
  }

  /** What a call does to its own process, as the code sees it. */
  ghost predicate Did(s: State, s': State, p: nat)
    requires p < |s.procs|
  {
    && p < |s'.procs|
    && var me, me' := s.procs[p], s'.procs[p];
    && (me.pc != CreateGet && me.pc != OpenGet ==> me'.id == me.id)
    && (me.pc in {CreateGet, CreateLock, CloseRead} ==> References(s') == References(s))
    && (me.pc == CloseDec ==> References(s') == References(s) - 1)
    && (me.pc !in {CreateEnd, OpenDec, CloseDec} ==> me'.refs == me.refs)
    && (me.pc !in {CreateGet, CloseRm} ==> (Alive(s'.cur, me.id) <==> Alive(s.cur, me.id)))
    && match me.pc
       case CreateGet => me'.pc == CreateLock && Alive(s'.cur, me'.id)
       case CreateLock => me'.pc == if Alive(s.cur, me.id) then CreateRead else CreateGet
       case CreateRead => me'.pc in {CreateSet0, CreateEnd}
       case CreateSet0 => me'.pc == CreateSet1
       case CreateSet1 => me'.pc == CreateEnd
       case CreateEnd => me'.pc == Out && me'.refs == me.refs + if Alive(s.cur, me.id) then 1 else 0
       case OpenGet => me'.pc == (if s.cur.Set? then OpenDec else Out) && (s.cur.Set? ==> me'.id == s.cur.gen)
       case OpenDec => me'.pc == Out && me'.refs == me.refs + if Alive(s.cur, me.id) then 1 else 0
       case CloseDec => me'.pc == CloseRead && me'.refs == me.refs - 1
       case CloseRead => me'.pc == if Alive(s.cur, me.id) && References(s) == 0 then CloseRm else CloseUnlock
       case CloseRm => me'.pc == Out && (Alive(s.cur, me.id) ==> s'.cur.NoSet? && References(s') == 0)
       case CloseUnlock => me'.pc == Out
       case InWait => me'.pc == Out && me'.inCS
       case InSignal => me'.pc == Out && !me'.inCS
       case _ => false
  }

  /** A process with a reference works on the set that is there. */
  lemma HolderAlive(s: State, p: nat, initval: int)
    requires Inv(s, initval) && p < |s.procs| && s.procs[p].refs > 0
    ensures Alive(s.cur, s.procs[p].id) && s.cur.init && s.procs[p].id >= 0
  {
  }

  /** What the kernel would give back for a process that holds a token, or does not. */
  lemma TokenHeld(s: State, p: nat, initval: int)
    requires Inv(s, initval) && p < |s.procs|
    ensures s.procs[p].adj.value == if Alive(s.cur, s.procs[p].id) && s.procs[p].inCS then 1 else 0
  {
  }

  /** A creator behind its lock waits only for a reference, and does this to a set that is there. */
  lemma CreateDoes(s: State, p: nat, initval: int)
    requires p < |s.procs| && Ready(s, p, s.procs[p].pc, initval)
    requires s.procs[p].pc in {CreateRead, CreateSet0, CreateSet1, CreateEnd}
    ensures var me, s' := s.procs[p], Call(s, p, initval);
      && (s'.None? <==> me.pc == CreateEnd && Alive(s.cur, me.id) && s.cur.vals.procs == 0)
      && (s'.Some? && Alive(s.cur, me.id) ==>
            var v := s.cur.vals;
            && p < |s'.value.procs| && s'.value.procs[p].id == me.id
            && match me.pc
               case CreateRead =>
                 && v.procs >= 0 && s'.value.cur == s.cur
                 && s'.value.procs[p].pc == if v.procs == 0 then CreateSet0 else CreateEnd
               case CreateSet0 => s'.value.cur == s.cur.(vals := v.(value := initval))
               case CreateSet1 => s'.value.cur == Set(s.cur.gen, v.(procs := MAX_CLIENTS + 1), true)
               case CreateEnd => v.lock == 1 && s'.value.cur == s.cur.(vals := Counters(v.value, v.procs - 1, 0))
               case _ => true)
  {
    BlocksExactly(s, initval, p);
    if Alive(s.cur, s.procs[p].id) && Call(s, p, initval).Some? {
      NonNegative(s, initval);
      OwnsLock(s, initval, p);
      CallDoes(s, initval, p);
    }
  }

  lemma SignalNeverWaits(s: State, p: nat, initval: int)
    requires Ready(s, p, InSignal, initval)
    ensures Call(s, p, initval).Some?
  {
    if Alive(s.cur, s.procs[p].id) {
      AllSmall(s, initval, p);
      HoldBounded(s, initval, p);
      OpSignal(s.cur.vals, s.procs[p].adj);
    }
  }

  lemma DidOp(s: State, p: nat, initval: int)
    requires p < |s.procs| && Ready(s, p, s.procs[p].pc, initval) && Call(s, p, initval).Some?
    requires s.procs[p].pc in {CreateLock, CreateEnd, OpenDec, CloseDec, CloseUnlock, InWait, InSignal}
    ensures Did(s, Call(s, p, initval).value, p)
  {
    var adj := s.procs[p].adj;
    var s' := Call(s, p, initval).value;
    SumUpdate(s.procs, p, s'.procs[p], RefW());
    if Alive(s.cur, s.procs[p].id) {
      AllSmall(s, initval, p);
      match s.procs[p].pc
      case CreateLock => OpLock(s.cur.vals, adj);
      case CreateEnd => OpEndCreate(s.cur.vals, adj);
      case OpenDec => OpOpen(s.cur.vals, adj);
      case CloseDec => OpClose(s.cur.vals, adj);
      case _ =>
    }
  }

  lemma DidOther(s: State, p: nat, initval: int)
    requires p < |s.procs| && Ready(s, p, s.procs[p].pc, initval) && Call(s, p, initval).Some?
    requires s.procs[p].pc in {CreateGet, CreateRead, CreateSet0, CreateSet1, OpenGet, CloseRm}
    ensures Did(s, Call(s, p, initval).value, p)
  {
    var s' := Call(s, p, initval).value;
    NonNegative(s, initval);
    if s.procs[p].pc == CreateGet {
      SumUpdate(s.procs, p, s'.procs[p], RefW());
    } else if s.procs[p].pc == CloseRm && Alive(s.cur, s.procs[p].id) {
      RemoveStep(s, p, initval);
      SumZero(s', RefW());
    }
  }

  /** The `GETVAL` of `sem_close` decides by the references that are left. */
  lemma DidCloseRead(s: State, p: nat, initval: int)
    requires p < |s.procs| && Ready(s, p, CloseRead, initval)
    ensures Call(s, p, initval).Some? && Did(s, Call(s, p, initval).value, p)
  {
    NonNegative(s, initval);
    SumUpdate(s.procs, p, Call(s, p, initval).value.procs[p], RefW());
  }

  /** `IPC_PRIVATE`, which `sem_create` and `sem_open` refuse, as they do a key that `ftok` could not make. */
  const IPC_PRIVATE := 0

  predicate Refused(key: int) {
    key == IPC_PRIVATE || key == -1
  }

  class System {
    var s: State
    /** What the other processes will try at each scheduling point. */
    var plan: seq<seq<Event>>
    const initval: int

    ghost predicate Valid()
      reads this
    {
      0 <= initval <= SEMVMX && Inv(s, initval)
    }

    constructor (initval: int, plan: seq<seq<Event>>)
      requires 0 <= initval <= SEMVMX
      ensures Valid() && s == INIT && this.plan == plan && this.initval == initval
    {
      this.s, this.plan, this.initval := INIT, plan, initval;
    }

    /** The other processes run for a while. */
    method Others(p: nat)
      requires Valid() && p < |s.procs| && plan != []
      modifies this
      ensures Valid() && Unmoved(old(s), s, p) && |plan| < |old(plan)|
    {
      var events := plan[0];
      plan := plan[1..];
      var i := 0;
      while i < |events|
        invariant 0 <= i <= |events| && Valid() && Unmoved(old(s), s, p) && plan == old(plan)[1..]
      {
        if Foreign(s, events[i], p, initval) {
          ForeignStep(s, events[i], p, initval);
          s := Step(s, events[i], initval).value;
        }
        i := i + 1;
      }
    }

    /** Process `p` waits for something that no other process will do any more. */
    ghost predicate Stuck(p: nat)
      reads this
    {
      plan == [] && p < |s.procs| && Call(s, p, initval).None?
    }

    /** Blocks until the pending call of `p` can be made; `starved` if that never happens. */
    method Turn(p: nat) returns (waited: bool, starved: bool)
      requires Valid() && p < |s.procs|
      modifies this
      ensures Valid() && Unmoved(old(s), s, p) && |plan| <= |old(plan)|
      ensures starved <==> Call(s, p, initval).None?
      ensures starved ==> plan == []
      ensures |plan| == |old(plan)| ==> !waited && s == old(s)
      ensures old(plan) == [] ==> s == old(s)
    {
      waited, starved := false, false;
      if plan != [] {
        Others(p);
      }
      while Call(s, p, initval).None?
        invariant Valid() && Unmoved(old(s), s, p) && |plan| <= |old(plan)|
        invariant |plan| == |old(plan)| ==> !waited && s == old(s)
        decreases |plan|
      {
        if plan == [] {
          starved := true;
          return;
        }
        waited := true;
        Others(p);
      }
    }

    /** Makes the pending call of `p`. */
    method Make(p: nat)
      requires Valid() && p < |s.procs| && Call(s, p, initval).Some?
      requires s.procs[p].pc == CreateRead ==> References(s) <= MAX_CLIENTS
      requires s.procs[p].pc == OpenDec ==> s.procs[p].refs > 0
      modifies this`s
      ensures Valid() && Did(old(s), s, p) && s == Call(old(s), p, initval).value
    {
      CallKeepsInv(s, p, initval);
      if s.procs[p].pc in {CreateLock, CreateEnd, OpenDec, CloseDec, CloseUnlock, InWait, InSignal} {
        DidOp(s, p, initval);
      } else if s.procs[p].pc == CloseRead {
        DidCloseRead(s, p, initval);
      } else {
        DidOther(s, p, initval);
      }
      s := Call(s, p, initval).value;
    }

    /** The caller enters one of the functions. */
    method Begin(p: nat, a: Action)
      requires Valid() && p < |s.procs| && s.procs[p].pc == Out
      requires a in {CallCreate, CallOpen, CallClose, CallWait, CallSignal} && Disciplined(s, Event(p, a))
      modifies this`s
      ensures Valid() && p < |s.procs| && s.cur == old(s.cur) && References(s) == References(old(s))
      ensures s.procs[p].(pc := Out) == old(s.procs[p]) && s.nextGen == old(s.nextGen)
      ensures s.procs[p].pc == match a
                               case CallCreate => CreateGet
                               case CallOpen => OpenGet
                               case CallClose => CloseDec
                               case CallWait => InWait
                               case _ => InSignal
    {
      ghost var before := s;
      StepKeepsInv(s, Event(p, a), initval);
      s := Step(s, Event(p, a), initval).value;
      SameReferences(before, s, p);
    }

    /** `semget` fails, and the function returns. */
    method GiveUp(p: nat)
      requires Valid() && p < |s.procs| && s.procs[p].pc in {CreateGet, OpenGet}
      modifies this`s
      ensures Valid() && s.cur == old(s.cur) && p < |s.procs| && References(s) == References(old(s))
      ensures s.procs[p] == old(s.procs[p]).(pc := Out)
    {
      ghost var before := s;
      StepKeepsInv(s, Event(p, GetFails), initval);
      s := Step(s, Event(p, GetFails), initval).value;
      SameReferences(before, s, p);
    }

    /**
     The retry loop of `sem_create`: get the set and lock it, again if it has been removed meanwhile. The kernel
     fails call number `k` of `semget` if `fails(k)`.
     */
    method GetAndLock(p: nat, fails: nat -> bool) returns (got: bool, starved: bool)
      requires Valid() && p < |s.procs| && s.procs[p].pc == CreateGet && References(s) <= MAX_CLIENTS
      modifies this
      ensures Valid() && p < |s.procs| && s.procs[p].refs == old(s.procs[p].refs)
      ensures starved ==> Stuck(p)
      ensures References(s) <= MAX_CLIENTS
      ensures !starved ==> if got then s.procs[p].pc == CreateRead && s.procs[p].id >= 0 else s.procs[p].pc == Out
      ensures !starved && !got ==> exists k :: fails(k)
      // left alone it gets through exactly if nobody has the lock
      ensures old(plan) == [] && !fails(0) ==> (starved <==> old(s.cur).Set? && old(s.cur).vals.lock == 1)
      ensures old(plan) == [] && !fails(0) && !starved ==>
                && got && plan == []
                && s.cur == (if old(s.cur).Set? then old(s.cur).(vals := old(s.cur).vals.(lock := 1))
                             else Set(old(s.nextGen), Counters(0, 0, 1), false))
                && s.procs[p].id == s.cur.gen
    {
      hide Call, Inv;
      var again, calls := true, 0;
      got := true;
      while again
        invariant Valid() && p < |s.procs| && s.procs[p].refs == old(s.procs[p].refs)
        invariant if again then s.procs[p].pc == CreateGet else s.procs[p].pc == CreateRead && s.procs[p].id >= 0
        invariant References(s) <= MAX_CLIENTS && got
        invariant calls == 0 ==> again && s == old(s) && plan == old(plan)
        invariant old(plan) == [] && !fails(0) && calls > 0 ==>
                    && !again && plan == [] && !(old(s.cur).Set? && old(s.cur).vals.lock == 1)
                    && s.cur == (if old(s.cur).Set? then old(s.cur).(vals := old(s.cur).vals.(lock := 1))
                                 else Set(old(s.nextGen), Counters(0, 0, 1), false))
                    && s.procs[p].id == s.cur.gen
        decreases |plan|, again
      {
        var waited;
        waited, starved := Turn(p);
        if fails(calls) {
          GiveUp(p);
          return false, false;
        }
        calls := calls + 1;
        GetDoes(s, initval, p);
        Make(p);
        again, starved := Lock(p);
        if starved {
          return;
        }
      }
      starved := false;
    }

    /** The `semop` of the retry loop; `again` tells that the set was removed before it could be locked. */
    method Lock(p: nat) returns (again: bool, starved: bool)
      requires Valid() && p < |s.procs| && s.procs[p].pc == CreateLock && s.procs[p].id >= 0
      requires References(s) <= MAX_CLIENTS && Alive(s.cur, s.procs[p].id)
      modifies this
      ensures Valid() && p < |s.procs| && s.procs[p].refs == old(s.procs[p].refs) && |plan| <= |old(plan)|
      ensures References(s) <= MAX_CLIENTS && (starved ==> Stuck(p))
      ensures !starved ==>
                if again then s.procs[p].pc == CreateGet else s.procs[p].pc == CreateRead && s.procs[p].id >= 0
      ensures !starved && again ==> |plan| < |old(plan)|
      ensures old(plan) == [] ==>
                && (starved <==> old(s.cur).vals.lock == 1)
                && (!starved ==>
                      && !again && s.procs[p].id == old(s.cur).gen
                      && s.cur == old(s.cur).(vals := old(s.cur).vals.(lock := 1)))
    {
      hide Call, Inv;
      BlocksExactly(s, initval, p);
      if Call(s, p, initval).Some? {
        CallDoes(s, initval, p);
      }
      again := false;
      var waited;
      waited, starved := Turn(p);
      if starved {
        return;
      }
      if waited && !Alive(s.cur, s.procs[p].id) {
        StepKeepsInv(s, Event(p, Removed), initval);
        ghost var before := s;
        s := Step(s, Event(p, Removed), initval).value;
        SameReferences(before, s, p);
      } else {
        Make(p);
      }
      again := s.procs[p].pc == CreateGet;
    }

    /**
     `sem_create`: on return the caller has one reference more, to a set that is there and initialised;
     or the set was removed while it waited for the lock, and it has a dead identifier and no reference; or it has
     -1 and no reference, which happens for a refused key, and else only if the kernel fails a `semget`.
     */
    method SemCreate(p: nat, key: int, fails: nat -> bool) returns (id: int, starved: bool)
      requires Valid() && p < |s.procs| && s.procs[p].pc == Out && (s.procs[p].refs > 0 || !s.procs[p].inCS)
      requires References(s) <= MAX_CLIENTS
      modifies this
      ensures Valid() && p < |s.procs|
      ensures starved ==> Stuck(p)
      ensures Refused(key) ==> id == -1 && !starved && s == old(s)
      ensures !starved && id == -1 ==>
                && s.procs[p].pc == Out && s.procs[p].refs == old(s.procs[p].refs)
                && (Refused(key) || exists k :: fails(k))
      ensures !starved && id != -1 ==>
                && s.procs[p].pc == Out && id == s.procs[p].id
                && s.procs[p].refs == old(s.procs[p].refs) + (if Alive(s.cur, id) then 1 else 0)
                && (Alive(s.cur, id) ==> s.cur.init)
      // left alone it gets through exactly if nobody has the lock, and initialises a set that is not initialised
      ensures old(plan) == [] && !Refused(key) && !fails(0) ==>
                (starved <==> old(s.cur).Set? && old(s.cur).vals.lock == 1)
      ensures old(plan) == [] && !Refused(key) && !fails(0) && !starved ==>
                && id == (if old(s.cur).Set? then old(s.cur).gen else old(s.nextGen))
                && s.cur == if old(s.cur).Set? && old(s.cur).vals.procs > 0
                            then old(s.cur).(vals := Counters(old(s.cur).vals.value, old(s.cur).vals.procs - 1, 0))
                            else Set(id, Counters(initval, MAX_CLIENTS, 0), true)
    {
      if key == IPC_PRIVATE {
        return -1, false;
      } else if key == -1 {
        return -1, false;
      }
      hide Call, Inv;
      id := -1;
      Begin(p, CallCreate);
      var got;
      got, starved := GetAndLock(p, fails);
      if starved || !got {
        return;
      }
      starved := InitialiseAndEnd(p);
      if !starved {
        id := s.procs[p].id;
      }
    }

    /** The rest of `sem_create`, from its `GETVAL` on. */
    method InitialiseAndEnd(p: nat) returns (starved: bool)
      requires Valid() && p < |s.procs| && s.procs[p].pc == CreateRead && References(s) <= MAX_CLIENTS
      modifies this
      ensures Valid() && p < |s.procs|
      ensures starved ==> Stuck(p)
      ensures !starved ==>
                && s.procs[p].pc == Out && s.procs[p].id == old(s.procs[p].id)
                && s.procs[p].refs == old(s.procs[p].refs) + (if Alive(s.cur, s.procs[p].id) then 1 else 0)
                && (Alive(s.cur, s.procs[p].id) ==> s.cur.init)
      // left alone with a set that is there it never waits
      ensures old(plan) == [] && old(Alive(s.cur, s.procs[p].id)) ==>
                && !starved && old(s.cur.vals.procs) >= 0
                && s.cur == if old(s.cur.vals.procs) > 0
                            then old(s.cur).(vals := Counters(old(s.cur).vals.value, old(s.cur).vals.procs - 1, 0))
                            else Set(old(s.cur).gen, Counters(initval, MAX_CLIENTS, 0), true)
    {
      hide Call, Inv;
      var waited;
      waited, starved := Turn(p);
      CreateDoes(s, p, initval);
      Make(p);
      if s.procs[p].pc == CreateSet0 {
        waited, starved := Turn(p);
        CreateDoes(s, p, initval);
        Make(p);
        waited, starved := Turn(p);
        CreateDoes(s, p, initval);
        Make(p);
      }
      starved := EndCreate(p);
    }

    /** The last `semop` of `sem_create`. */
    method EndCreate(p: nat) returns (starved: bool)
      requires Valid() && p < |s.procs| && s.procs[p].pc == CreateEnd
      modifies this
      ensures Valid() && p < |s.procs|
      ensures starved ==> Stuck(p)
      ensures !starved ==>
                && s.procs[p].pc == Out && s.procs[p].id == old(s.procs[p].id)
                && s.procs[p].refs == old(s.procs[p].refs) + (if Alive(s.cur, s.procs[p].id) then 1 else 0)
                && (Alive(s.cur, s.procs[p].id) ==> s.cur.init)
      // left alone it waits exactly if no reference is left
      ensures old(plan) == [] && old(Alive(s.cur, s.procs[p].id)) ==>
                && (starved <==> old(s.cur.vals.procs) == 0)
                && (!starved ==>
                      s.cur == old(s.cur).(vals := Counters(old(s.cur.vals.value), old(s.cur.vals.procs) - 1, 0)))
    {
      hide Call, Inv;
      var waited;
      waited, starved := Turn(p);
      CreateDoes(s, p, initval);
      if !starved {
        Make(p);
        if s.procs[p].refs > 0 {
          HolderAlive(s, p, initval);
        }
      }
    }

    /** `sem_open` by a process with a reference: one more reference to the same set, or -1 and no more references. */
    method SemOpen(p: nat, key: int, fails: bool) returns (id: int, starved: bool)
      requires Valid() && p < |s.procs| && s.procs[p].pc == Out && s.procs[p].refs > 0
      modifies this
      ensures Valid() && p < |s.procs|
      ensures starved ==> Stuck(p)
      ensures !starved ==> s.procs[p].pc == Out && (id == -1 <==> Refused(key) || fails)
      ensures !starved && id == -1 ==> s.procs[p] == old(s.procs[p])
      ensures !starved && id != -1 ==>
                && id == s.procs[p].id == old(s.procs[p].id)
                && s.procs[p].refs == old(s.procs[p].refs) + 1 && Alive(s.cur, id)
      // left alone it gets through exactly if not all references are out
      ensures old(plan) == [] && !Refused(key) && !fails ==>
                old(s.cur).Set? && (starved <==> old(s.cur).vals.procs == 0)
      ensures Refused(key) || fails ==> !starved
    {
      if key == IPC_PRIVATE {
        return -1, false;
      } else if key == -1 {
        return -1, false;
      }
      id := -1;
      hide Call, Inv;
      HolderAlive(s, p, initval);
      Begin(p, CallOpen);
      var waited;
      GetDoes(s, initval, p);
      waited, starved := Turn(p);
      if fails {
        GiveUp(p);
        return -1, false;
      }
      Make(p);
      starved := TakeReference(p);
      if !starved {
        id := s.procs[p].id;
      }
    }

    /** The `semop` of `sem_open` by a process with a reference. */
    method TakeReference(p: nat) returns (starved: bool)
      requires Valid() && p < |s.procs| && s.procs[p].pc == OpenDec && s.procs[p].refs > 0
      modifies this
      ensures Valid() && p < |s.procs|
      ensures starved ==> Stuck(p)
      ensures !starved ==>
                && s.procs[p].pc == Out && s.procs[p].id == old(s.procs[p].id)
                && s.procs[p].refs == old(s.procs[p].refs) + 1 && Alive(s.cur, s.procs[p].id)
      ensures old(plan) == [] ==> old(s.cur).Set? && (starved <==> old(s.cur).vals.procs == 0)
    {
      hide Call, Inv;
      HolderAlive(s, p, initval);
      var waited;
      waited, starved := Turn(p);
      BlocksExactly(s, initval, p);
      HolderAlive(s, p, initval);
      if !starved {
        Make(p);
      }
    }

    /**
     `sem_close` by a process with a reference: one reference less; the set is removed only if it was
     the last one.
     */
    method SemClose(p: nat) returns (removed: bool, starved: bool)
      requires Valid() && p < |s.procs| && s.procs[p].pc == Out && s.procs[p].refs > 0
      modifies this
      ensures Valid() && p < |s.procs|
      ensures starved ==> Stuck(p)
      ensures !starved ==> s.procs[p].pc == Out && s.procs[p].refs == old(s.procs[p].refs) - 1
      ensures removed ==> s.cur.NoSet? && References(s) == 0
      // left alone it gets through exactly if the lock is free, and removes the set with the last reference
      ensures old(plan) == [] ==> old(s.cur).Set? && (starved <==> old(s.cur).vals.lock == 1)
      ensures !starved && old(plan) == [] ==> (removed <==> References(old(s)) == 1)
    {
      removed := false;
      Begin(p, CallClose);
      BlocksExactly(s, initval, p);
      var waited;
      waited, starved := Turn(p);
      if starved {
        return;
      }
      Make(p);
      removed, starved := RemoveOrUnlock(p);
    }

    /** The rest of `sem_close`, from its `GETVAL` on. */
    method RemoveOrUnlock(p: nat) returns (removed: bool, starved: bool)
      requires Valid() && p < |s.procs| && s.procs[p].pc == CloseRead
      modifies this
      ensures Valid() && p < |s.procs|
      ensures !starved && s.procs[p].pc == Out && s.procs[p].refs == old(s.procs[p].refs)
      ensures removed ==> s.cur.NoSet? && References(s) == 0
      ensures old(plan) == [] && old(Inside(s.cur, s.procs[p])) ==> (removed <==> References(old(s)) == 0)
    {
      removed := false;
      var waited;
      waited, starved := Turn(p);
      Make(p);
      waited, starved := Turn(p);
      BlocksExactly(s, initval, p);
      removed := s.procs[p].pc == CloseRm;
      Make(p);
    }

    /** `sem_wait`: when it returns, the caller holds a token of its set, if the set is still there. */
    method SemWait(p: nat) returns (starved: bool)
      requires Valid() && p < |s.procs| && s.procs[p].pc == Out && !s.procs[p].inCS
      modifies this
      ensures Valid() && p < |s.procs|
      ensures starved ==> Stuck(p)
      ensures !starved ==>
                && s.procs[p].pc == Out && s.procs[p].inCS
                && s.procs[p].adj.value == if Alive(s.cur, s.procs[p].id) then 1 else 0
      // left alone it gets through exactly if there is a token, and takes one
      ensures old(plan) == [] ==> (starved <==> Alive(old(s.cur), old(s.procs[p].id)) && old(s.cur).vals.value == 0)
      ensures old(plan) == [] && !starved && Alive(old(s.cur), old(s.procs[p].id)) ==>
                s.cur == old(s.cur).(vals := old(s.cur).vals.(value := old(s.cur).vals.value - 1))
    {
      hide Call, Inv;
      Begin(p, CallWait);
      BlocksExactly(s, initval, p);
      if Alive(s.cur, s.procs[p].id) && Call(s, p, initval).Some? {
        CallDoes(s, initval, p);
      }
      var waited;
      waited, starved := Turn(p);
      if !starved {
        Make(p);
        TokenHeld(s, p, initval);
      }
    }

    /** `sem_signal` gives the token back and never has to wait. */
    method SemSignal(p: nat)
      requires Valid() && p < |s.procs| && s.procs[p].pc == Out && s.procs[p].inCS
      modifies this
      ensures Valid() && p < |s.procs|
      ensures s.procs[p].pc == Out && !s.procs[p].inCS && s.procs[p].adj.value == 0
      ensures Alive(old(s.cur), old(s.procs[p].id)) ==>
                s.cur == old(s.cur).(vals := old(s.cur).vals.(value := old(s.cur).vals.value + 1))
    {
      hide Call, Inv;
      Begin(p, CallSignal);
      SignalNeverWaits(s, p, initval);
      if Alive(s.cur, s.procs[p].id) {
        CallDoes(s, initval, p);
      }
      Make(p);
      TokenHeld(s, p, initval);
    }
  }
}
