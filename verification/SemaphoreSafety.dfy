/**
 Safety of the semaphore protocol: an invariant of every disciplined run, and what it means for the
 programs that use semaphore.cpp.
 */
module SemaphoreSafety {
  import opened Options
  import opened Sums
  import opened Semaphore

  // ------------------------------------------------------------------ the invariant

  predicate Inside(cur: Set, p: Proc) {
    Alive(cur, p.id) && LockedPc(p.pc)
  }

  predicate Holds(cur: Set, p: Proc) {
    Alive(cur, p.id) && p.inCS
  }

  ghost function InsideW(gen: int): Proc -> int {
    (p: Proc) => if p.id == gen && LockedPc(p.pc) then 1 else 0
  }

  ghost function HoldW(gen: int): Proc -> int {
    (p: Proc) => if p.id == gen && p.inCS then 1 else 0
  }

  ghost predicate ProcOk(cur: Set, nextGen: nat, p: Proc, initval: int) {
    && -1 <= p.id < nextGen
    && p.adj == Counters(if Holds(cur, p) then 1 else 0, p.refs, if Inside(cur, p) then -1 else 0)
    && (p.refs > 0 ==> Alive(cur, p.id) && cur.init)
    && (p.pc == Dead ==> p.id == -1 && p.refs == 0 && !p.inCS)
    && (p.pc in {CreateGet, CreateLock, CreateRead, CreateSet0, CreateSet1, CreateEnd} ==> p.refs > 0 || !p.inCS)
    && (p.pc == CloseDec ==> p.refs > 0)
    && (p.pc in {OpenGet, OpenDec} ==> p.refs > 0 || !p.inCS)
    && (p.pc == InWait ==> !p.inCS)
    && (p.pc == InSignal ==> p.inCS)
    && (Alive(cur, p.id) ==>
          && (!cur.init ==> p.pc in {CreateLock, CreateRead, CreateSet0, CreateSet1, OpenDec})
          && (p.pc in {CreateSet0, CreateSet1} ==> !cur.init)
          && (p.pc == CreateSet1 ==> cur.vals.value == initval)
          && (p.pc == CloseRm ==> cur.vals.procs == MAX_CLIENTS + 1))
  }

  ghost predicate SetOk(s: State, initval: int)
    requires s.cur.Set?
  {
    var v := s.cur.vals;
    && s.cur.gen < s.nextGen
    && v.lock == Sum(s.procs, InsideW(s.cur.gen)) && 0 <= v.lock <= 1
    && 0 <= v.procs && 0 <= v.value
    && (s.cur.init ==> v.procs == MAX_CLIENTS + 1 - References(s))
    && (s.cur.init ==> v.value == initval - Sum(s.procs, HoldW(s.cur.gen)))
    && (!s.cur.init ==> v.procs == 0 && v.value <= initval)
  }

  ghost predicate Inv(s: State, initval: int) {
    && (s.cur.Set? ==> SetOk(s, initval))
    && forall i :: 0 <= i < |s.procs| ==> ProcOk(s.cur, s.nextGen, s.procs[i], initval)
  }

  // ------------------------------------------------------------------ the operation arrays

  lemma SemOpOne(v: Counters, adj: Counters, a: SemBuf)
    ensures SemOp(v, adj, [a]) == Apply(v, adj, a)
  {
    assert [a][1..] == [];
  }

  lemma SemOpTwo(v: Counters, adj: Counters, a: SemBuf, b: SemBuf)
    ensures var first := Apply(v, adj, a);
            SemOp(v, adj, [a, b]) == if first.Done? then Apply(first.vals, first.adj, b) else first
  {
    assert [a, b][1..] == [b];
    var first := Apply(v, adj, a);
    if first.Done? {
      SemOpOne(first.vals, first.adj, b);
    }
  }

  /** Adjustments and counters as they are in every disciplined run. */
  predicate Small(v: Counters, adj: Counters) {
    && -SEMVMX <= adj.value < SEMVMX && -SEMVMX <= adj.procs < SEMVMX && -SEMVMX <= adj.lock < SEMVMX
    && v.procs < SEMVMX && v.lock <= SEMVMX && v.value <= SEMVMX
  }

  /** `op_lock` waits for a free lock and takes it. */
  lemma OpLock(v: Counters, adj: Counters)
    requires Small(v, adj) && 0 <= v.lock
    ensures SemOp(v, adj, OP_LOCK) ==
            if v.lock == 0 then Done(v.(lock := 1), adj.(lock := adj.lock - 1)) else WouldBlock
  {
    SemOpTwo(v, adj, OP_LOCK[0], OP_LOCK[1]);
  }

  /** `op_endcreate` takes a reference and gives the lock back, both or neither. */
  lemma OpEndCreate(v: Counters, adj: Counters)
    requires Small(v, adj)
    ensures SemOp(v, adj, OP_ENDCREATE) ==
            if v.procs >= 1 && v.lock >= 1
            then Done(Counters(v.value, v.procs - 1, v.lock - 1), Counters(adj.value, adj.procs + 1, adj.lock + 1))
            else WouldBlock
  {
    SemOpTwo(v, adj, OP_ENDCREATE[0], OP_ENDCREATE[1]);
  }

  lemma OpOpen(v: Counters, adj: Counters)
    requires Small(v, adj)
    ensures SemOp(v, adj, OP_OPEN) ==
            if v.procs >= 1 then Done(v.(procs := v.procs - 1), adj.(procs := adj.procs + 1)) else WouldBlock
  {
    SemOpOne(v, adj, OP_OPEN[0]);
  }

  /** `op_close` waits for the lock, takes it and gives a reference back, all in one. */
  lemma OpClose(v: Counters, adj: Counters)
    requires Small(v, adj) && 0 <= v.lock && 0 <= v.procs
    ensures SemOp(v, adj, OP_CLOSE) ==
            if v.lock == 0
            then Done(Counters(v.value, v.procs + 1, 1), Counters(adj.value, adj.procs - 1, adj.lock - 1))
            else WouldBlock
  {
    var first := Apply(v, adj, OP_CLOSE[0]);
    assert OP_CLOSE[1..] == [OP_CLOSE[1], OP_CLOSE[2]];
    if first.Done? {
      SemOpTwo(first.vals, first.adj, OP_CLOSE[1], OP_CLOSE[2]);
    }
  }

  lemma OpUnlock(v: Counters, adj: Counters)
    requires Small(v, adj)
    ensures SemOp(v, adj, OP_UNLOCK) ==
            if v.lock >= 1 then Done(v.(lock := v.lock - 1), adj.(lock := adj.lock + 1)) else WouldBlock
  {
    SemOpOne(v, adj, OP_UNLOCK[0]);
  }

  lemma OpWait(v: Counters, adj: Counters)
    requires Small(v, adj)
    ensures SemOp(v, adj, OpOp(-1)) ==
            if v.value >= 1 then Done(v.(value := v.value - 1), adj.(value := adj.value + 1)) else WouldBlock
  {
    SemOpOne(v, adj, OpOp(-1)[0]);
  }

  lemma OpSignal(v: Counters, adj: Counters)
    requires Small(v, adj) && 0 <= v.value < SEMVMX
    ensures SemOp(v, adj, OpOp(1)) == Done(v.(value := v.value + 1), adj.(value := adj.value - 1))
  {
    SemOpOne(v, adj, OpOp(1)[0]);
  }

  // ------------------------------------------------------------------ what the sums say

  lemma NoneInside(s: State, initval: int, i: nat)
    requires Inv(s, initval) && s.cur.Set? && s.cur.vals.lock == 0 && i < |s.procs|
    ensures !Inside(s.cur, s.procs[i])
  {
    SumAtLeast(s.procs, i, InsideW(s.cur.gen));
  }

  lemma OnlyInside(s: State, initval: int, i: nat, j: nat)
    requires Inv(s, initval) && s.cur.Set? && i < |s.procs| && j < |s.procs| && i != j
    requires Inside(s.cur, s.procs[i])
    ensures s.cur.vals.lock == 1 && !Inside(s.cur, s.procs[j])
  {
    SumAtLeast(s.procs, i, InsideW(s.cur.gen));
    if i < j {
      SumAtLeastTwo(s.procs, i, j, InsideW(s.cur.gen));
    } else {
      SumAtLeastTwo(s.procs, j, i, InsideW(s.cur.gen));
    }
  }

  lemma RefsBounded(s: State, initval: int, i: nat)
    requires Inv(s, initval) && i < |s.procs|
    ensures s.procs[i].refs > 0 ==> s.cur.Set? && s.procs[i].refs <= MAX_CLIENTS + 1 - s.cur.vals.procs
  {
    SumAtLeast(s.procs, i, RefW());
  }

  lemma HoldBounded(s: State, initval: int, i: nat)
    requires Inv(s, initval) && s.cur.Set? && i < |s.procs|
    ensures s.cur.init ==> s.cur.vals.value <= initval
    ensures s.cur.init && Holds(s.cur, s.procs[i]) ==> s.cur.vals.value < initval
  {
    SumAtLeast(s.procs, i, HoldW(s.cur.gen));
  }

  lemma AllSmall(s: State, initval: int, i: nat)
    requires Inv(s, initval) && s.cur.Set? && i < |s.procs| && 0 <= initval <= SEMVMX
    ensures Small(s.cur.vals, s.procs[i].adj)
  {
    RefsBounded(s, initval, i);
    HoldBounded(s, initval, i);
    NonNegative(s, initval);
  }

  lemma NonNegative(s: State, initval: int)
    requires Inv(s, initval)
    ensures References(s) >= 0
  {
    if |s.procs| > 0 {
      SumAtLeast(s.procs, 0, RefW());
    }
  }

  // ------------------------------------------------------------------ every step keeps the invariant

  /** A step that changes one process and the counters, by matching amounts. */
  lemma LocalStep(s: State, p: nat, q: Proc, vals: Counters, initval: int)
    requires Inv(s, initval) && s.cur.Set? && p < |s.procs|
    requires var was := s.procs[p];
             var g := s.cur.gen;
             && vals.lock == s.cur.vals.lock - InsideW(g)(was) + InsideW(g)(q) && 0 <= vals.lock <= 1
             && vals.procs == s.cur.vals.procs + was.refs - q.refs && 0 <= vals.procs
             && vals.value == s.cur.vals.value + HoldW(g)(was) - HoldW(g)(q) && 0 <= vals.value
    requires ProcOk(s.cur.(vals := vals), s.nextGen, q, initval)
    requires vals.procs != s.cur.vals.procs ==>
               forall i :: 0 <= i < |s.procs| && i != p && Alive(s.cur, s.procs[i].id) ==> s.procs[i].pc != CloseRm
    ensures Inv(s.(cur := s.cur.(vals := vals), procs := s.procs[p := q]), initval)
  {
    SumUpdate(s.procs, p, q, RefW());
    SumUpdate(s.procs, p, q, InsideW(s.cur.gen));
    SumUpdate(s.procs, p, q, HoldW(s.cur.gen));
  }

  /** A step that changes one process only. */
  lemma QuietStep(s: State, p: nat, q: Proc, initval: int)
    requires Inv(s, initval) && p < |s.procs| && ProcOk(s.cur, s.nextGen, q, initval)
    requires s.cur.Set? ==>
               var was := s.procs[p];
               var g := s.cur.gen;
               InsideW(g)(was) == InsideW(g)(q) && was.refs == q.refs && HoldW(g)(was) == HoldW(g)(q)
    ensures Inv(s.(procs := s.procs[p := q]), initval)
  {
    if s.cur.Set? {
      LocalStep(s, p, q, s.cur.vals, initval);
      assert s.(cur := s.cur.(vals := s.cur.vals), procs := s.procs[p := q]) == s.(procs := s.procs[p := q]);
    }
  }

  /** While another process is about to remove the set, no one takes or gives a reference. */
  lemma RemoverAlone(s: State, initval: int, p: nat)
    requires Inv(s, initval) && s.cur.Set? && p < |s.procs|
    requires Inside(s.cur, s.procs[p]) || s.cur.vals.lock == 0 || s.procs[p].refs > 0
    ensures forall i :: 0 <= i < |s.procs| && i != p && Alive(s.cur, s.procs[i].id) ==> s.procs[i].pc != CloseRm
  {
    forall i | 0 <= i < |s.procs| && i != p && Alive(s.cur, s.procs[i].id) && s.procs[i].pc == CloseRm
      ensures false
    {
      OnlyInside(s, initval, i, p);
      RefsBounded(s, initval, p);
    }
  }

  ghost predicate Ready(s: State, p: nat, pc: Pc, initval: int) {
    0 <= initval <= SEMVMX && Inv(s, initval) && p < |s.procs| && s.procs[p].pc == pc
  }

  ghost predicate CallOk(s: State, p: nat, initval: int)
    requires p < |s.procs|
  {
    var s' := Call(s, p, initval);
    s'.Some? ==> Inv(s'.value, initval)
  }

  lemma LockStep(s: State, p: nat, initval: int)
    requires Ready(s, p, CreateLock, initval)
    ensures CallOk(s, p, initval)
  {
    var s' := Call(s, p, initval);
    if !Alive(s.cur, s.procs[p].id) {
      QuietStep(s, p, s'.value.procs[p], initval);
    } else {
      AllSmall(s, initval, p);
      OpLock(s.cur.vals, s.procs[p].adj);
      if s'.Some? {
        LocalStep(s, p, s'.value.procs[p], s'.value.cur.vals, initval);
      }
    }
  }

  lemma EndCreateStep(s: State, p: nat, initval: int)
    requires Ready(s, p, CreateEnd, initval)
    ensures CallOk(s, p, initval)
  {
    var s' := Call(s, p, initval);
    if !Alive(s.cur, s.procs[p].id) {
      QuietStep(s, p, s'.value.procs[p], initval);
    } else {
      AllSmall(s, initval, p);
      OpEndCreate(s.cur.vals, s.procs[p].adj);
      RemoverAlone(s, initval, p);
      if s'.Some? {
        LocalStep(s, p, s'.value.procs[p], s'.value.cur.vals, initval);
      }
    }
  }

  lemma OpenStep(s: State, p: nat, initval: int)
    requires Ready(s, p, OpenDec, initval) && (s.procs[p].refs > 0 || !Removing(s))
    ensures CallOk(s, p, initval)
  {
    var s' := Call(s, p, initval);
    if !Alive(s.cur, s.procs[p].id) {
      QuietStep(s, p, s'.value.procs[p], initval);
    } else {
      AllSmall(s, initval, p);
      OpOpen(s.cur.vals, s.procs[p].adj);
      if s.procs[p].refs > 0 {
        RemoverAlone(s, initval, p);
      }
      if s'.Some? {
        LocalStep(s, p, s'.value.procs[p], s'.value.cur.vals, initval);
      }
    }
  }

  lemma CloseStep(s: State, p: nat, initval: int)
    requires Ready(s, p, CloseDec, initval)
    ensures CallOk(s, p, initval)
  {
    var s' := Call(s, p, initval);
    AllSmall(s, initval, p);
    OpClose(s.cur.vals, s.procs[p].adj);
    RemoverAlone(s, initval, p);
    if s'.Some? {
      LocalStep(s, p, s'.value.procs[p], s'.value.cur.vals, initval);
    }
  }

  lemma UnlockStep(s: State, p: nat, initval: int)
    requires Ready(s, p, CloseUnlock, initval)
    ensures CallOk(s, p, initval)
  {
    var s' := Call(s, p, initval);
    if !Alive(s.cur, s.procs[p].id) {
      QuietStep(s, p, s'.value.procs[p], initval);
    } else {
      AllSmall(s, initval, p);
      OpUnlock(s.cur.vals, s.procs[p].adj);
      if s'.Some? {
        LocalStep(s, p, s'.value.procs[p], s'.value.cur.vals, initval);
      }
    }
  }

  lemma WaitStep(s: State, p: nat, initval: int)
    requires Ready(s, p, InWait, initval)
    ensures CallOk(s, p, initval)
  {
    var s' := Call(s, p, initval);
    if !Alive(s.cur, s.procs[p].id) {
      QuietStep(s, p, s'.value.procs[p], initval);
    } else {
      AllSmall(s, initval, p);
      HoldBounded(s, initval, p);
      OpWait(s.cur.vals, s.procs[p].adj);
      if s'.Some? {
        LocalStep(s, p, s'.value.procs[p], s'.value.cur.vals, initval);
      }
    }
  }

  lemma SignalStep(s: State, p: nat, initval: int)
    requires Ready(s, p, InSignal, initval)
    ensures CallOk(s, p, initval)
  {
    var s' := Call(s, p, initval);
    if !Alive(s.cur, s.procs[p].id) {
      QuietStep(s, p, s'.value.procs[p], initval);
    } else {
      AllSmall(s, initval, p);
      HoldBounded(s, initval, p);
      OpSignal(s.cur.vals, s.procs[p].adj);
      if s'.Some? {
        LocalStep(s, p, s'.value.procs[p], s'.value.cur.vals, initval);
      }
    }
  }

  /** `semget`: a new set, or the current one. */
  lemma GetStep(s: State, p: nat, initval: int)
    requires Ready(s, p, CreateGet, initval)
    ensures CallOk(s, p, initval)
  {
    var s' := Call(s, p, initval).value;
    if s.cur.NoSet? {
      SumZero(s', InsideW(s.nextGen));
    } else {
      QuietStep(s, p, s'.procs[p], initval);
    }
  }

  lemma SumZero(s: State, w: Proc -> int)
    requires forall i :: 0 <= i < |s.procs| ==> w(s.procs[i]) == 0
    ensures Sum(s.procs, w) == 0
  {
    SumSame(s.procs, s.procs, w, (p: Proc) => 0);
    ZeroSum(s.procs);
  }

  lemma {:induction false} ZeroSum(procs: seq<Proc>)
    ensures Sum(procs, (p: Proc) => 0) == 0
  {
    if procs != [] {
      ZeroSum(procs[..|procs| - 1]);
    }
  }

  /** `GETVAL` in `sem_create`: within the bound, 0 is seen only on a set that is not initialised. */
  lemma CreateReadStep(s: State, p: nat, initval: int)
    requires Ready(s, p, CreateRead, initval) && References(s) <= MAX_CLIENTS
    ensures CallOk(s, p, initval)
  {
    QuietStep(s, p, Call(s, p, initval).value.procs[p], initval);
  }

  lemma CreateSet0Step(s: State, p: nat, initval: int)
    requires Ready(s, p, CreateSet0, initval)
    ensures CallOk(s, p, initval)
  {
    var q := s.procs[p].(pc := CreateSet1);
    var s' := Call(s, p, initval).value;
    if Alive(s.cur, q.id) {
      forall i | 0 <= i < |s.procs| && i != p
        ensures !Inside(s.cur, s.procs[i])
      {
        OnlyInside(s, initval, p, i);
      }
      assert s'.procs == s.procs[p := q];
      SumUpdate(s.procs, p, q, RefW());
      SumUpdate(s.procs, p, q, InsideW(s.cur.gen));
      SumUpdate(s.procs, p, q, HoldW(s.cur.gen));
    } else {
      QuietStep(s, p, q, initval);
    }
  }

  lemma CreateSet1Step(s: State, p: nat, initval: int)
    requires Ready(s, p, CreateSet1, initval)
    ensures CallOk(s, p, initval)
  {
    var q := s.procs[p].(pc := CreateEnd);
    var s' := Call(s, p, initval).value;
    if Alive(s.cur, q.id) {
      forall i | 0 <= i < |s.procs| && i != p
        ensures !Inside(s.cur, s.procs[i])
      {
        OnlyInside(s, initval, p, i);
      }
      assert s'.procs == s.procs[p := q];
      SumUpdate(s.procs, p, q, InsideW(s.cur.gen));
      SumZero(s', RefW());
      SumZero(s', HoldW(s.cur.gen));
    } else {
      QuietStep(s, p, q, initval);
    }
  }

  lemma CloseReadStep(s: State, p: nat, initval: int)
    requires Ready(s, p, CloseRead, initval)
    ensures CallOk(s, p, initval)
  {
    NonNegative(s, initval);
    QuietStep(s, p, Call(s, p, initval).value.procs[p], initval);
  }

  /** `IPC_RMID` finds no references. */
  lemma RemoveStep(s: State, p: nat, initval: int)
    requires Ready(s, p, CloseRm, initval)
    ensures CallOk(s, p, initval)
    ensures Alive(s.cur, s.procs[p].id) ==> forall i :: 0 <= i < |s.procs| ==> s.procs[i].refs == 0
  {
    var q := s.procs[p].(pc := Out);
    forall i | 0 <= i < |s.procs| && Alive(s.cur, s.procs[p].id)
      ensures s.procs[i].refs == 0
    {
      RefsBounded(s, initval, i);
    }
    if !Alive(s.cur, q.id) {
      QuietStep(s, p, q, initval);
    }
  }

  /** The kernel's undo gives back what the dead process had, without clamping. */
  lemma CrashStep(s: State, p: nat, initval: int)
    requires Inv(s, initval) && 0 <= initval <= SEMVMX && p < |s.procs|
    ensures Inv(s.(cur := Undo(s.cur, s.procs[p].adj), procs := s.procs[p := DEAD]), initval)
    ensures s.cur.Set? ==>
              var v, v' := s.cur.vals, Undo(s.cur, s.procs[p].adj).vals;
              && v'.value == v.value + (if Holds(s.cur, s.procs[p]) then 1 else 0)
              && v'.procs == v.procs + s.procs[p].refs
              && v'.lock == v.lock - (if Inside(s.cur, s.procs[p]) then 1 else 0)
  {
    if s.cur.Set? {
      var me := s.procs[p];
      var vals := Undo(s.cur, me.adj).vals;
      RefsBounded(s, initval, p);
      HoldBounded(s, initval, p);
      NonNegative(s, initval);
      SumAtLeast(s.procs, p, InsideW(s.cur.gen));
      forall i | 0 <= i < |s.procs| && i != p && Alive(s.cur, s.procs[i].id) && s.procs[i].pc == CloseRm
        ensures me.refs == 0
      {
        RefsBounded(s, initval, p);
      }
      LocalStep(s, p, DEAD, vals, initval);
    }
  }

  lemma NewProcess(s: State, q: Proc, initval: int)
    requires Inv(s, initval) && ProcOk(s.cur, s.nextGen, q, initval) && q.pc == Out && q.refs == 0 && !q.inCS
    ensures Inv(s.(procs := s.procs + [q]), initval)
  {
    SumPush(s.procs, q, RefW());
    if s.cur.Set? {
      SumPush(s.procs, q, InsideW(s.cur.gen));
      SumPush(s.procs, q, HoldW(s.cur.gen));
    }
  }

  lemma OpenGetStep(s: State, p: nat, initval: int)
    requires Ready(s, p, OpenGet, initval)
    ensures CallOk(s, p, initval)
  {
    QuietStep(s, p, Call(s, p, initval).value.procs[p], initval);
  }

  lemma CallKeepsInv(s: State, p: nat, initval: int)
    requires p < |s.procs| && Ready(s, p, s.procs[p].pc, initval)
    requires s.procs[p].pc == CreateRead ==> References(s) <= MAX_CLIENTS
    requires s.procs[p].pc == OpenDec ==> s.procs[p].refs > 0 || !Removing(s)
    ensures CallOk(s, p, initval)
  {
    match s.procs[p].pc
    case Dead =>
    case Out =>
    case CreateGet => GetStep(s, p, initval);
    case CreateLock => LockStep(s, p, initval);
    case CreateRead => CreateReadStep(s, p, initval);
    case CreateSet0 => CreateSet0Step(s, p, initval);
    case CreateSet1 => CreateSet1Step(s, p, initval);
    case CreateEnd => EndCreateStep(s, p, initval);
    case OpenGet => OpenGetStep(s, p, initval);
    case OpenDec => OpenStep(s, p, initval);
    case CloseDec => CloseStep(s, p, initval);
    case CloseRead => CloseReadStep(s, p, initval);
    case CloseRm => RemoveStep(s, p, initval);
    case CloseUnlock => UnlockStep(s, p, initval);
    case InWait => WaitStep(s, p, initval);
    case InSignal => SignalStep(s, p, initval);
  }

  /** Entering one of the five functions, and the two ways `semget` and `op_lock` give up. */
  lemma EnterKeepsInv(s: State, e: Event, initval: int)
    requires Inv(s, initval) && Disciplined(s, e) && Step(s, e, initval).Some?
    requires e.a in {CallCreate, CallOpen, CallClose, CallWait, CallSignal, Removed, GetFails}
    ensures Inv(Step(s, e, initval).value, initval)
  {
    QuietStep(s, e.p, Step(s, e, initval).value.procs[e.p], initval);
  }

  lemma StepKeepsInv(s: State, e: Event, initval: int)
    requires Inv(s, initval) && 0 <= initval <= SEMVMX && Disciplined(s, e) && Step(s, e, initval).Some?
    ensures Inv(Step(s, e, initval).value, initval)
  {
    match e.a
    case Spawn => NewProcess(s, DEAD.(pc := Out), initval);
    case Fork => NewProcess(s, Proc(Out, s.procs[e.p].id, ZERO, 0, false), initval);
    case Crash => CrashStep(s, e.p, initval);
    case Advance => CallKeepsInv(s, e.p, initval);
    case _ => EnterKeepsInv(s, e, initval);
  }

  lemma {:induction false} RunKeepsInv(s: State, events: seq<Event>, initval: int)
    requires Inv(s, initval) && 0 <= initval <= SEMVMX && DisciplinedRun(s, events, initval)
    ensures Run(s, events, initval).Some? && Inv(Run(s, events, initval).value, initval)
    decreases |events|
  {
    if events != [] {
      StepKeepsInv(s, events[0], initval);
      RunKeepsInv(Step(s, events[0], initval).value, events[1..], initval);
    }
  }

  lemma ReachableInv(s: State, initval: int)
    requires Reachable(s, initval) && 0 <= initval <= SEMVMX
    ensures Inv(s, initval)
  {
    var events :| DisciplinedRun(INIT, events, initval) && Run(INIT, events, initval) == Some(s);
    RunKeepsInv(INIT, events, initval);
  }

  // ------------------------------------------------------------------ the promises of the protocol

  /** A set with references out is there, is initialised, and is the one its users work on. */
  lemma ReferencedSetLives(s: State, initval: int, p: nat)
    requires Reachable(s, initval) && 0 <= initval <= SEMVMX
    requires p < |s.procs| && s.procs[p].refs > 0
    ensures Alive(s.cur, s.procs[p].id) && s.cur.init
  {
    ReachableInv(s, initval);
  }

  /** `sem_close` removes the set only when no process has a reference, and only the lock's owner does. */
  lemma RemovalSafety(s: State, initval: int, p: nat)
    requires Reachable(s, initval) && 0 <= initval <= SEMVMX
    requires p < |s.procs| && s.procs[p].pc == CloseRm && Alive(s.cur, s.procs[p].id)
    ensures References(s) == 0
    ensures forall i :: 0 <= i < |s.procs| ==> s.procs[i].refs == 0
    ensures forall i :: 0 <= i < |s.procs| && i != p ==> !Inside(s.cur, s.procs[i])
  {
    ReachableInv(s, initval);
    RemoveStep(s, p, initval);
    SumZero(s, RefW());
    forall i | 0 <= i < |s.procs| && i != p
      ensures !Inside(s.cur, s.procs[i])
    {
      OnlyInside(s, initval, p, i);
    }
  }

  /** `sem_close` decides to remove the set exactly when it has just given back the last reference. */
  lemma RemovesExactly(s: State, initval: int, p: nat)
    requires Reachable(s, initval) && 0 <= initval <= SEMVMX
    requires p < |s.procs| && s.procs[p].pc == CloseRead && Alive(s.cur, s.procs[p].id)
    ensures Call(s, p, initval).Some?
    ensures Call(s, p, initval).value.procs[p].pc == if References(s) == 0 then CloseRm else CloseUnlock
  {
    ReachableInv(s, initval);
    NonNegative(s, initval);
  }

  /**
   A `sem_open` that takes its reference breaks the invariant if and only if another process is about to
   remove the set; the opener then has a reference that the removal does not see.
   */
  lemma OpenBreaksExactly(s: State, initval: int, p: nat)
    requires Reachable(s, initval) && 0 <= initval <= SEMVMX
    requires p < |s.procs| && s.procs[p].pc == OpenDec && Alive(s.cur, s.procs[p].id)
    requires Call(s, p, initval).Some?
    ensures Inv(Call(s, p, initval).value, initval) <==> !Removing(s)
    ensures Removing(s) ==> s.procs[p].refs == 0
  {
    ReachableInv(s, initval);
    AllSmall(s, initval, p);
    OpOpen(s.cur.vals, s.procs[p].adj);
    var s' := Call(s, p, initval).value;
    if Removing(s) {
      var i :| 0 <= i < |s.procs| && s.procs[i].pc == CloseRm && Alive(s.cur, s.procs[i].id);
      RefsBounded(s, initval, p);
      assert s'.procs[i] == s.procs[i] && !ProcOk(s'.cur, s'.nextGen, s'.procs[i], initval);
    } else {
      OpenStep(s, p, initval);
    }
  }

  /** The process counter counts references, and each process's adjustment is what it holds. */
  lemma ReferenceAccounting(s: State, initval: int)
    requires Reachable(s, initval) && 0 <= initval <= SEMVMX && s.cur.Set?
    ensures s.cur.vals.procs == if s.cur.init then MAX_CLIENTS + 1 - References(s) else 0
    ensures References(s) <= MAX_CLIENTS + 1
    ensures forall i :: 0 <= i < |s.procs| ==>
              s.procs[i].adj == Counters(if Holds(s.cur, s.procs[i]) then 1 else 0, s.procs[i].refs,
                                         if Inside(s.cur, s.procs[i]) then -1 else 0)
  {
    ReachableInv(s, initval);
    if !s.cur.init {
      SumZero(s, RefW());
    }
  }

  /** The lock is 0 or 1; it is 1 exactly when one live process is in a critical section. */
  lemma LockOwner(s: State, initval: int)
    requires Reachable(s, initval) && 0 <= initval <= SEMVMX && s.cur.Set?
    ensures s.cur.vals.lock in {0, 1}
    ensures s.cur.vals.lock == 1 <==> exists i :: 0 <= i < |s.procs| && Inside(s.cur, s.procs[i])
    ensures forall i, j | 0 <= i < |s.procs| && 0 <= j < |s.procs| ::
              Inside(s.cur, s.procs[i]) && Inside(s.cur, s.procs[j]) ==> i == j
  {
    ReachableInv(s, initval);
    if s.cur.vals.lock == 1 {
      var i := SumWitness(s.procs, InsideW(s.cur.gen));
      assert Inside(s.cur, s.procs[i]);
    } else {
      forall i | 0 <= i < |s.procs|
        ensures !Inside(s.cur, s.procs[i])
      {
        NoneInside(s, initval, i);
      }
    }
    forall i, j | 0 <= i < |s.procs| && 0 <= j < |s.procs| && Inside(s.cur, s.procs[i]) && Inside(s.cur, s.procs[j])
      ensures i == j
    {
      if i != j {
        OnlyInside(s, initval, i, j);
      }
    }
  }

  /**
   A creator at its `GETVAL` goes on to initialise exactly when the set is not initialised, or all
   MAX_CLIENTS + 1 references are out.
   */
  lemma InitialiseExactly(s: State, initval: int, p: nat)
    requires Reachable(s, initval) && 0 <= initval <= SEMVMX
    requires p < |s.procs| && s.procs[p].pc == CreateRead && Alive(s.cur, s.procs[p].id)
    ensures Call(s, p, initval).Some?
    ensures Call(s, p, initval).value.procs[p].pc == CreateSet0 <==>
            !s.cur.init || References(s) == MAX_CLIENTS + 1
  {
    ReachableInv(s, initval);
  }

  /** A `SETVAL` in a disciplined run finds no reference, no token taken and no adjustment to lose. */
  lemma InitialiseOnce(s: State, initval: int, p: nat)
    requires Reachable(s, initval) && 0 <= initval <= SEMVMX
    requires p < |s.procs| && s.procs[p].pc in {CreateSet0, CreateSet1} && Alive(s.cur, s.procs[p].id)
    ensures !s.cur.init && References(s) == 0
    ensures forall i :: 0 <= i < |s.procs| ==>
              !Holds(s.cur, s.procs[i]) && s.procs[i].adj.value == 0 && s.procs[i].adj.procs == 0
  {
    ReachableInv(s, initval);
    SumZero(s, RefW());
  }

  /** The value counts the tokens left; started at 1, at most one process is between wait and signal. */
  lemma MutualExclusion(s: State, initval: int)
    requires Reachable(s, initval) && 0 <= initval <= SEMVMX && s.cur.Set? && s.cur.init
    ensures s.cur.vals.value == initval - Sum(s.procs, HoldW(s.cur.gen))
    ensures initval == 1 ==>
              forall i, j | 0 <= i < |s.procs| && 0 <= j < |s.procs| ::
                Holds(s.cur, s.procs[i]) && Holds(s.cur, s.procs[j]) ==> i == j
  {
    ReachableInv(s, initval);
    forall i, j | initval == 1 && 0 <= i < |s.procs| && 0 <= j < |s.procs| && Holds(s.cur, s.procs[i])
                  && Holds(s.cur, s.procs[j])
      ensures i == j
    {
      if i < j {
        SumAtLeastTwo(s.procs, i, j, HoldW(s.cur.gen));
      } else if j < i {
        SumAtLeastTwo(s.procs, j, i, HoldW(s.cur.gen));
      }
    }
  }

  /** A process that dies gives back exactly its token, its references and its lock. */
  lemma CrashGivesBack(s: State, initval: int, p: nat)
    requires Reachable(s, initval) && 0 <= initval <= SEMVMX && s.cur.Set?
    requires p < |s.procs| && s.procs[p].pc != Dead
    ensures var s' := Step(s, Event(p, Crash), initval);
            && s'.Some? && s'.value.cur.Set? && s'.value.cur.gen == s.cur.gen
            && s'.value.cur.vals == Counters(s.cur.vals.value + (if Holds(s.cur, s.procs[p]) then 1 else 0),
                                             s.cur.vals.procs + s.procs[p].refs,
                                             s.cur.vals.lock - (if Inside(s.cur, s.procs[p]) then 1 else 0))
  {
    ReachableInv(s, initval);
    CrashStep(s, p, initval);
  }

  /**
   The owner of the lock never has to wait, except to take a reference when all MAX_CLIENTS + 1 are
   out; and then no process can close one, so that only a death lets it go on.
   */
  lemma OwnerWaitsExactly(s: State, initval: int, p: nat)
    requires Reachable(s, initval) && 0 <= initval <= SEMVMX
    requires p < |s.procs| && Inside(s.cur, s.procs[p])
    ensures Call(s, p, initval) == None <==> s.procs[p].pc == CreateEnd && References(s) == MAX_CLIENTS + 1
    ensures forall i :: 0 <= i < |s.procs| && s.procs[i].pc == CloseDec ==> Call(s, i, initval) == None
  {
    ReachableInv(s, initval);
    SumAtLeast(s.procs, p, InsideW(s.cur.gen));
    AllSmall(s, initval, p);
    OpEndCreate(s.cur.vals, s.procs[p].adj);
    OpUnlock(s.cur.vals, s.procs[p].adj);
    forall i | 0 <= i < |s.procs| && s.procs[i].pc == CloseDec
      ensures Call(s, i, initval) == None
    {
      AllSmall(s, initval, i);
      OpClose(s.cur.vals, s.procs[i].adj);
    }
  }
}
