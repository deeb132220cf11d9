/** When the calls of np_project2/semaphore.cpp wait, and what they do, in terms of counters and positions alone. */
module SemaphoreLaws {
  import opened Options
  import opened Semaphore
  import opened SemaphoreSafety
  import opened Sums

  /** What a process waits for, if its set is there: a free lock, a free reference, a token. */
  predicate Blocked(pc: Pc, v: Counters) {
    match pc
    case CreateLock => v.lock == 1
    case CloseDec => v.lock == 1
    case CreateEnd => v.procs == 0
    case OpenDec => v.procs == 0
    case InWait => v.value == 0
    case _ => false
  }

  lemma BlocksExactly(s: State, initval: int, p: nat)
    requires Inv(s, initval) && 0 <= initval <= SEMVMX && p < |s.procs| && s.procs[p].pc !in {Dead, Out}
    ensures Call(s, p, initval) == None <==> Alive(s.cur, s.procs[p].id) && Blocked(s.procs[p].pc, s.cur.vals)
  {
    var me := s.procs[p];
    if Alive(s.cur, me.id) {
      AllSmall(s, initval, p);
      var v := s.cur.vals;
      match me.pc
      case CreateLock => OpLock(v, me.adj);
      case CreateEnd =>
        OwnsLock(s, initval, p);
        OpEndCreate(v, me.adj);
      case OpenDec => OpOpen(v, me.adj);
      case CloseDec => OpClose(v, me.adj);
      case CloseUnlock =>
        OwnsLock(s, initval, p);
        OpUnlock(v, me.adj);
      case InWait => OpWait(v, me.adj);
      case InSignal =>
        HoldBounded(s, initval, p);
        OpSignal(v, me.adj);
      case _ =>
    }
  }

  lemma OwnsLock(s: State, initval: int, p: nat)
    requires Inv(s, initval) && p < |s.procs| && Inside(s.cur, s.procs[p])
    ensures s.cur.vals.lock == 1
  {
    SumAtLeast(s.procs, p, InsideW(s.cur.gen));
  }

  /**
   When a process waits, in any disciplined run: for the lock while somebody has it, for a reference while all are out,
   for a token while there is none, and never otherwise; nobody waits on a set that is gone.
   */
  lemma WaitsExactly(s: State, initval: int, p: nat)
    requires Reachable(s, initval) && 0 <= initval <= SEMVMX && p < |s.procs| && s.procs[p].pc !in {Dead, Out}
    ensures Call(s, p, initval) == None <==>
              && Alive(s.cur, s.procs[p].id)
              && match s.procs[p].pc
                 case CreateLock => s.cur.vals.lock == 1
                 case CloseDec => s.cur.vals.lock == 1
                 case CreateEnd => s.cur.vals.procs == 0
                 case OpenDec => s.cur.vals.procs == 0
                 case InWait => s.cur.vals.value == 0
                 case _ => false
  {
    ReachableInv(s, initval);
    BlocksExactly(s, initval, p);
  }

  /**
   What a call that does not wait does to a set that is there: the counters, whether it is initialised, and where the
   process goes on.
   */
  lemma CallDoes(s: State, initval: int, p: nat)
    requires Inv(s, initval) && 0 <= initval <= SEMVMX && p < |s.procs| && Alive(s.cur, s.procs[p].id)
    requires s.procs[p].pc !in {Dead, Out, CreateGet, OpenGet} && Call(s, p, initval).Some?
    ensures var v, s' := s.cur.vals, Call(s, p, initval).value;
      && p < |s'.procs|
      && var pc' := s'.procs[p].pc;
      match s.procs[p].pc
      case CreateLock => v.lock == 0 && s'.cur == s.cur.(vals := v.(lock := 1)) && pc' == CreateRead
      case CreateRead => s'.cur == s.cur && pc' == if v.procs == 0 then CreateSet0 else CreateEnd
      case CreateSet0 => s'.cur == s.cur.(vals := v.(value := initval)) && pc' == CreateSet1
      case CreateSet1 => s'.cur == Set(s.cur.gen, v.(procs := MAX_CLIENTS + 1), true) && pc' == CreateEnd
      case CreateEnd => s'.cur == s.cur.(vals := Counters(v.value, v.procs - 1, 0)) && pc' == Out
      case OpenDec => s'.cur == s.cur.(vals := v.(procs := v.procs - 1)) && pc' == Out
      case CloseDec =>
        v.lock == 0 && s'.cur == s.cur.(vals := Counters(v.value, v.procs + 1, 1)) && pc' == CloseRead
      case CloseRead => s'.cur == s.cur && pc' == if v.procs == MAX_CLIENTS + 1 then CloseRm else CloseUnlock
      case CloseRm => s'.cur == NoSet && pc' == Out
      case CloseUnlock => s'.cur == s.cur.(vals := v.(lock := 0)) && pc' == Out
      case InWait => s'.cur == s.cur.(vals := v.(value := v.value - 1)) && pc' == Out
      case InSignal => s'.cur == s.cur.(vals := v.(value := v.value + 1)) && pc' == Out
      case _ => true
  {
    var me, v := s.procs[p], s.cur.vals;
    AllSmall(s, initval, p);
    NonNegative(s, initval);
    match me.pc
    case CreateLock => OpLock(v, me.adj);
    case CreateEnd =>
      OwnsLock(s, initval, p);
      OpEndCreate(v, me.adj);
    case OpenDec => OpOpen(v, me.adj);
    case CloseDec => OpClose(v, me.adj);
    case CloseUnlock =>
      OwnsLock(s, initval, p);
      OpUnlock(v, me.adj);
    case InWait => OpWait(v, me.adj);
    case InSignal =>
      HoldBounded(s, initval, p);
      OpSignal(v, me.adj);
    case _ =>
  }

  /** `semget`: with `IPC_CREAT` there is a set afterwards, a new one with zeros if there was none. */
  lemma GetDoes(s: State, initval: int, p: nat)
    requires p < |s.procs| && s.procs[p].pc in {CreateGet, OpenGet}
    ensures Call(s, p, initval).Some?
    ensures var s' := Call(s, p, initval).value;
      && p < |s'.procs| && s'.procs[p].refs == s.procs[p].refs
      && (s.cur.Set? ==>
            && s'.cur == s.cur && s'.procs[p].id == s.cur.gen
            && s'.procs[p].pc == if s.procs[p].pc == CreateGet then CreateLock else OpenDec)
      && (s.cur.NoSet? && s.procs[p].pc == CreateGet ==>
            && s'.cur == Set(s.nextGen, Counters(0, 0, 0), false) && s'.nextGen == s.nextGen + 1
            && s'.procs[p].id == s.nextGen && s'.procs[p].pc == CreateLock)
      && (s.cur.NoSet? && s.procs[p].pc == OpenGet ==> s'.cur == NoSet && s'.procs[p].pc == Out)
  {
  }

  /** A child works on the set of its parent, without references, adjustments or a token of its own. */
  lemma ForkDoes(s: State, initval: int, p: nat)
    requires p < |s.procs| && s.procs[p].pc == Out
    ensures var s' := Step(s, Event(p, Fork), initval);
      && s'.Some? && s'.value.cur == s.cur && |s'.value.procs| == |s.procs| + 1
      && s'.value.procs[..|s.procs|] == s.procs
      && s'.value.procs[|s.procs|] == Proc(Out, s.procs[p].id, Counters(0, 0, 0), 0, false)
  {
  }
}
