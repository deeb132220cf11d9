/**
 The reference-counted System V semaphore of np_project2/semaphore.h and
 np_project2/semaphore.cpp, as a step system.

 One kernel set of three counters (value, process counter, lock) is shared by any number of
 processes. A step is one system call; processes interleave at every system call, may be forked and
 may die between any two calls, when the kernel applies their `SEM_UNDO` adjustments.
 */
module Semaphore {
  import opened Sums
  import opened Options

  const MAX_CLIENTS: int := 30
  /** The largest value the kernel lets a semaphore or an adjustment reach. */
  const SEMVMX: int := 32767

  // ------------------------------------------------------------------ the kernel's semop

  datatype SemBuf = SemBuf(num: nat, op: int, undo: bool)

  datatype Counters = Counters(value: int, procs: int, lock: int) {
    function At(i: nat): int {
      if i == 0 then value else if i == 1 then procs else lock
    }

    function With(i: nat, x: int): Counters {
      if i == 0 then this.(value := x) else if i == 1 then this.(procs := x) else this.(lock := x)
    }
  }

  const ZERO := Counters(0, 0, 0)

  const OP_LOCK := [SemBuf(2, 0, false), SemBuf(2, 1, true)]
  const OP_ENDCREATE := [SemBuf(1, -1, true), SemBuf(2, -1, true)]
  const OP_OPEN := [SemBuf(1, -1, true)]
  const OP_CLOSE := [SemBuf(2, 0, false), SemBuf(2, 1, true), SemBuf(1, 1, true)]
  const OP_UNLOCK := [SemBuf(2, -1, true)]

  /** `op_op` after `sem_op` has stored `value` in it. */
  function OpOp(value: int): seq<SemBuf> {
    [SemBuf(0, value, true)]
  }

  datatype Outcome = Done(vals: Counters, adj: Counters) | WouldBlock | OutOfRange

  /** One operation of a `semop` array, with its effect on the caller's adjustments. */
  function Apply(vals: Counters, adj: Counters, o: SemBuf): Outcome {
    var result := vals.At(o.num) + o.op;
    var undo := if o.undo then adj.At(o.num) - o.op else adj.At(o.num);
    if (o.op == 0 && vals.At(o.num) != 0) || result < 0 then WouldBlock
    else if result > SEMVMX || !(-SEMVMX - 1 <= undo <= SEMVMX) then OutOfRange
    else Done(vals.With(o.num, result), adj.With(o.num, undo))
  }

  /** One atomic `semop`: all the operations in order, each seeing the ones before it, or none. */
  function SemOp(vals: Counters, adj: Counters, ops: seq<SemBuf>): Outcome
    decreases |ops|
  {
    if ops == [] then Done(vals, adj)
    else
      var first := Apply(vals, adj, ops[0]);
      if first.Done? then SemOp(first.vals, first.adj, ops[1..]) else first
  }

  // ------------------------------------------------------------------ states

  /** The system call a process is about to make; `Out` is outside semaphore.cpp. */
  datatype Pc =
    | Dead | Out
    | CreateGet | CreateLock | CreateRead | CreateSet0 | CreateSet1 | CreateEnd
    | OpenGet | OpenDec
    | CloseDec | CloseRead | CloseRm | CloseUnlock
    | InWait | InSignal

  /**
   `id` is the set the process works on, `adj` its kernel adjustments for the current set. `refs` and
   `inCS` are what its program knows: creates and opens that returned minus closes, and whether it is
   between `sem_wait` and `sem_signal`.
   */
  datatype Proc = Proc(pc: Pc, id: int, adj: Counters, refs: nat, inCS: bool)

  /** `init` records whether the process counter has been given its initial value. */
  datatype Set = NoSet | Set(gen: nat, vals: Counters, init: bool)

  datatype State = State(cur: Set, nextGen: nat, procs: seq<Proc>)

  const INIT := State(NoSet, 0, [])
  const DEAD := Proc(Dead, -1, ZERO, 0, false)

  predicate Alive(cur: Set, id: int) {
    cur.Set? && cur.gen == id
  }

  /** Calls made while the code believes that it owns the lock. */
  predicate LockedPc(pc: Pc) {
    pc in {CreateRead, CreateSet0, CreateSet1, CreateEnd, CloseRead, CloseRm, CloseUnlock}
  }

  // ------------------------------------------------------------------ steps

  /**
   What a process does next: call one of the five functions, make the pending system call (`Advance`),
   have its wait for the lock cut short because the set was removed (`Removed`, EIDRM), get an error
   from `semget` (`GetFails`), fork, or die. `Spawn` starts a new process.
   */
  datatype Action =
    | CallCreate | CallOpen | CallClose | CallWait | CallSignal
    | Advance | Removed | GetFails | Crash | Fork | Spawn

  datatype Event = Event(p: nat, a: Action)

  function ClearValue(procs: seq<Proc>): (r: seq<Proc>)
    ensures |r| == |procs|
    ensures forall i :: 0 <= i < |r| ==> r[i] == procs[i].(adj := procs[i].adj.(value := 0))
  {
    seq(|procs|, i requires 0 <= i < |procs| => procs[i].(adj := procs[i].adj.(value := 0)))
  }

  function ClearProcs(procs: seq<Proc>): (r: seq<Proc>)
    ensures |r| == |procs|
    ensures forall i :: 0 <= i < |r| ==> r[i] == procs[i].(adj := procs[i].adj.(procs := 0))
  {
    seq(|procs|, i requires 0 <= i < |procs| => procs[i].(adj := procs[i].adj.(procs := 0)))
  }

  function ClearAll(procs: seq<Proc>): (r: seq<Proc>)
    ensures |r| == |procs|
    ensures forall i :: 0 <= i < |r| ==> r[i] == procs[i].(adj := ZERO)
  {
    seq(|procs|, i requires 0 <= i < |procs| => procs[i].(adj := ZERO))
  }

  /** A semaphore operation by process `p`, which then continues as `ok`; on an error as `err`. */
  function DoOp(s: State, p: nat, ops: seq<SemBuf>, ok: Proc, err: Proc): Option<State>
    requires p < |s.procs|
  {
    if !Alive(s.cur, s.procs[p].id) then Some(s.(procs := s.procs[p := err]))
    else
      match SemOp(s.cur.vals, s.procs[p].adj, ops)
      case WouldBlock => None
      case OutOfRange => Some(s.(procs := s.procs[p := err]))
      case Done(vals, adj) => Some(s.(cur := s.cur.(vals := vals), procs := s.procs[p := ok.(adj := adj)]))
  }

  function Clamp(x: int): int {
    if x < 0 then 0 else if x > SEMVMX then SEMVMX else x
  }

  /** The kernel's clean-up when a process dies. */
  function Undo(cur: Set, adj: Counters): Set {
    if cur.NoSet? then NoSet
    else cur.(vals := Counters(Clamp(cur.vals.value + adj.value), Clamp(cur.vals.procs + adj.procs),
                               Clamp(cur.vals.lock + adj.lock)))
  }

  /** The pending system call of process `p`; `None` when it has none or has to wait. */
  function Call(s: State, p: nat, initval: int): Option<State>
    requires p < |s.procs|
  {
    var me := s.procs[p];
    var alive := Alive(s.cur, me.id);
    match me.pc
    case Dead => None
    case Out => None
    // sem_create
    case CreateGet =>
      if s.cur.NoSet? then
        Some(State(Set(s.nextGen, ZERO, false), s.nextGen + 1,
                   s.procs[p := me.(pc := CreateLock, id := s.nextGen)]))
      else Some(s.(procs := s.procs[p := me.(pc := CreateLock, id := s.cur.gen)]))
    case CreateLock =>
      DoOp(s, p, OP_LOCK, me.(pc := CreateRead), me.(pc := if alive then CreateRead else CreateGet))
    case CreateRead =>
      Some(s.(procs := s.procs[p := me.(pc := if alive && s.cur.vals.procs == 0 then CreateSet0 else CreateEnd)]))
    case CreateSet0 =>
      if alive then
        Some(s.(cur := s.cur.(vals := s.cur.vals.(value := initval)),
                procs := ClearValue(s.procs[p := me.(pc := CreateSet1)])))
      else Some(s.(procs := s.procs[p := me.(pc := CreateSet1)]))
    case CreateSet1 =>
      if alive then
        Some(s.(cur := s.cur.(vals := s.cur.vals.(procs := MAX_CLIENTS + 1), init := true),
                procs := ClearProcs(s.procs[p := me.(pc := CreateEnd)])))
      else Some(s.(procs := s.procs[p := me.(pc := CreateEnd)]))
    case CreateEnd =>
      DoOp(s, p, OP_ENDCREATE, me.(pc := Out, refs := me.refs + 1), me.(pc := Out))
    // sem_open
    case OpenGet =>
      if s.cur.NoSet? then Some(s.(procs := s.procs[p := me.(pc := Out)]))
      else Some(s.(procs := s.procs[p := me.(pc := OpenDec, id := s.cur.gen)]))
    case OpenDec =>
      DoOp(s, p, OP_OPEN, me.(pc := Out, refs := me.refs + 1), me.(pc := Out))
    // sem_close
    case CloseDec =>
      DoOp(s, p, OP_CLOSE, me.(pc := CloseRead, refs := if me.refs > 0 then me.refs - 1 else 0),
           me.(pc := CloseRead))
    case CloseRead =>
      var semval := if alive then s.cur.vals.procs else -1;
      Some(s.(procs := s.procs[p := me.(pc := if semval > MAX_CLIENTS + 1 then Out
                                              else if semval == MAX_CLIENTS + 1 then CloseRm
                                              else CloseUnlock)]))
    case CloseRm =>
      if alive then Some(s.(cur := NoSet, procs := ClearAll(s.procs[p := me.(pc := Out)])))
      else Some(s.(procs := s.procs[p := me.(pc := Out)]))
    case CloseUnlock =>
      DoOp(s, p, OP_UNLOCK, me.(pc := Out), me.(pc := Out))
    // sem_wait, sem_signal: an error is reported and otherwise ignored
    case InWait =>
      DoOp(s, p, OpOp(-1), me.(pc := Out, inCS := true), me.(pc := Out, inCS := true))
    case InSignal =>
      DoOp(s, p, OpOp(1), me.(pc := Out, inCS := false), me.(pc := Out, inCS := false))
  }

  function Step(s: State, e: Event, initval: int): Option<State> {
    if e.a.Spawn? then Some(s.(procs := s.procs + [DEAD.(pc := Out)]))
    else if e.p >= |s.procs| || s.procs[e.p].pc.Dead? then None
    else
      var me := s.procs[e.p];
      match e.a
      case Spawn => None
      case Crash => Some(s.(cur := Undo(s.cur, me.adj), procs := s.procs[e.p := DEAD]))
      case Advance => Call(s, e.p, initval)
      case Removed =>
        if me.pc == CreateLock && !Alive(s.cur, me.id)
        then Some(s.(procs := s.procs[e.p := me.(pc := CreateRead)])) else None
      case GetFails =>
        if me.pc in {CreateGet, OpenGet} then Some(s.(procs := s.procs[e.p := me.(pc := Out)])) else None
      // a child inherits the identifier but neither references nor adjustments
      case Fork => if me.pc == Out then Some(s.(procs := s.procs + [Proc(Out, me.id, ZERO, 0, false)])) else None
      case CallCreate => Enter(s, e.p, CreateGet)
      case CallOpen => Enter(s, e.p, OpenGet)
      case CallClose => Enter(s, e.p, CloseDec)
      case CallWait => Enter(s, e.p, InWait)
      case CallSignal => Enter(s, e.p, InSignal)
  }

  function Enter(s: State, p: nat, pc: Pc): Option<State>
    requires p < |s.procs|
  {
    if s.procs[p].pc == Out then Some(s.(procs := s.procs[p := s.procs[p].(pc := pc)])) else None
  }

  /** A run; `None` when some event of it is not possible. */
  function Run(s: State, events: seq<Event>, initval: int): Option<State>
    decreases |events|
  {
    if events == [] then Some(s)
    else
      match Step(s, events[0], initval)
      case None => None
      case Some(s') => Run(s', events[1..], initval)
  }

  // ------------------------------------------------------------------ the callers' side

  function RefW(): Proc -> int {
    (p: Proc) => p.refs
  }

  function References(s: State): int {
    Sum(s.procs, RefW())
  }

  /** Some process is about to remove the set that is there. */
  predicate Removing(s: State) {
    exists i :: 0 <= i < |s.procs| && s.procs[i].pc == CloseRm && Alive(s.cur, s.procs[i].id)
  }

  /**
   What the protocol asks of its callers: `sem_close` only with a reference in hand; a `sem_open` without
   one takes its reference only while nobody is about to remove the set; `sem_wait` and `sem_signal`
   alternate, with no `sem_create` or `sem_open` without a reference between the two; and when a creator looks
   at the process counter no more than MAX_CLIENTS references are out.
   */
  predicate Disciplined(s: State, e: Event) {
    e.p < |s.procs| ==>
      var me := s.procs[e.p];
      && (e.a.CallClose? ==> me.refs > 0)
      && (e.a.CallOpen? || e.a.CallCreate? ==> me.refs > 0 || !me.inCS)
      && (e.a.Advance? && me.pc == OpenDec ==> me.refs > 0 || !Removing(s))
      && (e.a.CallWait? ==> !me.inCS)
      && (e.a.CallSignal? ==> me.inCS)
      && (e.a.Advance? && me.pc == CreateRead ==> References(s) <= MAX_CLIENTS)
  }

  ghost predicate DisciplinedRun(s: State, events: seq<Event>, initval: int)
    decreases |events|
  {
    events == [] ||
    (Disciplined(s, events[0]) && Step(s, events[0], initval).Some? &&
     DisciplinedRun(Step(s, events[0], initval).value, events[1..], initval))
  }

  /** `s` is reached by some disciplined run of the whole system. */
  ghost predicate Reachable(s: State, initval: int) {
    exists events :: DisciplinedRun(INIT, events, initval) && Run(INIT, events, initval) == Some(s)
  }
}
