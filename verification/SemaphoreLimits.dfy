/**
 Where the premises of SemaphoreSafety are needed: two runs of semaphore.cpp that break its promises,
 one with more than MAX_CLIENTS references, one with a `sem_open` by a process that has none.
 */
module SemaphoreLimits {
  import opened Options
  import opened Semaphore
  import opened SemaphoreSafety

  /** `s` is the end of some run, disciplined or not. */
  ghost predicate Possible(s: State, initval: int) {
    exists events :: Run(INIT, events, initval) == Some(s)
  }

  lemma {:induction false} RunAppend(s: State, first: seq<Event>, second: seq<Event>, initval: int)
    requires Run(s, first, initval).Some?
    ensures Run(s, first + second, initval) == Run(Run(s, first, initval).value, second, initval)
    decreases |first|
  {
    if first == [] {
      assert first + second == second;
    } else {
      assert (first + second)[1..] == first[1..] + second;
      RunAppend(Step(s, first[0], initval).value, first[1..], second, initval);
    }
  }

  lemma Next(s: State, e: Event, s': State, initval: int)
    requires Possible(s, initval) && Step(s, e, initval) == Some(s')
    ensures Possible(s', initval)
  {
    var events :| Run(INIT, events, initval) == Some(s);
    RunAppend(INIT, events, [e], initval);
    assert [e][1..] == [];
  }

  /** The last process of a state takes the free lock. */
  lemma Locks(v: Counters, init: bool, others: seq<Proc>, initval: int)
    requires v.lock == 0 && Small(v, ZERO)
    requires Possible(State(Set(0, v, init), 1, others + [Proc(CreateLock, 0, ZERO, 0, false)]), initval)
    ensures Possible(State(Set(0, v.(lock := 1), init), 1,
                           others + [Proc(CreateRead, 0, Counters(0, 0, -1), 0, false)]), initval)
  {
    var n := |others|;
    var s := State(Set(0, v, init), 1, others + [Proc(CreateLock, 0, ZERO, 0, false)]);
    var s' := State(Set(0, v.(lock := 1), init), 1, others + [Proc(CreateRead, 0, Counters(0, 0, -1), 0, false)]);
    assert s'.procs == s.procs[n := s'.procs[n]];
    OpLock(v, ZERO);
    Next(s, Event(n, Advance), s', initval);
  }

  /** A new process gets as far as the `GETVAL` of `sem_create` while set 0 is there and free. */
  lemma Joins(v: Counters, init: bool, others: seq<Proc>, initval: int)
    requires v.lock == 0 && Small(v, ZERO)
    requires Possible(State(Set(0, v, init), 1, others), initval)
    ensures Possible(State(Set(0, v.(lock := 1), init), 1,
                           others + [Proc(CreateRead, 0, Counters(0, 0, -1), 0, false)]), initval)
  {
    var n := |others|;
    var cur := Set(0, v, init);
    var s1 := State(cur, 1, others + [DEAD.(pc := Out)]);
    var s2 := State(cur, 1, others + [DEAD.(pc := CreateGet)]);
    var s3 := State(cur, 1, others + [Proc(CreateLock, 0, ZERO, 0, false)]);
    Next(State(cur, 1, others), Event(0, Spawn), s1, initval);
    assert s2.procs == s1.procs[n := s2.procs[n]];
    Next(s1, Event(n, CallCreate), s2, initval);
    assert s3.procs == s2.procs[n := s3.procs[n]];
    Next(s2, Event(n, Advance), s3, initval);
    Locks(v, init, others, initval);
  }

  /** A process with one reference to set 0, outside semaphore.cpp. */
  const MEMBER := Proc(Out, 0, Counters(0, 1, 0), 1, false)

  /** `n` processes, each with one reference. */
  function Crowd(n: nat, initval: int): State {
    State(Set(0, Counters(initval, MAX_CLIENTS + 1 - n, 0), true), 1, seq(n, i => MEMBER))
  }

  /** The last process of a state ends its `sem_create`. */
  lemma EndsCreate(v: Counters, others: seq<Proc>, initval: int)
    requires v.lock == 1 && v.procs >= 1 && Small(v, Counters(0, 0, -1))
    requires Possible(State(Set(0, v, true), 1, others + [Proc(CreateEnd, 0, Counters(0, 0, -1), 0, false)]), initval)
    ensures Possible(State(Set(0, Counters(v.value, v.procs - 1, 0), true), 1, others + [MEMBER]), initval)
  {
    var n := |others|;
    var s := State(Set(0, v, true), 1, others + [Proc(CreateEnd, 0, Counters(0, 0, -1), 0, false)]);
    var s' := State(Set(0, Counters(v.value, v.procs - 1, 0), true), 1, others + [MEMBER]);
    assert s'.procs == s.procs[n := MEMBER];
    OpEndCreate(v, Counters(0, 0, -1));
    Next(s, Event(n, Advance), s', initval);
  }

  /** The first creator makes a set and finds its process counter 0. */
  lemma FirstLocks(initval: int)
    ensures Possible(State(Set(0, Counters(0, 0, 1), false), 1,
                           [Proc(CreateRead, 0, Counters(0, 0, -1), 0, false)]), initval)
  {
    assert Run(INIT, [], initval) == Some(INIT);
    var s1 := State(NoSet, 0, [DEAD.(pc := Out)]);
    var s2 := State(NoSet, 0, [DEAD.(pc := CreateGet)]);
    var s3 := State(Set(0, ZERO, false), 1, [Proc(CreateLock, 0, ZERO, 0, false)]);
    assert INIT.procs + [DEAD.(pc := Out)] == s1.procs;
    Next(INIT, Event(0, Spawn), s1, initval);
    assert s2.procs == s1.procs[0 := s2.procs[0]];
    Next(s1, Event(0, CallCreate), s2, initval);
    assert s3.procs == s2.procs[0 := s3.procs[0]];
    Next(s2, Event(0, Advance), s3, initval);
    assert [] + s3.procs == s3.procs;
    Locks(ZERO, false, [], initval);
    assert [] + [Proc(CreateRead, 0, Counters(0, 0, -1), 0, false)] == [Proc(CreateRead, 0, Counters(0, 0, -1), 0,
                                                                             false)];
  }

  /** A creator, the last process of the state, that is at its `GETVAL` and reads 0, re-initialises. */
  lemma Initialises(v: Counters, init: bool, others: seq<Proc>, initval: int)
    requires v.procs == 0
    requires Possible(State(Set(0, v, init), 1, others + [Proc(CreateRead, 0, Counters(0, 0, -1), 0, false)]), initval)
    ensures Possible(State(Set(0, Counters(initval, MAX_CLIENTS + 1, v.lock), true), 1,
                           ClearProcs(ClearValue(others)) + [Proc(CreateEnd, 0, Counters(0, 0, -1), 0, false)]),
                     initval)
  {
    var n := |others|;
    var at := Proc(CreateRead, 0, Counters(0, 0, -1), 0, false);
    var s0 := State(Set(0, v, init), 1, others + [at]);
    var s1 := State(Set(0, v, init), 1, others + [at.(pc := CreateSet0)]);
    var s2 := State(Set(0, v.(value := initval), init), 1, ClearValue(others) + [at.(pc := CreateSet1)]);
    var s3 := State(Set(0, Counters(initval, MAX_CLIENTS + 1, v.lock), true), 1,
                    ClearProcs(ClearValue(others)) + [at.(pc := CreateEnd)]);
    assert s1.procs == s0.procs[n := s1.procs[n]];
    Next(s0, Event(n, Advance), s1, initval);
    assert s2.procs == ClearValue(s1.procs[n := at.(pc := CreateSet1)]);
    Next(s1, Event(n, Advance), s2, initval);
    assert s3.procs == ClearProcs(s2.procs[n := at.(pc := CreateEnd)]);
    Next(s2, Event(n, Advance), s3, initval);
  }

  /** Any number of processes up to MAX_CLIENTS + 1 can have a reference at once. */
  lemma {:induction false} CrowdForms(n: nat, initval: int)
    requires 0 <= initval <= SEMVMX && 1 <= n <= MAX_CLIENTS + 1
    ensures Possible(Crowd(n, initval), initval)
  {
    var at := Proc(CreateRead, 0, Counters(0, 0, -1), 0, false);
    if n == 1 {
      FirstLocks(initval);
      assert [] + [at] == [at];
      Initialises(Counters(0, 0, 1), false, [], initval);
      EndsCreate(Counters(initval, MAX_CLIENTS + 1, 1), [], initval);
      assert [] + [MEMBER] == Crowd(1, initval).procs;
    } else {
      CrowdForms(n - 1, initval);
      var c := Crowd(n - 1, initval);
      Joins(c.cur.vals, true, c.procs, initval);
      var s := State(Set(0, c.cur.vals.(lock := 1), true), 1, c.procs + [at]);
      var s' := State(s.cur, 1, c.procs + [at.(pc := CreateEnd)]);
      assert s'.procs == s.procs[n - 1 := s'.procs[n - 1]];
      Next(s, Event(n - 1, Advance), s', initval);
      EndsCreate(s.cur.vals, c.procs, initval);
      assert c.procs + [MEMBER] == Crowd(n, initval).procs;
    }
  }

  /**
   With MAX_CLIENTS + 1 references out the next `sem_create` re-initialises the set in use: the counter
   says that nobody has it, while thirty-one processes do, and their adjustments are lost.
   */
  lemma OneCreatorTooMany(initval: int) returns (s: State)
    requires 0 <= initval <= SEMVMX
    ensures Possible(s, initval)
    ensures s.cur.Set? && s.cur.vals.procs == MAX_CLIENTS + 1 && |s.procs| == MAX_CLIENTS + 2
    ensures forall i :: 0 <= i <= MAX_CLIENTS ==>
              s.procs[i].refs == 1 && s.procs[i].id == s.cur.gen && s.procs[i].adj.procs == 0
  {
    var n := MAX_CLIENTS + 1;
    var c := Crowd(n, initval);
    CrowdForms(n, initval);
    Joins(c.cur.vals, true, c.procs, initval);
    Initialises(c.cur.vals.(lock := 1), true, c.procs, initval);
    s := State(Set(0, Counters(initval, MAX_CLIENTS + 1, 1), true), 1,
               ClearProcs(ClearValue(c.procs)) + [Proc(CreateEnd, 0, Counters(0, 0, -1), 0, false)]);
  }

  /** A lone member closes, up to the `IPC_RMID`, while a process without a reference stands by. */
  lemma LoneMemberCloses(initval: int)
    requires 0 <= initval <= SEMVMX
    ensures Possible(State(Set(0, Counters(initval, MAX_CLIENTS + 1, 1), true), 1,
                           [Proc(CloseRm, 0, Counters(0, 0, -1), 0, false), DEAD.(pc := Out)]), initval)
  {
    CrowdForms(1, initval);
    var v := Counters(initval, MAX_CLIENTS, 0);
    var w := Counters(initval, MAX_CLIENTS + 1, 1);
    var idle := DEAD.(pc := Out);
    var s1 := State(Set(0, v, true), 1, [MEMBER, idle]);
    var s2 := State(Set(0, v, true), 1, [MEMBER.(pc := CloseDec), idle]);
    var s3 := State(Set(0, w, true), 1, [Proc(CloseRead, 0, Counters(0, 0, -1), 0, false), idle]);
    var s4 := State(Set(0, w, true), 1, [Proc(CloseRm, 0, Counters(0, 0, -1), 0, false), idle]);
    assert Crowd(1, initval).procs + [idle] == s1.procs;
    Next(Crowd(1, initval), Event(0, Spawn), s1, initval);
    assert s2.procs == s1.procs[0 := s2.procs[0]];
    Next(s1, Event(0, CallClose), s2, initval);
    assert s3.procs == s2.procs[0 := s3.procs[0]];
    OpClose(v, MEMBER.adj);
    Next(s2, Event(0, Advance), s3, initval);
    assert s4.procs == s3.procs[0 := s4.procs[0]];
    Next(s3, Event(0, Advance), s4, initval);
  }

  /**
   A `sem_open` by a process without a reference, between the `GETVAL` and the `IPC_RMID` of another
   one's `sem_close`, leaves it with a reference to a set that is gone.
   */
  lemma OpenWithoutReference(initval: int) returns (s: State)
    requires 0 <= initval <= SEMVMX
    ensures Possible(s, initval)
    ensures s.cur.NoSet? && |s.procs| == 2 && s.procs[1].pc == Out && s.procs[1].refs == 1
  {
    LoneMemberCloses(initval);
    var closer := Proc(CloseRm, 0, Counters(0, 0, -1), 0, false);
    var w := Counters(initval, MAX_CLIENTS + 1, 1);
    var s4 := State(Set(0, w, true), 1, [closer, DEAD.(pc := Out)]);
    var s5 := State(Set(0, w, true), 1, [closer, DEAD.(pc := OpenGet)]);
    var s6 := State(Set(0, w, true), 1, [closer, Proc(OpenDec, 0, ZERO, 0, false)]);
    var s7 := State(Set(0, Counters(initval, MAX_CLIENTS, 1), true), 1, [closer, MEMBER]);
    s := State(NoSet, 1, ClearAll([closer.(pc := Out), MEMBER]));
    assert s5.procs == s4.procs[1 := s5.procs[1]];
    Next(s4, Event(1, CallOpen), s5, initval);
    assert s6.procs == s5.procs[1 := s6.procs[1]];
    Next(s5, Event(1, Advance), s6, initval);
    assert s7.procs == s6.procs[1 := s7.procs[1]];
    OpOpen(w, ZERO);
    Next(s6, Event(1, Advance), s7, initval);
    assert s.procs == ClearAll(s7.procs[0 := closer.(pc := Out)]);
    Next(s7, Event(0, Advance), s, initval);
  }
}
