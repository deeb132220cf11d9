/**
 The pipe vector of np_project1/utils.cpp and np_project2/utils.cpp: pipes waiting for a command, each
 with the number of commands until it is due.
 */
module NumberedPipes {
  import opened Descriptors
  import opened Options

  datatype PipeCounter = PipeCounter(readfd: int, writefd: int, counter: int)

  function Ticked(p: PipeCounter): PipeCounter {
    p.(counter := p.counter - 1)
  }

  method PipesUpdate(pipes: seq<PipeCounter>) returns (r: seq<PipeCounter>)
    ensures |r| == |pipes| && forall i :: 0 <= i < |r| ==> r[i] == Ticked(pipes[i])
  {
    r := pipes;
    var i := 0;
    while i < |r|
      invariant 0 <= i <= |r| == |pipes|
      invariant forall k :: 0 <= k < |r| ==> r[k] == if k < i then Ticked(pipes[k]) else pipes[k]
    {
      r := r[i := r[i].(counter := r[i].counter - 1)];
      i := i + 1;
    }
  }

  /** `i` is the first pipe with `counter` commands to go, or -1 if there is none. */
  predicate IsFirst(pipes: seq<PipeCounter>, counter: int, i: int) {
    if i == -1 then forall k :: 0 <= k < |pipes| ==> pipes[k].counter != counter
    else 0 <= i < |pipes| && pipes[i].counter == counter && forall k :: 0 <= k < i ==> pipes[k].counter != counter
  }

  method PipeForReading(pipes: seq<PipeCounter>) returns (r: int)
    ensures IsFirst(pipes, 0, r)
  {
    r := PipeForWriting(pipes, 0);
  }

  method PipeForWriting(pipes: seq<PipeCounter>, pipeN: int) returns (r: int)
    ensures IsFirst(pipes, pipeN, r)
  {
    var i := 0;
    while i < |pipes|
      invariant 0 <= i <= |pipes| && forall k :: 0 <= k < i ==> pipes[k].counter != pipeN
    {
      if pipes[i].counter == pipeN {
        return i;
      }
      i := i + 1;
    }
    return -1;
  }

  // ------------------------------------------------------------------ descriptors

  /** The entries of the vector are open pipes, each another one. */
  ghost predicate Owned(pipes: seq<PipeCounter>, fds: Fds) {
    && (forall i :: 0 <= i < |pipes| ==> OpenPipe(pipes[i], fds))
    && (forall i, j :: 0 <= i < j < |pipes| ==> Obj(pipes[i], fds) != Obj(pipes[j], fds))
  }

  /** No pipe end is open other than those of the vector. */
  ghost predicate NoOthers(pipes: seq<PipeCounter>, fds: Fds) {
    forall fd {:trigger IsPipeEnd(fds[fd])} :: fd in fds && IsPipeEnd(fds[fd]) ==>
      exists i :: 0 <= i < |pipes| && (fd == pipes[i].readfd || fd == pipes[i].writefd)
  }

  predicate OpenPipe(p: PipeCounter, fds: Fds) {
    && p.readfd in fds && fds[p.readfd].ReadEnd?
    && p.writefd in fds && fds[p.writefd] == WriteEnd(fds[p.readfd].obj)
  }

  function Obj(p: PipeCounter, fds: Fds): int {
    if OpenPipe(p, fds) then fds[p.readfd].obj else -1
  }

  // ------------------------------------------------------------------ what has been run

  datatype Output = Output(obj: nat, delay: int)

  /**
   What one command did: nothing with pipes (a built-in, or a redirection that failed), or a process
   with its input pipe and its output pipe, due `delay` commands later.
   */
  datatype Tick = Quiet | Ran(input: Option<nat>, output: Option<Output>)

  predicate Writer(h: seq<Tick>, j: int) {
    0 <= j < |h| && h[j].Ran? && h[j].output.Some?
  }

  function Due(h: seq<Tick>, j: int): int
    requires Writer(h, j)
  {
    j + h[j].output.value.delay
  }

  function Out(h: seq<Tick>, j: int): nat
    requires Writer(h, j)
  {
    h[j].output.value.obj
  }

  /** Commands write to the same pipe exactly when their outputs are due at the same command. */
  ghost predicate OnePipePerDue(h: seq<Tick>) {
    forall i, j :: Writer(h, i) && Writer(h, j) ==> (Out(h, i) == Out(h, j) <==> Due(h, i) == Due(h, j))
  }

  /** A process reads a pipe exactly when some output is due at it, and then a pipe with such output. */
  ghost predicate ReadersServed(h: seq<Tick>) {
    forall k {:trigger Served(h, k, h[k].input)} :: 0 <= k < |h| && h[k].Ran? ==> Served(h, k, h[k].input)
  }

  ghost predicate Served(h: seq<Tick>, k: nat, input: Option<nat>) {
    match input
    case None => forall j :: Writer(h, j) ==> Due(h, j) != k
    case Some(o) => exists j :: Writer(h, j) && Due(h, j) == k && Out(h, j) == o
  }

  ghost predicate DelaysPositive(h: seq<Tick>) {
    forall j :: Writer(h, j) ==> h[j].output.value.delay >= 1
  }

  /** The specification: output of command j with delay N goes to command j + N and nowhere else. */
  ghost predicate Delivered(h: seq<Tick>) {
    && (forall j, k :: Writer(h, j) && 0 <= k < |h| && h[k].Ran? ==>
          (h[k].input == Some(Out(h, j)) <==> Due(h, j) == k))
    && (forall k {:trigger DueAt(h, k)} :: 0 <= k < |h| && h[k].Ran? && h[k].input.Some? ==> DueAt(h, k))
  }

  /** Some earlier command has output due at command `k`. */
  ghost predicate DueAt(h: seq<Tick>, k: int) {
    exists j :: Writer(h, j) && j < k && Due(h, j) == k
  }

  lemma DeliveredIf(h: seq<Tick>)
    requires OnePipePerDue(h) && ReadersServed(h) && DelaysPositive(h)
    ensures Delivered(h)
  {
    forall j, k | Writer(h, j) && 0 <= k < |h| && h[k].Ran?
      ensures h[k].input == Some(Out(h, j)) <==> Due(h, j) == k
    {
      assert Served(h, k, h[k].input);
    }
    forall k | 0 <= k < |h| && h[k].Ran? && h[k].input.Some?
      ensures DueAt(h, k)
    {
      assert Served(h, k, h[k].input);
    }
  }

  // ------------------------------------------------------------------ the vector against the history

  /** The command at which a pipe is due, when the counters are those of command `now`. */
  function DueOf(p: PipeCounter, now: int): int {
    now + p.counter
  }

  ghost predicate Distinct(pipes: seq<PipeCounter>) {
    forall i, j :: 0 <= i < j < |pipes| ==> pipes[i].counter != pipes[j].counter
  }

  ghost predicate Pending(pipes: seq<PipeCounter>, fds: Fds, h: seq<Tick>, now: int, j: int)
    requires Writer(h, j)
  {
    exists i :: 0 <= i < |pipes| && Obj(pipes[i], fds) == Out(h, j) && DueOf(pipes[i], now) == Due(h, j)
  }

  ghost predicate Written(p: PipeCounter, fds: Fds, h: seq<Tick>, now: int) {
    exists j :: Writer(h, j) && Out(h, j) == Obj(p, fds) && Due(h, j) == DueOf(p, now)
  }

  /**
   The vector is a correct account of the history: counters are distinct, every output still to come
   has its pipe, every pipe holds output, and pipe identities below `next` only have been used.
   */
  ghost predicate Tracks(pipes: seq<PipeCounter>, fds: Fds, h: seq<Tick>, now: int, next: nat) {
    && Owned(pipes, fds) && Distinct(pipes)
    && OnePipePerDue(h) && ReadersServed(h) && DelaysPositive(h)
    && (forall j :: Writer(h, j) ==> Out(h, j) < next)
    && (forall i :: 0 <= i < |pipes| ==> Obj(pipes[i], fds) < next)
    && (forall j {:trigger Pending(pipes, fds, h, now, j)} ::
          Writer(h, j) && Due(h, j) >= |h| ==> Pending(pipes, fds, h, now, j))
    && (forall i {:trigger Written(pipes[i], fds, h, now)} ::
          0 <= i < |pipes| ==> Written(pipes[i], fds, h, now))
  }

  /** The clock ticks: all counters down by one, every due time the same. */
  lemma TickKeepsTrack(pipes: seq<PipeCounter>, ticked: seq<PipeCounter>, fds: Fds, h: seq<Tick>, now: int, next: nat)
    requires Tracks(pipes, fds, h, now, next)
    requires |ticked| == |pipes| && forall i :: 0 <= i < |pipes| ==> ticked[i] == Ticked(pipes[i])
    ensures Tracks(ticked, fds, h, now + 1, next)
  {
    assert forall i :: 0 <= i < |pipes| ==> Obj(ticked[i], fds) == Obj(pipes[i], fds);
    assert forall i :: 0 <= i < |pipes| ==> DueOf(ticked[i], now + 1) == DueOf(pipes[i], now);
    forall j | Writer(h, j) && Due(h, j) >= |h|
      ensures Pending(ticked, fds, h, now + 1, j)
    {
      assert Pending(pipes, fds, h, now, j);
      var i :| 0 <= i < |pipes| && Obj(pipes[i], fds) == Out(h, j) && DueOf(pipes[i], now) == Due(h, j);
      assert Obj(ticked[i], fds) == Out(h, j);
    }
    forall i | 0 <= i < |ticked|
      ensures Written(ticked[i], fds, h, now + 1)
    {
      assert Written(pipes[i], fds, h, now);
    }
  }

  /** What a search for the due pipe finds is what the specification says command `|h|` reads. */
  lemma ReadIndexServes(pipes: seq<PipeCounter>, fds: Fds, h: seq<Tick>, next: nat, i: int)
    requires Tracks(pipes, fds, h, |h|, next) && IsFirst(pipes, 0, i)
    ensures Served(h, |h|, if i == -1 then None else Some(Obj(pipes[i], fds)))
  {
    if i == -1 {
      forall j | Writer(h, j)
        ensures Due(h, j) != |h|
      {
        assert Due(h, j) >= |h| ==> Pending(pipes, fds, h, |h|, j);
      }
    } else {
      assert Written(pipes[i], fds, h, |h|);
    }
  }

  lemma OneMore(h: seq<Tick>, t: Tick)
    ensures var h' := h + [t];
            && |h'| == |h| + 1 && h'[|h|] == t
            && (forall j :: 0 <= j < |h| ==> h'[j] == h[j])
            && (forall j :: 0 <= j < |h| ==> (Writer(h', j) <==> Writer(h, j)))
            && (forall j :: Writer(h, j) ==> Due(h', j) == Due(h, j) && Out(h', j) == Out(h, j))
  {
  }

  /** A new command changes nothing about who is served at `k`, unless its output is due there. */
  lemma StillServed(h: seq<Tick>, t: Tick, k: nat, input: Option<nat>)
    requires Served(h, k, input)
    requires t.Ran? && t.output.Some? ==> |h| + t.output.value.delay != k || input.Some?
    ensures Served(h + [t], k, input)
  {
    var h' := h + [t];
    OneMore(h, t);
    if input.Some? {
      var j :| Writer(h, j) && Due(h, j) == k && Out(h, j) == input.value;
      assert Writer(h', j) && Due(h', j) == k && Out(h', j) == input.value;
    } else {
      forall j | Writer(h', j)
        ensures Due(h', j) != k
      {
        if j < |h| {
          assert Writer(h, j);
        }
      }
    }
  }

  /** The history of one more command, as far as it is about the history alone. */
  lemma HistoryGrows(h: seq<Tick>, t: Tick, next: nat)
    requires OnePipePerDue(h) && ReadersServed(h) && DelaysPositive(h)
    requires t.Ran? ==> Served(h, |h|, t.input)
    requires t.Ran? && t.output.Some? ==>
               && t.output.value.delay >= 1
               && forall j :: Writer(h, j) ==>
                    (Out(h, j) == t.output.value.obj <==> Due(h, j) == |h| + t.output.value.delay)
    ensures OnePipePerDue(h + [t]) && ReadersServed(h + [t]) && DelaysPositive(h + [t])
  {
    var h' := h + [t];
    OneMore(h, t);
    forall k | 0 <= k < |h'| && h'[k].Ran?
      ensures Served(h', k, h'[k].input)
    {
      assert k < |h| ==> Served(h, k, h[k].input);
      StillServed(h, t, k, h'[k].input);
    }
  }

  /** Pipe `p` is the output pipe of a command. */
  predicate OutputOf(t: Tick, p: PipeCounter, fds: Fds) {
    t.Ran? && t.output.Some? && t.output.value.obj == Obj(p, fds) && t.output.value.delay == p.counter
  }

  /** The vector keeps its account of a longer history, given the pipe of the new output. */
  lemma AccountGrows(pipes: seq<PipeCounter>, pipes': seq<PipeCounter>, fds: Fds, fds': Fds,
                     h: seq<Tick>, t: Tick, next: nat, next': nat)
    requires Tracks(pipes, fds, h, |h|, next) && next <= next'
    requires OnePipePerDue(h + [t]) && ReadersServed(h + [t]) && DelaysPositive(h + [t])
    requires Owned(pipes', fds') && Distinct(pipes')
    requires |pipes| <= |pipes'| && forall i :: 0 <= i < |pipes| ==>
               pipes'[i] == pipes[i] && Obj(pipes'[i], fds') == Obj(pipes[i], fds)
    requires forall i :: |pipes| <= i < |pipes'| ==> Obj(pipes'[i], fds') < next'
    requires t.Ran? && t.output.Some? ==>
               && t.output.value.obj < next'
               && exists i :: 0 <= i < |pipes'| && Obj(pipes'[i], fds') == t.output.value.obj
                              && pipes'[i].counter == t.output.value.delay
    requires forall i :: |pipes| <= i < |pipes'| ==> OutputOf(t, pipes'[i], fds')
    ensures Tracks(pipes', fds', h + [t], |h|, next')
  {
    var h' := h + [t];
    OneMore(h, t);
    forall j | Writer(h', j)
      ensures Out(h', j) < next' && (Due(h', j) >= |h'| ==> Pending(pipes', fds', h', |h|, j))
    {
      if j < |h| {
        assert Writer(h, j) && Due(h, j) == Due(h', j);
        if Due(h', j) >= |h'| {
          assert Pending(pipes, fds, h, |h|, j);
          var i :| 0 <= i < |pipes| && Obj(pipes[i], fds) == Out(h, j) && DueOf(pipes[i], |h|) == Due(h, j);
          assert Obj(pipes'[i], fds') == Out(h', j);
        }
      }
    }
    forall i | 0 <= i < |pipes'|
      ensures Obj(pipes'[i], fds') < next' && Written(pipes'[i], fds', h', |h|)
    {
      if i < |pipes| {
        assert Written(pipes[i], fds, h, |h|);
        var j :| Writer(h, j) && Out(h, j) == Obj(pipes[i], fds) && Due(h, j) == DueOf(pipes[i], |h|);
        assert Writer(h', j) && Out(h', j) == Obj(pipes'[i], fds') && Due(h', j) == DueOf(pipes'[i], |h|);
      } else {
        assert OutputOf(t, pipes'[i], fds') && h'[|h|] == t;
        assert Writer(h', |h|) && Out(h', |h|) == Obj(pipes'[i], fds') && Due(h', |h|) == DueOf(pipes'[i], |h|);
      }
    }
  }

  /** A command that uses no new pipe. */
  lemma RunOnOldPipes(pipes: seq<PipeCounter>, fds: Fds, h: seq<Tick>, t: Tick, next: nat, wi: int)
    requires Tracks(pipes, fds, h, |h|, next)
    requires t.Ran? ==> Served(h, |h|, t.input)
    requires t.Ran? && t.output.Some? ==>
               && 0 <= wi < |pipes| && t.output.value == Output(Obj(pipes[wi], fds), pipes[wi].counter)
               && pipes[wi].counter >= 1
    ensures Tracks(pipes, fds, h + [t], |h|, next)
  {
    if t.Ran? && t.output.Some? {
      assert Written(pipes[wi], fds, h, |h|);
    }
    HistoryGrows(h, t, next);
    AccountGrows(pipes, pipes, fds, fds, h, t, next, next);
  }

  /** A new pipe at the end of the vector. */
  lemma PushOwned(pipes: seq<PipeCounter>, p: PipeCounter, fds: Fds, fds': Fds, next: nat)
    requires Owned(pipes, fds) && forall i :: 0 <= i < |pipes| ==> Obj(pipes[i], fds) < next
    requires p.readfd !in fds && p.writefd !in fds && p.readfd != p.writefd
    requires fds' == fds[p.readfd := ReadEnd(next)][p.writefd := WriteEnd(next)]
    ensures Owned(pipes + [p], fds') && Obj(p, fds') == next
    ensures forall i :: 0 <= i < |pipes| ==> Obj(pipes[i], fds') == Obj(pipes[i], fds)
  {
    forall i | 0 <= i < |pipes|
      ensures OpenPipe(pipes[i], fds') && Obj(pipes[i], fds') == Obj(pipes[i], fds)
    {
    }
  }

  /** A command whose output goes to a pipe made for it, because no pipe had its counter. */
  lemma RunOnNewPipe(pipes: seq<PipeCounter>, p: PipeCounter, fds: Fds, fds': Fds, h: seq<Tick>, t: Tick, next: nat)
    requires Tracks(pipes, fds, h, |h|, next)
    requires p.counter >= 1 && IsFirst(pipes, p.counter, -1)
    requires p.readfd !in fds && p.writefd !in fds && p.readfd != p.writefd
    requires fds' == fds[p.readfd := ReadEnd(next)][p.writefd := WriteEnd(next)]
    requires t.Ran? && Served(h, |h|, t.input) && t.output == Some(Output(next, p.counter))
    ensures Tracks(pipes + [p], fds', h + [t], |h|, next + 1)
  {
    forall j | Writer(h, j)
      ensures Out(h, j) != next && Due(h, j) != |h| + p.counter
    {
      assert Due(h, j) >= |h| ==> Pending(pipes, fds, h, |h|, j);
    }
    HistoryGrows(h, t, next);
    PushOwned(pipes, p, fds, fds', next);
    assert (pipes + [p])[|pipes|] == p;
    AccountGrows(pipes, pipes + [p], fds, fds', h, t, next, next + 1);
  }

  /** The vector without its entry `i`. */
  function Without(pipes: seq<PipeCounter>, i: nat): (r: seq<PipeCounter>)
    requires i < |pipes|
    ensures |r| == |pipes| - 1
    ensures forall k :: 0 <= k < |r| ==> r[k] == pipes[if k < i then k else k + 1]
  {
    pipes[..i] + pipes[i + 1..]
  }

  lemma WithoutKeeps(pipes: seq<PipeCounter>, i: nat, k: nat)
    requires i < |pipes| && k < |pipes| && k != i
    ensures var k' := if k < i then k else k - 1; k' < |pipes| - 1 && Without(pipes, i)[k'] == pipes[k]
  {
  }

  /** Erasing the pipe that was due; the other pipes stay open. */
  lemma EraseKeepsTrack(pipes: seq<PipeCounter>, fds: Fds, fds': Fds, h: seq<Tick>, next: nat, i: nat)
    requires |h| > 0 && Tracks(pipes, fds, h, |h| - 1, next) && i < |pipes| && pipes[i].counter == 0
    requires forall k :: 0 <= k < |pipes| && k != i ==>
               OpenPipe(pipes[k], fds') && Obj(pipes[k], fds') == Obj(pipes[k], fds)
    ensures Tracks(Without(pipes, i), fds', h, |h| - 1, next)
  {
    var pipes' := Without(pipes, i);
    forall j | Writer(h, j) && Due(h, j) >= |h|
      ensures Pending(pipes', fds', h, |h| - 1, j)
    {
      assert Pending(pipes, fds, h, |h| - 1, j);
      var k :| 0 <= k < |pipes| && Obj(pipes[k], fds) == Out(h, j) && DueOf(pipes[k], |h| - 1) == Due(h, j);
      WithoutKeeps(pipes, i, k);
    }
    forall k | 0 <= k < |pipes'|
      ensures Written(pipes'[k], fds', h, |h| - 1)
    {
      assert Written(pipes[if k < i then k else k + 1], fds, h, |h| - 1);
    }
  }

  /** Closing the descriptors of a pipe leaves the others open, and nothing else open. */
  lemma EraseOwned(pipes: seq<PipeCounter>, fds: Fds, i: nat)
    requires Owned(pipes, fds) && i < |pipes|
    ensures var fds' := fds - {pipes[i].readfd, pipes[i].writefd};
            && (forall k :: 0 <= k < |pipes| && k != i ==>
                  OpenPipe(pipes[k], fds') && Obj(pipes[k], fds') == Obj(pipes[k], fds))
            && (NoOthers(pipes, fds) ==> NoOthers(Without(pipes, i), fds'))
  {
    var fds' := fds - {pipes[i].readfd, pipes[i].writefd};
    forall k | 0 <= k < |pipes| && k != i
      ensures OpenPipe(pipes[k], fds') && Obj(pipes[k], fds') == Obj(pipes[k], fds)
    {
      assert Obj(pipes[k], fds) != Obj(pipes[i], fds);
    }
    forall fd | NoOthers(pipes, fds) && fd in fds' && IsPipeEnd(fds'[fd])
      ensures exists k :: 0 <= k < |pipes| - 1 &&
                          (fd == Without(pipes, i)[k].readfd || fd == Without(pipes, i)[k].writefd)
    {
      var k :| 0 <= k < |pipes| && (fd == pipes[k].readfd || fd == pipes[k].writefd);
      WithoutKeeps(pipes, i, k);
    }
  }

  /** The account depends only on the pipes' own descriptors. */
  lemma OtherDescriptors(pipes: seq<PipeCounter>, fds: Fds, fds': Fds, h: seq<Tick>, now: int, next: nat, next': nat)
    requires Tracks(pipes, fds, h, now, next) && next <= next'
    requires forall i :: 0 <= i < |pipes| ==> OpenPipe(pipes[i], fds') && Obj(pipes[i], fds') == Obj(pipes[i], fds)
    ensures Tracks(pipes, fds', h, now, next')
  {
    forall j | Writer(h, j) && Due(h, j) >= |h|
      ensures Pending(pipes, fds', h, now, j)
    {
      assert Pending(pipes, fds, h, now, j);
    }
    forall i | 0 <= i < |pipes|
      ensures Written(pipes[i], fds', h, now)
    {
      assert Written(pipes[i], fds, h, now);
    }
  }

  /** More descriptors do not matter. */
  lemma MoreDescriptors(pipes: seq<PipeCounter>, fds: Fds, fds': Fds)
    requires Owned(pipes, fds) && forall fd :: fd in fds ==> fd in fds' && fds'[fd] == fds[fd]
    ensures forall i :: 0 <= i < |pipes| ==> OpenPipe(pipes[i], fds') && Obj(pipes[i], fds') == Obj(pipes[i], fds)
  {
    forall i | 0 <= i < |pipes|
      ensures OpenPipe(pipes[i], fds') && Obj(pipes[i], fds') == Obj(pipes[i], fds)
    {
      assert OpenPipe(pipes[i], fds);
    }
  }

  // ------------------------------------------------------------------ what is in the vector

  function TickAll(pipes: seq<PipeCounter>): (r: seq<PipeCounter>)
    ensures |r| == |pipes| && forall i :: 0 <= i < |r| ==> r[i] == Ticked(pipes[i])
  {
    seq(|pipes|, i requires 0 <= i < |pipes| => Ticked(pipes[i]))
  }

  function FirstWith(pipes: seq<PipeCounter>, counter: int): (i: int)
    ensures IsFirst(pipes, counter, i)
    decreases |pipes|
  {
    if pipes == [] then -1
    else if pipes[0].counter == counter then 0
    else
      var i := FirstWith(pipes[1..], counter);
      assert forall k :: 0 <= k < |pipes| - 1 ==> pipes[1..][k] == pipes[k + 1];
      if i == -1 then -1 else i + 1
  }

  /** The vector with a pipe for output due `delay` commands ahead. */
  function WithPipe(pipes: seq<PipeCounter>, delay: int, r: int, w: int): seq<PipeCounter> {
    if FirstWith(pipes, delay) == -1 then pipes + [PipeCounter(r, w, delay)] else pipes
  }

  function MaybeWithPipe(pipes: seq<PipeCounter>, delay: Option<int>, r: int, w: int): seq<PipeCounter> {
    if delay.Some? then WithPipe(pipes, delay.value, r, w) else pipes
  }

  /** The vector without the pipe that is due. */
  function WithoutDue(pipes: seq<PipeCounter>): seq<PipeCounter> {
    var i := FirstWith(pipes, 0);
    if i == -1 then pipes else Without(pipes, i)
  }

  /** The vector one command later: with output due `delay` ahead if there is any, and the due pipe erased or not. */
  function OneLater(pipes: seq<PipeCounter>, delay: Option<int>, r: int, w: int, erase: bool): seq<PipeCounter> {
    var ticked := TickAll(pipes);
    var written := MaybeWithPipe(ticked, delay, r, w);
    if erase then WithoutDue(written) else written
  }

  /** The vector with a pipe for `delay`, if it asks for one. */
  ghost predicate Extended(pipes: seq<PipeCounter>, after: seq<PipeCounter>, delay: Option<int>) {
    exists r, w :: after == MaybeWithPipe(pipes, delay, r, w)
  }

  /** Which commands erased the pipe that was due at them, in the shell: those that ran. */
  function RanOf(h: seq<Tick>): (r: seq<bool>)
    ensures |r| == |h| && forall k :: 0 <= k < |h| ==> r[k] == h[k].Ran?
  {
    seq(|h|, k requires 0 <= k < |h| => h[k].Ran?)
  }

  ghost predicate VectorStep(pipes: seq<PipeCounter>, after: seq<PipeCounter>, delay: Option<int>, erase: bool) {
    exists r, w :: after == OneLater(pipes, delay, r, w, erase)
  }

  /**
   Output waits in the vector exactly as long as the command it is due at has not come, or for good if
   that command did not erase it.
   */
  ghost predicate Kept(pipes: seq<PipeCounter>, fds: Fds, h: seq<Tick>, erased: seq<bool>) {
    && |erased| == |h|
    && forall j {:trigger Pending(pipes, fds, h, |h| - 1, j)} :: Writer(h, j) ==>
         (Pending(pipes, fds, h, |h| - 1, j) <==> Due(h, j) >= |h| || (Due(h, j) >= 0 && !erased[Due(h, j)]))
  }

  lemma FirstIsUnique(pipes: seq<PipeCounter>, counter: int, i: int)
    requires IsFirst(pipes, counter, i)
    ensures FirstWith(pipes, counter) == i
  {
  }

  lemma NotExtended(pipes: seq<PipeCounter>)
    ensures Extended(pipes, pipes, None)
  {
    assert pipes == MaybeWithPipe(pipes, None, 0, 0);
  }

  /** A tick, perhaps a new pipe, perhaps an erasure of the pipe that was found due: one step of the vector. */
  lemma StepIs(pipes: seq<PipeCounter>, written: seq<PipeCounter>, after: seq<PipeCounter>, delay: Option<int>,
               index: int, erase: bool)
    requires Extended(TickAll(pipes), written, delay) && (delay.Some? ==> delay.value >= 1)
    requires IsFirst(TickAll(pipes), 0, index)
    requires index < |written|
    requires after == if erase && index != -1 then Without(written, index) else written
    ensures VectorStep(pipes, after, delay, erase)
  {
    var ticked := TickAll(pipes);
    var r, w :| written == MaybeWithPipe(ticked, delay, r, w);
    WithPipeKeeps(ticked, delay, r, w);
    assert IsFirst(written, 0, index);
    FirstIsUnique(written, 0, index);
    assert after == OneLater(pipes, delay, r, w, erase);
  }

  /** The entries of the ticked vector are there, in their places, and a new one has a positive counter. */
  lemma WithPipeKeeps(ticked: seq<PipeCounter>, delay: Option<int>, r: int, w: int)
    requires delay.Some? ==> delay.value >= 1
    ensures var written := MaybeWithPipe(ticked, delay, r, w);
      && ticked <= written && |written| <= |ticked| + 1
      && forall k :: |ticked| <= k < |written| ==> written[k].counter >= 1
  {
  }

  /** After an erasure no entry is due. */
  lemma NothingDue(pipes: seq<PipeCounter>, delay: Option<int>, r: int, w: int)
    requires Distinct(pipes) && (delay.Some? ==> delay.value >= 1)
    ensures forall p :: p in OneLater(pipes, delay, r, w, true) ==> p.counter != 0
  {
    var ticked := TickAll(pipes);
    var written := MaybeWithPipe(ticked, delay, r, w);
    WithPipeKeeps(ticked, delay, r, w);
    var f := FirstWith(written, 0);
    if f != -1 {
      forall k | 0 <= k < |written| && k != f
        ensures written[k].counter != 0
      {
        assert written[f] == Ticked(pipes[f]);
        assert k < |ticked| ==> written[k] == Ticked(pipes[k]);
      }
    }
  }

  /** An entry stays unless it is due and erased. */
  lemma Stays(pipes: seq<PipeCounter>, delay: Option<int>, r: int, w: int, erase: bool, i: nat)
    requires i < |pipes| && (delay.Some? ==> delay.value >= 1) && !(erase && pipes[i].counter == 1)
    ensures Ticked(pipes[i]) in OneLater(pipes, delay, r, w, erase)
  {
    var ticked := TickAll(pipes);
    var written := MaybeWithPipe(ticked, delay, r, w);
    WithPipeKeeps(ticked, delay, r, w);
    assert written[i] == Ticked(pipes[i]);
    var f := FirstWith(written, 0);
    if erase && f != -1 {
      WithoutKeeps(written, f, i);
    }
  }

  /** An entry of the new vector was there before, or is new. */
  lemma CameFrom(pipes: seq<PipeCounter>, delay: Option<int>, r: int, w: int, erase: bool, p: PipeCounter)
    requires p in OneLater(pipes, delay, r, w, erase) && (delay.Some? ==> delay.value >= 1)
    ensures p.counter >= 1 || (exists i :: 0 <= i < |pipes| && p == Ticked(pipes[i]))
  {
    var ticked := TickAll(pipes);
    var written := MaybeWithPipe(ticked, delay, r, w);
    WithPipeKeeps(ticked, delay, r, w);
    assert p in written;
    var k :| 0 <= k < |written| && written[k] == p;
    assert k < |ticked| ==> p == Ticked(pipes[k]);
  }

  /** The vector stays exact from one command to the next. */
  lemma KeptStep(pipes: seq<PipeCounter>, after: seq<PipeCounter>, fds: Fds, fds': Fds, h: seq<Tick>, t: Tick,
                 erased: seq<bool>, erase: bool, delay: Option<int>, next: nat, next': nat)
    requires Tracks(pipes, fds, h, |h| - 1, next) && Kept(pipes, fds, h, erased)
    requires Tracks(after, fds', h + [t], |h|, next')
    requires VectorStep(pipes, after, delay, erase) && (delay.Some? ==> delay.value >= 1)
    ensures Kept(after, fds', h + [t], erased + [erase])
  {
    var h', erased' := h + [t], erased + [erase];
    var r, w :| after == OneLater(pipes, delay, r, w, erase);
    OneMore(h, t);
    if erase {
      NothingDue(pipes, delay, r, w);
    }
    forall j | Writer(h', j)
      ensures Pending(after, fds', h', |h|, j) <==> Due(h', j) >= |h'| || (Due(h', j) >= 0 && !erased'[Due(h', j)])
    {
      if Due(h', j) < |h'| {
        assert j < |h| && Writer(h, j) && Due(h, j) == Due(h', j);
        PastOutput(pipes, after, fds, fds', h, t, delay, r, w, erase, next, next', j);
        assert Pending(pipes, fds, h, |h| - 1, j) <==> Due(h, j) >= |h| || !erased[Due(h, j)];
      }
    }
  }

  /** Output due by now is still waiting if it was waiting before and is not erased now. */
  lemma PastOutput(pipes: seq<PipeCounter>, after: seq<PipeCounter>, fds: Fds, fds': Fds, h: seq<Tick>, t: Tick,
                   delay: Option<int>, r: int, w: int, erase: bool, next: nat, next': nat, j: nat)
    requires Tracks(pipes, fds, h, |h| - 1, next) && Tracks(after, fds', h + [t], |h|, next')
    requires after == OneLater(pipes, delay, r, w, erase) && (delay.Some? ==> delay.value >= 1)
    requires Writer(h, j) && Writer(h + [t], j) && Due(h, j) == Due(h + [t], j) <= |h|
    requires Out(h, j) == Out(h + [t], j)
    requires erase ==> forall p :: p in after ==> p.counter != 0
    ensures Pending(after, fds', h + [t], |h|, j) <==>
            Pending(pipes, fds, h, |h| - 1, j) && !(erase && Due(h, j) == |h|)
  {
    hide Tracks, OneLater;
    var h' := h + [t];
    if Pending(after, fds', h', |h|, j) {
      var k :| 0 <= k < |after| && Obj(after[k], fds') == Out(h', j) && DueOf(after[k], |h|) == Due(h', j);
      CameFrom(pipes, delay, r, w, erase, after[k]);
      var i :| 0 <= i < |pipes| && after[k] == Ticked(pipes[i]);
      SameObject(pipes, fds, h, |h| - 1, next, i, j);
    }
    if Pending(pipes, fds, h, |h| - 1, j) && !(erase && Due(h, j) == |h|) {
      StillPending(pipes, after, fds, fds', h, t, delay, r, w, erase, next', j);
    }
  }

  lemma StillPending(pipes: seq<PipeCounter>, after: seq<PipeCounter>, fds: Fds, fds': Fds, h: seq<Tick>, t: Tick,
                     delay: Option<int>, r: int, w: int, erase: bool, next': nat, j: nat)
    requires Tracks(after, fds', h + [t], |h|, next') && after == OneLater(pipes, delay, r, w, erase)
    requires delay.Some? ==> delay.value >= 1
    requires Writer(h, j) && Writer(h + [t], j) && Due(h, j) == Due(h + [t], j)
    requires Pending(pipes, fds, h, |h| - 1, j) && !(erase && Due(h, j) == |h|)
    ensures Pending(after, fds', h + [t], |h|, j)
  {
    hide Tracks, OneLater;
    var i :| 0 <= i < |pipes| && Obj(pipes[i], fds) == Out(h, j) && DueOf(pipes[i], |h| - 1) == Due(h, j);
    Stays(pipes, delay, r, w, erase, i);
    var k :| 0 <= k < |after| && after[k] == Ticked(pipes[i]);
    SameObject(after, fds', h + [t], |h|, next', k, j);
  }

  /** An entry is the pipe of every output due when it is. */
  lemma SameObject(pipes: seq<PipeCounter>, fds: Fds, h: seq<Tick>, now: int, next: nat, i: nat, j: nat)
    requires Tracks(pipes, fds, h, now, next) && i < |pipes| && Writer(h, j)
    requires DueOf(pipes[i], now) == Due(h, j)
    ensures Obj(pipes[i], fds) == Out(h, j)
  {
    assert Written(pipes[i], fds, h, now);
  }
}
