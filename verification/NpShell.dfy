/** The shell of np_project1/npshell.cpp, with its pipe vector and its descriptors. */
module NpShell {
  import opened Commands
  import opened Descriptors
  import opened Options
  import opened NumberedPipes
  import PipelineParser
  import opened Processes

  predicate Index(pipes: seq<PipeCounter>, i: int) {
    i == -1 || 0 <= i < |pipes|
  }

  lemma PipeEndsApart(fds: Fds, pipes: seq<PipeCounter>, i: nat)
    requires Owned(pipes, fds) && NoOthers(pipes, fds) && Terminal(fds) && i < |pipes|
    ensures pipes[i].readfd !in {0, 1, 2, pipes[i].writefd} && pipes[i].writefd !in {0, 1, 2}
    ensures forall fd :: fd in fds && fds[fd] == ReadEnd(fds[pipes[i].readfd].obj) ==> fd == pipes[i].readfd
    ensures forall fd :: fd in fds && fds[fd] == WriteEnd(fds[pipes[i].readfd].obj) ==> fd == pipes[i].writefd
    ensures forall k :: 0 <= k < |pipes| && k != i ==>
              pipes[k].readfd !in {pipes[i].readfd, pipes[i].writefd} &&
              pipes[k].writefd !in {pipes[i].readfd, pipes[i].writefd}
  {
    forall fd | fd in fds && IsPipeEnd(fds[fd]) && fds[fd].obj == fds[pipes[i].readfd].obj
      ensures fd == pipes[i].readfd || fd == pipes[i].writefd
    {
      var k :| 0 <= k < |pipes| && (fd == pipes[k].readfd || fd == pipes[k].writefd);
      assert Obj(pipes[k], fds) == Obj(pipes[i], fds);
    }
    forall k | 0 <= k < |pipes| && k != i
      ensures fds[pipes[k].readfd].obj != fds[pipes[i].readfd].obj
    {
      assert Obj(pipes[k], fds) != Obj(pipes[i], fds);
    }
  }

  lemma NoOthersTicked(pipes: seq<PipeCounter>, ticked: seq<PipeCounter>, fds: Fds)
    requires NoOthers(pipes, fds) && ticked == TickAll(pipes)
    ensures NoOthers(ticked, fds)
  {
    forall fd | fd in fds && IsPipeEnd(fds[fd])
      ensures exists i :: 0 <= i < |ticked| && (fd == ticked[i].readfd || fd == ticked[i].writefd)
    {
      var i :| 0 <= i < |pipes| && (fd == pipes[i].readfd || fd == pipes[i].writefd);
      assert ticked[i] == Ticked(pipes[i]);
    }
  }

  /** With a new pipe, too, no pipe end is open outside the vector. */
  lemma PushedAlone(pipes: seq<PipeCounter>, p: PipeCounter, fds: Fds, fds': Fds, next: nat)
    requires NoOthers(pipes, fds)
    requires fds' == fds[p.readfd := ReadEnd(next)][p.writefd := WriteEnd(next)]
    ensures NoOthers(pipes + [p], fds')
  {
    var n, after := |pipes|, pipes + [p];
    forall fd | fd in fds' && IsPipeEnd(fds'[fd])
      ensures exists i :: 0 <= i < |after| && (fd == after[i].readfd || fd == after[i].writefd)
    {
      if fd in {p.readfd, p.writefd} {
        assert after[n] == p;
      } else {
        var i :| 0 <= i < n && (fd == pipes[i].readfd || fd == pipes[i].writefd);
        assert after[i] == pipes[i];
      }
    }
  }

  /** The child makes pipe `p` its standard input. */
  method ChildInput(fds: Fds, p: PipeCounter) returns (t: Fds, ok: bool)
    requires OpenPipe(p, fds) && Terminal(fds)
    ensures ok && t == (fds - {p.readfd, p.writefd})[0 := fds[p.readfd]]
  {
    var readfd := p.readfd;
    t, ok := CloseFd(fds, p.writefd);
    t, ok := CloseFd(t, 0);
    t, ok := Dup2(t, readfd, 0);
    assert ok;
    t, ok := CloseFd(t, readfd);
  }

  /** The child makes descriptor `writefd` its standard output, and its standard error for `!`. */
  method ChildOutput(fds: Fds, writefd: int, unusedRead: Option<int>, errPipe: bool) returns (t: Fds, ok: bool)
    requires writefd in fds && writefd !in {0, 1, 2} && 1 in fds && 2 in fds
    requires unusedRead.Some? ==> unusedRead.value in fds && unusedRead.value !in {0, 1, 2, writefd}
    ensures ok
    ensures var rest := fds - {writefd} - (if unusedRead.Some? then {unusedRead.value} else {});
            t == if errPipe then rest[1 := fds[writefd]][2 := fds[writefd]] else rest[1 := fds[writefd]]
  {
    t, ok := fds, true;
    if unusedRead.Some? {
      t, ok := CloseFd(t, unusedRead.value);
    }
    t, ok := CloseFd(t, 1);
    t, ok := Dup2(t, writefd, 1);
    assert ok;
    if errPipe {
      t, ok := CloseFd(t, 2);
      t, ok := Dup2(t, writefd, 2);
    }
    t, ok := CloseFd(t, writefd);
  }

  /**
   The descriptors of a child process: a copy of the shell's, rearranged for its input and output.
   No call fails; the child has its input on 0 and its output on 1 (and on 2 for `!`), and it holds
   neither the write end of its input, so that it sees the end of file, nor the read end of its output.
   */
  method ChildDescriptors(fds: Fds, pipes: seq<PipeCounter>, readIndex: int, writeIndex: int, writefd: int,
                          closeStdout: bool, toFile: bool, errPipe: bool)
    returns (t: Fds, ok: bool)
    requires Owned(pipes, fds) && NoOthers(pipes, fds) && Terminal(fds)
    requires Index(pipes, readIndex)
    requires closeStdout && !toFile ==>
               && 0 <= writeIndex < |pipes| && writeIndex != readIndex && writefd == pipes[writeIndex].writefd
    requires closeStdout && toFile ==> writefd in fds && fds[writefd].File? && !errPipe
    ensures ok && 0 in t && 1 in t && 2 in t
    ensures t[0] == if readIndex == -1 then Std else ReadEnd(fds[pipes[readIndex].readfd].obj)
    ensures t[1] == if closeStdout then fds[writefd] else Std
    ensures t[2] == if closeStdout && errPipe then fds[writefd] else Std
    ensures SeesEnd(t)
    ensures closeStdout && !toFile ==>
              forall fd :: fd in t ==> t[fd] != ReadEnd(fds[pipes[writeIndex].readfd].obj)
  {
    t, ok := fds, true;
    if readIndex != -1 {
      PipeEndsApart(fds, pipes, readIndex);
      t, ok := ChildInput(fds, pipes[readIndex]);
    }
    if closeStdout {
      if !toFile {
        PipeEndsApart(fds, pipes, writeIndex);
        t, ok := ChildOutput(t, writefd, Some(pipes[writeIndex].readfd), errPipe);
      } else {
        t, ok := ChildOutput(t, writefd, None, errPipe);
      }
    }
  }

  // ------------------------------------------------------------------ the shell

  predicate IsBuiltIn(c: Command)
    requires |c.args| > 0
  {
    c.args[0] in {"setenv", "printenv"}
  }

  predicate IsExit(c: Command) {
    |c.args| > 0 && c.args[0] == "exit"
  }

  predicate AllHaveArgs(lines: seq<seq<Command>>) {
    forall i :: 0 <= i < |lines| ==> HaveArgs(lines[i])
  }

  /** Whether a command forks a process: no built-in, and no redirection to a file that cannot be opened. */
  predicate Forks(c: Command, directories: set<string>): (r: bool)
    requires |c.args| > 0
    ensures r <==>
              && c.args[0] !in {"exit", "setenv", "printenv"}
              && (c.hasPipe || c.hasExclamation || c.filename == "" || c.filename !in directories)
  {
    && !IsExit(c) && !IsBuiltIn(c)
    && (!c.CheckIfPipe() && c.CheckRedirection() ==> c.filename !in directories)
  }

  predicate OpensFile(c: Command, directories: set<string>)
    requires |c.args| > 0
  {
    Forks(c, directories) && !c.CheckIfPipe() && c.CheckRedirection()
  }

  /** How far ahead the output of a command is due, if it goes to a pipe. */
  function OutputDelay(c: Command, directories: set<string>): Option<int>
    requires |c.args| > 0
  {
    if Forks(c, directories) && c.CheckIfPipe() then Some(c.Delay()) else None
  }

  function Files(fds: Fds): set<int> {
    set fd | fd in fds && fds[fd].File?
  }

  /** Pipes that were overdue are in the vector a command later. */
  predicate OverdueStay(pipes: seq<PipeCounter>, after: seq<PipeCounter>) {
    forall p :: p in pipes && p.counter <= 0 ==> Ticked(p) in after
  }

  /** What came of a command: its history, and the descriptors of its process if it forks one. */
  predicate Records(t: Tick, kid: Option<Fds>, c: Command, directories: set<string>)
    requires |c.args| > 0
  {
    && Recorded(t, c, Forks(c, directories)) && kid.Some? == Forks(c, directories)
    && (kid.Some? ==> ProcessOk(kid.value, t, c, Std, Std, Std))
  }

  /** How many commands of a line are executed: all, or those up to the first `exit`. */
  function ExecutedCount(commands: seq<Command>): (n: nat)
    ensures n <= |commands|
  {
    if commands == [] then 0
    else if IsExit(commands[0]) then 1
    else 1 + ExecutedCount(commands[1..])
  }

  function Executed(commands: seq<Command>): (r: seq<Command>)
    ensures r <= commands
  {
    commands[..ExecutedCount(commands)]
  }

  predicate HasExit(commands: seq<Command>)
    requires HaveArgs(commands)
  {
    exists i :: 0 <= i < |commands| && IsExit(commands[i])
  }

  /** From entry `start` on, the history is that of `commands`. */
  predicate RecordsFrom(h: seq<Tick>, kids: seq<Option<Fds>>, start: nat, commands: seq<Command>,
                        directories: set<string>)
    requires HaveArgs(commands)
  {
    && |h| == |kids| == start + |commands|
    && forall i :: 0 <= i < |commands| ==> Records(h[start + i], kids[start + i], commands[i], directories)
  }

  /** An entry that stays keeps its pipe. */
  lemma EntryIs(pipes: seq<PipeCounter>, fds: Fds, pipes': seq<PipeCounter>, fds': Fds, i: int)
    requires Owned(pipes, fds) && Owned(pipes', fds') && Index(pipes, i) && pipes <= pipes'
    requires forall k :: 0 <= k < |pipes| ==> Obj(pipes'[k], fds') == Obj(pipes[k], fds)
    ensures i != -1 ==> OpenPipe(pipes[i], fds) && OpenPipe(pipes'[i], fds')
    ensures i != -1 ==> fds'[pipes'[i].readfd].obj == fds[pipes[i].readfd].obj
  {
    if i != -1 {
      assert Obj(pipes'[i], fds') == Obj(pipes[i], fds);
    }
  }

  class Shell {
    var pipes: seq<PipeCounter>
    /** The open descriptors of the shell process. */
    var fds: Fds
    /** The identity of the next pipe the kernel makes. */
    var nextPipe: nat
    /** The names that `open` for writing fails on. */
    const directories: set<string>
    /** What every command did with pipes, and the descriptors of its process. */
    ghost var history: seq<Tick>
    ghost var kids: seq<Option<Fds>>

    ghost predicate Valid()
      reads this
    {
      && Terminal(fds) && NoOthers(pipes, fds)
      && Tracks(pipes, fds, history, |history| - 1, nextPipe)
    }

    /** Between two commands: the vector holds exactly the output that no process has been given. */
    ghost predicate Settled()
      reads this
    {
      Valid() && Kept(pipes, fds, history, RanOf(history))
    }

    constructor (directories: set<string>)
      ensures Settled() && history == [] && kids == [] && this.directories == directories
    {
      this.directories := directories;
      pipes, nextPipe, history, kids := [], 0, [], [];
      fds := map[0 := Std, 1 := Std, 2 := Std];
    }

    /** `pipe`: two descriptors that were not open, for the two ends of a new pipe. */
    method MakePipe() returns (r: int, w: int)
      modifies this`fds, this`nextPipe
      ensures r !in old(fds) && w !in old(fds) && r != w && nextPipe == old(nextPipe) + 1
      ensures fds == old(fds)[r := ReadEnd(old(nextPipe))][w := WriteEnd(old(nextPipe))]
    {
      r := LowestFree(fds);
      fds := fds[r := ReadEnd(nextPipe)];
      w := LowestFree(fds);
      fds := fds[w := WriteEnd(nextPipe)];
      nextPipe := nextPipe + 1;
    }

    /** `open` for writing: a new descriptor, or -1. */
    method OpenFile(filename: string) returns (fd: int)
      modifies this`fds
      ensures filename in directories ==> fd == -1 && fds == old(fds)
      ensures filename !in directories ==> fd !in old(fds) && fd >= 0 && fds == old(fds)[fd := File(filename)]
    {
      if filename in directories {
        return -1;
      }
      fd := LowestFree(fds);
      fds := fds[fd := File(filename)];
    }

    /** The vector while a command is being run: its counters are those of that command. */
    ghost predicate Ticking()
      reads this
    {
      && Terminal(fds) && NoOthers(pipes, fds)
      && Tracks(pipes, fds, history, |history|, nextPipe)
    }

    /** The pipe for output due `pipeN` commands ahead: the one that is there, or a new one at the end. */
    method OutputPipe(pipeN: int, ghost input: Option<nat>) returns (writefd: int, writeIndex: int)
      requires Ticking() && pipeN >= 1 && Served(history, |history|, input)
      modifies this`pipes, this`fds, this`nextPipe
      ensures 0 <= writeIndex < |pipes| && pipes[writeIndex].counter == pipeN && writefd == pipes[writeIndex].writefd
      ensures Terminal(fds) && NoOthers(pipes, fds) && Owned(pipes, fds)
      ensures old(pipes) <= pipes && forall i :: 0 <= i < |old(pipes)| ==> Obj(pipes[i], fds) == Obj(pipes[i], old(fds))
      ensures Files(fds) == Files(old(fds)) && Extended(old(pipes), pipes, Some(pipeN))
      ensures Tracks(pipes, fds, history + [Ran(input, Some(Output(Obj(pipes[writeIndex], fds), pipeN)))],
                     |history|, nextPipe)
    {
      hide Served;
      writeIndex := PipeForWriting(pipes, pipeN);
      FirstIsUnique(pipes, pipeN, writeIndex);
      assert writeIndex != -1 ==> pipes == MaybeWithPipe(pipes, Some(pipeN), 0, 0);
      if writeIndex == -1 {
        var r, w := MakePipe();
        writefd := w;
        var newPipe := PipeCounter(r, w, pipeN);
        assert pipes + [newPipe] == MaybeWithPipe(pipes, Some(pipeN), r, w);
        pipes := pipes + [newPipe];
        ghost var n := |old(pipes)|;
        assert pipes[n] == newPipe && forall i :: 0 <= i < n ==> pipes[i] == old(pipes)[i];
        PushOwned(old(pipes), newPipe, old(fds), fds, old(nextPipe));
        PushedAlone(old(pipes), newPipe, old(fds), fds, old(nextPipe));
        writeIndex := PipeForWriting(pipes, pipeN);
        RunOnNewPipe(old(pipes), newPipe, old(fds), fds, history,
                     Ran(input, Some(Output(old(nextPipe), pipeN))), old(nextPipe));
      } else {
        writefd := pipes[writeIndex].writefd;
        RunOnOldPipes(pipes, fds, history, Ran(input, Some(Output(Obj(pipes[writeIndex], fds), pipeN))),
                      nextPipe, writeIndex);
      }
    }

    /** What the child reads: the due pipe, if there is one. */
    ghost function Input(readIndex: int): Option<nat>
      requires Owned(pipes, fds) && Index(pipes, readIndex)
      reads this
    {
      if readIndex == -1 then None else Some(fds[pipes[readIndex].readfd].obj)
    }

    /** The last command is `c`, after the histories `h` and `k`. */
    ghost predicate Added(h: seq<Tick>, k: seq<Option<Fds>>, c: Command)
      requires |c.args| > 0
      reads this
    {
      exists t, kid :: history == h + [t] && kids == k + [kid] && Records(t, kid, c, directories)
    }

    /** Forks the child and puts into the history where its descriptors 0 and 1 lead. */
    method Fork(readIndex: int, writeIndex: int, writefd: int, closeStdout: bool, toFile: bool, errPipe: bool,
                ghost pipeN: int) returns (ghost t: Tick, ghost kid: Fds)
      requires Owned(pipes, fds) && NoOthers(pipes, fds) && Terminal(fds) && Index(pipes, readIndex)
      requires closeStdout && !toFile ==>
                 && 0 <= writeIndex < |pipes| && writeIndex != readIndex && writefd == pipes[writeIndex].writefd
      requires closeStdout && toFile ==> writefd in fds && fds[writefd].File? && !errPipe
      modifies this`history, this`kids
      ensures history == old(history) + [t] && kids == old(kids) + [Some(kid)]
      ensures t == Ran(Input(readIndex),
                       if closeStdout && !toFile then Some(Output(Obj(pipes[writeIndex], fds), pipeN)) else None)
      ensures && 0 in kid && 1 in kid && 2 in kid && SeesEnd(kid)
              && kid[0] == (if Input(readIndex).Some? then ReadEnd(Input(readIndex).value) else Std)
              && kid[1] == (if closeStdout then fds[writefd] else Std)
              && kid[2] == (if closeStdout && errPipe then kid[1] else Std)
    {
      var child, ok := ChildDescriptors(fds, pipes, readIndex, writeIndex, writefd, closeStdout, toFile, errPipe);
      kid, kids := child, kids + [Some(child)];
      t := Ran(if child[0].ReadEnd? then Some(child[0].obj) else None,
               if child[1].WriteEnd? then Some(Output(child[1].obj, pipeN)) else None);
      history := history + [t];
    }

    /** How far ahead the output goes, and whether the error output goes along. */
    method ChoosePipe(c: Command) returns (pipeN: int, errPipe: bool)
      requires c.CheckIfPipe()
      ensures pipeN == c.Delay() && errPipe == (c.hasExclamation && !c.hasPipe)
    {
      errPipe := false;
      if c.CheckPipe() {
        pipeN := 1;
      } else if c.CheckPipeN() {
        pipeN := c.pipeCount;
      } else {
        pipeN := if c.pipeCount > 0 then c.pipeCount else 1;
        errPipe := true;
      }
    }

    /** An external command with output to a pipe. */
    method RunIntoPipe(c: Command, readIndex: int)
      requires Ticking() && IsFirst(pipes, 0, readIndex) && Served(history, |history|, Input(readIndex))
      requires c.CheckIfPipe() && |c.args| > 0 && !IsBuiltIn(c) && !IsExit(c)
      modifies this
      ensures Valid() && old(pipes) <= pipes && Added(old(history), old(kids), c)
      ensures Files(fds) == Files(old(fds)) && Extended(old(pipes), pipes, Some(c.Delay()))
    {
      ghost var input, h, k, pipes0, fds0 := Input(readIndex), history, kids, pipes, fds;
      assert Index(pipes, readIndex) && (readIndex != -1 ==> pipes[readIndex].counter == 0) && Owned(pipes, fds);
      hide Extended, Tracks, NoOthers, IsFirst, Owned, Added, Records, Files, Served;
      var pipeN, errPipe := ChoosePipe(c);
      var writefd, writeIndex := OutputPipe(pipeN, input);
      EntryIs(pipes0, fds0, pipes, fds, readIndex);
      EntryIs(pipes, fds, pipes, fds, writeIndex);
      ghost var t, kid := Fork(readIndex, writeIndex, writefd, true, false, errPipe, pipeN);
      PipeRecords(t, kid, c);
      AddedIs(h, k, c, t, Some(kid));
    }

    /** An external command with output to a file; no fork if the file cannot be opened. */
    method RunIntoFile(c: Command, readIndex: int) returns (forked: bool)
      requires Ticking() && IsFirst(pipes, 0, readIndex) && Served(history, |history|, Input(readIndex))
      requires |c.args| > 0 && !IsBuiltIn(c) && !IsExit(c) && !c.CheckIfPipe() && c.CheckRedirection()
      modifies this
      ensures Valid() && pipes == old(pipes) && forked == (c.filename !in directories)
      ensures Added(old(history), old(kids), c)
      ensures if forked then Files(old(fds)) < Files(fds) else Files(old(fds)) == Files(fds)
    {
      ghost var input, h, k := Input(readIndex), history, kids;
      var writefd := OpenFile(c.filename);
      forked := writefd != -1;
      assert forked ==> writefd in Files(fds) && writefd !in Files(old(fds));
      assert Files(old(fds)) <= Files(fds);
      MoreDescriptors(pipes, old(fds), fds);
      OtherDescriptors(pipes, old(fds), fds, history, |history|, nextPipe, nextPipe);
      assert Input(readIndex) == input;
      hide Added, Records, Files, Served;
      if forked {
        RunOnOldPipes(pipes, fds, history, Ran(input, None), nextPipe, -1);
        ghost var t, kid := Fork(readIndex, -1, writefd, true, true, false, 0);
        ForkRecords(t, kid, c);
        AddedIs(h, k, c, t, Some(kid));
      } else {
        RunQuietly(c);
      }
    }

    lemma AddedIs(h: seq<Tick>, k: seq<Option<Fds>>, c: Command, t: Tick, kid: Option<Fds>)
      requires |c.args| > 0 && history == h + [t] && kids == k + [kid] && Records(t, kid, c, directories)
      ensures Added(h, k, c)
    {
    }

    /** A process with an output pipe. */
    lemma PipeRecords(t: Tick, kid: Fds, c: Command)
      requires |c.args| > 0 && Forks(c, directories) && c.CheckIfPipe()
      requires t.Ran? && t.output.Some? && t.output.value.delay == c.Delay()
      requires 0 in kid && 1 in kid && 2 in kid && SeesEnd(kid)
      requires kid[0] == (if t.input.Some? then ReadEnd(t.input.value) else Std)
      requires kid[1] == WriteEnd(t.output.value.obj) && kid[2] == if !c.hasPipe then kid[1] else Std
      ensures Records(t, Some(kid), c, directories)
    {
    }

    /** A process without an output pipe. */
    lemma ForkRecords(t: Tick, kid: Fds, c: Command)
      requires |c.args| > 0 && Forks(c, directories) && !c.CheckIfPipe() && t.Ran? && t.output == None
      requires 0 in kid && 1 in kid && 2 in kid && SeesEnd(kid)
      requires kid[0] == if t.input.Some? then ReadEnd(t.input.value) else Std
      requires kid[1] == (if c.CheckRedirection() then File(c.filename) else Std) && kid[2] == Std
      ensures Records(t, Some(kid), c, directories)
    {
    }

    /** An external command: its output is chosen, a child is forked. */
    method RunProcess(c: Command, readIndex: int) returns (forked: bool)
      requires Ticking() && IsFirst(pipes, 0, readIndex) && Served(history, |history|, Input(readIndex))
      requires |c.args| > 0 && !IsBuiltIn(c) && !IsExit(c)
      modifies this
      ensures Valid() && old(pipes) <= pipes && forked == Forks(c, directories)
      ensures Extended(old(pipes), pipes, OutputDelay(c, directories))
      ensures Added(old(history), old(kids), c)
      ensures if OpensFile(c, directories) then Files(old(fds)) < Files(fds) else Files(old(fds)) == Files(fds)
    {
      forked := true;
      NotExtended(pipes);
      if c.CheckIfPipe() {
        RunIntoPipe(c, readIndex);
      } else if c.CheckRedirection() {
        forked := RunIntoFile(c, readIndex);
      } else {
        ghost var h, k := history, kids;
        RunOnOldPipes(pipes, fds, history, Ran(Input(readIndex), None), nextPipe, -1);
        ghost var t, kid := Fork(readIndex, -1, 1, false, false, false, 0);
        ForkRecords(t, kid, c);
        AddedIs(h, k, c, t, Some(kid));
      }
    }

    /** `erase_pipe`: closes and removes the entry if it was due at this command. */
    method ErasePipe(index: int)
      requires Valid() && Index(pipes, index) && |history| > 0
      modifies this`pipes, this`fds
      ensures Valid()
      ensures pipes == if index == -1 || old(pipes)[index].counter != 0 then old(pipes) else Without(old(pipes), index)
      ensures fds == if index == -1 || old(pipes)[index].counter != 0 then old(fds)
                     else old(fds) - {old(pipes)[index].readfd, old(pipes)[index].writefd}
      ensures Files(fds) == Files(old(fds))
    {
      if index != -1 {
        if pipes[index].counter == 0 {
          ghost var rest := fds - {pipes[index].readfd, pipes[index].writefd};
          EraseOwned(pipes, fds, index);
          EraseKeepsTrack(pipes, fds, rest, history, nextPipe, index);
          PipeEndsApart(fds, pipes, index);
          fds := fds - {pipes[index].readfd};
          fds := fds - {pipes[index].writefd};
          assert fds == rest;
          pipes := pipes[..index] + pipes[index + 1..];
        }
      }
    }

    /** The start of a command: every counter goes down, and the pipe that is due is looked up. */
    method Tick() returns (readIndex: int)
      requires Valid()
      modifies this`pipes
      ensures Ticking() && pipes == TickAll(old(pipes)) && IsFirst(pipes, 0, readIndex)
      ensures Served(history, |history|, Input(readIndex))
    {
      ghost var pipes0 := pipes;
      pipes := PipesUpdate(pipes);
      assert pipes == TickAll(pipes0);
      TickKeepsTrack(pipes0, pipes, fds, history, |history| - 1, nextPipe);
      NoOthersTicked(pipes0, pipes, fds);
      readIndex := PipeForReading(pipes);
      ReadIndexServes(pipes, fds, history, nextPipe, readIndex);
    }

    /** A built-in command, as far as pipes are concerned. */
    ghost method RunQuietly(c: Command)
      requires Ticking() && |c.args| > 0 && !Forks(c, directories)
      modifies this`history, this`kids
      ensures Valid() && Added(old(history), old(kids), c)
    {
      RunOnOldPipes(pipes, fds, history, Quiet, nextPipe, -1);
      history, kids := history + [Quiet], kids + [None];
    }

    /** An external command, and what `erase_pipe` does after its fork; `written` is the vector in between. */
    method RunAndErase(c: Command, readIndex: int) returns (ghost written: seq<PipeCounter>)
      requires Ticking() && IsFirst(pipes, 0, readIndex) && Served(history, |history|, Input(readIndex))
      requires |c.args| > 0 && !IsBuiltIn(c) && !IsExit(c)
      modifies this
      ensures Valid() && old(pipes) <= written && Extended(old(pipes), written, OutputDelay(c, directories))
      ensures Added(old(history), old(kids), c)
      ensures readIndex < |written|
      ensures pipes == if Forks(c, directories) && readIndex != -1 then Without(written, readIndex) else written
      ensures if OpensFile(c, directories) then Files(old(fds)) < Files(fds) else Files(old(fds)) == Files(fds)
    {
      assert Index(pipes, readIndex) && (readIndex != -1 ==> pipes[readIndex].counter == 0);
      hide Records, Extended, NoOthers, Tracks, Served, IsFirst, ProcessOk;
      var forked := RunProcess(c, readIndex);
      written := pipes;
      if forked {
        ErasePipe(readIndex);
      }
    }

    /** One turn of the command loop; `exit` tells that the command was `exit`. */
    method RunCommand(c: Command) returns (exit: bool)
      requires Settled() && |c.args| > 0
      modifies this
      ensures Settled() && exit == IsExit(c)
      ensures Added(old(history), old(kids), c)
      // the vector is ticked, gets an entry if the output needs one, and loses the due one if a process was forked
      ensures VectorStep(old(pipes), pipes, OutputDelay(c, directories), Forks(c, directories))
      ensures Forks(c, directories) ==> forall p :: p in pipes ==> p.counter != 0
      // a pipe whose command did not take it stays in the vector, open and unused
      ensures OverdueStay(old(pipes), pipes)
      // a descriptor opened for a redirection is never closed
      ensures if OpensFile(c, directories) then Files(old(fds)) < Files(fds) else Files(old(fds)) == Files(fds)
    {
      ghost var pipes0, fds0, h, k, next := pipes, fds, history, kids, nextPipe;
      hide Kept, VectorStep, Extended, OverdueStay, NoOthers, Served, Tracks, Records;
      exit := IsExit(c);
      var readIndex := Tick();
      ghost var ticked, written := pipes, pipes;
      if IsBuiltIn(c) || IsExit(c) {
        RunQuietly(c);
        NotExtended(ticked);
      } else {
        written := RunAndErase(c, readIndex);
      }
      OverdueKept(pipes0, ticked, written, readIndex);
      Finish(c, pipes0, fds0, h, k, next, written, readIndex);
    }

    /** The vector after a command, from what the command did to it. */
    lemma Finish(c: Command, pipes0: seq<PipeCounter>, fds0: Fds, h: seq<Tick>, k: seq<Option<Fds>>, next: nat,
                 written: seq<PipeCounter>, readIndex: int)
      requires Valid() && |c.args| > 0
      requires Tracks(pipes0, fds0, h, |h| - 1, next) && Kept(pipes0, fds0, h, RanOf(h))
      requires Added(h, k, c)
      requires Extended(TickAll(pipes0), written, OutputDelay(c, directories))
      requires IsFirst(TickAll(pipes0), 0, readIndex) && readIndex < |written|
      requires pipes == if Forks(c, directories) && readIndex != -1 then Without(written, readIndex) else written
      ensures Settled() && VectorStep(pipes0, pipes, OutputDelay(c, directories), Forks(c, directories))
      ensures Forks(c, directories) ==> forall p :: p in pipes ==> p.counter != 0
    {
      var delay, erase := OutputDelay(c, directories), Forks(c, directories);
      StepIs(pipes0, written, pipes, delay, readIndex, erase);
      var t, kid :| history == h + [t] && kids == k + [kid] && Records(t, kid, c, directories);
      KeptStep(pipes0, pipes, fds0, fds, h, t, RanOf(h), erase, delay, next, nextPipe);
      assert RanOf(history) == RanOf(h) + [erase];
      var r, w :| pipes == OneLater(pipes0, delay, r, w, erase);
      if erase {
        NothingDue(pipes0, delay, r, w);
      }
    }

    lemma HistoryDelivered()
      requires Valid()
      ensures Delivered(history)
    {
      DeliveredIf(history);
    }

    /** The command loop over one input line; `exit` tells that it met an `exit`. */
    method RunLine(commands: seq<Command>, ghost done: seq<Command>) returns (exit: bool)
      requires Settled() && HaveArgs(commands)
      requires HaveArgs(done) && RecordsFrom(history, kids, 0, done, directories)
      modifies this
      ensures Settled() && exit == HasExit(commands)
      ensures old(history) <= history && old(kids) <= kids
      ensures RecordsFrom(history, kids, |old(history)|, Executed(commands), directories)
      ensures HaveArgs(done + Executed(commands))
      ensures RecordsFrom(history, kids, 0, done + Executed(commands), directories)
    {
      hide Kept, Tracks, VectorStep, OverdueStay, NoOthers, Owned, Forks, OutputDelay, OpensFile, Files;
      exit := false;
      var i := 0;
      ghost var h := |history|;
      while i < |commands| && !exit
        invariant 0 <= i <= |commands| && Settled()
        invariant old(history) <= history && old(kids) <= kids && |history| == |kids| == h + i
        invariant forall k :: 0 <= k < i ==> Records(history[h + k], kids[h + k], commands[k], directories)
        invariant forall k :: 0 <= k < i ==> (IsExit(commands[k]) <==> exit && k == i - 1)
        invariant exit ==> i > 0
        decreases |commands| - i, !exit
      {
        exit := RunCommand(commands[i]);
        i := i + 1;
      }
      ExecutedIs(commands, i);
      assert RecordsFrom(history, kids, |old(history)|, Executed(commands), directories);
      RecordsMore(old(history), old(kids), history, kids, done, Executed(commands), directories);
    }

    /**
     The shell from its start to `exit` or the end of its input, line by line as it was typed. Every command ticks
     once, and every process gets exactly the outputs due at it.
     */
    method RunShell(input: seq<string>)
      requires Settled() && history == [] && kids == []
      requires forall i :: 0 <= i < |input| ==> Typed(input[i])
      modifies this
      ensures Settled()
      ensures RecordsFrom(history, kids, 0, Session(Lines(input), 0), directories) && Delivered(history)
      ensures var commands := Session(Lines(input), 0);
        forall j, k :: 0 <= j < |commands| && 0 <= k < |commands| ==> Reads(kids, commands, directories, j, k)
    {
      RunLines(input);
      HistoryDelivered();
      NumberedPipesDeliver(history, kids, Session(Lines(input), 0), directories);
    }

    /** A line as it was typed. */
    method RunTyped(line: string, ghost done: seq<Command>) returns (exit: bool)
      requires Settled() && Typed(line) && HaveArgs(done) && RecordsFrom(history, kids, 0, done, directories)
      modifies this
      ensures Settled() && exit == HasExit(LineOf(line)) && HaveArgs(AndThen(done, LineOf(line)))
      ensures RecordsFrom(history, kids, 0, AndThen(done, LineOf(line)), directories)
    {
      hide RecordsFrom, Kept, Tracks, NoOthers, LineOf, Typed, Executed, HasExit;
      var commands := ReadLine(line);
      exit := RunLine(commands, done);
    }

    /** The loop over the input. */
    method RunLines(input: seq<string>)
      requires Settled() && history == [] && kids == []
      requires forall i :: 0 <= i < |input| ==> Typed(input[i])
      modifies this
      ensures Settled()
      ensures RecordsFrom(history, kids, 0, Session(Lines(input), 0), directories)
    {
      hide Progress, Session, RecordsFrom, Settled, Lines, LineOf, Typed, HasExit, HaveArgs, AndThen, AllHaveArgs;
      var i := 0;
      var exit := false;
      ghost var done: seq<Command> := [];
      ghost var lines := Lines(input);
      SessionStarts(lines, directories);
      while i < |input| && !exit
        invariant 0 <= i <= |lines| && Settled()
        invariant HaveArgs(done) && RecordsFrom(history, kids, 0, done, directories)
        invariant Progress(lines, i, exit, done)
        decreases |lines| - i, !exit
      {
        LineIs(input, i);
        HaveArgsAt(lines, i);
        exit := RunTyped(input[i], done);
        SessionStep(lines, i, done);
        done := AndThen(done, lines[i]);
        i := i + 1;
      }
      SessionEnds(lines, i, exit, done);
    }
  }

  /** The commands executed when a line more has been read. */
  function AndThen(done: seq<Command>, line: seq<Command>): seq<Command> {
    done + Executed(line)
  }

  /** What is typed, line by line, as commands. */
  function Lines(input: seq<string>): (lines: seq<seq<Command>>)
    ensures |lines| == |input| && AllHaveArgs(lines)
  {
    seq(|input|, i requires 0 <= i < |input| => LineOf(input[i]))
  }

  lemma LineIs(input: seq<string>, i: nat)
    requires i < |input|
    ensures Lines(input)[i] == LineOf(input[i])
  {
  }

  function LineOf(line: string): (commands: seq<Command>)
    ensures HaveArgs(commands)
  {
    PipelineParser.Marked(line)
  }

  /** A line that the parser is made for. */
  predicate Typed(line: string) {
    PipelineParser.Readable(line)
  }

  method ReadLine(line: string) returns (commands: seq<Command>)
    requires Typed(line)
    ensures commands == LineOf(line)
  {
    commands := PipelineParser.GetCommandList(line);
  }

  /** The commands of a run from line `i` on: line by line, up to the line with an `exit`. */
  function Session(lines: seq<seq<Command>>, i: nat): (r: seq<Command>)
    requires i <= |lines| && AllHaveArgs(lines)
    ensures HaveArgs(r)
    decreases |lines| - i
  {
    if i == |lines| then []
    else if HasExit(lines[i]) then Executed(lines[i])
    else Executed(lines[i]) + Session(lines, i + 1)
  }

  /** After `i` lines the commands executed are `done`; `exit` tells that the run is over. */
  ghost predicate Progress(lines: seq<seq<Command>>, i: nat, exit: bool, done: seq<Command>)
    requires AllHaveArgs(lines) && i <= |lines|
  {
    Session(lines, 0) == if exit then done else done + Session(lines, i)
  }

  lemma HaveArgsAt(lines: seq<seq<Command>>, i: nat)
    requires AllHaveArgs(lines) && i < |lines|
    ensures HaveArgs(lines[i])
  {
  }

  lemma SessionStarts(lines: seq<seq<Command>>, directories: set<string>)
    requires AllHaveArgs(lines)
    ensures Progress(lines, 0, false, []) && HaveArgs([]) && RecordsFrom([], [], 0, [], directories)
  {
  }

  lemma SessionStep(lines: seq<seq<Command>>, i: nat, done: seq<Command>)
    requires AllHaveArgs(lines) && i < |lines| && Progress(lines, i, false, done)
    ensures Progress(lines, i + 1, HasExit(lines[i]), AndThen(done, lines[i]))
  {
  }

  lemma SessionEnds(lines: seq<seq<Command>>, i: nat, exit: bool, done: seq<Command>)
    requires AllHaveArgs(lines) && i <= |lines| && Progress(lines, i, exit, done) && (exit || i == |lines|)
    ensures done == Session(lines, 0)
  {
  }

  lemma RecordsMore(h: seq<Tick>, kids: seq<Option<Fds>>, h': seq<Tick>, kids': seq<Option<Fds>>, done: seq<Command>,
                    more: seq<Command>, directories: set<string>)
    requires HaveArgs(done) && HaveArgs(more) && h <= h' && kids <= kids'
    requires RecordsFrom(h, kids, 0, done, directories) && RecordsFrom(h', kids', |h|, more, directories)
    ensures HaveArgs(done + more) && RecordsFrom(h', kids', 0, done + more, directories)
  {
    forall i | 0 <= i < |h'|
      ensures Records(h'[i], kids'[i], (done + more)[i], directories)
    {
      if i >= |h| {
        assert Records(h'[|h| + (i - |h|)], kids'[|h| + (i - |h|)], more[i - |h|], directories);
      } else {
        assert Records(h[0 + i], kids[0 + i], done[i], directories);
      }
    }
  }

  lemma {:induction false} ExecutedIs(commands: seq<Command>, n: nat)
    requires n <= |commands|
    requires forall k :: 0 <= k < n - 1 ==> !IsExit(commands[k])
    requires n == |commands| || (n > 0 && IsExit(commands[n - 1]))
    ensures ExecutedCount(commands) == n
  {
    if commands != [] && !IsExit(commands[0]) {
      var rest := commands[1..];
      assert forall k :: 0 <= k < |rest| ==> rest[k] == commands[k + 1];
      ExecutedIs(rest, n - 1);
    }
  }

  predicate PipesOutput(c: Command, directories: set<string>)
    requires |c.args| > 0
  {
    Forks(c, directories) && c.CheckIfPipe()
  }

  /**
   Process `k` reads what process `j` writes exactly when `j` has a `|` or `!` and `k` is as many commands after it as
   the number says that is typed behind that, or the next one if there is no number.
   */
  ghost predicate Reads(kids: seq<Option<Fds>>, commands: seq<Command>, directories: set<string>, j: int, k: int)
    requires HaveArgs(commands) && 0 <= j < |commands| && 0 <= k < |commands|
  {
    Forks(commands[j], directories) && Forks(commands[k], directories) ==>
      && j < |kids| && k < |kids| && kids[j].Some? && kids[k].Some?
      && (ReadsFrom(kids[k].value, kids[j].value) <==>
            && (commands[j].hasPipe || commands[j].hasExclamation)
            && k == j + if commands[j].pipeCount > 0 then commands[j].pipeCount else 1)
  }

  /** The shell's promise about the commands as they were typed, read off the descriptors of their processes. */
  lemma NumberedPipesDeliver(h: seq<Tick>, kids: seq<Option<Fds>>, commands: seq<Command>, directories: set<string>)
    requires HaveArgs(commands) && RecordsFrom(h, kids, 0, commands, directories) && Delivered(h)
    ensures forall j, k :: 0 <= j < |commands| && 0 <= k < |commands| ==> Reads(kids, commands, directories, j, k)
  {
    forall j, k | 0 <= j < |commands| && 0 <= k < |commands|
      ensures Reads(kids, commands, directories, j, k)
    {
      assert Records(h[0 + j], kids[0 + j], commands[j], directories);
      assert Records(h[0 + k], kids[0 + k], commands[k], directories);
      if Forks(commands[k], directories) && PipesOutput(commands[j], directories) {
        assert Writer(h, j) && (h[k].input == Some(Out(h, j)) <==> Due(h, j) == k);
      }
    }
  }

  /** A process reads a pipe only if some earlier command's output is due at it, and else the terminal. */
  lemma NoStrayInput(h: seq<Tick>, kids: seq<Option<Fds>>, commands: seq<Command>, directories: set<string>, k: nat)
    returns (j: nat)
    requires HaveArgs(commands) && RecordsFrom(h, kids, 0, commands, directories) && Delivered(h)
    requires k < |commands| && kids[k].Some? && 0 in kids[k].value && kids[k].value[0] != Std
    ensures j < k && Forks(commands[j], directories) && (commands[j].hasPipe || commands[j].hasExclamation)
    ensures k == j + if commands[j].pipeCount > 0 then commands[j].pipeCount else 1
  {
    assert Records(h[0 + k], kids[0 + k], commands[k], directories);
    assert DueAt(h, k);
    j :| Writer(h, j) && j < k && Due(h, j) == k;
    assert Records(h[0 + j], kids[0 + j], commands[j], directories);
  }

  /** Where the output and the errors of a process go. */
  lemma ProcessIs(h: seq<Tick>, kids: seq<Option<Fds>>, commands: seq<Command>, directories: set<string>, k: nat)
    requires HaveArgs(commands) && RecordsFrom(h, kids, 0, commands, directories)
    requires k < |commands| && Forks(commands[k], directories)
    ensures kids[k].Some? && 0 in kids[k].value && 1 in kids[k].value && 2 in kids[k].value && SeesEnd(kids[k].value)
    ensures var kid, c := kids[k].value, commands[k];
      && (kid[1].WriteEnd? <==> c.hasPipe || c.hasExclamation)
      && (!c.hasPipe && !c.hasExclamation ==> kid[1] == if c.filename != "" then File(c.filename) else Std)
      && kid[2] == if c.hasExclamation && !c.hasPipe then kid[1] else Std
  {
    assert Records(h[0 + k], kids[0 + k], commands[k], directories);
  }

  /** All commands of all lines. */
  function AllOf(lines: seq<seq<Command>>, i: nat): seq<Command>
    requires i <= |lines|
    decreases |lines| - i
  {
    if i == |lines| then [] else lines[i] + AllOf(lines, i + 1)
  }

  /** The run is all commands up to and with the first `exit`, or all of them. */
  predicate EndsAtExit(run: seq<Command>, all: seq<Command>)
    requires HaveArgs(run)
  {
    && run <= all && (forall k :: 0 <= k < |run| - 1 ==> run[k].args[0] != "exit")
    && (|run| < |all| ==> run != [] && run[|run| - 1].args[0] == "exit")
  }

  /** A run executes the commands of its lines in their order, up to the first `exit`. */
  lemma {:induction false} SessionIs(lines: seq<seq<Command>>, i: nat)
    requires i <= |lines| && AllHaveArgs(lines)
    ensures EndsAtExit(Session(lines, i), AllOf(lines, i))
    decreases |lines| - i
  {
    if i < |lines| {
      UpToExit(lines[i]);
      if !HasExit(lines[i]) {
        SessionIs(lines, i + 1);
        assert Executed(lines[i]) == lines[i];
        NoExitBefore(lines[i], Session(lines, i + 1), AllOf(lines, i + 1));
      } else {
        ExitIn(Executed(lines[i]), lines[i], AllOf(lines, i + 1));
      }
    }
  }

  lemma NoExitBefore(line: seq<Command>, run: seq<Command>, all: seq<Command>)
    requires HaveArgs(line) && HaveArgs(run) && EndsAtExit(run, all)
    requires forall k :: 0 <= k < |line| ==> line[k].args[0] != "exit"
    ensures HaveArgs(line + run) && EndsAtExit(line + run, line + all)
  {
  }

  lemma ExitIn(run: seq<Command>, line: seq<Command>, more: seq<Command>)
    requires HaveArgs(run) && run <= line && run != [] && run[|run| - 1].args[0] == "exit"
    requires forall k :: 0 <= k < |run| - 1 ==> run[k].args[0] != "exit"
    ensures EndsAtExit(run, line + more)
  {
  }

  lemma {:induction false} UpToExit(commands: seq<Command>)
    requires HaveArgs(commands)
    ensures var n := ExecutedCount(commands);
      && (forall k :: 0 <= k < n - 1 ==> commands[k].args[0] != "exit")
      && (HasExit(commands) ==> n > 0 && commands[n - 1].args[0] == "exit")
      && (!HasExit(commands) ==> n == |commands| && forall k :: 0 <= k < n ==> commands[k].args[0] != "exit")
  {
    if commands != [] && !IsExit(commands[0]) {
      var rest := commands[1..];
      assert forall k :: 0 <= k < |rest| ==> rest[k] == commands[k + 1];
      UpToExit(rest);
    }
  }

  /** Overdue pipes are in every vector that extends the ticked one, also without the entry that is due. */
  lemma OverdueKept(pipes: seq<PipeCounter>, ticked: seq<PipeCounter>, after: seq<PipeCounter>, index: int)
    requires |ticked| == |pipes| && forall i :: 0 <= i < |pipes| ==> ticked[i] == Ticked(pipes[i])
    requires ticked <= after
    requires index == -1 || (0 <= index < |ticked| && ticked[index].counter == 0)
    ensures OverdueStay(pipes, after)
    ensures index != -1 ==> OverdueStay(pipes, Without(after, index))
  {
    forall p | p in pipes && p.counter <= 0
      ensures Ticked(p) in after && (index != -1 ==> Ticked(p) in Without(after, index))
    {
      var i :| 0 <= i < |pipes| && pipes[i] == p;
      assert after[i] == Ticked(p);
      if index != -1 {
        WithoutKeeps(after, index, i);
      }
    }
  }
}
