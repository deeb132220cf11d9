/** What the process of a command is given, in the shell and in the server. */
module Processes {
  import opened Commands
  import opened Descriptors
  import opened NumberedPipes

  /** The history of a command: a process if it forks one, with an output pipe if it asks for one. */
  predicate Recorded(t: Tick, c: Command, forks: bool) {
    && t.Ran? == forks
    && (forks ==> t.output.Some? == c.CheckIfPipe())
    && (forks && t.output.Some? ==> t.output.value.delay == c.Delay())
  }

  /**
   The descriptors of the process of a command. It reads the numbered pipe that is due, or else `input`; it
   writes its numbered pipe, its file, or else `output`; its errors go to `own`, or with `!` to its output. It
   holds no write end of what it reads.
   */
  predicate ProcessOk(kid: Fds, t: Tick, c: Command, own: End, input: End, output: End) {
    && t.Ran? && (c.CheckIfPipe() ==> t.output.Some?) && 0 in kid && 1 in kid && 2 in kid && SeesEnd(kid)
    && kid[0] == (if t.input.Some? then ReadEnd(t.input.value) else input)
    && kid[1] == (if c.CheckIfPipe() then WriteEnd(t.output.value.obj)
                  else if c.CheckRedirection() then File(c.filename)
                  else output)
    && kid[2] == (if c.CheckIfPipe() && !c.hasPipe then kid[1] else own)
  }

  /** The first process reads what the second one writes. */
  predicate ReadsFrom(reader: Fds, writer: Fds) {
    0 in reader && 1 in writer && reader[0].ReadEnd? && writer[1] == WriteEnd(reader[0].obj)
  }
}
