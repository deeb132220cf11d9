# Network programming projects: a verified model

The repository holds four course projects around one idea, a shell whose commands are connected by
pipes: a shell on a terminal (`np_project1`), a multi-user server that also offers pipes between users
and a semaphore library (`np_project2`), and a SOCKS 4/4A proxy with its client (`np_project4`). This
project models their core in Dafny and proves what it promises, for all inputs, all runs and, for the
semaphores, all interleavings and crashes.

`dafny verify dfyconfig.toml` verifies everything.

## The parts

**Semaphores** (`Semaphore`, `SemaphoreSafety`, `SemaphoreLaws`, `SemaphoreLimits`, `SemaphoreCalls`). Three System
V counters with `SEM_UNDO` as a step system: any number of processes, one system call per step, deaths between any
two calls, `fork`, removed sets, the `goto again` retry. An invariant of every run that keeps to the rules gives
removal safety, reference accounting, ownership of the lock, one initialisation and mutual exclusion. Two rules are
not the callers' natural ones: the bound on references, and what a `sem_open` without a reference may do. For both
there is a run that breaks the promises and an exact condition. `SemaphoreLaws` says for every call when it waits
and what it does to the counters, in numbers alone. The five functions are also written as methods of a process
that is interrupted by the others at every call; such a method fails to return only if its process waits for
something that nobody will do any more, and a process that is left alone waits exactly where the counters say so.

**Numbered pipes** (`NumberedPipes`, `Descriptors`, `Processes`, `NpShell`). The vector of countdowns refines the
simple specification "the output of command `j` with the number `N` behind its operator is the input of command
`j + N`". The shell is followed from the lines as they are typed down to the descriptors of every child, over a kernel
that hands out the lowest descriptor that is not open. Between two commands the vector holds exactly the outputs
that no process has been given, and no other pipe end is open.

**Users** (`Sessions`, `SessionLaws`, `UserPipes`, `ServerTable`, `ServerPipes`, `ServerVisits`, `ServerChild`,
`ServerCommand`, `ServerLog`, `NpServer`, `ServerLaws`, `ServerRuns`). The server's one table: slots, names,
environments, numbered pipes of every user, and two matrices of user pipes. `Sessions` says, without any table or
descriptor, what the server is for: a log of logins, commands and logouts as a function of what arrives on its
sockets, and from the log who is there on which connection and under which name, what waits between two users, what
is due at which command, which process starts, and how many descriptors are lost. `SessionLaws` and `ServerLaws`
say once more, by the entries of the log and the fields of the commands alone, what these functions mean and what
one more input does. The server refines it: over every sequence of connections and typed lines its log is that
function's, its table and its descriptors are what the log says, and every process of the whole run reads, writes
and complains where the log says (`ServerLog.WhoReadsWhom` is an if-and-only-if for any two of them). One
invariant, kept by every step, says that the matrices mirror each other, that no two places of the table share a
descriptor, that each of them is open, that the ends of a pipe have one descriptor each, and that every user's
numbered pipes deliver however the users interleave. The methods of the server do what the code does from any
state; what they keep is stated for a server that is intact, and a command keeps it intact under an exact
condition.

**Command lines** (`Splitting`, `Decimals`, `CommandLines`, `LineMeanings`; `PipelineParser` and
`PipelineRoundTrip` for project 1; `UserPipeParser`, `UserPipeSplitting`, `UserPipeRoundTrip` and `UserPipeLines`
for project 2). Both scanners are loops over the line that are proved against a reference: a line is cut into
segments, and each segment means its commands, with the marks for the first and the last one. Round trips (with
files and user pipes anywhere among the arguments), the role of blanks, and the loop that splits at `>N` are proved
about the reference (`UserPipeExample` has a line that is used below).

**SOCKS** (`SocksCodec`, `Firewall`). The encoder of the client and the decoder of the server over byte
buffers, and the firewall's string matching against a byte-by-byte reading of the rules. The formats are
those of the memos "SOCKS: A protocol for TCP proxy across firewalls" (version 4) and "SOCKS 4A: A Simple
Extension to SOCKS 4 Protocol".

## What the code assumes

Semaphores:

- `sem_close` is called only with a reference in hand. `sem_open` takes no lock: without a reference it is
  harmless if and only if no process is about to remove the set when it takes its reference
  (`SemaphoreSafety.OpenBreaksExactly`); `SemaphoreLimits.OpenWithoutReference` is a run in which one is.
- At most `MAX_CLIENTS` references are out when a creator reads the process counter. With one more the
  next `sem_create` initialises a set that is in use (`SemaphoreLimits.OneCreatorTooMany`).
- `sem_wait` and `sem_signal` alternate, with no `sem_create` or `sem_open` without a reference between them.
- `sem_rm` is called by `sem_close` only. The signal handler `shm_clear` (np_project2/np_multi_proc.cpp:727-741) calls
  it while references are out.
- `semop` is not interrupted by signals; identifiers of sets are not used again; the initial value lies
  between 0 and 32767.

Shell and server:

- `pipe`, `fork`, `accept` and the null device do not fail; `open` fails on directories only.
- Clients leave by `exit`. A client that just drops its connection stays in the table; that path is not
  part of this model.
- User ids after `<` and `>` are at most 30, and `name` and `tell` have an argument.

Command lines and SOCKS:

- A line has no CR, LF or NUL in it; the scanners would wait at one forever. A file name stands behind
  every `>` (with the one exception of a `>` as the single character behind the last operator, which
  project 1 takes for an argument), in project 2 not one of the form `>N`, with which the parser does not end.
- Numbers fit in an `int`.
- A SOCKS request arrives in one `read`. A request for a domain has the zeros that end its two strings
  within the buffer; the code looks for them without a bound.
- Every line of the rule file that the code reads, up to the first that lets the address pass, has three words; a
  `permit` has the mode `c` or `b` (for any other mode the code compares an uninitialised variable) and, if that is
  the mode asked for, a mask that does not run out of parts.

## What turned out different from what one would expect

- A user pipe of a user to itself (`>N` with its own id) makes the logout of that user close one
  descriptor twice, which ends the whole server. `UserPipeClear`, `ClientLogout` and `Exit` state this as
  an if-and-only-if, and `ServerRuns.SelfPipeEndsServer` is such a run.
- A command with an operator `|` or `!` and a user pipe `>N` at once makes the server close the write end of the
  numbered pipe that its table keeps. A command leaves the table in order if and only if it is not one of these
  (`NpServer.Server.RunCommand`); afterwards just that descriptor is missing (`ServerCommand.Misses`). If the next
  command of the line is one of these for the same pipe, the server ends itself, in whatever state it is: one user
  can do it with the line `a >1|2 b >1|1` (`ServerRuns.ShutTwiceEndsServer`). Without such a next command the
  specification says no more from there on.
- `setenv` with a name that is empty or contains `=` is stored in the user's session but is not part of
  the process environment: the environment is `Exported(env)`.
- The descriptor of a file redirection is never closed by the shell of project 1. The server closes it exactly
  if the command asks for a user pipe `>N` as well.
- In the server a command that does not start leaves open what it was to read: the read end of the user pipe it
  has taken, or the null device. It leaves a read end behind if and only if it took a user pipe and did not start
  (`ServerCommand.ReadEndsLeft`, and `ServerRuns.ReadEndIsLost` for a run). A logout leaves the user's numbered pipes
  open (`ClientLogout`, `ServerRuns.PipeIsLost`). How many descriptors are lost in all is a function of the log
  (`Sessions.Leaked`).
- A command whose numbered pipe is due and which also takes a user pipe reads the numbered pipe: what it has
  taken is read by nobody, then and later (`ServerLog.LostLetter`, `ServerRuns.LetterIsLost`).
- Splitting a segment at `>N` ends if and only if no `>` takes a `>N` as its file name
  (`UserPipeSplitting.SplittingEnds`, `EndlessWitness`); the words behind the last `>N` of a segment are dropped
  (`UserPipeSplitting.Conservation`).
- A single character behind the last operator of a line (`ls|x`) is a command in project 1. In project 2
  it is lost unless a blank stands in front of it (`UserPipeLines.BlankMatters`,
  `LostWitness`).
- In project 1 a vertical tab or form feed in that place is dropped while it is an argument behind a
  blank (`PipelineRoundTrip.SpacingIndependence`, `FeedWitness`).
- In a rule file with CR LF line ends no rule lets anything pass, although the code skips a line of a lone CR
  (`Firewall.ReturnPermitsNothing`).
- The proxy sends no reply to a granted request for port 0 or for the address 255.255.255.255 (`Firewall.Answer`).
- The proxy treats 0.0.0.0 as a SOCKS 4A address, which the memo reserves for a nonzero last byte.

## Model

| member | source | states |
|---|---|---|
| SemaphoreSafety.OpLock | np_project2/semaphore.h:7-8 | The array waits for a free lock and takes it in one step; the caller's undo then releases it |
| SemaphoreSafety.OpEndCreate | np_project2/semaphore.h:9-10 | One reference is taken and the lock released together, or neither and the caller waits |
| SemaphoreSafety.OpOpen | np_project2/semaphore.h:11-12 | One reference is taken if one is left, and the undo would give it back |
| SemaphoreSafety.OpClose | np_project2/semaphore.h:13-14 | Waiting for the lock, taking it and giving a reference back are one step |
| SemaphoreSafety.OpUnlock | np_project2/semaphore.h:15-16 | The lock is released and nothing is left to undo |
| SemaphoreSafety.OpWait | np_project2/semaphore.h:17-18 | A wait takes one token, to be undone at death, or blocks at zero |
| SemaphoreSafety.OpSignal | np_project2/semaphore.h:17-18 | A signal gives one token back and takes it out of what is undone |
| SemaphoreSafety.StepKeepsInv | np_project2/semaphore.cpp:6-139 | Every system call of every function, every fork, error and death keeps the invariant between counters, adjustments, references and program positions |
| SemaphoreSafety.RunKeepsInv | np_project2/semaphore.cpp:6-139 | The invariant holds after every disciplined run of any number of processes |
| SemaphoreSafety.ReferencedSetLives | np_project2/semaphore.cpp:91-117 | In every reachable state, a process with a reference works on a set that exists and is initialised |
| SemaphoreSafety.RemovalSafety | np_project2/semaphore.cpp:91-117 | When `IPC_RMID` is about to be called on the current set, no process has a reference and nobody else is in a locked section |
| SemaphoreSafety.RemovesExactly | np_project2/semaphore.cpp:98-116 | After its `GETVAL` a closing process goes on to remove the set if and only if no reference is left, and else unlocks |
| SemaphoreSafety.OpenBreaksExactly | np_project2/semaphore.cpp:79-87 | A `sem_open` that takes its reference keeps the invariant if and only if nobody is about to remove the set, and breaks it only for a process without a reference |
| SemaphoreSafety.ReferenceAccounting | np_project2/semaphore.h:8-16 | The process counter is `MAX_CLIENTS + 1` minus all references of live processes (0 before initialisation), and each process's adjustments are exactly its token, its references and its lock |
| SemaphoreSafety.LockOwner | np_project2/semaphore.h:8-16 | The lock is 0 or 1, and 1 exactly when one, and only one, live process is between taking and releasing it |
| SemaphoreSafety.InitialiseExactly | np_project2/semaphore.cpp:34-39 | A creator that holds the lock reads 0 if and only if the set is not initialised or all 31 references are out |
| SemaphoreSafety.InitialiseOnce | np_project2/semaphore.cpp:39-52 | Within the bound both `SETVAL` calls find an uninitialised set, no reference, no token taken and no adjustment they could lose, also after a creator died between them |
| SemaphoreSafety.MutualExclusion | np_project2/semaphore.cpp:119-139 | The value is the initial value minus the number of holders; started at 1, no two processes are between wait and signal |
| SemaphoreSafety.CrashGivesBack | np_project2/semaphore.h:7-18 | The death of a process at any point gives back exactly its token, its references and its lock |
| SemaphoreSafety.OwnerWaitsExactly | np_project2/semaphore.cpp:53-57 | The owner of the lock blocks if and only if it ends a create with all 31 references out, while every close waits for it |
| SemaphoreLaws.WaitsExactly | np_project2/semaphore.h:7-18 | In every reachable state a process waits if and only if its set is there and: at the lock of a create or a close the lock is 1, at the end of a create or at an open the counter of references is 0, at a wait the value is 0; at no other call |
| SemaphoreLaws.CallDoes | np_project2/semaphore.cpp:29-139 | What every call that does not wait does to the three counters, and where the process goes on, position by position |
| SemaphoreLaws.GetDoes | np_project2/semaphore.cpp:25-82 | A create finds the set that is there or makes a new one of zeros; an open finds it or gives up; neither waits |
| SemaphoreLaws.ForkDoes | np_project2/np_multi_proc.cpp:540 | A child works on the set of its parent, without references, adjustments or a token, and nobody else changes |
| SemaphoreLimits.CrowdForms | np_project2/semaphore.cpp:6-59 | Any number of processes from 1 to 31 can hold one reference each at the same time |
| SemaphoreLimits.OneCreatorTooMany | np_project2/semaphore.cpp:34-57 | A run in which the 32nd creator re-initialises the set of 31 processes and wipes their adjustments |
| SemaphoreLimits.OpenWithoutReference | np_project2/semaphore.cpp:68-89 | A run in which a `sem_open` by a process without a reference ends with a reference to a removed set |
| SemaphoreCalls.ForeignStep | np_project2/semaphore.cpp:6-139 | What the other processes do between two calls keeps the invariant and leaves a process's position, references and locked set alone |
| SemaphoreCalls.SignalNeverWaits | np_project2/semaphore.cpp:136-139 | A signal can always be made at once |
| SemaphoreCalls.System.GetAndLock | np_project2/semaphore.cpp:24-33 | The retry loop gets past the lock, against any interference and with the references unchanged, unless its process is stuck for good or the kernel fails a `semget`; left alone it is stuck if and only if the lock of a set that is there is taken, and else takes it, in a new set if there is none |
| SemaphoreCalls.System.InitialiseAndEnd | np_project2/semaphore.cpp:34-58 | From its `GETVAL` on a creator gains one reference exactly if its set is still there, and that set is then initialised; left alone with its set it never waits: a counter of 0 becomes 30 and the value the initial one, any other counter goes down by one, and the lock is free |
| SemaphoreCalls.System.EndCreate | np_project2/semaphore.cpp:53-58 | The last `semop` of a create gains its process one reference exactly if its set is still there; left alone with it, it waits if and only if no reference is left, and else takes one and frees the lock |
| SemaphoreCalls.System.SemCreate | np_project2/semaphore.cpp:6-59 | On return the caller has one reference more to an initialised set, or the identifier of a set that was removed while it waited, or -1 and no more references; -1 comes from a refused key, where nothing happens, and else only from a failing `semget`; it fails to return only when stuck for good. Left alone it waits if and only if the lock is taken, and else ends with a free lock and with a counter one lower or, if there was no initialised set, with 30 references left and the initial value |
| SemaphoreCalls.System.SemOpen | np_project2/semaphore.cpp:68-89 | A holder gets one more reference to the same, living set, or -1 and nothing changed for it, exactly if the key is refused or `semget` fails; left alone it waits if and only if the counter of references is 0 |
| SemaphoreCalls.System.TakeReference | np_project2/semaphore.cpp:83-88 | The `semop` of an open gets the holder one more reference to its living set, and left alone waits if and only if the counter is 0 |
| SemaphoreCalls.System.SemClose | np_project2/semaphore.cpp:91-117 | The caller has one reference less; if it removed the set, nobody has any; left alone it waits if and only if the lock is taken, and removes the set if and only if it had the only reference |
| SemaphoreCalls.System.RemoveOrUnlock | np_project2/semaphore.cpp:98-116 | From its `GETVAL` on a closer never waits, and left alone removes the set if and only if no reference is left |
| SemaphoreCalls.System.SemWait | np_project2/semaphore.cpp:131-134 | When the wait is over the caller holds a token that would be given back at its death; left alone it waits if and only if its set is there and the value is 0, and else takes exactly one token |
| SemaphoreCalls.System.SemSignal | np_project2/semaphore.cpp:136-139 | Exactly one token goes back, without waiting, and nothing is left to be undone for it |
| Commands.Command.Delay | np_project1/npshell.cpp:85-100 | The output of a command is due as many commands ahead as the number behind its operator says, and at the next one for `|`, `!` and a number of 0 |
| NumberedPipes.PipesUpdate | np_project1/utils.cpp:45-51 | Every counter is one less, and nothing else changes |
| NumberedPipes.PipeForReading | np_project1/utils.cpp:53-61 | The first pipe that is due now, or -1 if none is |
| NumberedPipes.PipeForWriting | np_project1/utils.cpp:63-71 | The first pipe with the given counter, or -1 if none has it |
| NumberedPipes.TickKeepsTrack | np_project1/utils.cpp:45-51 | Counting down while the clock goes up leaves every due time as it was |
| NumberedPipes.ReadIndexServes | np_project1/utils.cpp:53-61 | What the search for counter 0 finds is a pipe with output due at this command, and it finds one if there is any |
| NumberedPipes.RunOnNewPipe | np_project1/npshell.cpp:105-116 | A pipe made because none had the counter keeps counters distinct and one pipe per due time |
| NumberedPipes.EraseKeepsTrack | np_project1/utils.cpp:100-111 | Erasing the due pipe loses no output that is still to come |
| NumberedPipes.EraseOwned | np_project1/utils.cpp:100-111 | Closing both ends leaves every other pipe of the vector open, and no pipe end open outside it |
| NumberedPipes.StepIs | np_project1/npshell.cpp:44-121 | A tick, perhaps a push, and an erasure at the index found before the push make exactly one step of the vector |
| NumberedPipes.NothingDue | np_project1/utils.cpp:100-111 | After an erasure no entry of the vector is due |
| NumberedPipes.KeptStep | np_project1/npshell.cpp:44-121 | From one command to the next the vector keeps exactly the outputs that are still to come or were never taken |
| NumberedPipes.DeliveredIf | np_project1/npshell.cpp:44-120 | The account the vector keeps implies the specification of delivery |
| NpShell.ChildInput | np_project1/npshell.cpp:147-154 | The child ends with the due pipe on descriptor 0 and without its write end; no call fails |
| NpShell.ChildOutput | np_project1/npshell.cpp:156-171 | The child ends with its output on 1 (and 2 for `!`) and without the read end of that pipe; no call fails |
| NpShell.ChildDescriptors | np_project1/npshell.cpp:144-171 | With due input and output at once the rearrangement still works: the right ends on 0, 1 and 2, and no write end of what it reads, so that it sees its end |
| NpShell.Shell.OutputPipe | np_project1/npshell.cpp:102-121 | The entry that is found or pushed has the wanted counter, earlier entries keep their place, and the account covers the new output |
| NpShell.Shell.RunIntoPipe | np_project1/npshell.cpp:85-122 | A process with output is recorded with the number typed behind its operator, or 1, as its delay, and has the due pipe, its own pipe and, but for `!`, the terminal as its standard descriptors |
| NpShell.Shell.RunIntoFile | np_project1/npshell.cpp:124-136 | A process is forked if and only if the file opens, and writes to that file; its descriptor stays open in the shell |
| NpShell.Shell.ErasePipe | np_project1/utils.cpp:100-111 | Exactly the entry that was due is closed and removed; the index chosen before a push still names it |
| NpShell.Shell.RunAndErase | np_project1/npshell.cpp:77-189 | An external command forks as it should and then erases the due entry exactly if it forked |
| NpShell.Shell.RunCommand | np_project1/npshell.cpp:36-189 | One command, one tick: the history grows as the command asks, with the standard descriptors of its process; the vector is the ticked one with a new entry if the output needs one and, exactly if a process was forked, without the due one; overdue pipes stay; only file redirections leave descriptors behind |
| NpShell.Shell.RunLine | np_project1/npshell.cpp:36-190 | A line executes its commands up to the first `exit`, each recorded once |
| NpShell.Shell.RunShell | np_project1/npshell.cpp:26-203 | A whole session executes the lines as they were typed, up to `exit`; for any two of its processes the one reads what the other writes if and only if that one has an operator and its number, or 1, is the distance between them; at the end the vector holds exactly what no process was given |
| NpShell.NumberedPipesDeliver | np_project1/npshell.cpp:44-171 | For all `j` and `k`: by their descriptors process `k` reads what process `j` writes if and only if command `j` has `|` or `!` and `k` is `j` plus the number behind it, or plus 1 without one |
| NpShell.NoStrayInput | np_project1/npshell.cpp:144-154 | A process that does not read the terminal reads the output of an earlier command with an operator, as many commands before it as the number behind that says |
| NpShell.ProcessIs | np_project1/npshell.cpp:124-171 | A process writes to a pipe exactly with an operator, else into its file or to the terminal; its errors follow its output exactly with `!`; it sees the end of its input |
| NpShell.SessionIs | np_project1/npshell.cpp:26-46 | The commands of a session are those of its lines in order, up to and with the first `exit`, or all of them if there is none |
| NpShell.OverdueKept | np_project1/utils.cpp:53-71 | A pipe whose counter is no longer positive and which is not the due one is neither moved out nor erased |
| UserPipes.Sends | np_project2/np_single_proc.cpp:395-399 | A new user pipe between two users without one keeps the matrices mirrored and all descriptors apart |
| UserPipes.Receives | np_project2/np_single_proc.cpp:269-273 | Taking a user pipe clears both matrices and leaves every other pipe as it was |
| UserPipes.Leaves | np_project2/np_single_proc.cpp:708-726 | After a logout without a self-pipe the rest of the table is as good as before |
| UserPipes.Enters | np_project2/np_single_proc.cpp:676-696 | A client with empty rows and an empty vector in a free slot, whoever had it before, keeps the table in order |
| UserPipes.Erases | np_project2/utils.cpp:83-94 | Erasing one user's due pipe disturbs no pipe of anybody |
| NpServer.Server.constructor | np_project2/np_single_proc.cpp:552-567 | All slots are free, and the invariant holds with an empty log |
| NpServer.Server.ClientInit | np_project2/np_single_proc.cpp:676-696 | The lowest free slot gets the newcomer, with empty rows, an empty vector and the default path; 31 and no change if there is none |
| NpServer.Server.Accept | np_project2/np_single_proc.cpp:85-110 | A connection gets the lowest free slot and a new descriptor for itself; nothing waits to or from the newcomer, and an intact server stays so |
| NpServer.Server.UserPipeClear | np_project2/np_single_proc.cpp:771-794 | Over a table in order each read end to or from the user is closed once and the other side's entries are cleared; it ends the server if and only if the user has a pipe to itself |
| NpServer.Server.ClearPair | np_project2/np_single_proc.cpp:775-792 | One turn of the loop, from any state: which descriptors it closes and entries it clears, and that it ends the server exactly if one of them is not open |
| NpServer.Server.ClientLogout | np_project2/np_single_proc.cpp:708-726 | The slot is free, the user's pipes are cut and closed, everybody else's connections, pipes and slots are untouched, the numbered pipes stay open; it ends an intact server if and only if the user has a pipe to itself |
| NpServer.Server.FreeTheSlot | np_project2/np_single_proc.cpp:715-724 | The slot becomes a free one with empty rows, and its socket is nobody's |
| NpServer.Server.Exit | np_project2/np_single_proc.cpp:140-145 | Logout, then the socket is closed; the server agrees with its log and one more logout |
| NpServer.Server.NameExists | np_project2/np_single_proc.cpp:635-645 | True if and only if some slot has the name |
| NpServer.Server.Rename | np_project2/np_single_proc.cpp:647-665 | A name is taken over exactly if no slot has it |
| NpServer.Server.TakeInput | np_project2/np_single_proc.cpp:257-309 | A user pipe that is there leaves both matrices and its read end goes to the command; else the null device is opened; nothing if none is asked for |
| NpServer.Server.LoadEnvironment | np_project2/np_single_proc.cpp:148-149 | Afterwards the process environment is what the user's stored map exports, every variable but those with an empty name or a `=` in it, whatever it was before |
| NpServer.Server.SendUserPipe | np_project2/np_single_proc.cpp:361-410 | A pipe to another user is made, and entered in both matrices, exactly if that user is there and has none waiting from this one |
| NpServer.Server.OutputPipe | np_project2/np_single_proc.cpp:310-347 | The user's own entry with the counter that is the number typed, or 1, or a new pipe at the end; the target names the ends of that entry |
| NpServer.Server.ChooseOutput | np_project2/np_single_proc.cpp:310-423 | Numbered pipe, file, user pipe, client, in this order; the command starts exactly if its file opens or its user pipe can be made |
| NpServer.Server.Fork | np_project2/np_single_proc.cpp:425-479 | From descriptors that are there and apart, the child has its input on 0, its output on 1 and its errors on 2, by its own user's client descriptor; from a due pipe whose write end is closed it does not start |
| NpServer.Server.ErasePipe | np_project2/utils.cpp:83-94 | Exactly the entry that was due is closed and removed |
| NpServer.Server.RunExternal | np_project2/np_single_proc.cpp:248-509 | The steps of an external command one after the other, each in full, and the record of its process |
| NpServer.Server.CleanUp | np_project2/np_single_proc.cpp:497-508 | From any state: exactly the ends of the due pipe, the descriptor that was read and, with `>N`, the one that was written are closed, and it ends the server exactly if one of the last two is not open |
| NpServer.Server.RunCommand | np_project2/np_single_proc.cpp:170-510 | Of an intact server one command makes what the specification says; the table stays in order if and only if the command has not both an operator and `>N`, else just that write end is closed; the next such command for the same pipe ends the server |
| NpServer.Server.SetEnv | np_project2/np_single_proc.cpp:188-201 | The stored map gets the value, and the process environment still is what it exports |
| NpServer.Server.LogCommand | np_project2/np_single_proc.cpp:170-510 | A command adds to the log the entry that the specification gives it, with a process exactly if it says so; an intact server agrees with the longer log |
| NpServer.Server.RunNpshell | np_project2/np_single_proc.cpp:163-521 | A line adds to the log exactly the entries of its commands up to the first `tell` or `yell`, or the first command that leads the server astray, and touches no other user; it ends the server where the specification says so |
| NpServer.Server.RunLine | np_project2/np_single_proc.cpp:146-152 | Every line runs in the environment of its own user, whoever ran before, and makes what the specification says |
| NpServer.Server.OnConnect | np_project2/np_single_proc.cpp:85-111 | A connection logs in the lowest id that the log has free, if there is one |
| NpServer.Server.OnExit | np_project2/np_single_proc.cpp:140-145 | The line `exit` adds a logout and frees the slot and the socket, or ends the server exactly if a letter of the user to itself waits |
| NpServer.Server.OnLine | np_project2/np_single_proc.cpp:146-152 | Another line is executed for the user whose socket it came from |
| NpServer.Server.OnTyped | np_project2/np_single_proc.cpp:122-152 | A line as it was typed is parsed and executed, as the specification says; for `exit` the slot and the socket of its user are free afterwards |
| NpServer.Server.Serve | np_project2/np_single_proc.cpp:71-158 | Over any sequence of connections and typed lines: the log, and whether the server serves on or has ended itself, are the specification's function of them; every process of the run had the descriptors the log says, and numbered pipes delivered in every session; as long as it serves, table and descriptors agree with the log |
| ServerLaws.ConnectionEnters | np_project2/np_single_proc.cpp:85-111 | A connection after any inputs: the lowest id that nobody has comes in on its socket; with all thirty taken nothing happens |
| ServerLaws.ExitLeaves | np_project2/np_single_proc.cpp:140-145 | The typed line `exit` after any inputs: the user on that socket leaves and nothing else happens, or the server ends if and only if a letter of that user to itself waits |
| ServerLaws.NobodyTypes | np_project2/np_single_proc.cpp:122-152 | A line on a socket that is nobody's changes nothing |
| ServerLaws.LineRuns | np_project2/np_single_proc.cpp:146-247 | Any other line after any inputs: its commands enter the log in their order, up to the first `tell` or `yell` or the first with both an operator and `>N`, as those of the user on that socket, each with a process exactly if it is no built-in, its file is no directory, and whom it sends to is there and has nothing waiting |
| ServerRuns.TypedExitLeaves | np_project2/np_single_proc.cpp:140-145 | A run of a connection and the typed line `exit`: the log has the login and the logout, the slot is a free one, and the socket is closed |
| ServerRuns.SelfPipeEndsServer | np_project2/np_single_proc.cpp:771-794 | A run from the start in which user 1 types `cat >1` and `exit`, and the server ends itself |
| ServerRuns.ShutTwiceEndsServer | np_project2/np_single_proc.cpp:310-508 | A run from the start in which user 1 types one line of two commands, each with `>1` and a numbered pipe due at the same command, and the server ends itself |
| ServerRuns.ShutLeadsAstray | np_project2/np_single_proc.cpp:500-508 | A run from the start after which the write end of an entry of the table is closed |
| ServerRuns.LetterIsLost | np_project2/np_single_proc.cpp:258-273 | A run in which a command takes a letter and reads the numbered pipe that is due instead |
| ServerRuns.ReadEndIsLost | np_project2/np_single_proc.cpp:351-356 | A run after which the read end of a pipe is open without a place in the table |
| ServerRuns.PipeIsLost | np_project2/np_single_proc.cpp:708-726 | A run after which both ends of a numbered pipe are open without a place in the table |
| ServerTable.ReadEndsApart | np_project2/np_single_proc.cpp:269-273 | Every entry of the matrix is an open descriptor that no other entry has |
| ServerTable.PairTurn | np_project2/np_single_proc.cpp:775-792 | Over a table in order a turn of the clearing loop closes what is still open, and fails only for a pipe of the user to itself |
| ServerVisits.LoginSound | np_project2/np_single_proc.cpp:676-696 | A login keeps everything in order, changes no pipe and nothing that waits between others |
| ServerVisits.LogoutSound | np_project2/np_single_proc.cpp:708-726 | A logout keeps everything in order, closes all user pipes of the user and leaves exactly its numbered pipes open without a place |
| ServerCommand.InputSound | np_project2/np_single_proc.cpp:258-309 | Taking input keeps everything in order, and the server holds no write end of what was taken |
| ServerCommand.OutputSound | np_project2/np_single_proc.cpp:310-423 | Choosing the output keeps everything in order and puts the output into the user's account: a numbered pipe is a new one or one of the same session |
| ServerCommand.ForkApart | np_project2/np_single_proc.cpp:424-479 | All descriptors that a child rearranges are open and different from each other and from the standard ones |
| ServerCommand.ForkSound | np_project2/np_single_proc.cpp:425-479 | The process of a command has the standard descriptors that it should have, and no write end of what it reads |
| ServerCommand.CleanSound | np_project2/np_single_proc.cpp:497-508 | Cleaning up closes what the command holds and nothing else, and no call fails, unless the command has both an operator and `>N` |
| ServerCommand.ShutSound | np_project2/np_single_proc.cpp:497-508 | For such a command no call fails either, but the table keeps an entry whose write end is closed, and that is all that is wrong |
| ServerCommand.ShutAgain | np_project2/np_single_proc.cpp:342-346 | A command that finds such an entry for its output ends the server |
| ServerCommand.ExternalIs | np_project2/np_single_proc.cpp:257-508 | Taking, sending and cleaning up make the stated effect of one external command, also for a command that takes its own pipe and sends itself a new one |
| ServerCommand.ReadEndsLeft | np_project2/np_single_proc.cpp:349-417 | A command leaves a read end open behind itself if and only if it has taken a user pipe and could not start, and never a write end |
| ServerChild.ChildInput | np_project2/np_single_proc.cpp:427-446 | The child's descriptor 0 is the due pipe, else the user pipe, else the client; it ends itself if the write end of the due pipe is closed |
| ServerChild.ChildOutput | np_project2/np_single_proc.cpp:448-479 | The child's descriptors 1 and 2 are the output and, but for `!`, the client; what belongs to the output is not open besides |
| ServerChild.ChildOf | np_project2/np_single_proc.cpp:425-479 | Both rearrangements together give the child its three descriptors, and no call fails, if all is open and apart |
| ServerChild.ChildSeesEnd | np_project2/np_single_proc.cpp:427-446 | A child arranged this way holds no write end of the pipe it reads |
| Sessions.WaitingMeans | np_project2/np_single_proc.cpp:757-769 | A letter waits if and only if it was the last one sent between the two users, nobody has taken one since, and neither has left |
| Sessions.TakenIsLast | np_project2/np_single_proc.cpp:269-273 | A command takes the letter that was sent last, undisturbed since |
| Sessions.TakenOnce | np_project2/np_single_proc.cpp:269-273 | No letter is taken twice, in any log |
| Sessions.LineIs | np_project2/np_single_proc.cpp:170-247 | The specification executes a line's commands in order up to the first one that stops, each with a process if it can start one then, and serves on unless that one closes the write end of its numbered pipe |
| Sessions.ConnectionsApart | np_project2/np_single_proc.cpp:88-103 | In any run every login is of a connection that was asked for, and no two are of the same |
| Sessions.NumberedIs | np_project2/np_single_proc.cpp:310-347 | That an output is due as many commands of its user later as the number behind its operator says, in one session, built-ins counted, is the same as what the numbers of the commands in the session say |
| Sessions.DoneMeans | np_project2/np_single_proc.cpp:170-182 | The commands of a session are those given since its login, each as far from the end as commands of its user follow it |
| SessionLaws.LoginMeans | np_project2/np_single_proc.cpp:85-111 | A user is there since an entry if and only if that is its login and it has only given commands since |
| SessionLaws.LetterMeans | np_project2/np_single_proc.cpp:361-410 | What waits, by the entries alone: an output sent by `>N` without operator and file, since when none was sent or taken between the two and neither left |
| SessionLaws.TookMeans | np_project2/np_single_proc.cpp:257-273 | A command takes a letter if and only if it is external, has `<N`, and that output was the last one user N sent to its user by `>N` alone, untaken since, with both still there |
| SessionLaws.EnvMeans | np_project2/np_single_proc.cpp:188-201 | A variable of a user has the value of the last `setenv` for it in the session; at the login there is only `PATH`, as `bin:.` |
| SessionLaws.NameMeans | np_project2/np_single_proc.cpp:635-665 | A user has the name it took last in its session with `name` while none of the thirty had it, and none other before |
| SessionLaws.AheadMeans | np_project2/utils.cpp:28-94 | A user's numbered pipes are exactly the outputs of its session still to come, by the numbers typed, and those that came at a command that left them: a built-in but `tell` and `yell`, or a command that could not open its file |
| ServerLog.StartsAgrees | np_project2/np_single_proc.cpp:363-417 | The table lets a command start exactly if the log does, and has waiting for it what the log has |
| ServerLog.CommandChronicle | np_project2/np_single_proc.cpp:170-510 | Whatever a command does to the table, its entry in the log and the record of its process are right |
| ServerLog.CommandAgrees | np_project2/np_single_proc.cpp:170-510 | A command that leaves the table in order and its entry keep table, descriptors and numbers of lost descriptors in agreement with the log |
| ServerLog.WhoReadsWhom | np_project2/np_single_proc.cpp:363-479 | For any two processes of a run, of any users and sessions: the one reads what the other writes if and only if that is the output that by the number typed is due at its command in the same session, or the letter its command took while nothing was due |
| ServerLog.LostLetter | np_project2/np_single_proc.cpp:427-446 | A letter that is taken where a numbered output is due is read by no process of the run |
| ServerLog.InputIs | np_project2/np_single_proc.cpp:427-446 | What a process reads, in all cases: the due pipe, the letter taken, the null device for a letter that was not there, or its own user's connection |
| ServerLog.WritesToClient | np_project2/np_single_proc.cpp:448-479 | A process writes to its own user's connection exactly if nothing else was asked for, into the file of that name for a redirection, and complains to its own user unless `!` says otherwise |
| ServerLog.LoginAgrees | np_project2/np_single_proc.cpp:676-696 | So do a login and its entry |
| ServerLog.LogoutAgrees | np_project2/np_single_proc.cpp:708-726 | So do a logout and its entry |
| ServerLog.UserAgrees | np_project2/np_single_proc.cpp:102-103 | The map from sockets to users is the log's |
| Splitting.SplitWithDelims | np_project1/Parser.cpp:106-123 | The loop returns the words of the string from left to right |
| Splitting.TokensJoin | np_project1/Parser.cpp:106-123 | Splitting undoes joining, also in front of more text |
| Splitting.TokensSpaced | np_project1/Parser.cpp:106-123 | Splitting gives back the words, whatever blanks stand before, between and behind them |
| Decimals.ValueStep | np_project1/Parser.cpp:25-29 | A digit more makes ten times the number and the digit |
| Decimals.ValueOfDecimal | np_project1/Parser.cpp:25-29 | Reading the digits of a number gives back the number |
| Decimals.DecimalInjective | np_project4/socks_server.cpp:166-167 | Different numbers are written differently |
| CommandLines.ReadNumber | np_project1/Parser.cpp:24-29 | The loop stops behind the last digit with the number the digits denote |
| CommandLines.TextAhead | np_project1/Parser.cpp:35-36 | What is read before a line changes only the text of its first segment |
| CommandLines.CutAtOperator | np_project1/Parser.cpp:17-33 | What stands before an operator is cut into the same segments whatever follows it |
| CommandLines.LineSegments | np_project1/Parser.cpp:12-36 | Cutting a written line gives back what was written between its operators, blanks and all, with their kinds and numbers |
| LineMeanings.BlankBehind | np_project1/Parser.cpp:17-36 | For both parsers and any line, a blank behind an operator matters if and only if a single character follows that is read differently behind a blank |
| LineMeanings.MarkedMeans | np_project1/Parser.cpp:74-77 | But for the marks, the commands of a line are what its segments mean |
| PipelineParser.ParseSegment | np_project1/Parser.cpp:41-83 | One command with the words before `>`, those behind the file name, and the file; none without words (what the words and the file of a text are is FileAnywhere) |
| PipelineParser.GetCommandList | np_project1/Parser.cpp:4-104 | The scanning loop, with its delayed text and its special case for one last character, returns what the segments of the line mean, with the marks for the first and the last command |
| PipelineRoundTrip.FileAnywhere | np_project1/Parser.cpp:50-65 | Of the text of words, a `>`, a name and more words, with any blanks, the name is the file and all the words, before and behind, are the arguments in their order |
| PipelineRoundTrip.RoundTrip | np_project1/Parser.cpp:4-104 | Writing commands as a line, each file anywhere among the arguments, with any blanks before, between and behind the words and none where none is needed, and parsing it gives back arguments, files, operators and numbers |
| PipelineRoundTrip.MarksMean | np_project1/Parser.cpp:74-97 | Of a written line the first command is marked as the first, and the last as the last only if it ends with an operator or is one character behind one |
| PipelineRoundTrip.TextMeans | np_project1/Parser.cpp:50-65 | The text of one command gives back its arguments and its file, wherever the file is named, with or without blanks around `>` |
| PipelineRoundTrip.SpacingIndependence | np_project1/Parser.cpp:17-36 | For any line around it, a blank behind an operator is irrelevant unless a lone vertical tab or form feed follows |
| PipelineRoundTrip.SpacedCharacter | np_project1/Parser.cpp:84-97 | The special case for one last character agrees with the general rule except for those two characters |
| PipelineRoundTrip.FeedWitness | np_project1/Parser.cpp:84-97 | A line with a form feed or vertical tab behind its operator means something else with a blank before it |
| UserPipeParser.NumberOfUserPipeOut | np_project2/Parser.cpp:167-176 | The number of `>N` tokens |
| UserPipeParser.CountSplits | np_project2/Parser.cpp:52-77 | Every `>N` is either counted down or taken as a file name |
| UserPipeParser.OnePass | np_project2/Parser.cpp:61-87 | One turn of the inner loop takes the tokens up to the next plain word behind a `>N`, and nothing else |
| UserPipeParser.SplitSegment | np_project2/Parser.cpp:51-109 | If no `>` takes a `>N` for its file, the loop ends and has inserted the commands of the segment with their marks |
| UserPipeParser.GetCommandList | np_project2/Parser.cpp:5-131 | The scanning loop returns the commands of all segments, without the lone last character, with the marks for the first and the last command |
| UserPipeSplitting.CounterIs | np_project2/Parser.cpp:73-78 | After any number of passes the counter is what is still unread plus what was taken as file names |
| UserPipeSplitting.SplittingEnds | np_project2/Parser.cpp:53-109 | The loop ends if and only if no `>N` stands where a file name is expected |
| UserPipeSplitting.EndlessWitness | np_project2/Parser.cpp:53-109 | With the tokens `>` and `>1` no number of passes ends the loop |
| UserPipeSplitting.Conservation | np_project2/Parser.cpp:61-104 | The arguments of all commands in order are the plain words before the last `>N`, or all of them without one |
| UserPipeSplitting.SplitFor | np_project2/Parser.cpp:53-109 | Over any tokens the loop has this counter after every pass, and ends within `k` passes exactly if the counter says so |
| UserPipeExample.LineMeans | np_project2/Parser.cpp:5-131 | The line of that run is parsed into two commands with a numbered pipe and a user pipe each |
| UserPipeRoundTrip.SegmentItems | np_project2/Parser.cpp:152-165 | The tokens typed for words, `<N`, `>N` and files in any order are read as just these |
| UserPipeRoundTrip.PlainsAre | np_project2/Parser.cpp:79-86 | The arguments are the plain words in their order, whatever stands between them |
| UserPipeRoundTrip.LastInIs | np_project2/Parser.cpp:69-72 | The last `<N` counts, wherever it stands |
| UserPipeRoundTrip.LastOutIs | np_project2/Parser.cpp:73-78 | The last `>N` counts, wherever it stands |
| UserPipeRoundTrip.LastFileIs | np_project2/Parser.cpp:65-68 | The file named last counts, and the earlier one if none is named |
| UserPipeRoundTrip.GroupIs | np_project2/Parser.cpp:61-87 | One command takes the items up to the first word behind a `>N`, and all if there is none |
| UserPipeRoundTrip.SegmentRoundTrip | np_project2/Parser.cpp:53-109 | Several commands written into one segment, each with its words, user pipes and file in any order that has no word behind a `>N`, are split into the same commands, a file name carried on |
| UserPipeRoundTrip.CanBeWritten | np_project2/Parser.cpp:53-109 | All commands that share operator, number and file, and write to a user pipe if they are several, can be written into one segment |
| UserPipeLines.LineRoundTrip | np_project2/Parser.cpp:5-131 | Writing segments of commands, their items in any order, as a line with any blanks and parsing it gives back all the commands |
| UserPipeLines.BlankMatters | np_project2/Parser.cpp:17-50 | A blank behind an operator matters if and only if a single character that is no blank stands between it and the end of the line |
| UserPipeLines.LostWitness | np_project2/Parser.cpp:111-124 | Of a line with `ls`, an operator and a last character `x` right behind it only `ls` is parsed |
| SocksCodec.MaskMeansDomain | np_project4/socks_server.cpp:139-142 | The mask test says whether the first three bytes of the address are zero |
| SocksCodec.PortRoundTrip | np_project4/console.cpp:108-109 | The shifts of the decoder undo the division of the encoder for every port |
| SocksCodec.PortMeans | np_project4/socks_server.cpp:138 | The decoder reads two bytes as 256 times the first plus the second |
| SocksCodec.BytesMean | np_project4/console.cpp:108-109 | The encoder's two bytes are the port with its high byte first: the port is 256 times the first plus the second |
| SocksCodec.SendSocksRequest | np_project4/console.cpp:102-112 | The buffer holds the SOCKS 4A request byte by byte: 4, 1, the port with its high byte first, 0.0.0.1, an empty user id, the host, and zeros behind it |
| SocksCodec.SkipToNul | np_project4/socks_server.cpp:145-152 | The first pointer loop stops at the end of the user id, within the buffer |
| SocksCodec.ReadName | np_project4/socks_server.cpp:153-159 | The second pointer loop returns the bytes up to the next zero |
| SocksCodec.ParseRequest | np_project4/socks_server.cpp:128-168 | A request that does not begin with 4 is not supported; else the command is byte 1, the port 256 times byte 2 plus byte 3, and it is for a domain exactly if bytes 4 to 6 are zero, else for the address in bytes 4 to 7 |
| SocksCodec.DomainMeans | np_project4/socks_server.cpp:145-159 | The domain is what stands between the first two zeros from byte 8 on |
| SocksCodec.DomainRoundTrip | np_project4/socks_server.cpp:142-160 | For every command, port, user id and domain without zeros that fit, the decoder gives back command, port and domain |
| SocksCodec.AddressRoundTrip | np_project4/socks_server.cpp:164-168 | Every address with a nonzero byte among its first three is taken as that address |
| SocksCodec.RoundTrip | np_project4/console.cpp:98-112 | For every 16-bit port and every host without zeros that fits the buffer, the server reads what the client wrote |
| Firewall.CompareIp | np_project4/utils.cpp:109-126 | True if and only if every part of the address equals its part of the mask or that is `*` |
| Firewall.GetAccessMode | np_project4/socks_server.cpp:239-270 | Accepts if and only if some line permits the mode and matches the address, whatever stands behind the first that does |
| Firewall.MaskMatches | np_project4/utils.cpp:109-126 | Comparing dotted strings is the same as comparing bytes |
| Firewall.RulePermits | np_project4/socks_server.cpp:245-266 | The line written for a rule lets an address pass if and only if the rule allows it |
| Firewall.RuleExample | np_project4/socks_server.cpp:245-266 | The line `permit c 140.113.*.*` lets through connects, and no others, to addresses that begin with 140 and 113, and no others |
| Firewall.Agreement | np_project4/socks_server.cpp:239-270 | Over the lines of any list of rules, an address passes if and only if some `permit` rule of its mode matches it byte by byte |
| Firewall.MoreRules | np_project4/socks_server.cpp:239-270 | Adding, reordering or repeating the lines of rules never turns the answer for an address from yes to no |
| Firewall.ReturnPermitsNothing | np_project4/socks_server.cpp:242-265 | The line of a rule followed by a CR lets no address pass |
| Firewall.RepliesMean | np_project4/socks_server.cpp:170-236 | The replies the specification gives are these, byte by byte, in every case |
| Firewall.Answer | np_project4/socks_server.cpp:108-237 | A request the rules do not allow gets one reply, 0x5B and zeros; every reply to one they allow says 0x5A: one for a connect that goes through, one for a bind that listens and a second when somebody connects, with the port it listens on, high byte first; none if a call fails; granted is exactly what the rules allow the decoded destination, never another command |

## Left out

- SemaphoreCalls.System.SemCreate: among others it says only that a caller that waits forever is stuck; who waits when is the subject of WaitsExactly.
- NpServer.Server.UserPipeClear: says nothing about the table once the server has ended itself.
- NpServer.Server.Serve: a connection that finds no free slot is ignored, where the code writes behind its table. Once a command has closed a descriptor that the table still holds, only the next command is decided by what was typed; later it depends on which number the kernel hands out again, and nothing is said.
- NpServer.Server.ClientLogout: says nothing about a server that is no longer intact but that it goes on.
- NpServer.Server.RunCommand: takes the messages of `who`, `tell` and `yell` and all error messages as given; they change nothing in the table.
- SocksCodec.ParseRequest: a request whose strings do not end within the buffer is outside its contract.
- Firewall.Answer: stops where data is relayed; what a name is resolved to, and which calls on the network succeed, are its parameters, and a name that cannot be resolved is outside its contract.
- `select`, sockets, `execvp`, `waitpid`, zombie collection and the search along PATH: input and output of the environment.
- np_project2/np_multi_proc.cpp: signal handlers, shared memory and FIFOs; only its use of the semaphores is reflected in the premises.
- np_project2/np_simple.cpp and np_project2/utils.cpp apart from the pipe vector: they repeat project 1.
- np_project3 and the pages, sessions and escaping of np_project4/console.cpp: asynchronous input and output, and user interface.
- `relaydata` of np_project4/socks_server.cpp: copies bytes both ways, simpler than what is modelled.
- The filter programs `number`, `removetag`, `removetag0` and `noop`: they carry no state.
