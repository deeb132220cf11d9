/** The descriptors of a process, and the kernel's calls on them. */
module Descriptors {
  /**
   What a descriptor refers to: the terminal, the null device, a file, a client's connection, an end of a
   pipe. Connections and pipes have an identity of their own.
   */
  datatype End = Std | Null | File(name: string) | Socket(conn: nat) | ReadEnd(obj: nat) | WriteEnd(obj: nat)

  type Fds = map<int, End>

  predicate IsPipeEnd(e: End) {
    e.ReadEnd? || e.WriteEnd?
  }

  method CloseFd(t: Fds, fd: int) returns (t': Fds, ok: bool)
    ensures ok == (fd in t) && t' == t - {fd}
  {
    ok, t' := fd in t, t - {fd};
  }

  method Dup2(t: Fds, from: int, to: int) returns (t': Fds, ok: bool)
    ensures ok == (from in t) && t' == if ok then t[to := t[from]] else t
  {
    ok := from in t;
    t' := if ok then t[to := t[from]] else t;
  }

  /** A descriptor that is closed and opened again for the same end. */
  lemma PutBack(t: Fds, fd: int)
    requires fd in t
    ensures (t - {fd})[fd := t[fd]] == t
  {
  }

  lemma {:induction false} CountUpTo(open: set<int>, n: nat)
    requires forall k :: 0 <= k < n ==> k in open
    ensures |open| >= n
  {
    if n > 0 {
      CountUpTo(open - {n - 1}, n - 1);
    }
  }

  /** The kernel hands out the lowest descriptor that is not open. */
  method LowestFree(t: Fds) returns (fd: nat)
    ensures fd !in t
  {
    fd := 0;
    while fd in t
      invariant forall k :: 0 <= k < fd ==> k in t.Keys
      decreases |t.Keys| - fd
    {
      fd := fd + 1;
      CountUpTo(t.Keys, fd);
    }
  }

  /** A process can see the end of the pipe it reads: it has no write end of that pipe itself. */
  predicate SeesEnd(t: Fds) {
    0 in t && (t[0].ReadEnd? ==> forall fd :: fd in t ==> t[fd] != WriteEnd(t[0].obj))
  }

  /** Descriptors 0, 1 and 2 are the terminal's. */
  predicate Terminal(fds: Fds) {
    0 in fds && 1 in fds && 2 in fds && fds[0] == fds[1] == fds[2] == Std
  }
}
