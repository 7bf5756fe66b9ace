/**
 File descriptors and the whole-file record lock of lockf(), as one process sees them
 (POSIX.1-2017, System Interfaces, section 3: open, close, dup2, lockf).

 A lock belongs to a process and a file; closing any descriptor of that file drops it.
 */
module Descriptors {
  datatype File = PidFile(inode: nat) | DevNull | Other

  type FdTable = map<nat, File>

  /** The lowest number that no open descriptor has, counting from n. */
  function LowestFreeFrom(used: set<nat>, n: nat): (r: nat)
    ensures n <= r && r !in used
    ensures forall k :: n <= k < r ==> k in used
    decreases |used|
  {
    if n !in used then n
    else
      var r := LowestFreeFrom(used - {n}, n + 1);
      assert forall k :: n <= k < r ==> k in used by {
        forall k | n < k < r ensures k in used { assert k in used - {n}; }
      }
      r
  }

  function LowestFree(fds: FdTable): (r: nat)
    ensures r !in fds && forall k :: 0 <= k < r ==> k in fds
  {
    LowestFreeFrom(fds.Keys, 0)
  }

  /** The descriptors of process `self`, and the lock table it shares with everyone. */
  datatype View = View(self: nat, fds: FdTable, locks: map<nat, nat>)

  predicate Owns(v: View, inode: nat) {
    inode in v.locks && v.locks[inode] == v.self
  }

  predicate HeldByOther(v: View, inode: nat) {
    inode in v.locks && v.locks[inode] != v.self
  }

  function Open(v: View, f: File): View {
    v.(fds := v.fds[LowestFree(v.fds) := f])
  }

  /** Closing a number that is not open changes nothing (EBADF). */
  function Close(v: View, fd: nat): View {
    if fd !in v.fds then v
    else if v.fds[fd].PidFile? && Owns(v, v.fds[fd].inode) then
      v.(fds := v.fds - {fd}, locks := v.locks - {v.fds[fd].inode})
    else v.(fds := v.fds - {fd})
  }

  function Dup2(v: View, from: nat, to: nat): View
    requires from in v.fds
  {
    if from == to then v
    else
      var closed := Close(v, to);
      closed.(fds := closed.fds[to := v.fds[from]])
  }

  /** lockf(fd, F_TLOCK, 0) fails exactly when another process has the lock. */
  function TryLock(v: View, fd: nat): View {
    if fd in v.fds && v.fds[fd].PidFile? && !HeldByOther(v, v.fds[fd].inode)
    then v.(locks := v.locks[v.fds[fd].inode := v.self])
    else v
  }

  predicate TryLockSucceeds(v: View, fd: nat) {
    fd in v.fds && (v.fds[fd].PidFile? ==> !HeldByOther(v, v.fds[fd].inode))
  }

  /** lockf(fd, F_ULOCK, 0); on a closed descriptor it only reports EBADF. */
  function Unlock(v: View, fd: nat): View {
    if fd in v.fds && v.fds[fd].PidFile? && Owns(v, v.fds[fd].inode)
    then v.(locks := v.locks - {v.fds[fd].inode})
    else v
  }

  /**
   The rules of the standard: a try on an open pid file fails, and then changes nothing, exactly when
   another process has the lock, and otherwise gives or leaves it; an unlock and a close give up the
   process's own lock on that file and nobody else's.
   */
  lemma LockRules(v: View, fd: nat, inode: nat)
    requires fd in v.fds && v.fds[fd] == PidFile(inode)
    ensures TryLockSucceeds(v, fd) <==> inode !in v.locks || v.locks[inode] == v.self
    ensures TryLock(v, fd).locks == if TryLockSucceeds(v, fd) then v.locks[inode := v.self] else v.locks
    ensures var left := if inode in v.locks && v.locks[inode] == v.self then v.locks - {inode} else v.locks;
            Unlock(v, fd) == v.(locks := left) && Close(v, fd) == v.(fds := v.fds - {fd}, locks := left)
  {
  }

  const STDIN_FILENO: nat := 0
  const STDOUT_FILENO: nat := 1
  const STDERR_FILENO: nat := 2

  /** The redirection at the end of daemon(): /dev/null onto descriptors 0 and 1. */
  function Redirect(v: View): View {
    var fd := LowestFree(v.fds);
    var withNull := Open(v, DevNull);
    var in0 := Dup2(withNull, fd, STDIN_FILENO);
    var out1 := Dup2(in0, fd, STDOUT_FILENO);
    if fd > STDERR_FILENO then Close(out1, fd) else out1
  }

  /**
   What the descriptors are after it: 0 and 1 are /dev/null, the third one that was opened for that is
   closed again, and everything else is as it was; only where 2 was the lowest free one it stays, as
   /dev/null, too.
   */
  lemma RedirectedFiles(v: View)
    ensures Redirect(v).fds ==
            if STDIN_FILENO in v.fds && STDOUT_FILENO in v.fds && STDERR_FILENO !in v.fds
            then v.fds[STDIN_FILENO := DevNull][STDOUT_FILENO := DevNull][STDERR_FILENO := DevNull]
            else v.fds[STDIN_FILENO := DevNull][STDOUT_FILENO := DevNull]
  {
    var fd := LowestFree(v.fds);
    if fd > STDERR_FILENO {
      assert v.fds[fd := DevNull][STDIN_FILENO := DevNull][STDOUT_FILENO := DevNull] - {fd}
          == v.fds[STDIN_FILENO := DevNull][STDOUT_FILENO := DevNull];
    }
  }

  /** Opening the pid file and locking it, then redirecting: the descriptor work of daemon(). */
  function LockAndRedirect(v: View, inode: nat): View {
    Redirect(TryLock(Open(v, PidFile(inode)), LowestFree(v.fds)))
  }

  /**
   A daemon that got the lock still has it after its redirection exactly when descriptors 0 and 1
   were open when it started: otherwise the pid file sits on one of them and dup2 closes it.
   */
  lemma LockSurvivesRedirect(v: View, inode: nat)
    requires forall fd :: fd in v.fds ==> v.fds[fd].Other?
    requires !HeldByOther(v, inode)
    ensures Owns(LockAndRedirect(v, inode), inode) <==> STDIN_FILENO in v.fds && STDOUT_FILENO in v.fds
    ensures LockAndRedirect(v, inode).locks - {inode} == v.locks - {inode}
  {
    var m := LowestFree(v.fds);
    var locked := TryLock(Open(v, PidFile(inode)), m);
    var fd := LowestFree(locked.fds);
    assert fd > m;
    var withNull := Open(locked, DevNull);
    var in0 := Dup2(withNull, fd, STDIN_FILENO);
    var out1 := Dup2(in0, fd, STDOUT_FILENO);
    if m == STDIN_FILENO {
      assert !Owns(in0, inode);
    } else if m == STDOUT_FILENO {
      assert Owns(in0, inode) && !Owns(out1, inode);
    } else {
      assert Owns(out1, inode) && out1.fds[fd].DevNull?;
    }
  }

  /** Open, try, close, and an unlock and a close that come too late: the calls of the probe. */
  function ProbeCalls(v: View, inode: nat): View {
    var m_fd := LowestFree(v.fds);
    var tried := TryLock(Open(v, PidFile(inode)), m_fd);
    var closed := Close(tried, m_fd);
    if TryLockSucceeds(Open(v, PidFile(inode)), m_fd) then Close(Unlock(closed, m_fd), m_fd) else Close(closed, m_fd)
  }

  /**
   A probe leaves every descriptor as it was, and the lock table as it was exactly when the
   prober did not own the lock itself.
   */
  lemma ProbeRestores(v: View, inode: nat)
    ensures ProbeCalls(v, inode).fds == v.fds
    ensures ProbeCalls(v, inode).locks == v.locks <==> !Owns(v, inode)
    ensures TryLockSucceeds(Open(v, PidFile(inode)), LowestFree(v.fds)) <==> !HeldByOther(v, inode)
  {
    var m_fd := LowestFree(v.fds);
    var tried := TryLock(Open(v, PidFile(inode)), m_fd);
    assert tried.fds - {m_fd} == v.fds;
    if inode !in v.locks {
      assert tried.locks - {inode} == v.locks;
    }
  }
}
