/**
 Any number of servers and supervisors on one pid file, one system call or database call per
 step: daemon() and write_pid_to_file in each server, check_process_alive and the launch in each
 supervisor, and the host records that both keep.  A lookup that does not reach the database finds
 no record.
 */
module LockProtocol {
  import opened Wrappers
  import opened Descriptors
  import PidFile

  datatype Pc =
    // a server, from the child of daemon()'s fork to its end
    | Born | Waiting | Locked | Written | NullOpen | StdinDone | StdoutDone
    | Ready | HostFree | Registered | Leaving
    // a supervisor, through one turn of its loop
    | Resting | ProbeOpen | ProbeTried(got: bool) | ProbeClosed
    | NobodyFound | HostStale | Launching

  /** `fd` is the descriptor of the pid file, `inode` the file it was opened on. */
  datatype Proc = Proc(pc: Pc, fds: FdTable, fd: nat, inode: nat, nullFd: nat)

  datatype Sys = Sys(
    host: string, procs: map<nat, Proc>, locks: map<nat, nat>,
    path: Option<nat>, next: nat, content: map<nat, string>, hosts: multiset<string>)

  datatype Event =
    | Start(p: nat, fds: FdTable)
    | OpenPidFile(p: nat)
    | TryLockFile(p: nat)
    | WritePid(p: nat)
    | OpenNull(p: nat)
    | DupStdin(p: nat)
    | DupStdout(p: nat)
    | CloseNull(p: nat)
    | FindHost(p: nat, reached: bool)
    | InsertHost(p: nat, ok: bool)
    | RemoveOwnHost(p: nat, ok: bool)
    | UnlinkPidFile(p: nat)
    | SupervisorStart(p: nat, fds: FdTable)
    | ProbeClose(p: nat)
    | ProbeUnlock(p: nat)
    | ProbeFindHost(p: nat, reached: bool)
    | ProbeRemoveHost(p: nat, ok: bool)
    | Launch(p: nat, child: nat)
    | Exit(p: nat)
    | OtherHosts(records: multiset<string>)

  predicate IsProbeEvent(ev: Event) {
    ev.SupervisorStart? || ev.ProbeClose? || ev.ProbeUnlock? || ev.ProbeFindHost? || ev.ProbeRemoveHost?
    || ev.Launch?
  }

  predicate IsDaemonEvent(ev: Event) {
    ev.OpenPidFile? || ev.TryLockFile? || ev.WritePid? || ev.OpenNull? || ev.DupStdin? || ev.DupStdout?
    || ev.CloseNull?
  }

  predicate StdOpen(fds: FdTable) {
    STDIN_FILENO in fds && STDOUT_FILENO in fds
  }

  predicate Fresh(st: Sys, p: nat, fds: FdTable) {
    && p !in st.procs && p <= PidFile.PID_MAX
    && StdOpen(fds) && forall f :: f in fds ==> fds[f].Other?
  }

  predicate At(st: Sys, p: nat, pc: Pc) {
    p in st.procs && st.procs[p].pc == pc
  }

  predicate Enabled(st: Sys, ev: Event) {
    match ev
    case Start(p, fds) => Fresh(st, p, fds)
    case OpenPidFile(p) => At(st, p, Born) || At(st, p, Resting)
    case TryLockFile(p) => At(st, p, Waiting) || At(st, p, ProbeOpen)
    case WritePid(p) => At(st, p, Locked) && st.procs[p].inode in st.content
    case OpenNull(p) => At(st, p, Written)
    case DupStdin(p) => At(st, p, NullOpen) && st.procs[p].nullFd in st.procs[p].fds
    case DupStdout(p) => At(st, p, StdinDone) && st.procs[p].nullFd in st.procs[p].fds
    case CloseNull(p) => At(st, p, StdoutDone)
    case FindHost(p, _) => At(st, p, Ready)
    case InsertHost(p, _) => At(st, p, HostFree)
    case RemoveOwnHost(p, _) => At(st, p, Registered)
    case UnlinkPidFile(p) => At(st, p, Registered)
    case SupervisorStart(p, fds) => Fresh(st, p, fds)
    case ProbeClose(p) => p in st.procs && st.procs[p].pc.ProbeTried?
    case ProbeUnlock(p) => At(st, p, ProbeClosed)
    case ProbeFindHost(p, _) => At(st, p, NobodyFound)
    case ProbeRemoveHost(p, _) => At(st, p, HostStale)
    case Launch(p, child) => At(st, p, Launching) && child !in st.procs && child <= PidFile.PID_MAX
    case Exit(p) => p in st.procs
    case OtherHosts(records) => records[st.host] == st.hosts[st.host]
  }

  function ViewOf(st: Sys, p: nat): View
    requires p in st.procs
  {
    View(p, st.procs[p].fds, st.locks)
  }

  function Put(st: Sys, p: nat, proc: Proc): Sys {
    st.(procs := st.procs[p := proc])
  }

  function Goto(st: Sys, p: nat, pc: Pc): Sys
    requires p in st.procs
  {
    Put(st, p, st.procs[p].(pc := pc))
  }

  /** Process p continues at pc with the descriptors and locks of v. */
  function Continue(st: Sys, p: nat, v: View, pc: Pc): Sys
    requires p in st.procs
  {
    Put(st.(locks := v.locks), p, st.procs[p].(pc := pc, fds := v.fds))
  }

  /** The end of a process closes its descriptors, so its locks go. */
  function Gone(st: Sys, p: nat): Sys {
    st.(procs := st.procs - {p}, locks := map i | i in st.locks && st.locks[i] != p :: st.locks[i])
  }

  function Creating(st: Sys): Sys {
    if st.path.Some? then st
    else st.(path := Some(st.next), content := st.content[st.next := ""], next := st.next + 1)
  }

  function Step(st: Sys, ev: Event): Sys
    requires Enabled(st, ev)
  {
    match ev
    case Start(p, fds) => Put(st, p, Proc(Born, fds, 0, 0, 0))
    case OpenPidFile(p) =>
      var made := Creating(st);
      var proc := st.procs[p];
      var v := Open(ViewOf(st, p), File.PidFile(made.path.value));
      var pc := if proc.pc.Born? then Waiting else ProbeOpen;
      Put(made, p, Proc(pc, v.fds, LowestFree(proc.fds), made.path.value, 0))
    case TryLockFile(p) =>
      var v, fd := ViewOf(st, p), st.procs[p].fd;
      var got := TryLockSucceeds(v, fd);
      if st.procs[p].pc.ProbeOpen? then Continue(st, p, TryLock(v, fd), ProbeTried(got))
      else if got then Continue(st, p, TryLock(v, fd), Locked)
      else Gone(st, p)
    case WritePid(p) =>
      var i := st.procs[p].inode;
      Goto(st.(content := st.content[i := PidFile.Overwrite(st.content[i], PidFile.PidLine(p))]), p, Written)
    case OpenNull(p) =>
      var v := ViewOf(st, p);
      var proc := st.procs[p].(nullFd := LowestFree(v.fds));
      Continue(Put(st, p, proc), p, Open(v, DevNull), NullOpen)
    case DupStdin(p) => Continue(st, p, Dup2(ViewOf(st, p), st.procs[p].nullFd, STDIN_FILENO), StdinDone)
    case DupStdout(p) => Continue(st, p, Dup2(ViewOf(st, p), st.procs[p].nullFd, STDOUT_FILENO), StdoutDone)
    case CloseNull(p) =>
      var v, nullFd := ViewOf(st, p), st.procs[p].nullFd;
      Continue(st, p, if nullFd > STDERR_FILENO then Close(v, nullFd) else v, Ready)
    case FindHost(p, reached) => if reached && st.host in st.hosts then Gone(st, p) else Goto(st, p, HostFree)
    case InsertHost(p, ok) =>
      Goto(st.(hosts := if ok then st.hosts + multiset{st.host} else st.hosts), p, Registered)
    case RemoveOwnHost(p, ok) =>
      Goto(st.(hosts := if ok then st.hosts - multiset{st.host} else st.hosts), p, Leaving)
    case UnlinkPidFile(p) => Goto(st.(path := None), p, Leaving)
    case SupervisorStart(p, fds) => Put(st, p, Proc(Resting, fds, 0, 0, 0))
    case ProbeClose(p) =>
      var pc := if st.procs[p].pc.got then ProbeClosed else Resting;
      Continue(st, p, Close(ViewOf(st, p), st.procs[p].fd), pc)
    case ProbeUnlock(p) => Continue(st, p, Unlock(ViewOf(st, p), st.procs[p].fd), NobodyFound)
    case ProbeFindHost(p, reached) => Goto(st, p, if reached && st.host in st.hosts then HostStale else Launching)
    case ProbeRemoveHost(p, ok) =>
      Goto(st.(hosts := if ok then st.hosts - multiset{st.host} else st.hosts), p, Launching)
    case Launch(p, child) =>
      Put(Goto(st, p, Resting), child, Proc(Born, st.procs[p].fds, 0, 0, 0))
    case Exit(p) => Gone(st, p)
    case OtherHosts(records) => st.(hosts := records)
  }

  ghost predicate Possible(st: Sys, tr: seq<Event>)
    decreases |tr|
  {
    tr == [] || (Enabled(st, tr[0]) && Possible(Step(st, tr[0]), tr[1..]))
  }

  function Run(st: Sys, tr: seq<Event>): Sys
    requires Possible(st, tr)
    decreases |tr|
  {
    if tr == [] then st else Run(Step(st, tr[0]), tr[1..])
  }
}
