/**
 What every step of the lock protocol keeps: the descriptors of each process, the files it knows, and
 the agreement of the lock table with what the processes are doing.
 */
module LockSafety {
  import opened Wrappers
  import opened Descriptors
  import opened LockProtocol

  /** The server passed lockf and has not ended. */
  predicate PastLock(pc: Pc) {
    pc.Locked? || pc.Written? || pc.NullOpen? || pc.StdinDone? || pc.StdoutDone?
    || pc.Ready? || pc.HostFree? || pc.Registered? || pc.Leaving?
  }

  predicate HasFile(pc: Pc) {
    PastLock(pc) || pc.Waiting? || pc.ProbeOpen? || pc.ProbeTried?
  }

  predicate OwnsLock(pc: Pc) {
    PastLock(pc) || pc == ProbeTried(true)
  }

  /** daemon() has returned. */
  predicate PastDaemon(pc: Pc) {
    pc.Ready? || pc.HostFree? || pc.Registered? || pc.Leaving?
  }

  predicate OutputDone(pc: Pc) {
    PastDaemon(pc) || pc.StdoutDone?
  }

  predicate InputDone(pc: Pc) {
    OutputDone(pc) || pc.StdinDone?
  }

  predicate Redirecting(pc: Pc) {
    pc.NullOpen? || pc.StdinDone? || pc.StdoutDone?
  }

  /** One process: no pid file on descriptors 0 and 1, and none but its own anywhere. */
  ghost predicate ProcOk(p: nat, proc: Proc) {
    && p <= PidFile.PID_MAX
    && StdOpen(proc.fds)
    && (forall f :: f in proc.fds && proc.fds[f].PidFile? ==> f == proc.fd && HasFile(proc.pc))
    && (HasFile(proc.pc) ==>
          proc.fd > STDOUT_FILENO && proc.fd in proc.fds && proc.fds[proc.fd] == File.PidFile(proc.inode))
    && (Redirecting(proc.pc) ==>
          proc.nullFd > STDOUT_FILENO && proc.nullFd in proc.fds && proc.fds[proc.nullFd].DevNull?)
    && (InputDone(proc.pc) ==> proc.fds[STDIN_FILENO].DevNull?)
    && (OutputDone(proc.pc) ==> proc.fds[STDOUT_FILENO].DevNull?)
    && (PastDaemon(proc.pc) ==> proc.nullFd <= STDERR_FILENO || proc.nullFd !in proc.fds)
  }

  predicate KnownFile(st: Sys, i: nat) {
    i < st.next && i in st.content
  }

  ghost predicate ProcsOk(st: Sys) {
    && (forall p :: p in st.procs ==> ProcOk(p, st.procs[p]))
    && (forall p :: p in st.procs && HasFile(st.procs[p].pc) ==> KnownFile(st, st.procs[p].inode))
    && (st.path.Some? ==> KnownFile(st, st.path.value))
    && (forall i :: i in st.content ==> i < st.next)
  }

  /** Being past lockf and being in the lock table are the same thing. */
  ghost predicate LocksOk(st: Sys) {
    && (forall p :: p in st.procs && OwnsLock(st.procs[p].pc)
          ==> st.procs[p].inode in st.locks && st.locks[st.procs[p].inode] == p)
    && (forall i :: i in st.locks ==>
          && st.locks[i] in st.procs && st.procs[st.locks[i]].inode == i
          && OwnsLock(st.procs[st.locks[i]].pc))
  }

  ghost predicate Inv(st: Sys) {
    ProcsOk(st) && LocksOk(st)
  }

  // ----- the ways a step changes the state

  lemma InvSame(st: Sys, p: nat, proc: Proc)
    requires Inv(st) && ProcOk(p, proc)
    requires HasFile(proc.pc) ==> KnownFile(st, proc.inode)
    requires OwnsLock(proc.pc) <==> p in st.procs && OwnsLock(st.procs[p].pc)
    requires OwnsLock(proc.pc) ==> proc.inode == st.procs[p].inode
    ensures Inv(Put(st, p, proc))
  {
  }

  lemma ProcsPut(st: Sys, locks: map<nat, nat>, p: nat, proc: Proc)
    requires ProcsOk(st) && ProcOk(p, proc) && (HasFile(proc.pc) ==> KnownFile(st, proc.inode))
    ensures ProcsOk(Put(st.(locks := locks), p, proc))
  {
  }

  lemma LocksTake(st: Sys, p: nat, proc: Proc)
    requires LocksOk(st) && p in st.procs && !OwnsLock(st.procs[p].pc)
    requires OwnsLock(proc.pc) && proc.inode !in st.locks
    ensures LocksOk(Put(st.(locks := st.locks[proc.inode := p]), p, proc))
  {
  }

  lemma InvTake(st: Sys, p: nat, proc: Proc)
    requires Inv(st) && ProcOk(p, proc) && p in st.procs && !OwnsLock(st.procs[p].pc)
    requires OwnsLock(proc.pc) && KnownFile(st, proc.inode) && proc.inode !in st.locks
    ensures Inv(Put(st.(locks := st.locks[proc.inode := p]), p, proc))
  {
    ProcsPut(st, st.locks[proc.inode := p], p, proc);
    LocksTake(st, p, proc);
  }

  lemma InvDrop(st: Sys, p: nat, proc: Proc)
    requires Inv(st) && ProcOk(p, proc) && p in st.procs && OwnsLock(st.procs[p].pc)
    requires !HasFile(proc.pc)
    ensures Inv(Put(st.(locks := st.locks - {st.procs[p].inode}), p, proc))
  {
  }

  lemma InvGone(st: Sys, p: nat)
    requires Inv(st) && p in st.procs
    ensures Inv(Gone(st, p))
  {
    ProcsGone(st, p);
    LocksGone(st, p);
  }

  lemma ProcsGone(st: Sys, p: nat)
    requires ProcsOk(st) && p in st.procs
    ensures ProcsOk(Gone(st, p))
  {
  }

  lemma LocksGone(st: Sys, p: nat)
    requires LocksOk(st) && p in st.procs
    ensures LocksOk(Gone(st, p))
  {
  }

  lemma InvWorld(st: Sys, path: Option<nat>, next: nat, content: map<nat, string>, hosts: multiset<string>)
    requires Inv(st) && st.next <= next && st.content.Keys <= content.Keys
    requires path.Some? ==> path.value < next && path.value in content
    requires forall i :: i in content ==> i < next
    ensures Inv(st.(path := path, next := next, content := content, hosts := hosts))
  {
  }

  // ----- the steps

  /** A new descriptor is never 0 or 1. */
  lemma OpenedIsOk(p: nat, proc: Proc, locks: map<nat, nat>, i: nat, pc: Pc)
    requires ProcOk(p, proc) && !HasFile(proc.pc) && (pc.Waiting? || pc.ProbeOpen?)
    ensures ProcOk(p, Proc(pc, Open(View(p, proc.fds, locks), File.PidFile(i)).fds, LowestFree(proc.fds), i, 0))
  {
  }

  lemma CreatingIsOk(st: Sys)
    requires Inv(st)
    ensures Inv(Creating(st)) && Creating(st).path.Some?
  {
    var made := Creating(st);
    InvWorld(st, made.path, made.next, made.content, made.hosts);
  }

  lemma InvOpen(st: Sys, p: nat)
    requires Inv(st) && Enabled(st, OpenPidFile(p))
    ensures Inv(Step(st, OpenPidFile(p)))
  {
    CreatingIsOk(st);
    var made, proc := Creating(st), st.procs[p];
    var i, pc := made.path.value, if proc.pc.Born? then Waiting else ProbeOpen;
    assert ProcOk(p, proc);
    OpenedIsOk(p, proc, st.locks, i, pc);
    InvSame(made, p, Proc(pc, Open(ViewOf(st, p), File.PidFile(i)).fds, LowestFree(proc.fds), i, 0));
  }

  /** What a try comes to, by whether somebody owns the lock. */
  lemma TryShape(st: Sys, p: nat)
    requires Inv(st) && Enabled(st, TryLockFile(p))
    ensures var proc, st' := st.procs[p], Step(st, TryLockFile(p));
            if proc.inode !in st.locks then
              st' == Put(st.(locks := st.locks[proc.inode := p]), p,
                         proc.(pc := if proc.pc.ProbeOpen? then ProbeTried(true) else Locked))
            else if proc.pc.ProbeOpen? then st' == Put(st, p, proc.(pc := ProbeTried(false)))
            else st' == Gone(st, p)
  {
    assert ProcOk(p, st.procs[p]);
  }

  lemma InvTryFree(st: Sys, p: nat, pc: Pc)
    requires Inv(st) && p in st.procs && (st.procs[p].pc.ProbeOpen? || st.procs[p].pc.Waiting?)
    requires st.procs[p].inode !in st.locks && (pc.Locked? || pc == ProbeTried(true))
    ensures Inv(Put(st.(locks := st.locks[st.procs[p].inode := p]), p, st.procs[p].(pc := pc)))
  {
    assert ProcOk(p, st.procs[p]) && KnownFile(st, st.procs[p].inode);
    InvTake(st, p, st.procs[p].(pc := pc));
  }

  lemma InvTryHeld(st: Sys, p: nat)
    requires Inv(st) && At(st, p, ProbeOpen)
    ensures Inv(Put(st, p, st.procs[p].(pc := ProbeTried(false))))
  {
    assert ProcOk(p, st.procs[p]) && KnownFile(st, st.procs[p].inode);
    InvSame(st, p, st.procs[p].(pc := ProbeTried(false)));
  }

  lemma InvTry(st: Sys, p: nat)
    requires Inv(st) && Enabled(st, TryLockFile(p))
    ensures Inv(Step(st, TryLockFile(p)))
  {
    TryShape(st, p);
    var proc := st.procs[p];
    if proc.inode !in st.locks {
      InvTryFree(st, p, if proc.pc.ProbeOpen? then ProbeTried(true) else Locked);
    } else if proc.pc.ProbeOpen? {
      InvTryHeld(st, p);
    } else {
      InvGone(st, p);
    }
  }

  /** A dup2 of the null descriptor onto 0 or 1 never meets the pid file. */
  lemma DupKeepsPidFile(p: nat, proc: Proc, locks: map<nat, nat>, to: nat, pc: Pc)
    requires ProcOk(p, proc)
    requires (to == STDIN_FILENO && proc.pc.NullOpen? && pc.StdinDone?)
          || (to == STDOUT_FILENO && proc.pc.StdinDone? && pc.StdoutDone?)
    ensures var v := Dup2(View(p, proc.fds, locks), proc.nullFd, to);
            v.locks == locks && ProcOk(p, proc.(pc := pc, fds := v.fds))
  {
  }

  lemma InvDup(st: Sys, ev: Event)
    requires ev.DupStdin? || ev.DupStdout?
    requires Inv(st) && Enabled(st, ev)
    ensures Inv(Step(st, ev))
  {
    var st', proc := Step(st, ev), st.procs[ev.p];
    var to := if ev.DupStdin? then STDIN_FILENO else STDOUT_FILENO;
    DupKeepsPidFile(ev.p, proc, st.locks, to, st'.procs[ev.p].pc);
    InvSame(st, ev.p, st'.procs[ev.p]);
  }

  lemma NullIsOk(p: nat, proc: Proc, locks: map<nat, nat>)
    requires ProcOk(p, proc) && PastLock(proc.pc)
    ensures var fd := LowestFree(proc.fds);
            ProcOk(p, proc.(pc := NullOpen, nullFd := fd, fds := Open(View(p, proc.fds, locks), DevNull).fds))
    ensures proc.pc.StdoutDone? ==>
              var v := Close(View(p, proc.fds, locks), proc.nullFd);
              v.locks == locks && ProcOk(p, proc.(pc := Ready, fds := v.fds))
  {
  }

  lemma InvNull(st: Sys, p: nat)
    requires Inv(st) && Enabled(st, OpenNull(p))
    ensures Inv(Step(st, OpenNull(p)))
  {
    NullIsOk(p, st.procs[p], st.locks);
    var proc := st.procs[p].(nullFd := LowestFree(st.procs[p].fds));
    InvSame(st, p, proc.(pc := NullOpen, fds := Open(ViewOf(st, p), DevNull).fds));
    assert Step(st, OpenNull(p)) == Put(st, p, proc.(pc := NullOpen, fds := Open(ViewOf(st, p), DevNull).fds));
  }

  lemma InvCloseNull(st: Sys, p: nat)
    requires Inv(st) && Enabled(st, CloseNull(p))
    ensures Inv(Step(st, CloseNull(p)))
  {
    NullIsOk(p, st.procs[p], st.locks);
    InvSame(st, p, Step(st, CloseNull(p)).procs[p]);
  }

  lemma ProbeClosesItsFile(p: nat, proc: Proc, locks: map<nat, nat>, pc: Pc)
    requires ProcOk(p, proc) && proc.pc.ProbeTried? && !HasFile(pc)
    requires OwnsLock(proc.pc) <==> proc.inode in locks && locks[proc.inode] == p
    ensures var v := Close(View(p, proc.fds, locks), proc.fd);
            && v.locks == (if OwnsLock(proc.pc) then locks - {proc.inode} else locks)
            && ProcOk(p, proc.(pc := pc, fds := v.fds))
  {
  }

  lemma InvProbeClose(st: Sys, p: nat)
    requires Inv(st) && Enabled(st, ProbeClose(p))
    ensures Inv(Step(st, ProbeClose(p)))
  {
    var proc, proc' := st.procs[p], Step(st, ProbeClose(p)).procs[p];
    ProbeClosesItsFile(p, proc, st.locks, proc'.pc);
    if OwnsLock(proc.pc) {
      InvDrop(st, p, proc');
    } else {
      InvSame(st, p, proc');
    }
  }

  /** The unlock of the probe finds its descriptor already closed. */
  lemma InvProbeUnlock(st: Sys, p: nat)
    requires Inv(st) && Enabled(st, ProbeUnlock(p))
    ensures Inv(Step(st, ProbeUnlock(p))) && Step(st, ProbeUnlock(p)).locks == st.locks
  {
    var proc := st.procs[p];
    assert ProcOk(p, proc);
    assert Unlock(ViewOf(st, p), proc.fd) == ViewOf(st, p);
    InvSame(st, p, proc.(pc := NobodyFound));
  }

  lemma InvRest(st: Sys, p: nat)
    requires Inv(st) && At(st, p, Launching)
    ensures Inv(Goto(st, p, Resting))
  {
    assert ProcOk(p, st.procs[p]);
    InvSame(st, p, st.procs[p].(pc := Resting));
  }

  /** The child starts with its parent's descriptors, none of which is a pid file. */
  lemma ChildIsOk(st: Sys, p: nat, child: nat)
    requires Inv(st) && At(st, p, Launching) && child <= PidFile.PID_MAX
    ensures ProcOk(child, Proc(Born, st.procs[p].fds, 0, 0, 0))
  {
    assert ProcOk(p, st.procs[p]);
  }

  lemma InvLaunch(st: Sys, p: nat, child: nat)
    requires Inv(st) && Enabled(st, Launch(p, child))
    ensures Inv(Step(st, Launch(p, child)))
  {
    InvRest(st, p);
    ChildIsOk(st, p, child);
    InvSame(Goto(st, p, Resting), child, Proc(Born, st.procs[p].fds, 0, 0, 0));
  }

  lemma InvStart(st: Sys, ev: Event)
    requires ev.Start? || ev.SupervisorStart?
    requires Inv(st) && Enabled(st, ev)
    ensures Inv(Step(st, ev))
  {
    InvSame(st, ev.p, Step(st, ev).procs[ev.p]);
  }

  /** A step of p on the file's text, its name or the host records. */
  lemma InvRecords(st: Sys, st': Sys, p: nat, pc: Pc)
    requires Inv(st) && p in st.procs
    requires HasFile(pc) <==> HasFile(st.procs[p].pc)
    requires OwnsLock(pc) <==> OwnsLock(st.procs[p].pc)
    requires Redirecting(pc) ==> Redirecting(st.procs[p].pc)
    requires InputDone(pc) ==> PastDaemon(pc) && PastDaemon(st.procs[p].pc)
    requires st' == Goto(st, p, pc).(path := st'.path, content := st'.content, hosts := st'.hosts)
    requires st.content.Keys == st'.content.Keys
    requires st'.path.Some? ==> st'.path == st.path
    ensures Inv(st')
  {
    assert ProcOk(p, st.procs[p]);
    InvSame(st, p, st.procs[p].(pc := pc));
    InvWorld(Goto(st, p, pc), st'.path, st.next, st'.content, st'.hosts);
  }

  lemma InvDaemon(st: Sys, ev: Event)
    requires IsDaemonEvent(ev) && Inv(st) && Enabled(st, ev)
    ensures Inv(Step(st, ev))
  {
    match ev
    case OpenPidFile(p) => InvOpen(st, p);
    case TryLockFile(p) => InvTry(st, p);
    case WritePid(_) => InvFile(st, ev);
    case OpenNull(p) => InvNull(st, p);
    case CloseNull(p) => InvCloseNull(st, p);
    case _ => InvDup(st, ev);
  }

  lemma InvProbe(st: Sys, ev: Event)
    requires IsProbeEvent(ev) && Inv(st) && Enabled(st, ev)
    ensures Inv(Step(st, ev))
  {
    match ev
    case SupervisorStart(_, _) => InvStart(st, ev);
    case ProbeClose(p) => InvProbeClose(st, p);
    case ProbeUnlock(p) => InvProbeUnlock(st, p);
    case Launch(p, child) => InvLaunch(st, p, child);
    case ProbeFindHost(p, reached) => InvProbeFindHost(st, p, reached);
    case ProbeRemoveHost(p, ok) => InvProbeRemoveHost(st, p, ok);
  }

  lemma InvServer(st: Sys, ev: Event)
    requires !IsDaemonEvent(ev) && !IsProbeEvent(ev) && Inv(st) && Enabled(st, ev)
    ensures Inv(Step(st, ev))
  {
    match ev
    case Start(_, _) => InvStart(st, ev);
    case FindHost(p, reached) => InvFindHost(st, p, reached);
    case UnlinkPidFile(_) => InvFile(st, ev);
    case Exit(p) => InvExit(st, p);
    case OtherHosts(records) => InvOtherHosts(st, records);
    case _ => InvHost(st, ev);
  }

  lemma InvStep(st: Sys, ev: Event)
    requires Inv(st) && Enabled(st, ev)
    ensures Inv(Step(st, ev))
  {
    if IsDaemonEvent(ev) {
      InvDaemon(st, ev);
    } else if IsProbeEvent(ev) {
      InvProbe(st, ev);
    } else {
      InvServer(st, ev);
    }
  }

  lemma InvExit(st: Sys, p: nat)
    requires Inv(st) && Enabled(st, Exit(p))
    ensures Inv(Step(st, Exit(p)))
  {
    InvGone(st, p);
  }

  lemma InvOtherHosts(st: Sys, records: multiset<string>)
    requires Inv(st) && Enabled(st, OtherHosts(records))
    ensures Inv(Step(st, OtherHosts(records)))
  {
    InvWorld(st, st.path, st.next, st.content, records);
  }

  lemma InvFile(st: Sys, ev: Event)
    requires ev.WritePid? || ev.UnlinkPidFile?
    requires Inv(st) && Enabled(st, ev)
    ensures Inv(Step(st, ev))
  {
    InvRecords(st, Step(st, ev), ev.p, if ev.WritePid? then Written else Leaving);
  }

  lemma InvFindHost(st: Sys, p: nat, reached: bool)
    requires Inv(st) && Enabled(st, FindHost(p, reached))
    ensures Inv(Step(st, FindHost(p, reached)))
  {
    if reached && st.host in st.hosts {
      InvGone(st, p);
    } else {
      InvRecords(st, Step(st, FindHost(p, reached)), p, HostFree);
    }
  }

  lemma InvHost(st: Sys, ev: Event)
    requires ev.InsertHost? || ev.RemoveOwnHost?
    requires Inv(st) && Enabled(st, ev)
    ensures Inv(Step(st, ev))
  {
    InvRecords(st, Step(st, ev), ev.p, if ev.InsertHost? then Registered else Leaving);
  }

  lemma InvProbeFindHost(st: Sys, p: nat, reached: bool)
    requires Inv(st) && Enabled(st, ProbeFindHost(p, reached))
    ensures Inv(Step(st, ProbeFindHost(p, reached)))
  {
    InvRecords(st, Step(st, ProbeFindHost(p, reached)), p,
               if reached && st.host in st.hosts then HostStale else Launching);
  }

  lemma InvProbeRemoveHost(st: Sys, p: nat, ok: bool)
    requires Inv(st) && Enabled(st, ProbeRemoveHost(p, ok))
    ensures Inv(Step(st, ProbeRemoveHost(p, ok)))
  {
    InvRecords(st, Step(st, ProbeRemoveHost(p, ok)), p, Launching);
  }
}
