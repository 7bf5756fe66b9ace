/**
 Whole schedules of the lock protocol: when a restart succeeds, and what an unlink, a probe in
 flight and a slow supervisor can do.
 */
module LockSchedules {
  import opened Wrappers
  import opened Descriptors
  import opened LockProtocol
  import opened LockSafety
  import opened LockRuns
  import opened LockProbe
  import opened LockText

  lemma {:induction false} RunConcat(st: Sys, a: seq<Event>, b: seq<Event>)
    requires Possible(st, a) && Possible(Run(st, a), b)
    ensures Possible(st, a + b) && Run(st, a + b) == Run(Run(st, a), b)
    decreases |a|
  {
    if a == [] {
      assert a + b == b;
    } else {
      assert (a + b)[0] == a[0] && (a + b)[1..] == a[1..] + b;
      RunConcat(Step(st, a[0]), a[1..], b);
    }
  }

  lemma RunOne(st: Sys, ev: Event)
    requires Enabled(st, ev)
    ensures Possible(st, [ev]) && Run(st, [ev]) == Step(st, ev)
  {
    assert [ev][1..] == [];
    assert Possible(Step(st, ev), []);
  }

  lemma RunSnoc(st: Sys, tr: seq<Event>, ev: Event)
    requires Possible(st, tr) && Enabled(Run(st, tr), ev)
    ensures Possible(st, tr + [ev]) && Run(st, tr + [ev]) == Step(Run(st, tr), ev)
  {
    RunOne(Run(st, tr), ev);
    RunConcat(st, tr, [ev]);
  }

  lemma RunTwo(st: Sys, a: Event, b: Event)
    requires Enabled(st, a) && Enabled(Step(st, a), b)
    ensures Possible(st, [a] + [b]) && Run(st, [a] + [b]) == Step(Step(st, a), b)
  {
    RunOne(st, a);
    RunSnoc(st, [a], b);
  }

  // ----- what the steps of one process leave alone

  /** Only process p differs; the host records and the file's path are the same. */
  ghost predicate OnlyMoved(st: Sys, st': Sys, p: nat) {
    && st'.host == st.host && st'.hosts == st.hosts && st'.path == st.path
    && st'.procs - {p} == st.procs - {p}
  }

  lemma TryMeetsFreeLock(st: Sys, p: nat)
    requires Inv(st) && Enabled(st, TryLockFile(p)) && st.procs[p].inode !in st.locks
    ensures var st' := Step(st, TryLockFile(p));
            && OnlyMoved(st, st', p) && st'.locks == st.locks[st.procs[p].inode := p]
            && At(st', p, if st.procs[p].pc.ProbeOpen? then ProbeTried(true) else Locked)
            && st'.procs[p].inode == st.procs[p].inode
  {
    TryShape(st, p);
  }

  lemma OpenFindsPath(st: Sys, p: nat)
    requires Inv(st) && Enabled(st, OpenPidFile(p))
    requires st.path.Some? ==> st.path.value !in st.locks
    ensures var st' := Step(st, OpenPidFile(p));
            && st'.path == Some(st'.procs[p].inode) && st'.procs[p].inode !in st'.locks
            && st'.host == st.host && st'.hosts == st.hosts && st'.locks == st.locks
            && st'.procs - {p} == st.procs - {p}
            && At(st', p, if st.procs[p].pc.Born? then Waiting else ProbeOpen)
  {
  }

  function NextPc(ev: Event): Pc
    requires ev.WritePid? || ev.OpenNull? || ev.DupStdin? || ev.DupStdout? || ev.CloseNull?
  {
    match ev
    case WritePid(_) => Written
    case OpenNull(_) => NullOpen
    case DupStdin(_) => StdinDone
    case DupStdout(_) => StdoutDone
    case CloseNull(_) => Ready
  }

  lemma DaemonStep(st: Sys, ev: Event)
    requires ev.WritePid? || ev.OpenNull? || ev.DupStdin? || ev.DupStdout? || ev.CloseNull?
    requires Inv(st) && Enabled(st, ev)
    ensures var st' := Step(st, ev);
            && OnlyMoved(st, st', ev.p) && st'.locks == st.locks
            && At(st', ev.p, NextPc(ev)) && st'.procs[ev.p].inode == st.procs[ev.p].inode
  {
    assert ProcOk(ev.p, st.procs[ev.p]);
  }

  /** From the try to the end of daemon(), run without interruption. */
  function DaemonTrace(q: nat): seq<Event> {
    [TryLockFile(q)] + [WritePid(q)] + [OpenNull(q)] + [DupStdin(q)] + [DupStdout(q)] + [CloseNull(q)]
  }

  function PrevPc(ev: Event): Pc
    requires ev.WritePid? || ev.OpenNull? || ev.DupStdin? || ev.DupStdout? || ev.CloseNull?
  {
    match ev
    case WritePid(_) => Locked
    case OpenNull(_) => Written
    case DupStdin(_) => NullOpen
    case DupStdout(_) => StdinDone
    case CloseNull(_) => StdoutDone
  }

  /** The run has brought q, which alone moved, past the lock of file i to pc. */
  ghost predicate Reached(st: Sys, tr: seq<Event>, q: nat, pc: Pc, i: nat) {
    Possible(st, tr) &&
    var end := Run(st, tr);
    Inv(end) && OnlyMoved(st, end, q) && At(end, q, pc) && end.procs[q].inode == i && end.locks == st.locks[i := q]
  }

  lemma DaemonStepRun(st: Sys, tr: seq<Event>, ev: Event, i: nat)
    requires ev.WritePid? || ev.OpenNull? || ev.DupStdin? || ev.DupStdout? || ev.CloseNull?
    requires Reached(st, tr, ev.p, PrevPc(ev), i)
    ensures Reached(st, tr + [ev], ev.p, NextPc(ev), i)
  {
    var mid := Run(st, tr);
    assert ProcOk(ev.p, mid.procs[ev.p]) && KnownFile(mid, i);
    RunSnoc(st, tr, ev);
    DaemonStep(mid, ev);
    InvStep(mid, ev);
  }

  lemma DaemonRuns(st: Sys, q: nat)
    requires Inv(st) && At(st, q, Waiting) && st.procs[q].inode !in st.locks
    ensures Reached(st, DaemonTrace(q), q, Ready, st.procs[q].inode)
  {
    var i := st.procs[q].inode;
    DaemonLocks(st, q);
    DaemonStepRun(st, [TryLockFile(q)], WritePid(q), i);
    DaemonStepRun(st, [TryLockFile(q)] + [WritePid(q)], OpenNull(q), i);
    DaemonStepRun(st, [TryLockFile(q)] + [WritePid(q)] + [OpenNull(q)], DupStdin(q), i);
    DaemonStepRun(st, [TryLockFile(q)] + [WritePid(q)] + [OpenNull(q)] + [DupStdin(q)], DupStdout(q), i);
    DaemonStepRun(st, [TryLockFile(q)] + [WritePid(q)] + [OpenNull(q)] + [DupStdin(q)] + [DupStdout(q)],
                  CloseNull(q), i);
  }

  lemma DaemonLocks(st: Sys, q: nat)
    requires Inv(st) && At(st, q, Waiting) && st.procs[q].inode !in st.locks
    ensures Reached(st, [TryLockFile(q)], q, Locked, st.procs[q].inode)
  {
    TryMeetsFreeLock(st, q);
    InvStep(st, TryLockFile(q));
    RunOne(st, TryLockFile(q));
  }

  // ----- the start

  /** A host on which nothing has run yet meets every condition that the statements here start from. */
  lemma FirstStartIsSafe(host: string, hosts: multiset<string>)
    ensures var st := Sys(host, map[], map[], None, 0, map[], hosts);
            Inv(st) && Aligned(st) && FileNamesRunning(st) && forall p :: !At(st, p, HostFree) && !Cleared(st, p)
  {
  }

  // ----- after an unlink

  /** Only process q is new or has moved, and it stands at pc with a file that nobody has locked. */
  ghost predicate Arrived(st: Sys, tr: seq<Event>, q: nat, pc: Pc) {
    Possible(st, tr) &&
    var end := Run(st, tr);
    && Inv(end) && At(end, q, pc) && end.procs - {q} == st.procs - {q}
    && end.locks == st.locks && (HasFile(pc) ==> end.procs[q].inode !in end.locks)
    && (pc.Born? ==> end.path == st.path)
  }

  lemma NewcomerStarts(st: Sys, q: nat, fds: FdTable)
    requires Inv(st) && Fresh(st, q, fds)
    ensures Arrived(st, [Start(q, fds)], q, Born)
  {
    InvStep(st, Start(q, fds));
    RunOne(st, Start(q, fds));
    assert Step(st, Start(q, fds)).procs - {q} == st.procs - {q};
  }

  lemma NewcomerOpens(st: Sys, tr: seq<Event>, q: nat)
    requires Arrived(st, tr, q, Born) && (st.path.Some? ==> st.path.value !in st.locks)
    ensures Arrived(st, tr + [OpenPidFile(q)], q, Waiting)
  {
    InvStep(Run(st, tr), OpenPidFile(q));
    OpenFindsPath(Run(st, tr), q);
    RunSnoc(st, tr, OpenPidFile(q));
  }

  lemma NewcomerPasses(st: Sys, tr: seq<Event>, q: nat)
    requires Arrived(st, tr, q, Waiting)
    ensures Possible(st, tr + [TryLockFile(q)])
    ensures var end := Run(st, tr + [TryLockFile(q)]); Running(end, q) && end.procs - {q} == st.procs - {q}
  {
    TryMeetsFreeLock(Run(st, tr), q);
    RunSnoc(st, tr, TryLockFile(q));
  }

  lemma NewcomerLocks(st: Sys, q: nat, fds: FdTable)
    requires Inv(st) && Fresh(st, q, fds) && (st.path.Some? ==> st.path.value !in st.locks)
    ensures var tr := [Start(q, fds)] + [OpenPidFile(q)] + [TryLockFile(q)];
            Possible(st, tr) && Running(Run(st, tr), q) && Run(st, tr).procs - {q} == st.procs - {q}
  {
    NewcomerStarts(st, q, fds);
    NewcomerOpens(st, [Start(q, fds)], q);
    NewcomerPasses(st, [Start(q, fds)] + [OpenPidFile(q)], q);
  }

  /**
   A server that unlinks the pid file is still past the lock on the old file, so the next server to
   start makes a new file, locks it, and runs beside it.
   */
  lemma UnlinkAdmitsSecond(st: Sys, p: nat, q: nat, fds: FdTable)
    requires Inv(st) && At(st, p, Registered) && Fresh(st, q, fds)
    ensures var tr := [UnlinkPidFile(p)] + ([Start(q, fds)] + [OpenPidFile(q)] + [TryLockFile(q)]);
            Possible(st, tr) && p != q && Running(Run(st, tr), p) && Running(Run(st, tr), q)
  {
    var st1 := Step(st, UnlinkPidFile(p));
    InvStep(st, UnlinkPidFile(p));
    NewcomerLocks(st1, q, fds);
    RunOne(st, UnlinkPidFile(p));
    var tr := [Start(q, fds)] + [OpenPidFile(q)] + [TryLockFile(q)];
    RunConcat(st, [UnlinkPidFile(p)], tr);
    assert p in st1.procs - {q} && (Run(st1, tr).procs - {q})[p] == st1.procs[p];
  }

  // ----- a probe in flight

  /** While a probe holds the lock for an instant, a server that tries it exits though none runs. */
  lemma ProbeTurnsServerAway(st: Sys, s: nat, q: nat)
    requires Inv(st) && At(st, s, ProbeOpen) && At(st, q, Waiting)
    requires st.procs[s].inode == st.procs[q].inode && st.procs[q].inode !in st.locks
    ensures var tr := [TryLockFile(s)] + [TryLockFile(q)];
            && Possible(st, tr) && q !in Run(st, tr).procs
            && forall p :: Running(st, p) ==> st.procs[p].inode != st.procs[q].inode
  {
    var st1 := Step(st, TryLockFile(s));
    assert ProcOk(s, st.procs[s]) && ProcOk(q, st.procs[q]);
    RunOne(st, TryLockFile(s));
    RunSnoc(st, [TryLockFile(s)], TryLockFile(q));
  }

  // ----- a restart, without interruption

  /** Supervisor s alone moved, found the lock free and stands at pc with these host records. */
  ghost predicate SupervisedAt(st: Sys, end: Sys, s: nat, pc: Pc, hosts: multiset<string>) {
    && Inv(end) && At(end, s, pc) && end.host == st.host && end.hosts == hosts
    && end.procs - {s} == st.procs - {s}
    && end.path.Some? && end.path.value !in st.locks
    && (if OwnsLock(pc) then end.locks == st.locks[end.procs[s].inode := s] else end.locks == st.locks)
    && (HasFile(pc) ==> end.procs[s].inode == end.path.value)
  }

  ghost predicate Supervised(st: Sys, tr: seq<Event>, s: nat, pc: Pc, hosts: multiset<string>) {
    Possible(st, tr) && SupervisedAt(st, Run(st, tr), s, pc, hosts)
  }

  lemma ProbeOpens(st: Sys, s: nat)
    requires Inv(st) && At(st, s, Resting) && (st.path.Some? ==> st.path.value !in st.locks)
    ensures Supervised(st, [OpenPidFile(s)], s, ProbeOpen, st.hosts)
  {
    InvStep(st, OpenPidFile(s));
    OpenFindsPath(st, s);
    RunOne(st, OpenPidFile(s));
  }

  /** A step of s alone, told by what it leaves. */
  lemma SupervisedMove(st: Sys, mid: Sys, next: Sys, s: nat, pc: Pc, pc': Pc)
    requires SupervisedAt(st, mid, s, pc, st.hosts) && Inv(next) && OnlyMoved(mid, next, s) && At(next, s, pc')
    requires if OwnsLock(pc') then next.locks == st.locks[next.procs[s].inode := s] else next.locks == st.locks
    requires HasFile(pc') ==> next.procs[s].inode == mid.path.value
    ensures SupervisedAt(st, next, s, pc', st.hosts)
  {
  }

  lemma TryStep(st: Sys, mid: Sys, s: nat)
    requires SupervisedAt(st, mid, s, ProbeOpen, st.hosts)
    ensures SupervisedAt(st, Step(mid, TryLockFile(s)), s, ProbeTried(true), st.hosts)
  {
    InvStep(mid, TryLockFile(s));
    TryMeetsFreeLock(mid, s);
    SupervisedMove(st, mid, Step(mid, TryLockFile(s)), s, ProbeOpen, ProbeTried(true));
  }

  lemma CloseShape(st: Sys, s: nat)
    requires Inv(st) && At(st, s, ProbeTried(true))
    ensures Enabled(st, ProbeClose(s)) && Inv(Step(st, ProbeClose(s)))
    ensures var st' := Step(st, ProbeClose(s));
            && OnlyMoved(st, st', s) && At(st', s, ProbeClosed) && st'.locks == st.locks - {st.procs[s].inode}
  {
    InvStep(st, ProbeClose(s));
    assert ProcOk(s, st.procs[s]);
    ProbeClosesItsFile(s, st.procs[s], st.locks, ProbeClosed);
  }

  lemma CloseStep(st: Sys, mid: Sys, s: nat)
    requires SupervisedAt(st, mid, s, ProbeTried(true), st.hosts)
    ensures Enabled(mid, ProbeClose(s))
    ensures SupervisedAt(st, Step(mid, ProbeClose(s)), s, ProbeClosed, st.hosts)
  {
    CloseShape(mid, s);
    var i := mid.procs[s].inode;
    assert mid.locks == st.locks[i := s] && mid.locks - {i} == st.locks;
    SupervisedMove(st, mid, Step(mid, ProbeClose(s)), s, ProbeTried(true), ProbeClosed);
  }

  lemma UnlockShape(st: Sys, s: nat)
    requires Inv(st) && At(st, s, ProbeClosed)
    ensures Inv(Step(st, ProbeUnlock(s)))
    ensures var st' := Step(st, ProbeUnlock(s));
            OnlyMoved(st, st', s) && At(st', s, NobodyFound) && st'.locks == st.locks
  {
    InvProbeUnlock(st, s);
  }

  lemma UnlockStep(st: Sys, mid: Sys, s: nat)
    requires SupervisedAt(st, mid, s, ProbeClosed, st.hosts)
    ensures SupervisedAt(st, Step(mid, ProbeUnlock(s)), s, NobodyFound, st.hosts)
  {
    UnlockShape(mid, s);
    SupervisedMove(st, mid, Step(mid, ProbeUnlock(s)), s, ProbeClosed, NobodyFound);
  }

  lemma LookStep(st: Sys, mid: Sys, s: nat)
    requires SupervisedAt(st, mid, s, NobodyFound, st.hosts)
    ensures var pc := if st.host in st.hosts then HostStale else Launching;
            SupervisedAt(st, Step(mid, ProbeFindHost(s, true)), s, pc, st.hosts)
  {
    InvStep(mid, ProbeFindHost(s, true));
  }

  lemma CleanShape(st: Sys, s: nat)
    requires Inv(st) && At(st, s, HostStale)
    ensures Inv(Step(st, ProbeRemoveHost(s, true)))
    ensures Step(st, ProbeRemoveHost(s, true)) == Goto(st, s, Launching).(hosts := st.hosts - multiset{st.host})
  {
    InvProbeRemoveHost(st, s, true);
  }

  lemma CleanStep(st: Sys, mid: Sys, s: nat)
    requires SupervisedAt(st, mid, s, HostStale, st.hosts)
    ensures SupervisedAt(st, Step(mid, ProbeRemoveHost(s, true)), s, Launching, st.hosts - multiset{st.host})
  {
    CleanShape(mid, s);
  }

  lemma ProbeTries(st: Sys, tr: seq<Event>, s: nat)
    requires Supervised(st, tr, s, ProbeOpen, st.hosts)
    ensures Supervised(st, tr + [TryLockFile(s)], s, ProbeTried(true), st.hosts)
  {
    TryStep(st, Run(st, tr), s);
    RunSnoc(st, tr, TryLockFile(s));
  }

  lemma ProbeCloses(st: Sys, tr: seq<Event>, s: nat)
    requires Supervised(st, tr, s, ProbeTried(true), st.hosts)
    ensures Supervised(st, tr + [ProbeClose(s)], s, ProbeClosed, st.hosts)
  {
    CloseStep(st, Run(st, tr), s);
    RunSnoc(st, tr, ProbeClose(s));
  }

  lemma ProbeUnlocks(st: Sys, tr: seq<Event>, s: nat)
    requires Supervised(st, tr, s, ProbeClosed, st.hosts)
    ensures Supervised(st, tr + [ProbeUnlock(s)], s, NobodyFound, st.hosts)
  {
    UnlockStep(st, Run(st, tr), s);
    RunSnoc(st, tr, ProbeUnlock(s));
  }

  lemma ProbeLooksUp(st: Sys, tr: seq<Event>, s: nat)
    requires Supervised(st, tr, s, NobodyFound, st.hosts)
    ensures var pc := if st.host in st.hosts then HostStale else Launching;
            Supervised(st, tr + [ProbeFindHost(s, true)], s, pc, st.hosts)
  {
    LookStep(st, Run(st, tr), s);
    RunSnoc(st, tr, ProbeFindHost(s, true));
  }

  lemma ProbeCleans(st: Sys, tr: seq<Event>, s: nat)
    requires Supervised(st, tr, s, HostStale, st.hosts)
    ensures Supervised(st, tr + [ProbeRemoveHost(s, true)], s, Launching, st.hosts - multiset{st.host})
  {
    CleanStep(st, Run(st, tr), s);
    RunSnoc(st, tr, ProbeRemoveHost(s, true));
  }

  function ProbeTrace(s: nat, stale: bool): seq<Event> {
    var look := [OpenPidFile(s)] + [TryLockFile(s)] + [ProbeClose(s)] + [ProbeUnlock(s)] + [ProbeFindHost(s, true)];
    if stale then look + [ProbeRemoveHost(s, true)] else look
  }

  lemma ProbeLocks(st: Sys, s: nat)
    requires Inv(st) && At(st, s, Resting) && (st.path.Some? ==> st.path.value !in st.locks)
    ensures Supervised(st, [OpenPidFile(s)] + [TryLockFile(s)] + [ProbeClose(s)], s, ProbeClosed, st.hosts)
  {
    ProbeOpens(st, s);
    ProbeTries(st, [OpenPidFile(s)], s);
    ProbeCloses(st, [OpenPidFile(s)] + [TryLockFile(s)], s);
  }

  lemma ProbeLooks(st: Sys, s: nat)
    requires Inv(st) && At(st, s, Resting) && (st.path.Some? ==> st.path.value !in st.locks)
    ensures Supervised(st, ProbeTrace(s, false), s, if st.host in st.hosts then HostStale else Launching, st.hosts)
  {
    ProbeLocks(st, s);
    ProbeUnlocks(st, [OpenPidFile(s)] + [TryLockFile(s)] + [ProbeClose(s)], s);
    ProbeLooksUp(st, [OpenPidFile(s)] + [TryLockFile(s)] + [ProbeClose(s)] + [ProbeUnlock(s)], s);
  }

  lemma ProbeRuns(st: Sys, s: nat)
    requires Inv(st) && At(st, s, Resting) && (st.path.Some? ==> st.path.value !in st.locks)
    ensures Supervised(st, ProbeTrace(s, st.host in st.hosts), s, Launching, st.hosts - multiset{st.host})
  {
    ProbeLooks(st, s);
    if st.host in st.hosts {
      ProbeCleans(st, ProbeTrace(s, false), s);
    } else {
      assert st.hosts - multiset{st.host} == st.hosts;
    }
  }

  /** The launched server up to its look at the host records. */
  function ServerTrace(s: nat, c: nat): seq<Event> {
    [Launch(s, c)] + [OpenPidFile(c)] + DaemonTrace(c)
  }

  lemma ServerRuns(st: Sys, s: nat, c: nat)
    requires Inv(st) && Enabled(st, Launch(s, c)) && st.path.Some? && st.path.value !in st.locks
    ensures Possible(st, ServerTrace(s, c)) && Inv(Run(st, ServerTrace(s, c)))
    ensures var end := Run(st, ServerTrace(s, c));
            At(end, c, Ready) && end.host == st.host && end.hosts == st.hosts
  {
    var st1 := Step(st, Launch(s, c));
    var st2 := Step(st1, OpenPidFile(c));
    InvStep(st, Launch(s, c));
    InvStep(st1, OpenPidFile(c));
    OpenFindsPath(st1, c);
    RunOne(st, Launch(s, c));
    RunSnoc(st, [Launch(s, c)], OpenPidFile(c));
    DaemonRuns(st2, c);
    RunConcat(st, [Launch(s, c)] + [OpenPidFile(c)], DaemonTrace(c));
  }

  /** A whole turn: probe, clean-up, launch, and the new server up to its duplicate check. */
  function TurnTrace(st: Sys, s: nat, c: nat): seq<Event> {
    ProbeTrace(s, st.host in st.hosts) + ServerTrace(s, c)
  }

  /** From the launch on, whatever the probe was. */
  lemma TurnRuns(st: Sys, probe: seq<Event>, s: nat, c: nat, hosts: multiset<string>)
    requires Supervised(st, probe, s, Launching, hosts) && c !in st.procs && c != s && c <= PidFile.PID_MAX
    ensures Possible(st, probe + ServerTrace(s, c))
    ensures var end := Run(st, probe + ServerTrace(s, c));
            At(end, c, Ready) && end.host == st.host && end.hosts == hosts
  {
    var mid := Run(st, probe);
    assert c !in st.procs - {s} && c !in mid.procs - {s};
    ServerRuns(mid, s, c);
    RunConcat(st, probe, ServerTrace(s, c));
  }

  lemma DuplicateCheck(st: Sys, tr: seq<Event>, c: nat)
    requires Inv(st) && FileNamesRunning(st) && Possible(st, tr) && At(Run(st, tr), c, Ready)
    ensures Possible(st, tr + [FindHost(c, true)])
    ensures var ready, end := Run(st, tr), Run(st, tr + [FindHost(c, true)]);
            && (c in end.procs <==> ready.hosts[ready.host] == 0)
            && (c in end.procs ==> At(end, c, HostFree) && end.hosts == ready.hosts
                                   && Names(end, end.procs[c].inode, Some(c)))
  {
    RunningServerIsNamed(st, tr);
    assert PastWrite(Run(st, tr), c);
    RunSnoc(st, tr, FindHost(c, true));
  }

  /**
   A supervisor that finds nobody restarts the service: probe, clean-up and launch, run without
   interruption, bring the new server past the lock and past its duplicate check, with the pid file
   naming it, exactly when at most one record of this host was left behind.  With two or more the
   server exits.
   */
  lemma RestartSucceedsIff(st: Sys, s: nat, c: nat)
    requires Inv(st) && FileNamesRunning(st) && At(st, s, Resting)
    requires (st.path.Some? ==> st.path.value !in st.locks) && c !in st.procs && c <= PidFile.PID_MAX
    ensures Possible(st, TurnTrace(st, s, c) + [FindHost(c, true)])
    ensures var end := Run(st, TurnTrace(st, s, c) + [FindHost(c, true)]);
            && (c in end.procs <==> st.hosts[st.host] <= 1)
            && (c in end.procs ==> At(end, c, HostFree) && end.hosts[st.host] == 0
                                   && Names(end, end.procs[c].inode, Some(c)))
  {
    var probe := ProbeTrace(s, st.host in st.hosts);
    ProbeRuns(st, s);
    TurnRuns(st, probe, s, c, st.hosts - multiset{st.host});
    DuplicateCheck(st, probe + ServerTrace(s, c), c);
  }

  // ----- a slow supervisor

  lemma RegisterStep(st: Sys, q: nat)
    requires At(st, q, Ready) && st.host !in st.hosts
    ensures var free := Step(st, FindHost(q, true));
            && free == Goto(st, q, HostFree)
            && Step(free, InsertHost(q, true)) == Goto(free, q, Registered).(hosts := st.hosts + multiset{st.host})
  {
  }

  lemma Registers(st: Sys, s: nat, q: nat)
    requires Inv(st) && At(st, s, ProbeClosed) && At(st, q, Ready) && st.host !in st.hosts
    ensures var tr := [FindHost(q, true)] + [InsertHost(q, true)];
            && Possible(st, tr) && At(Run(st, tr), q, Registered) && At(Run(st, tr), s, ProbeClosed)
            && Run(st, tr).hosts == st.hosts + multiset{st.host} && Run(st, tr).host == st.host
  {
    RegisterStep(st, q);
    RunTwo(st, FindHost(q, true), InsertHost(q, true));
  }

  lemma CleansUp(st: Sys, s: nat, q: nat)
    requires At(st, s, NobodyFound) && At(st, q, Registered) && st.host in st.hosts
    ensures var tr := [ProbeFindHost(s, true)] + [ProbeRemoveHost(s, true)];
            && Possible(st, tr) && At(Run(st, tr), q, Registered)
            && Run(st, tr).hosts == st.hosts - multiset{st.host} && Run(st, tr).host == st.host
  {
    assert Step(st, ProbeFindHost(s, true)) == Goto(st, s, HostStale);
    RunTwo(st, ProbeFindHost(s, true), ProbeRemoveHost(s, true));
  }

  function LateCleanUp(s: nat, q: nat): seq<Event> {
    [FindHost(q, true)] + [InsertHost(q, true)] + [ProbeUnlock(s)]
      + ([ProbeFindHost(s, true)] + [ProbeRemoveHost(s, true)])
  }

  lemma RegistersThenCleaned(st: Sys, s: nat, q: nat)
    requires Inv(st) && At(st, s, ProbeClosed) && At(st, q, Ready) && st.host !in st.hosts
    ensures Possible(st, LateCleanUp(s, q))
    ensures var end := Run(st, LateCleanUp(s, q));
            At(end, q, Registered) && end.host == st.host && st.host !in end.hosts
  {
    var register := [FindHost(q, true)] + [InsertHost(q, true)];
    Registers(st, s, q);
    RunSnoc(st, register, ProbeUnlock(s));
    CleansUp(Run(st, register + [ProbeUnlock(s)]), s, q);
    RunConcat(st, register + [ProbeUnlock(s)], [ProbeFindHost(s, true)] + [ProbeRemoveHost(s, true)]);
  }

  /**
   The probe and the clean-up are not one step: a server that starts by other means between them
   registers, and the clean-up then takes the record of that running server away.
   */
  lemma LiveRecordRemoved(st: Sys, s: nat, q: nat)
    requires Inv(st) && At(st, s, ProbeClosed) && At(st, q, Waiting) && st.host !in st.hosts
    requires st.procs[q].inode !in st.locks
    ensures Possible(st, DaemonTrace(q) + LateCleanUp(s, q))
    ensures var end := Run(st, DaemonTrace(q) + LateCleanUp(s, q)); Running(end, q) && st.host !in end.hosts
  {
    DaemonRuns(st, q);
    var mid := Run(st, DaemonTrace(q));
    assert s in st.procs - {q} && (mid.procs - {q})[s] == (st.procs - {q})[s];
    RegistersThenCleaned(mid, s, q);
    RunConcat(st, DaemonTrace(q), LateCleanUp(s, q));
  }
}
