/**
 Statements over whole runs of the lock protocol: who is past the lock, how many, and who is turned
 away.
 */
module LockRuns {
  import opened Wrappers
  import opened Descriptors
  import opened LockProtocol
  import opened LockSafety

  lemma {:induction false} InvAlways(st: Sys, tr: seq<Event>)
    requires Inv(st) && Possible(st, tr)
    ensures Inv(Run(st, tr))
    decreases |tr|
  {
    if tr != [] {
      InvStep(st, tr[0]);
      InvAlways(Step(st, tr[0]), tr[1..]);
    }
  }

  predicate Running(st: Sys, p: nat) {
    p in st.procs && PastLock(st.procs[p].pc)
  }

  // ----- the processes that do not take a step

  predicate TakenBy(ev: Event, q: nat) {
    !ev.OtherHosts? && ev.p == q
  }

  lemma ServersLeaveOthers(st: Sys, ev: Event, q: nat)
    requires !IsProbeEvent(ev) && !IsDaemonEvent(ev) && Enabled(st, ev) && !TakenBy(ev, q)
    ensures q in Step(st, ev).procs <==> q in st.procs
    ensures q in st.procs ==> Step(st, ev).procs[q] == st.procs[q]
  {
  }

  lemma DaemonsLeaveOthers(st: Sys, ev: Event, q: nat)
    requires IsDaemonEvent(ev) && Enabled(st, ev) && !TakenBy(ev, q)
    ensures q in Step(st, ev).procs <==> q in st.procs
    ensures q in st.procs ==> Step(st, ev).procs[q] == st.procs[q]
  {
  }

  lemma ProbesLeaveOthers(st: Sys, ev: Event, q: nat)
    requires IsProbeEvent(ev) && Enabled(st, ev) && !TakenBy(ev, q)
    ensures q in st.procs ==> q in Step(st, ev).procs && Step(st, ev).procs[q] == st.procs[q]
    ensures q !in st.procs && q in Step(st, ev).procs ==> Step(st, ev).procs[q].pc == Born
  {
  }

  /** A process that does not take the step stays as it is; one that the step creates is a new server. */
  lemma OthersStay(st: Sys, ev: Event, q: nat)
    requires Enabled(st, ev) && !TakenBy(ev, q)
    ensures q in st.procs ==> q in Step(st, ev).procs && Step(st, ev).procs[q] == st.procs[q]
    ensures q !in st.procs && q in Step(st, ev).procs ==> Step(st, ev).procs[q].pc == Born
  {
    if IsProbeEvent(ev) {
      ProbesLeaveOthers(st, ev, q);
    } else if IsDaemonEvent(ev) {
      DaemonsLeaveOthers(st, ev, q);
    } else {
      ServersLeaveOthers(st, ev, q);
    }
  }

  // ----- a process and its file

  /** A step neither gives q the pid file nor takes the lock from it, unless q opens or ends. */
  ghost predicate KeepsStanding(st: Sys, ev: Event, q: nat)
    requires Enabled(st, ev)
  {
    var st' := Step(st, ev);
    && (q in st'.procs && HasFile(st'.procs[q].pc) && ev != OpenPidFile(q) ==>
          q in st.procs && HasFile(st.procs[q].pc) && st'.procs[q].inode == st.procs[q].inode)
    && (Running(st, q) && q in st'.procs ==> Running(st', q) && st'.procs[q].inode == st.procs[q].inode)
  }

  lemma StandingDaemon(st: Sys, ev: Event)
    requires IsDaemonEvent(ev) && Enabled(st, ev)
    ensures KeepsStanding(st, ev, ev.p)
  {
  }

  lemma StandingProbe(st: Sys, ev: Event)
    requires ev.ProbeClose? || ev.ProbeUnlock? || ev.SupervisorStart?
    requires Enabled(st, ev)
    ensures KeepsStanding(st, ev, ev.p)
  {
  }

  lemma StandingLaunch(st: Sys, ev: Event)
    requires ev.Launch?
    requires Enabled(st, ev)
    ensures KeepsStanding(st, ev, ev.p)
  {
  }

  lemma StandingCleanUp(st: Sys, ev: Event)
    requires ev.ProbeFindHost? || ev.ProbeRemoveHost?
    requires Enabled(st, ev)
    ensures KeepsStanding(st, ev, ev.p)
  {
  }

  lemma StandingServer(st: Sys, ev: Event)
    requires !IsProbeEvent(ev) && !IsDaemonEvent(ev) && !ev.OtherHosts? && Enabled(st, ev)
    ensures KeepsStanding(st, ev, ev.p)
  {
  }

  lemma Standing(st: Sys, ev: Event, q: nat)
    requires Enabled(st, ev)
    ensures KeepsStanding(st, ev, q)
  {
    if !TakenBy(ev, q) {
      OthersStay(st, ev, q);
    } else if IsDaemonEvent(ev) {
      StandingDaemon(st, ev);
    } else if ev.ProbeClose? || ev.ProbeUnlock? || ev.SupervisorStart? {
      StandingProbe(st, ev);
    } else if ev.Launch? {
      StandingLaunch(st, ev);
    } else if ev.ProbeFindHost? || ev.ProbeRemoveHost? {
      StandingCleanUp(st, ev);
    } else {
      StandingServer(st, ev);
    }
  }

  lemma BecomesRunning(st: Sys, ev: Event, q: nat)
    requires Inv(st) && Enabled(st, ev) && !Running(st, q) && Running(Step(st, ev), q)
    ensures ev == TryLockFile(q) && At(st, q, Waiting) && st.procs[q].inode !in st.locks
  {
    if !TakenBy(ev, q) {
      OthersStay(st, ev, q);
    } else {
      OnlyTryPasses(st, ev);
    }
  }

  lemma OthersPassNone(st: Sys, ev: Event)
    requires Enabled(st, ev) && !ev.OtherHosts? && !ev.TryLockFile? && Running(Step(st, ev), ev.p)
    ensures Running(st, ev.p)
  {
  }

  lemma OnlyTryPasses(st: Sys, ev: Event)
    requires Inv(st) && Enabled(st, ev) && !ev.OtherHosts? && !Running(st, ev.p) && Running(Step(st, ev), ev.p)
    ensures ev.TryLockFile? && At(st, ev.p, Waiting) && st.procs[ev.p].inode !in st.locks
  {
    if ev.TryLockFile? {
      TryShape(st, ev.p);
    } else {
      OthersPassNone(st, ev);
    }
  }

  lemma TryPasses(st: Sys, q: nat)
    requires Inv(st) && At(st, q, Waiting)
    ensures Running(Step(st, TryLockFile(q)), q) <==> st.procs[q].inode !in st.locks
    ensures q in Step(st, TryLockFile(q)).procs <==> st.procs[q].inode !in st.locks
  {
    TryShape(st, q);
  }

  // ----- one instance

  /** Everyone who opened the pid file opened the file that its path names now. */
  ghost predicate Aligned(st: Sys) {
    forall p :: p in st.procs && HasFile(st.procs[p].pc) ==> st.path == Some(st.procs[p].inode)
  }

  predicate NoUnlink(tr: seq<Event>) {
    forall e :: e in tr ==> !e.UnlinkPidFile?
  }

  lemma PathStep(st: Sys, ev: Event)
    requires Enabled(st, ev) && !ev.UnlinkPidFile?
    ensures st.path.Some? || !ev.OpenPidFile? ==> Step(st, ev).path == st.path
    ensures ev.OpenPidFile? ==> Step(st, ev).path == Some(Step(st, ev).procs[ev.p].inode)
  {
  }

  lemma AlignedStep(st: Sys, ev: Event)
    requires Inv(st) && Enabled(st, ev) && Aligned(st) && !ev.UnlinkPidFile?
    ensures Aligned(Step(st, ev))
  {
    var st' := Step(st, ev);
    PathStep(st, ev);
    forall q | q in st'.procs && HasFile(st'.procs[q].pc) ensures st'.path == Some(st'.procs[q].inode) {
      Standing(st, ev, q);
    }
  }

  lemma {:induction false} AlignedAlways(st: Sys, tr: seq<Event>)
    requires Inv(st) && Aligned(st) && Possible(st, tr) && NoUnlink(tr)
    ensures Aligned(Run(st, tr))
    decreases |tr|
  {
    if tr != [] {
      assert tr[0] in tr && forall e :: e in tr[1..] ==> e in tr;
      InvStep(st, tr[0]);
      AlignedStep(st, tr[0]);
      AlignedAlways(Step(st, tr[0]), tr[1..]);
    }
  }

  /** Two servers past the lock of one file are the same server, whatever happened before. */
  lemma OneServerPerFile(st: Sys, tr: seq<Event>, p: nat, q: nat)
    requires Inv(st) && Possible(st, tr)
    requires Running(Run(st, tr), p) && Running(Run(st, tr), q)
    ensures var end := Run(st, tr); end.procs[p].inode == end.procs[q].inode ==> p == q
    ensures var end := Run(st, tr); end.procs[p].inode in end.locks && end.locks[end.procs[p].inode] == p
  {
    InvAlways(st, tr);
  }

  lemma OneRunning(st: Sys, p: nat, q: nat)
    requires Inv(st) && Aligned(st) && Running(st, p) && Running(st, q)
    ensures p == q
  {
  }

  ghost predicate OneServer(st: Sys) {
    forall p, q :: Running(st, p) && Running(st, q) ==> p == q
  }

  /** A server takes the lock of a file while another one is past the lock of a different file. */
  ghost predicate LocksBeside(st: Sys, ev: Event)
    requires Enabled(st, ev)
  {
    && ev.TryLockFile? && At(st, ev.p, Waiting) && st.procs[ev.p].inode !in st.locks
    && exists p :: Running(st, p) && st.procs[p].inode != st.procs[ev.p].inode
  }

  /** Of the two files at least one is no longer the one that the path names. */
  lemma BesideIsUnlinked(st: Sys, ev: Event)
    requires Inv(st) && Enabled(st, ev) && LocksBeside(st, ev)
    ensures !Aligned(st)
  {
  }

  lemma OneServerStep(st: Sys, ev: Event)
    requires Inv(st) && Enabled(st, ev) && OneServer(st)
    ensures OneServer(Step(st, ev)) <==> !LocksBeside(st, ev)
  {
    var st' := Step(st, ev);
    if LocksBeside(st, ev) {
      var p :| Running(st, p) && st.procs[p].inode != st.procs[ev.p].inode;
      OthersStay(st, ev, p);
      TryPasses(st, ev.p);
      assert Running(st', p) && Running(st', ev.p);
    } else {
      forall p, q | Running(st', p) && Running(st', q) ensures p == q {
        if !Running(st, p) {
          BecomesRunning(st, ev, p);
        }
        if !Running(st, q) {
          BecomesRunning(st, ev, q);
        }
      }
    }
  }

  ghost predicate OneServerThroughout(st: Sys, tr: seq<Event>)
    requires Possible(st, tr)
    decreases |tr|
  {
    OneServer(st) && (tr != [] ==> OneServerThroughout(Step(st, tr[0]), tr[1..]))
  }

  ghost predicate NoneBeside(st: Sys, tr: seq<Event>)
    requires Possible(st, tr)
    decreases |tr|
  {
    tr != [] ==> !LocksBeside(st, tr[0]) && NoneBeside(Step(st, tr[0]), tr[1..])
  }

  /**
   Over every run there is at most one server in every state exactly when no server takes a lock while
   another still runs on a different file, which takes an unlinked file that its server has not left.
   */
  lemma {:induction false} SingleInstanceIff(st: Sys, tr: seq<Event>)
    requires Inv(st) && Possible(st, tr) && OneServer(st)
    ensures OneServerThroughout(st, tr) <==> NoneBeside(st, tr)
    decreases |tr|
  {
    if tr != [] {
      InvStep(st, tr[0]);
      OneServerStep(st, tr[0]);
      if !LocksBeside(st, tr[0]) {
        SingleInstanceIff(Step(st, tr[0]), tr[1..]);
      } else {
        TwoServersNow(Step(st, tr[0]), tr[1..]);
      }
    }
  }

  lemma TwoServersNow(st: Sys, tr: seq<Event>)
    requires Possible(st, tr) && !OneServer(st)
    ensures !OneServerThroughout(st, tr)
  {
  }

  /** As long as nobody unlinks the pid file, at most one server is past the lock in every state. */
  lemma {:induction false} SingleInstance(st: Sys, tr: seq<Event>)
    requires Inv(st) && Aligned(st) && Possible(st, tr) && NoUnlink(tr)
    ensures OneServerThroughout(st, tr)
    decreases |tr|
  {
    if tr != [] {
      assert tr[0] in tr && forall e :: e in tr[1..] ==> e in tr;
      InvStep(st, tr[0]);
      AlignedStep(st, tr[0]);
      SingleInstance(Step(st, tr[0]), tr[1..]);
    }
  }

  ghost predicate NeverGone(st: Sys, tr: seq<Event>, p: nat)
    requires Possible(st, tr)
    decreases |tr|
  {
    p in st.procs && (tr != [] ==> NeverGone(Step(st, tr[0]), tr[1..], p))
  }

  lemma StillRunning(st: Sys, ev: Event, p: nat)
    requires Inv(st) && Enabled(st, ev) && Running(st, p) && p in Step(st, ev).procs
    ensures Running(Step(st, ev), p) && Step(st, ev).procs[p].inode == st.procs[p].inode
  {
    Standing(st, ev, p);
  }

  /** A server that got past the lock owns it in every later state until it ends. */
  lemma {:induction false} LockKeptUntilExit(st: Sys, tr: seq<Event>, p: nat)
    requires Inv(st) && Possible(st, tr) && Running(st, p) && NeverGone(st, tr, p)
    ensures var end := Run(st, tr);
            && Running(end, p) && end.procs[p].inode == st.procs[p].inode
            && st.procs[p].inode in end.locks && end.locks[st.procs[p].inode] == p
    decreases |tr|
  {
    if tr != [] {
      InvStep(st, tr[0]);
      StillRunning(st, tr[0], p);
      LockKeptUntilExit(Step(st, tr[0]), tr[1..], p);
    }
  }

  /** The text of an existing pid file changes only by the write of the process owning its lock. */
  lemma OnlyOwnerWrites(st: Sys, ev: Event, i: nat)
    requires Inv(st) && Enabled(st, ev) && i in st.content
    ensures var st' := Step(st, ev);
            i in st'.content &&
            (st'.content[i] != st.content[i] ==> i in st.locks && ev == WritePid(st.locks[i]))
  {
    if ev.WritePid? {
      assert OwnsLock(st.procs[ev.p].pc);
    } else {
      TextStays(st, ev, i);
    }
  }

  lemma TextStays(st: Sys, ev: Event, i: nat)
    requires Inv(st) && Enabled(st, ev) && !ev.WritePid? && i in st.content
    ensures i in Step(st, ev).content && Step(st, ev).content[i] == st.content[i]
  {
    if IsDaemonEvent(ev) {
      TextStaysInDaemon(st, ev, i);
    }
  }

  lemma TextStaysInDaemon(st: Sys, ev: Event, i: nat)
    requires Inv(st) && Enabled(st, ev) && IsDaemonEvent(ev) && !ev.WritePid? && i in st.content
    ensures i in Step(st, ev).content && Step(st, ev).content[i] == st.content[i]
  {
  }

  /**
   A server that has come through daemon() reads and writes /dev/null on descriptors 0 and 1, still has
   the pid file open on its own descriptor, and has closed the one it opened for /dev/null.
   */
  lemma ServerDescriptors(st: Sys, tr: seq<Event>, p: nat)
    requires Inv(st) && Possible(st, tr) && p in Run(st, tr).procs && PastDaemon(Run(st, tr).procs[p].pc)
    ensures var proc := Run(st, tr).procs[p];
            && STDIN_FILENO in proc.fds && proc.fds[STDIN_FILENO] == DevNull
            && STDOUT_FILENO in proc.fds && proc.fds[STDOUT_FILENO] == DevNull
            && proc.fd in proc.fds && proc.fds[proc.fd] == File.PidFile(proc.inode)
            && (proc.nullFd > STDERR_FILENO ==> proc.nullFd !in proc.fds)
  {
    InvAlways(st, tr);
    assert ProcOk(p, Run(st, tr).procs[p]);
  }

  // ----- who is turned away

  /** Somebody is past the lock of the file. */
  ghost predicate Served(st: Sys, inode: nat) {
    exists p :: Running(st, p) && st.procs[p].inode == inode
  }

  /** A probe holds the lock of the file for the instant between its try and its close. */
  ghost predicate Probed(st: Sys, inode: nat) {
    exists s :: At(st, s, ProbeTried(true)) && st.procs[s].inode == inode
  }

  /** A server at lockf is turned away though nobody serves its file exactly when a probe is in the way. */
  lemma TurnedAwayByProbeIff(st: Sys, q: nat)
    requires Inv(st) && At(st, q, Waiting)
    ensures q !in Step(st, TryLockFile(q)).procs && !Served(st, st.procs[q].inode)
       <==> Probed(st, st.procs[q].inode)
  {
    var i := st.procs[q].inode;
    TryPasses(st, q);
    if i in st.locks {
      assert OwnsLock(st.procs[st.locks[i]].pc);
    }
    if Probed(st, i) {
      var s :| At(st, s, ProbeTried(true)) && st.procs[s].inode == i;
      assert OwnsLock(st.procs[s].pc);
      forall p | Running(st, p) ensures st.procs[p].inode != i {
      }
    }
  }

  /** If the step turns a server away, then because its file is served. */
  ghost predicate HonestRefusal(st: Sys, ev: Event)
    requires Enabled(st, ev)
  {
    ev.TryLockFile? && At(st, ev.p, Waiting) && ev.p !in Step(st, ev).procs ==> Served(st, st.procs[ev.p].inode)
  }

  ghost predicate RefusalsHonest(st: Sys, tr: seq<Event>)
    requires Possible(st, tr)
    decreases |tr|
  {
    tr != [] ==> HonestRefusal(st, tr[0]) && RefusalsHonest(Step(st, tr[0]), tr[1..])
  }

  ghost predicate NoTryDuringProbe(st: Sys, tr: seq<Event>)
    requires Possible(st, tr)
    decreases |tr|
  {
    tr != [] ==>
      && !(tr[0].TryLockFile? && At(st, tr[0].p, Waiting) && Probed(st, st.procs[tr[0].p].inode))
      && NoTryDuringProbe(Step(st, tr[0]), tr[1..])
  }

  /**
   Over every run each server that was turned away met a running server exactly when no server tried
   the lock during the instant of a probe.
   */
  lemma {:induction false} RefusalsHonestIff(st: Sys, tr: seq<Event>)
    requires Inv(st) && Possible(st, tr)
    ensures RefusalsHonest(st, tr) <==> NoTryDuringProbe(st, tr)
    decreases |tr|
  {
    if tr != [] {
      InvStep(st, tr[0]);
      if tr[0].TryLockFile? && At(st, tr[0].p, Waiting) {
        TurnedAwayByProbeIff(st, tr[0].p);
      }
      RefusalsHonestIff(Step(st, tr[0]), tr[1..]);
    }
  }
}
