/**
 What single steps of the lock protocol do to the process that takes them, whatever fails.
 */
module LockSteps {
  import opened Descriptors
  import opened LockProtocol
  import opened LockSafety

  /** From every state of a run a process inside daemon() can take its next step, or end. */
  lemma DaemonNeverStuck(st: Sys, p: nat)
    requires Inv(st) && p in st.procs
    ensures Enabled(st, Exit(p))
    ensures st.procs[p].pc.Born? ==> Enabled(st, OpenPidFile(p))
    ensures st.procs[p].pc.Waiting? ==> Enabled(st, TryLockFile(p))
    ensures st.procs[p].pc.Locked? ==> Enabled(st, WritePid(p))
    ensures st.procs[p].pc.Written? ==> Enabled(st, OpenNull(p))
    ensures st.procs[p].pc.NullOpen? ==> Enabled(st, DupStdin(p))
    ensures st.procs[p].pc.StdinDone? ==> Enabled(st, DupStdout(p))
    ensures st.procs[p].pc.StdoutDone? ==> Enabled(st, CloseNull(p))
  {
    assert ProcOk(p, st.procs[p]);
  }

  /** The same of a running server, with database calls that fail as well as not. */
  lemma ServerNeverStuck(st: Sys, p: nat, ok: bool)
    requires p in st.procs
    ensures st.procs[p].pc.Ready? ==> Enabled(st, FindHost(p, ok))
    ensures st.procs[p].pc.HostFree? ==> Enabled(st, InsertHost(p, ok))
    ensures st.procs[p].pc.Registered? ==> Enabled(st, RemoveOwnHost(p, ok)) && Enabled(st, UnlinkPidFile(p))
  {
  }

  /** The same of a supervisor. */
  lemma SupervisorNeverStuck(st: Sys, p: nat, child: nat, ok: bool)
    requires p in st.procs && child !in st.procs && child <= PidFile.PID_MAX
    ensures st.procs[p].pc.Resting? ==> Enabled(st, OpenPidFile(p))
    ensures st.procs[p].pc.ProbeOpen? ==> Enabled(st, TryLockFile(p))
    ensures st.procs[p].pc.ProbeTried? ==> Enabled(st, ProbeClose(p))
    ensures st.procs[p].pc.ProbeClosed? ==> Enabled(st, ProbeUnlock(p))
    ensures st.procs[p].pc.NobodyFound? ==> Enabled(st, ProbeFindHost(p, ok))
    ensures st.procs[p].pc.HostStale? ==> Enabled(st, ProbeRemoveHost(p, ok))
    ensures st.procs[p].pc.Launching? ==> Enabled(st, Launch(p, child))
  {
  }

  /** Opening makes an empty file under the path if there is none, and otherwise changes no file. */
  lemma OpenCreates(st: Sys, p: nat)
    requires Inv(st) && Enabled(st, OpenPidFile(p))
    ensures var st' := Step(st, OpenPidFile(p)); var i := st'.procs[p].inode;
            && st'.path.Some? && i == st'.path.value && i in st'.content
            && (st.path.Some? ==> st'.path == st.path && st'.content == st.content)
            && (st.path.None? ==> i !in st.content && st'.content == st.content[i := ""])
  {
  }

  /** Other hosts may do anything to their own records at any moment. */
  lemma OthersAnyTime(st: Sys, records: multiset<string>)
    ensures Enabled(st, OtherHosts(records)) <==> records[st.host] == st.hosts[st.host]
    ensures Enabled(st, OtherHosts(records)) ==> Step(st, OtherHosts(records)) == st.(hosts := records)
  {
  }

  /** A server goes on whatever the database did to its insert; it ends at its lookup exactly when it finds a record. */
  lemma ServerGoesOn(st: Sys, p: nat, ok: bool)
    ensures At(st, p, Ready) ==>
              var st' := Step(st, FindHost(p, ok));
              if ok && st.host in st.hosts then p !in st'.procs else At(st', p, HostFree)
    ensures At(st, p, HostFree) ==> At(Step(st, InsertHost(p, ok)), p, Registered)
    ensures At(st, p, Registered) ==> At(Step(st, RemoveOwnHost(p, ok)), p, Leaving)
  {
  }

  /** A supervisor launches whatever became of its clean-up, and then rests; the server has its descriptors. */
  lemma SupervisorGoesOn(st: Sys, p: nat, child: nat, ok: bool)
    ensures At(st, p, NobodyFound) ==>
              At(Step(st, ProbeFindHost(p, ok)), p, if ok && st.host in st.hosts then HostStale else Launching)
    ensures At(st, p, HostStale) ==> At(Step(st, ProbeRemoveHost(p, ok)), p, Launching)
    ensures Enabled(st, Launch(p, child)) ==>
              var st' := Step(st, Launch(p, child));
              At(st', p, Resting) && At(st', child, Born) && st'.procs[child].fds == st.procs[p].fds
  {
    if Enabled(st, Launch(p, child)) {
      LaunchStep(st, p, child);
    }
  }

  lemma LaunchStep(st: Sys, p: nat, child: nat)
    requires Enabled(st, Launch(p, child))
    ensures var st' := Step(st, Launch(p, child));
            At(st', p, Resting) && At(st', child, Born) && st'.procs[child].fds == st.procs[p].fds
  {
  }

  /** A server whose lookup misses stores a second record of its host. */
  lemma MissedLookupRegisters(st: Sys, p: nat)
    requires At(st, p, Ready) && st.host in st.hosts
    ensures var mid := Step(st, FindHost(p, false));
            && At(mid, p, HostFree)
            && Step(mid, InsertHost(p, true)).hosts[st.host] == st.hosts[st.host] + 1
  {
  }
}
