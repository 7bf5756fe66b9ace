/**
 The supervisor's probe among the steps of other processes, and the launches that follow it.
 */
module LockProbe {
  import opened LockProtocol
  import opened LockSafety
  import opened LockRuns

  // ----- the probe

  predicate Without(tr: seq<Event>, p: nat) {
    forall e :: e in tr ==> !TakenBy(e, p)
  }

  lemma {:induction false} Waits(st: Sys, tr: seq<Event>, p: nat)
    requires Possible(st, tr) && Without(tr, p) && p in st.procs
    ensures p in Run(st, tr).procs && Run(st, tr).procs[p] == st.procs[p]
    decreases |tr|
  {
    if tr != [] {
      assert tr[0] in tr && forall e :: e in tr[1..] ==> e in tr;
      OthersStay(st, tr[0], p);
      Waits(Step(st, tr[0]), tr[1..], p);
    }
  }

  lemma ProbeCloseShape(st: Sys, p: nat)
    requires Inv(st) && Enabled(st, ProbeClose(p))
    ensures var got, i := st.procs[p].pc.got, st.procs[p].inode;
            && Step(st, ProbeClose(p)).locks == (if got then st.locks - {i} else st.locks)
            && At(Step(st, ProbeClose(p)), p, if got then ProbeClosed else Resting)
            && (got ==> i in st.locks && st.locks[i] == p)
  {
    var proc := st.procs[p];
    assert ProcOk(p, proc);
    ProbeClosesItsFile(p, proc, st.locks, if proc.pc.got then ProbeClosed else Resting);
  }

  lemma ProbeTries(st: Sys, p: nat)
    requires Inv(st) && At(st, p, ProbeOpen)
    ensures var i, tried := st.procs[p].inode, Step(st, TryLockFile(p));
            && At(tried, p, ProbeTried(i !in st.locks)) && tried.procs[p].inode == i && Inv(tried)
            && tried.locks == (if i !in st.locks then st.locks[i := p] else st.locks)
  {
    TryShape(st, p);
    InvStep(st, TryLockFile(p));
  }

  lemma ProbeReturns(st: Sys, p: nat, got: bool, tr: seq<Event>)
    requires Inv(st) && At(st, p, ProbeTried(got)) && Possible(st, tr) && Without(tr, p)
    ensures var i, end := st.procs[p].inode, Run(st, tr);
            && Enabled(end, ProbeClose(p)) && (got ==> i in end.locks && end.locks[i] == p)
            && var closed := Step(end, ProbeClose(p));
            && closed.locks == (if got then end.locks - {i} else end.locks)
            && (At(closed, p, ProbeClosed) <==> got)
  {
    InvAlways(st, tr);
    Waits(st, tr, p);
    ProbeCloseShape(Run(st, tr), p);
  }

  /**
   The probe, with any steps of other processes between its try and its close.  It got the lock
   exactly when nobody held the one on the file it opened at the instant of its try; the lock is then
   its own all the while and its close gives up that one and no other, and if it did not get it the
   close changes nothing.  It goes on to answer "nobody" exactly when it got the lock.
   */
  lemma ProbeIsExact(st: Sys, p: nat, tr: seq<Event>)
    requires Inv(st) && At(st, p, ProbeOpen)
    requires Possible(Step(st, TryLockFile(p)), tr) && Without(tr, p)
    ensures var free, tried := st.procs[p].inode !in st.locks, Step(st, TryLockFile(p));
            At(tried, p, ProbeTried(free))
            && tried.locks == (if free then st.locks[st.procs[p].inode := p] else st.locks)
    ensures var i, end := st.procs[p].inode, Run(Step(st, TryLockFile(p)), tr);
            && Enabled(end, ProbeClose(p)) && (i !in st.locks ==> i in end.locks && end.locks[i] == p)
            && var closed := Step(end, ProbeClose(p));
            && closed.locks == (if i !in st.locks then end.locks - {i} else end.locks)
            && (At(closed, p, ProbeClosed) <==> i !in st.locks)
  {
    ProbeTries(st, p);
    ProbeReturns(Step(st, TryLockFile(p)), p, st.procs[p].inode !in st.locks, tr);
  }

  /** Alone, the probe leaves the lock table as it found it. */
  lemma ProbeAloneRestores(st: Sys, p: nat)
    requires Inv(st) && At(st, p, ProbeOpen)
    ensures var tried := Step(st, TryLockFile(p));
            Enabled(tried, ProbeClose(p)) && Step(tried, ProbeClose(p)).locks == st.locks
  {
    var i := st.procs[p].inode;
    ProbeIsExact(st, p, []);
    if i !in st.locks {
      assert st.locks[i := p] - {i} == st.locks;
    }
  }

  // ----- the launch

  /** After a probe that found nobody, and before the launch that it leads to. */
  predicate Cleared(st: Sys, p: nat) {
    p in st.procs &&
    (st.procs[p].pc == ProbeTried(true) || st.procs[p].pc.ProbeClosed? || st.procs[p].pc.NobodyFound?
     || st.procs[p].pc.HostStale? || st.procs[p].pc.Launching?)
  }

  /** Of a supervisor's own steps only a try that meets a free lock clears it, and its launch ends that. */
  lemma ClearedByDaemonStep(st: Sys, ev: Event)
    requires IsDaemonEvent(ev) && Inv(st) && Enabled(st, ev)
    requires Cleared(Step(st, ev), ev.p) && !Cleared(st, ev.p)
    ensures ev.TryLockFile? && At(st, ev.p, ProbeOpen) && st.procs[ev.p].inode !in st.locks
  {
    if ev.TryLockFile? {
      TryShape(st, ev.p);
    }
  }

  lemma ClearedByProbeStep(st: Sys, ev: Event)
    requires IsProbeEvent(ev) && Enabled(st, ev) && Cleared(Step(st, ev), ev.p)
    ensures Cleared(st, ev.p) && !ev.Launch?
  {
  }

  lemma ClearedByServerStep(st: Sys, ev: Event)
    requires !IsProbeEvent(ev) && !IsDaemonEvent(ev) && !ev.OtherHosts? && Enabled(st, ev)
    ensures !Cleared(Step(st, ev), ev.p)
  {
  }

  lemma ClearedStep(st: Sys, ev: Event, p: nat)
    requires Inv(st) && Enabled(st, ev) && Cleared(Step(st, ev), p)
    ensures !(ev.Launch? && ev.p == p)
    ensures !Cleared(st, p) ==> ev == TryLockFile(p) && At(st, p, ProbeOpen) && st.procs[p].inode !in st.locks
  {
    if !TakenBy(ev, p) {
      OthersStay(st, ev, p);
    } else if IsProbeEvent(ev) {
      ClearedByProbeStep(st, ev);
    } else if IsDaemonEvent(ev) {
      if !Cleared(st, p) {
        ClearedByDaemonStep(st, ev);
      }
    } else {
      ClearedByServerStep(st, ev);
    }
  }

  lemma {:induction false} PrefixRun(st: Sys, tr: seq<Event>, k: nat)
    requires Possible(st, tr) && k < |tr|
    ensures Possible(st, tr[..k]) && Possible(st, tr[..k + 1])
    ensures Enabled(Run(st, tr[..k]), tr[k]) && Run(st, tr[..k + 1]) == Step(Run(st, tr[..k]), tr[k])
    decreases k
  {
    assert tr[..k + 1][0] == tr[0] && tr[..k + 1][1..] == tr[1..][..k];
    if k > 0 {
      PrefixRun(Step(st, tr[0]), tr[1..], k - 1);
      assert tr[..k][0] == tr[0] && tr[..k][1..] == tr[1..][..k - 1];
    }
  }

  /** Event j of the run is a try by supervisor p that met a free lock. */
  ghost predicate FreeProbe(st: Sys, tr: seq<Event>, j: nat, p: nat) {
    && j < |tr| && tr[j] == TryLockFile(p) && Possible(st, tr[..j])
    && At(Run(st, tr[..j]), p, ProbeOpen)
    && Run(st, tr[..j]).procs[p].inode !in Run(st, tr[..j]).locks
  }

  predicate NoLaunchBetween(tr: seq<Event>, j: nat, k: nat, p: nat)
    requires k <= |tr|
  {
    forall m :: j < m < k ==> !(tr[m].Launch? && tr[m].p == p)
  }

  lemma ClearedLast(st: Sys, tr: seq<Event>, k: nat, p: nat)
    requires Inv(st) && Possible(st, tr) && k < |tr|
    requires Possible(st, tr[..k + 1]) && Cleared(Run(st, tr[..k + 1]), p)
    ensures !(tr[k].Launch? && tr[k].p == p) && Possible(st, tr[..k])
    ensures Cleared(Run(st, tr[..k]), p) || FreeProbe(st, tr, k, p)
  {
    PrefixRun(st, tr, k);
    InvAlways(st, tr[..k]);
    ClearedStep(Run(st, tr[..k]), tr[k], p);
  }

  lemma NoLaunchOneMore(tr: seq<Event>, j: nat, k: nat, p: nat)
    requires 0 < k <= |tr| && NoLaunchBetween(tr, j, k - 1, p) && !(tr[k - 1].Launch? && tr[k - 1].p == p)
    ensures NoLaunchBetween(tr, j, k, p)
  {
  }

  lemma {:induction false} ClearedHasProbe(st: Sys, tr: seq<Event>, k: nat, p: nat) returns (j: nat)
    requires Inv(st) && Possible(st, tr) && 0 < k < |tr| && !Cleared(st, p)
    requires Possible(st, tr[..k]) && Cleared(Run(st, tr[..k]), p)
    ensures j < k && FreeProbe(st, tr, j, p) && NoLaunchBetween(tr, j, k, p)
    decreases k
  {
    ClearedLast(st, tr, k - 1, p);
    if FreeProbe(st, tr, k - 1, p) {
      j := k - 1;
    } else {
      assert tr[..0] == [];
      j := ClearedHasProbe(st, tr, k - 1, p);
      NoLaunchOneMore(tr, j, k, p);
    }
  }

  /**
   Every launch of a run was preceded, with no other launch by that supervisor in between, by an
   instant at which nobody held the lock on the pid file.
   */
  lemma LaunchFollowsFreeInstant(st: Sys, tr: seq<Event>, k: nat)
    requires Inv(st) && Possible(st, tr) && k < |tr| && tr[k].Launch? && !Cleared(st, tr[k].p)
    ensures exists j: nat :: j < k && FreeProbe(st, tr, j, tr[k].p) && NoLaunchBetween(tr, j, k, tr[k].p)
  {
    PrefixRun(st, tr, k);
    assert tr[..0] == [];
    var j := ClearedHasProbe(st, tr, k, tr[k].p);
  }
}
