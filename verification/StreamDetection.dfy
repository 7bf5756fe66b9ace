/**
 The detection thread (serverBiz.cpp, process_alive_detect) between its three looks at the world:
 the snapshot of the records, kill(pid, 0) on one of them, and the lookup by that pid.
 */
module StreamDetection {
  import opened Wrappers
  import opened ProcessStore
  import opened StreamControl
  import opened StreamSafety
  import opened StreamWorkers

  predicate TakenBy(ev: Event, t: Tid) {
    !ev.Terminate? && !ev.Die? && ev.t == t
  }

  predicate WithoutThread(tr: seq<Event>, t: Tid) {
    forall e :: e in tr ==> !TakenBy(e, t)
  }

  lemma OthersLeaveThread(st: Sys, ev: Event, t: Tid)
    requires Enabled(st, ev) && !TakenBy(ev, t) && t in st.threads
    ensures t in Step(st, ev).threads && Step(st, ev).threads[t] == st.threads[t]
  {
  }

  lemma {:induction false} ThreadWaits(st: Sys, tr: seq<Event>, t: Tid)
    requires Possible(st, tr) && WithoutThread(tr, t) && t in st.threads
    ensures t in Run(st, tr).threads && Run(st, tr).threads[t] == st.threads[t]
    decreases |tr|
  {
    if tr != [] {
      assert tr[0] in tr && forall e :: e in tr[1..] ==> e in tr;
      OthersLeaveThread(st, tr[0], t);
      ThreadWaits(Step(st, tr[0]), tr[1..], t);
    }
  }

  // ----- a pid that comes back

  ghost predicate LivesOn(st: Sys, tr: seq<Event>, pid: int)
    requires Possible(st, tr)
    decreases |tr|
  {
    pid in st.live && (tr != [] ==> LivesOn(Step(st, tr[0]), tr[1..], pid))
  }

  /** Some fork of the run returned the pid, and its process has been running ever since. */
  ghost predicate Reborn(st: Sys, tr: seq<Event>, pid: int)
    requires Possible(st, tr)
    decreases |tr|
  {
    tr != [] &&
    ((Forks(tr[0], pid) && LivesOn(Step(st, tr[0]), tr[1..], pid)) || Reborn(Step(st, tr[0]), tr[1..], pid))
  }

  lemma {:induction false} AliveAtEndIff(st: Sys, tr: seq<Event>, pid: int)
    requires Possible(st, tr)
    ensures pid in Run(st, tr).live <==> LivesOn(st, tr, pid) || Reborn(st, tr, pid)
    decreases |tr|
  {
    if tr != [] {
      var st', rest := Step(st, tr[0]), tr[1..];
      AliveAtEndIff(st', rest, pid);
      if pid in st'.live && pid !in st.live {
        OnlyForksBring(st, tr[0], pid);
      }
      if Forks(tr[0], pid) {
        assert pid !in st.live;
      }
    }
  }

  /**
   A detector's check goes no further when the pid names a running process.  When it names none, then
   after any steps of other threads the detector re-forks a stream whose worker is dead exactly when
   its lookup finds nothing or the pid did not come back to life in between.
   */
  lemma DetectorIsCarefulIff(st: Sys, t: Tid, was: ProcessInfo, tr: seq<Event>, reached: bool)
    requires Enabled(st, DetectCheck(t, was))
    requires Possible(Step(st, DetectCheck(t, was)), tr) && WithoutThread(tr, t)
    ensures was.pid in st.live ==> Step(st, DetectCheck(t, was)) == st
    ensures was.pid !in st.live ==>
              var mid := Step(st, DetectCheck(t, was)); var end := Run(mid, tr);
              && Enabled(end, DetectLookup(t, reached))
              && (Careful(end, DetectLookup(t, reached)) <==>
                  LookupPid(end.docs, was.pid, reached).None? || !Reborn(mid, tr, was.pid))
  {
    if was.pid !in st.live {
      var mid := Step(st, DetectCheck(t, was));
      ThreadWaits(mid, tr, t);
      AliveAtEndIff(mid, tr, was.pid);
    }
  }

  // ----- what a suspicion and a refork go back to

  lemma {:induction false} PrefixRun(st: Sys, tr: seq<Event>, k: nat)
    requires Possible(st, tr) && k < |tr|
    ensures Possible(st, tr[..k]) && Possible(st, tr[..k + 1])
    ensures Enabled(Run(st, tr[..k]), tr[k]) && Run(st, tr[..k + 1]) == Step(Run(st, tr[..k]), tr[k])
    decreases k
  {
    assert tr[..k + 1][0] == tr[0] && tr[..k + 1][1..] == tr[1..][..k];
    if k > 0 {
      PrefixRun(Step(st, tr[0]), tr[1..], k - 1);
      assert tr[..k][0] == tr[0] && tr[..k][1..] == tr[1..][..k - 1];
    }
  }

  predicate NoneBetween(tr: seq<Event>, j: nat, k: nat, t: Tid)
    requires k <= |tr|
  {
    forall m :: j < m < k ==> !TakenBy(tr[m], t)
  }

  /** Event j of the run is the last of thread t before k, and left the thread with this memory. */
  ghost predicate LastOwn(st: Sys, tr: seq<Event>, j: nat, k: nat, t: Tid, ph: Phase) {
    && j < k <= |tr| && TakenBy(tr[j], t) && NoneBetween(tr, j, k, t)
    && Possible(st, tr[..j]) && Enabled(Run(st, tr[..j]), tr[j])
    && t in Step(Run(st, tr[..j]), tr[j]).threads && Step(Run(st, tr[..j]), tr[j]).threads[t] == ph
  }

  /** What a thread remembers goes back to its own last step. */
  lemma {:induction false} MemoryHasStep(st: Sys, tr: seq<Event>, k: nat, t: Tid) returns (j: nat)
    requires Possible(st, tr) && k <= |tr| && t !in st.threads
    requires Possible(st, tr[..k]) && t in Run(st, tr[..k]).threads
    ensures LastOwn(st, tr, j, k, t, Run(st, tr[..k]).threads[t])
    decreases k
  {
    assert tr[..0] == [];
    PrefixRun(st, tr, k - 1);
    if TakenBy(tr[k - 1], t) {
      j := k - 1;
    } else {
      OthersBringNone(Run(st, tr[..k - 1]), tr[k - 1], t);
      j := MemoryHasStep(st, tr, k - 1, t);
    }
  }

  lemma OthersBringNone(st: Sys, ev: Event, t: Tid)
    requires Enabled(st, ev) && !TakenBy(ev, t) && t in Step(st, ev).threads
    ensures t in st.threads && Step(st, ev).threads[t] == st.threads[t]
  {
  }

  lemma OnlyDeadSuspected(st: Sys, ev: Event, t: Tid)
    requires Enabled(st, ev) && TakenBy(ev, t) && t in Step(st, ev).threads && Step(st, ev).threads[t].Suspected?
    ensures ev == DetectCheck(t, Step(st, ev).threads[t].info) && Step(st, ev).threads[t].info.pid !in st.live
  {
  }

  lemma OnlyLookupsFind(st: Sys, ev: Event, t: Tid)
    requires Enabled(st, ev) && TakenBy(ev, t) && t in Step(st, ev).threads && Step(st, ev).threads[t].ReloadFound?
    ensures var info := Step(st, ev).threads[t].info;
            || (ev == ReloadLookup(t, info.sid, true) && FindBySid(st.docs, info.sid) == Some(info))
            || (ev == DetectLookup(t, true) && st.threads[t].Suspected? && st.threads[t].info.pid == info.pid
                && FindByPid(st.docs, info.pid) == Some(info))
  {
  }

  /** Event i of the run is a check by thread t, its last before j, at an instant when no process had the pid. */
  ghost predicate SawDead(st: Sys, tr: seq<Event>, i: nat, j: nat, t: Tid, pid: int) {
    && i < j <= |tr| && tr[i].DetectCheck? && tr[i].t == t && tr[i].was.pid == pid && NoneBetween(tr, i, j, t)
    && Possible(st, tr[..i]) && pid !in Run(st, tr[..i]).live
  }

  /**
   Over every possible run each detector that goes on to its lookup does so on a pid that its own last
   step saw to be nobody's.
   */
  lemma SuspicionSawDead(st: Sys, tr: seq<Event>, k: nat)
    requires Possible(st, tr) && k < |tr| && tr[k].DetectLookup? && tr[k].t !in st.threads
    ensures Possible(st, tr[..k]) && Enabled(Run(st, tr[..k]), tr[k])
    ensures exists i: nat :: SawDead(st, tr, i, k, tr[k].t, Run(st, tr[..k]).threads[tr[k].t].info.pid)
  {
    PrefixRun(st, tr, k);
    var t := tr[k].t;
    var i := MemoryHasStep(st, tr, k, t);
    OnlyDeadSuspected(Run(st, tr[..i]), tr[i], t);
    assert SawDead(st, tr, i, k, t, Run(st, tr[..k]).threads[t].info.pid);
  }

  /** Event j of the run is the reload request, or the detector's lookup after its check, behind a refork. */
  ghost predicate ReforkReason(st: Sys, tr: seq<Event>, j: nat, t: Tid, info: ProcessInfo) {
    && j < |tr| && Possible(st, tr[..j])
    && (|| (tr[j] == ReloadLookup(t, info.sid, true) && FindBySid(Run(st, tr[..j]).docs, info.sid) == Some(info))
        || (tr[j] == DetectLookup(t, true) && FindByPid(Run(st, tr[..j]).docs, info.pid) == Some(info)
            && exists i: nat :: SawDead(st, tr, i, j, t, info.pid)))
  }

  /**
   Over every possible run each refork goes back to a request to reload that stream, or to a detector
   that had seen the recorded pid to be nobody's and then found the record by it.
   */
  lemma ReforkHasReason(st: Sys, tr: seq<Event>, k: nat)
    requires Possible(st, tr) && k < |tr| && tr[k].ReloadFork? && tr[k].t !in st.threads
    ensures Possible(st, tr[..k]) && Enabled(Run(st, tr[..k]), tr[k])
    ensures exists j: nat :: j < k && NoneBetween(tr, j, k, tr[k].t)
                             && ReforkReason(st, tr, j, tr[k].t, Run(st, tr[..k]).threads[tr[k].t].info)
  {
    PrefixRun(st, tr, k);
    var t := tr[k].t;
    var info := Run(st, tr[..k]).threads[t].info;
    var j := MemoryHasStep(st, tr, k, t);
    OnlyLookupsFind(Run(st, tr[..j]), tr[j], t);
    if tr[j].DetectLookup? {
      SuspicionSawDead(st, tr, j);
    }
    assert ReforkReason(st, tr, j, t, info);
  }

  // ----- when a fresh fork cannot bring it back

  ghost predicate NamedThroughout(st: Sys, tr: seq<Event>, pid: int)
    requires Possible(st, tr)
    decreases |tr|
  {
    (exists h :: Held(st, h) == Some(pid)) && (tr != [] ==> NamedThroughout(Step(st, tr[0]), tr[1..], pid))
  }

  lemma {:induction false} NamedIsNotReborn(st: Sys, tr: seq<Event>, pid: int)
    requires Possible(st, tr) && ForksFresh(st, tr) && NamedThroughout(st, tr, pid)
    ensures !Reborn(st, tr, pid)
    decreases |tr|
  {
    if tr != [] {
      NamedIsNotReborn(Step(st, tr[0]), tr[1..], pid);
    }
  }

  /** With fresh forks the check stays good for as long as something still names the dead pid. */
  lemma CheckStaysGood(st: Sys, t: Tid, was: ProcessInfo, tr: seq<Event>, reached: bool)
    requires Enabled(st, DetectCheck(t, was)) && was.pid !in st.live
    requires var mid := Step(st, DetectCheck(t, was));
             Possible(mid, tr) && ForksFresh(mid, tr) && NamedThroughout(mid, tr, was.pid)
    requires WithoutThread(tr, t)
    ensures var end := Run(Step(st, DetectCheck(t, was)), tr);
            Enabled(end, DetectLookup(t, reached)) && Careful(end, DetectLookup(t, reached))
  {
    DetectorIsCarefulIff(st, t, was, tr, reached);
    NamedIsNotReborn(Step(st, DetectCheck(t, was)), tr, was.pid);
  }
}
