/**
 The host records over whole runs of the lock protocol: how many there are, and when a running
 server's record is lost.
 */
module LockHosts {
  import opened LockProtocol
  import opened LockSafety
  import opened LockRuns
  import opened LockProbe

  lemma HostCountStep(st: Sys, ev: Event)
    requires Enabled(st, ev)
    ensures Step(st, ev).host == st.host
    ensures Step(st, ev).hosts[st.host] <= st.hosts[st.host] + (if ev.InsertHost? then 1 else 0)
    ensures !ev.OtherHosts? ==> forall h :: h != st.host ==> Step(st, ev).hosts[h] == st.hosts[h]
  {
  }

  lemma {:induction false} OtherHostsUntouched(st: Sys, tr: seq<Event>, h: string)
    requires Possible(st, tr) && h != st.host && forall e :: e in tr ==> !e.OtherHosts?
    ensures Run(st, tr).hosts[h] == st.hosts[h]
    decreases |tr|
  {
    if tr != [] {
      assert tr[0] in tr && forall e :: e in tr[1..] ==> e in tr;
      HostCountStep(st, tr[0]);
      OtherHostsUntouched(Step(st, tr[0]), tr[1..], h);
    }
  }

  // ----- how many records there are

  /** An insert that takes effect meets fewer records of this host than the bound. */
  predicate InsertBelow(st: Sys, ev: Event, bound: nat) {
    ev.InsertHost? && ev.ok ==> st.hosts[st.host] < bound
  }

  lemma BoundStep(st: Sys, ev: Event, bound: nat)
    requires Enabled(st, ev) && st.hosts[st.host] <= bound
    ensures Step(st, ev).hosts[Step(st, ev).host] <= bound <==> InsertBelow(st, ev, bound)
  {
    HostCountStep(st, ev);
  }

  ghost predicate BoundedThroughout(st: Sys, tr: seq<Event>, bound: nat)
    requires Possible(st, tr)
    decreases |tr|
  {
    st.hosts[st.host] <= bound && (tr != [] ==> BoundedThroughout(Step(st, tr[0]), tr[1..], bound))
  }

  ghost predicate InsertsBelow(st: Sys, tr: seq<Event>, bound: nat)
    requires Possible(st, tr)
    decreases |tr|
  {
    tr != [] ==> InsertBelow(st, tr[0], bound) && InsertsBelow(Step(st, tr[0]), tr[1..], bound)
  }

  /** Over every run, with unlinks and lookups that miss, this bound holds exactly when no insert met it. */
  lemma {:induction false} HostsBoundedIff(st: Sys, tr: seq<Event>, bound: nat)
    requires Possible(st, tr) && st.hosts[st.host] <= bound
    ensures BoundedThroughout(st, tr, bound) <==> InsertsBelow(st, tr, bound)
    decreases |tr|
  {
    if tr != [] {
      BoundStep(st, tr[0], bound);
      if InsertBelow(st, tr[0], bound) {
        HostsBoundedIff(Step(st, tr[0]), tr[1..], bound);
      } else {
        AboveNow(Step(st, tr[0]), tr[1..], bound);
      }
    }
  }

  lemma AboveNow(st: Sys, tr: seq<Event>, bound: nat)
    requires Possible(st, tr) && st.hosts[st.host] > bound
    ensures !BoundedThroughout(st, tr, bound)
  {
  }

  // ----- the records as a balance of the servers' and supervisors' work

  predicate Inserts(ev: Event) {
    ev.InsertHost? && ev.ok
  }

  /** A removal that takes effect on a record of this host. */
  predicate Removes(st: Sys, ev: Event) {
    (ev.RemoveOwnHost? || ev.ProbeRemoveHost?) && ev.ok && st.hosts[st.host] > 0
  }

  lemma RecordsMove(st: Sys, ev: Event)
    requires Enabled(st, ev)
    ensures Step(st, ev).host == st.host
    ensures Step(st, ev).hosts[st.host] ==
            st.hosts[st.host] + (if Inserts(ev) then 1 else 0) - (if Removes(st, ev) then 1 else 0)
  {
  }

  function Inserted(tr: seq<Event>): nat {
    if tr == [] then 0 else (if Inserts(tr[0]) then 1 else 0) + Inserted(tr[1..])
  }

  function Removed(st: Sys, tr: seq<Event>): nat
    requires Possible(st, tr)
    decreases |tr|
  {
    if tr == [] then 0 else (if Removes(st, tr[0]) then 1 else 0) + Removed(Step(st, tr[0]), tr[1..])
  }

  /** Over every run this host's records are the initial ones, plus the inserts, minus the removals. */
  lemma {:induction false} RecordsBalance(st: Sys, tr: seq<Event>)
    requires Possible(st, tr)
    ensures Run(st, tr).host == st.host
    ensures Run(st, tr).hosts[st.host] == st.hosts[st.host] + Inserted(tr) - Removed(st, tr)
    decreases |tr|
  {
    if tr != [] {
      RecordsMove(st, tr[0]);
      RecordsBalance(Step(st, tr[0]), tr[1..]);
    }
  }

  lemma LookupGoesOn(st: Sys, p: nat, reached: bool)
    requires Enabled(st, FindHost(p, reached)) && p in Step(st, FindHost(p, reached)).procs
    ensures var mid := Step(st, FindHost(p, reached));
            At(mid, p, HostFree) && mid.host == st.host && mid.hosts == st.hosts
    ensures reached ==> st.hosts[st.host] == 0
  {
    if reached {
      assert st.host !in st.hosts;
    }
  }

  /**
   A server that looks this host up, goes on, and inserts after any steps of others makes it more than
   one record exactly when the records that its lookup missed and those inserted since outnumber the
   removals since; a lookup that reached the database missed none.
   */
  lemma InsertExceedsIff(st: Sys, p: nat, reached: bool, tr: seq<Event>)
    requires Enabled(st, FindHost(p, reached)) && p in Step(st, FindHost(p, reached)).procs
    requires Possible(Step(st, FindHost(p, reached)), tr) && Without(tr, p)
    ensures var mid := Step(st, FindHost(p, reached)); var end := Run(mid, tr);
            && Enabled(end, InsertHost(p, true)) && end.host == st.host
            && (Step(end, InsertHost(p, true)).hosts[st.host] > 1 <==>
                (if reached then 0 else st.hosts[st.host]) + Inserted(tr) > Removed(mid, tr))
  {
    var mid := Step(st, FindHost(p, reached));
    LookupGoesOn(st, p, reached);
    Waits(mid, tr, p);
    RecordsBalance(mid, tr);
    RecordsMove(Run(mid, tr), InsertHost(p, true));
  }

  // ----- why the lock keeps them few

  /** A server's lookup that finds nothing was told the truth. */
  predicate Told(st: Sys, ev: Event) {
    ev.FindHost? && !ev.reached ==> st.host !in st.hosts
  }

  ghost predicate ToldThroughout(st: Sys, tr: seq<Event>)
    requires Possible(st, tr)
    decreases |tr|
  {
    tr != [] ==> Told(st, tr[0]) && ToldThroughout(Step(st, tr[0]), tr[1..])
  }

  /** A server that has found no record is alone, and there is still none. */
  ghost predicate FreeIsTrue(st: Sys) {
    forall p :: At(st, p, HostFree) ==> st.hosts[st.host] == 0
  }

  lemma OwnStepToFree(st: Sys, ev: Event)
    requires Enabled(st, ev) && !ev.OtherHosts? && At(Step(st, ev), ev.p, HostFree)
    ensures ev.FindHost? && (ev.reached ==> st.host !in st.hosts)
  {
  }

  /** Only the one server past the lock can insert. */
  lemma FreeIsTrueStep(st: Sys, ev: Event)
    requires Inv(st) && Aligned(st) && Enabled(st, ev) && Told(st, ev) && FreeIsTrue(st)
    ensures FreeIsTrue(Step(st, ev))
  {
    var st' := Step(st, ev);
    HostCountStep(st, ev);
    forall p | At(st', p, HostFree) ensures st'.hosts[st'.host] == 0 {
      if TakenBy(ev, p) {
        OwnStepToFree(st, ev);
      } else {
        OthersStay(st, ev, p);
        assert At(st, p, HostFree);
        if ev.InsertHost? {
          OneRunning(st, ev.p, p);
        }
      }
    }
  }

  lemma {:induction false} LockedInserts(st: Sys, tr: seq<Event>, bound: nat)
    requires Inv(st) && Aligned(st) && Possible(st, tr) && NoUnlink(tr) && ToldThroughout(st, tr)
    requires FreeIsTrue(st) && bound >= 1
    ensures InsertsBelow(st, tr, bound)
    ensures FreeIsTrue(Run(st, tr)) && Run(st, tr).host == st.host
    decreases |tr|
  {
    if tr != [] {
      assert tr[0] in tr && forall e :: e in tr[1..] ==> e in tr;
      InvStep(st, tr[0]);
      AlignedStep(st, tr[0]);
      FreeIsTrueStep(st, tr[0]);
      HostCountStep(st, tr[0]);
      LockedInserts(Step(st, tr[0]), tr[1..], bound);
    }
  }

  /**
   The lock also keeps the host collection in order: in a run without unlink whose servers are told
   the truth by their lookups, this host never has more records than it started with or one,
   whichever is larger.
   */
  lemma HostRecordsBounded(st: Sys, tr: seq<Event>)
    requires Inv(st) && Aligned(st) && Possible(st, tr) && NoUnlink(tr) && ToldThroughout(st, tr)
    requires FreeIsTrue(st)
    ensures BoundedThroughout(st, tr, if st.hosts[st.host] > 1 then st.hosts[st.host] else 1)
  {
    var bound := if st.hosts[st.host] > 1 then st.hosts[st.host] else 1;
    LockedInserts(st, tr, bound);
    HostsBoundedIff(st, tr, bound);
  }

  lemma {:induction false} BoundedAtEnd(st: Sys, tr: seq<Event>, bound: nat)
    requires Possible(st, tr) && BoundedThroughout(st, tr, bound)
    ensures Run(st, tr).hosts[Run(st, tr).host] <= bound
    decreases |tr|
  {
    if tr != [] {
      BoundedAtEnd(Step(st, tr[0]), tr[1..], bound);
    }
  }

  /** When the running server removes its record on the way out, none is left to stop the next one. */
  lemma CleanStopLeavesNoRecord(st: Sys, tr: seq<Event>, p: nat)
    requires Inv(st) && Aligned(st) && Possible(st, tr) && NoUnlink(tr) && ToldThroughout(st, tr)
    requires st.hosts[st.host] <= 1 && FreeIsTrue(st)
    requires At(Run(st, tr), p, Registered)
    ensures var end := Step(Run(st, tr), RemoveOwnHost(p, true)); end.host == st.host && end.host !in end.hosts
  {
    LockedInserts(st, tr, 1);
    HostRecordsBounded(st, tr);
    BoundedAtEnd(st, tr, 1);
  }

  // ----- when a running server loses its record

  lemma NobodyElseInserts(st: Sys, ev: Event, q: nat)
    requires Inv(st) && Aligned(st) && Enabled(st, ev) && At(st, q, Registered) && !TakenBy(ev, q)
    ensures !ev.InsertHost? && !ev.RemoveOwnHost?
  {
    if ev.InsertHost? || ev.RemoveOwnHost? {
      OneRunning(st, ev.p, q);
    }
  }

  lemma OwnStepLeaves(st: Sys, ev: Event)
    requires Enabled(st, ev) && !ev.OtherHosts? && At(st, ev.p, Registered)
    ensures !At(Step(st, ev), ev.p, Registered)
  {
  }

  lemma RecordCountStep(st: Sys, ev: Event)
    requires Enabled(st, ev) && !ev.InsertHost? && !ev.RemoveOwnHost?
    ensures Step(st, ev).host == st.host
    ensures Step(st, ev).hosts[st.host] ==
            if ev.ProbeRemoveHost? && ev.ok && st.hosts[st.host] > 0 then st.hosts[st.host] - 1
            else st.hosts[st.host]
  {
  }

  /** The one record of a server that stays registered is lost exactly by a supervisor's clean-up. */
  lemma RecordLostIff(st: Sys, ev: Event, q: nat)
    requires Inv(st) && Aligned(st) && Enabled(st, ev) && st.hosts[st.host] == 1
    requires At(st, q, Registered) && At(Step(st, ev), q, Registered)
    ensures Step(st, ev).hosts[st.host] == if ev.ProbeRemoveHost? && ev.ok then 0 else 1
  {
    if TakenBy(ev, q) {
      OwnStepLeaves(st, ev);
    } else {
      NobodyElseInserts(st, ev, q);
      RecordCountStep(st, ev);
    }
  }

  ghost predicate RegisteredThroughout(st: Sys, tr: seq<Event>, q: nat)
    requires Possible(st, tr)
    decreases |tr|
  {
    At(st, q, Registered) && (tr != [] ==> RegisteredThroughout(Step(st, tr[0]), tr[1..], q))
  }

  ghost predicate RecordedThroughout(st: Sys, tr: seq<Event>)
    requires Possible(st, tr)
    decreases |tr|
  {
    st.hosts[st.host] == 1 && (tr != [] ==> RecordedThroughout(Step(st, tr[0]), tr[1..]))
  }

  predicate NoCleanUp(tr: seq<Event>) {
    tr == [] || (!(tr[0].ProbeRemoveHost? && tr[0].ok) && NoCleanUp(tr[1..]))
  }

  /**
   For as long as a server stays registered its record stays in every state exactly when no
   supervisor's clean-up takes effect.
   */
  lemma {:induction false} RecordKeptIff(st: Sys, tr: seq<Event>, q: nat)
    requires Inv(st) && Aligned(st) && Possible(st, tr) && NoUnlink(tr)
    requires RegisteredThroughout(st, tr, q) && st.hosts[st.host] == 1
    ensures RecordedThroughout(st, tr) <==> NoCleanUp(tr)
    decreases |tr|
  {
    if tr != [] {
      assert tr[0] in tr && forall e :: e in tr[1..] ==> e in tr;
      var st' := Step(st, tr[0]);
      InvStep(st, tr[0]);
      AlignedStep(st, tr[0]);
      HostCountStep(st, tr[0]);
      RegisteredNow(st', tr[1..], q);
      RecordLostIff(st, tr[0], q);
      if !(tr[0].ProbeRemoveHost? && tr[0].ok) {
        RecordKeptIff(st', tr[1..], q);
      } else {
        UnrecordedNow(st', tr[1..]);
      }
    }
  }

  lemma RegisteredNow(st: Sys, tr: seq<Event>, q: nat)
    requires Possible(st, tr) && RegisteredThroughout(st, tr, q)
    ensures At(st, q, Registered)
  {
  }

  lemma UnrecordedNow(st: Sys, tr: seq<Event>)
    requires Possible(st, tr) && st.hosts[st.host] != 1
    ensures !RecordedThroughout(st, tr)
  {
  }

  /**
   Such a clean-up goes back to an earlier probe of the same supervisor that met a free lock: at that
   instant the server had not taken the lock yet, and the supervisor launched nothing since.
   */
  lemma CleanUpHadEarlyProbe(st: Sys, tr: seq<Event>, k: nat, q: nat)
    requires Inv(st) && Aligned(st) && Possible(st, tr) && NoUnlink(tr)
    requires k < |tr| && tr[k].ProbeRemoveHost? && !Cleared(st, tr[k].p)
    requires Possible(st, tr[..k]) && At(Run(st, tr[..k]), q, Registered)
    ensures exists j: nat :: j < k && FreeProbe(st, tr, j, tr[k].p) && NoLaunchBetween(tr, j, k, tr[k].p)
                             && !Running(Run(st, tr[..j]), q)
  {
    var s := tr[k].p;
    PrefixRun(st, tr, k);
    assert tr[..0] == [];
    var j := ClearedHasProbe(st, tr, k, s);
    InvAlways(st, tr[..j]);
    assert forall e :: e in tr[..j] ==> e in tr;
    AlignedAlways(st, tr[..j]);
    FreeMeansNobody(Run(st, tr[..j]), s, q);
  }

  lemma FreeMeansNobody(st: Sys, s: nat, q: nat)
    requires Inv(st) && Aligned(st) && At(st, s, ProbeOpen) && st.procs[s].inode !in st.locks
    ensures !Running(st, q)
  {
  }
}
