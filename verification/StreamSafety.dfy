/**
 What every interleaving of stream operations keeps: who names which worker.
 */
module StreamSafety {
  import opened Wrappers
  import opened ProcessStore
  import opened StreamControl

  // ----- the base invariant

  /** What a thread remembers still agrees with the cache. */
  predicate PhaseOk(docs: seq<ProcessInfo>, ph: Phase) {
    var found := FindBySid(docs, ph.info.sid);
    match ph
    case SpawnChecked(_) => found.None?
    case SpawnForked(_) => found.None?
    case Suspected(_) => true
    case ReloadFound(info) => found == Some(info)
    case ReloadForked(info) => found.Some? && found.value.(pid := info.pid) == info
    case RemoveFound(info) => found == Some(info)
    case RemoveUncached(info) => found.None? || found == Some(info)
  }

  ghost predicate Inv(st: Sys) {
    && UniqueSids(st.docs)
    && (forall t :: t in st.threads ==> PhaseOk(st.docs, st.threads[t]))
    && (forall t, u :: Working(st, t) && Working(st, u) && t != u
          ==> st.threads[t].info.sid != st.threads[u].info.sid)
  }

  /** A step that touches one stream, through the only thread working on it. */
  lemma InvLocal(st: Sys, st': Sys, t: Tid, sid: string)
    requires Inv(st) && UniqueSids(st'.docs)
    requires forall s :: s != sid ==> FindBySid(st'.docs, s) == FindBySid(st.docs, s)
    requires forall u :: Working(st, u) && u != t ==> st.threads[u].info.sid != sid
    requires forall u :: u != t ==> (u in st.threads <==> u in st'.threads)
    requires forall u :: u != t && u in st.threads ==> st'.threads[u] == st.threads[u]
    requires Working(st', t) ==> st'.threads[t].info.sid == sid && PhaseOk(st'.docs, st'.threads[t])
    ensures Inv(st')
  {
  }

  lemma InvStart(st: Sys, ev: Event)
    requires ev.SpawnCheck? || ev.ReloadLookup? || ev.RemoveLookup?
    requires Inv(st) && Enabled(st, ev) && Exclusive(st, ev)
    ensures Inv(Step(st, ev))
  {
    var st' := Step(st, ev);
    if ev.t in st'.threads {
      InvLocal(st, st', ev.t, if ev.SpawnCheck? then ev.param.sid else ev.sid);
    }
  }

  lemma InvSuspect(st: Sys, ev: Event)
    requires ev.DetectCheck?
    requires Inv(st) && Enabled(st, ev)
    ensures Inv(Step(st, ev))
  {
  }

  lemma InvDetect(st: Sys, ev: Event)
    requires ev.DetectLookup?
    requires Inv(st) && Enabled(st, ev) && Exclusive(st, ev)
    ensures Inv(Step(st, ev))
  {
    var found := LookupPid(st.docs, st.threads[ev.t].info.pid, ev.reached);
    if found.Some? {
      StoredIsFound(st.docs, found.value);
      InvLocal(st, Step(st, ev), ev.t, found.value.sid);
    }
  }

  lemma InvFork(st: Sys, ev: Event)
    requires ev.SpawnFork? || ev.ReloadFork?
    requires Inv(st) && Enabled(st, ev)
    ensures Inv(Step(st, ev))
  {
    InvLocal(st, Step(st, ev), ev.t, st.threads[ev.t].info.sid);
  }

  lemma InvRecord(st: Sys, ev: Event)
    requires ev.SpawnRecord?
    requires Inv(st) && Enabled(st, ev)
    ensures Inv(Step(st, ev))
  {
    var d := st.threads[ev.t].info.(ppid := st.self, status := "active");
    InsertKeepsUnique(st.docs, d);
    forall s {
      FindAfterInsert(st.docs, d, s);
    }
    InvLocal(st, Step(st, ev), ev.t, d.sid);
  }

  lemma InvUpdate(st: Sys, ev: Event)
    requires ev.ReloadUpdate?
    requires Inv(st) && Enabled(st, ev)
    ensures Inv(Step(st, ev))
  {
    var info := st.threads[ev.t].info;
    SetPidKeepsUnique(st.docs, info.sid, info.pid);
    forall s {
      FindAfterSetPid(st.docs, info.sid, info.pid, s);
    }
    InvLocal(st, Step(st, ev), ev.t, info.sid);
  }

  lemma InvRemove(st: Sys, ev: Event)
    requires ev.RemoveUncache? || ev.RemoveKill?
    requires Inv(st) && Enabled(st, ev)
    ensures Inv(Step(st, ev))
  {
    var sid := st.threads[ev.t].info.sid;
    RemoveKeepsUnique(st.docs, sid);
    forall s {
      FindAfterRemove(st.docs, sid, s);
    }
    InvLocal(st, Step(st, ev), ev.t, sid);
  }

  lemma InvKept(st: Sys, ev: Event)
    requires Inv(st) && Enabled(st, ev) && Exclusive(st, ev)
    ensures Inv(Step(st, ev))
  {
    if ev.SpawnCheck? || ev.ReloadLookup? || ev.RemoveLookup? {
      InvStart(st, ev);
    } else if ev.DetectCheck? {
      InvSuspect(st, ev);
    } else if ev.DetectLookup? {
      InvDetect(st, ev);
    } else if ev.SpawnFork? || ev.ReloadFork? {
      InvFork(st, ev);
    } else if ev.SpawnRecord? {
      InvRecord(st, ev);
    } else if ev.ReloadUpdate? {
      InvUpdate(st, ev);
    } else if ev.RemoveUncache? || ev.RemoveKill? {
      InvRemove(st, ev);
    }
  }

  lemma TwoOnOneStream(st: Sys, t: Tid, u: Tid)
    requires Working(st, t) && Working(st, u) && t != u && st.threads[t].info.sid == st.threads[u].info.sid
    ensures !Inv(st)
  {
  }

  lemma InvLost(st: Sys, ev: Event)
    requires Inv(st) && Enabled(st, ev) && !Exclusive(st, ev)
    ensures !Inv(Step(st, ev))
  {
    var st' := Step(st, ev);
    var sid := st'.threads[ev.t].info.sid;
    if Idle(st, sid) {
      assert ev.SpawnCheck? && !PhaseOk(st'.docs, st'.threads[ev.t]);
    } else {
      var u :| u in st.threads && Working(st, u) && st.threads[u].info.sid == sid;
      TwoOnOneStream(st', ev.t, u);
    }
  }

  /** Exactly the steps that start a second thread on a stream, or a spawn of a stored one, break it. */
  lemma InvStep(st: Sys, ev: Event)
    requires Inv(st) && Enabled(st, ev)
    ensures Inv(Step(st, ev)) <==> Exclusive(st, ev)
  {
    if Exclusive(st, ev) {
      InvKept(st, ev);
    } else {
      InvLost(st, ev);
    }
  }

  ghost predicate InvThroughout(st: Sys, tr: seq<Event>)
    requires Possible(st, tr)
    decreases |tr|
  {
    Inv(st) && (tr != [] ==> InvThroughout(Step(st, tr[0]), tr[1..]))
  }

  /** One operation per stream is exactly what a run must obey to keep the invariant throughout. */
  lemma {:induction false} InvThroughoutIff(st: Sys, tr: seq<Event>)
    requires Inv(st) && Possible(st, tr)
    ensures InvThroughout(st, tr) <==> OnePerStream(st, tr)
    decreases |tr|
  {
    if tr != [] {
      InvStep(st, tr[0]);
      if Exclusive(st, tr[0]) {
        InvThroughoutIff(Step(st, tr[0]), tr[1..]);
      } else {
        NotInvNow(Step(st, tr[0]), tr[1..]);
      }
    }
  }

  lemma NotInvNow(st: Sys, tr: seq<Event>)
    requires Possible(st, tr) && !Inv(st)
    ensures !InvThroughout(st, tr)
  {
  }

  lemma {:induction false} InvAlways(st: Sys, tr: seq<Event>)
    requires Inv(st) && OnePerStream(st, tr)
    ensures Possible(st, tr) && Inv(Run(st, tr))
    decreases |tr|
  {
    if tr != [] {
      InvStep(st, tr[0]);
      InvAlways(Step(st, tr[0]), tr[1..]);
    }
  }

  // ----- a stream is stored at most once

  /** An insert that takes effect meets no record of its stream. */
  predicate InsertFresh(st: Sys, ev: Event)
    requires Enabled(st, ev)
  {
    ev.SpawnRecord? && ev.ok ==> FindBySid(st.docs, st.threads[ev.t].info.sid).None?
  }

  lemma UniqueStep(st: Sys, ev: Event)
    requires Enabled(st, ev) && UniqueSids(st.docs)
    ensures UniqueSids(Step(st, ev).docs) <==> InsertFresh(st, ev)
  {
    if ev.SpawnRecord? {
      InsertKeepsUnique(st.docs, st.threads[ev.t].info.(ppid := st.self, status := "active"));
    } else if ev.ReloadUpdate? {
      SetPidKeepsUnique(st.docs, st.threads[ev.t].info.sid, st.threads[ev.t].info.pid);
    } else if ev.RemoveUncache? {
      RemoveKeepsUnique(st.docs, st.threads[ev.t].info.sid);
    }
  }

  ghost predicate UniqueThroughout(st: Sys, tr: seq<Event>)
    requires Possible(st, tr)
    decreases |tr|
  {
    UniqueSids(st.docs) && (tr != [] ==> UniqueThroughout(Step(st, tr[0]), tr[1..]))
  }

  ghost predicate InsertsFresh(st: Sys, tr: seq<Event>)
    requires Possible(st, tr)
    decreases |tr|
  {
    tr != [] ==> InsertFresh(st, tr[0]) && InsertsFresh(Step(st, tr[0]), tr[1..])
  }

  /**
   Over every run, whatever overlaps and whatever a lookup missed, each stream is stored at most once
   in every state exactly when no insert of the run met a record of its own stream.
   */
  lemma {:induction false} StoredOnceIff(st: Sys, tr: seq<Event>)
    requires Possible(st, tr) && UniqueSids(st.docs)
    ensures UniqueThroughout(st, tr) <==> InsertsFresh(st, tr)
    decreases |tr|
  {
    if tr != [] {
      UniqueStep(st, tr[0]);
      if InsertFresh(st, tr[0]) {
        StoredOnceIff(Step(st, tr[0]), tr[1..]);
      } else {
        StoredTwiceNow(Step(st, tr[0]), tr[1..]);
      }
    }
  }

  lemma StoredTwiceNow(st: Sys, tr: seq<Event>)
    requires Possible(st, tr) && !UniqueSids(st.docs)
    ensures !UniqueThroughout(st, tr)
  {
  }

  // ----- who names a worker

  /** A cache record, or an operation between its fork and its write (or its write and its kill). */
  datatype Holder = Cached(sid: string) | InFlight(t: Tid)

  function Held(st: Sys, h: Holder): Option<int> {
    match h
    case Cached(sid) =>
      var found := FindBySid(st.docs, sid);
      if found.Some? then Some(found.value.pid) else None
    case InFlight(t) =>
      if t !in st.threads then None else
        match st.threads[t]
        case SpawnForked(info) => Some(info.pid)
        case ReloadForked(info) => Some(info.pid)
        case RemoveUncached(info) => if FindBySid(st.docs, info.sid).None? then Some(info.pid) else None
        case _ => None
  }

  /** How one step moves names: a fork makes one, a write hands it over, a kill drops it. */
  function HeldAfter(st: Sys, ev: Event, h: Holder): Option<int>
    requires Enabled(st, ev)
  {
    match ev
    case SpawnFork(t, child) => if h == InFlight(t) then child else Held(st, h)
    case ReloadFork(t, child) => if h == InFlight(t) then child else Held(st, h)
    case SpawnRecord(t, ok) =>
      var info := st.threads[t].info;
      if h == InFlight(t) then None else if ok && h == Cached(info.sid) then Some(info.pid) else Held(st, h)
    case ReloadUpdate(t, ok) =>
      var info := st.threads[t].info;
      if h == InFlight(t) then None else if ok && h == Cached(info.sid) then Some(info.pid) else Held(st, h)
    case RemoveUncache(t, ok) =>
      var info := st.threads[t].info;
      if !ok then Held(st, h)
      else if h == InFlight(t) then Some(info.pid) else if h == Cached(info.sid) then None else Held(st, h)
    case RemoveKill(t) => if h == InFlight(t) then None else Held(st, h)
    case _ => Held(st, h)
  }

  /** The stream whose record decides what h names. */
  function StreamOf(st: Sys, h: Holder): string {
    if h.Cached? then h.sid else if h.t in st.threads then st.threads[h.t].info.sid else ""
  }

  /** A holder whose thread and whose stream's record are untouched names what it named. */
  lemma HeldUnmoved(st: Sys, st': Sys, h: Holder)
    requires FindBySid(st'.docs, StreamOf(st, h)) == FindBySid(st.docs, StreamOf(st, h))
    requires h.InFlight? ==> (h.t in st.threads <==> h.t in st'.threads)
    requires h.InFlight? && h.t in st.threads ==> st'.threads[h.t] == st.threads[h.t]
    ensures Held(st', h) == Held(st, h)
  {
  }

  /** A suspicion names nothing, so its stream may be any. */
  lemma HeldSuspect(st: Sys, st': Sys, t: Tid)
    requires t in st.threads && st.threads[t].Suspected? && t in st'.threads && st'.threads[t] == st.threads[t]
    ensures Held(st, InFlight(t)) == None && Held(st', InFlight(t)) == None
  {
  }

  /** A write on the stream of thread t leaves every other holder alone. */
  lemma HeldElsewhere(st: Sys, st': Sys, t: Tid, h: Holder)
    requires Inv(st) && Working(st, t) && h != InFlight(t) && h != Cached(st.threads[t].info.sid)
    requires forall s :: s != st.threads[t].info.sid ==> FindBySid(st'.docs, s) == FindBySid(st.docs, s)
    requires forall u :: u != t ==> (u in st.threads <==> u in st'.threads)
    requires forall u :: u != t && u in st.threads ==> st'.threads[u] == st.threads[u]
    ensures Held(st', h) == Held(st, h)
  {
    if h.InFlight? && h.t in st.threads && !Working(st, h.t) {
      HeldSuspect(st, st', h.t);
    } else if h.Cached? || h.t in st.threads {
      HeldUnmoved(st, st', h);
    }
  }

  lemma HeldRecord(st: Sys, ev: Event, h: Holder)
    requires ev.SpawnRecord? && Inv(st) && Enabled(st, ev)
    ensures Held(Step(st, ev), h) == HeldAfter(st, ev, h)
  {
    var d := st.threads[ev.t].info.(ppid := st.self, status := "active");
    forall s {
      FindAfterInsert(st.docs, d, s);
    }
    if h != InFlight(ev.t) && h != Cached(d.sid) {
      HeldElsewhere(st, Step(st, ev), ev.t, h);
    } else {
      assert PhaseOk(st.docs, st.threads[ev.t]);
    }
  }

  lemma HeldUpdate(st: Sys, ev: Event, h: Holder)
    requires ev.ReloadUpdate? && Inv(st) && Enabled(st, ev)
    ensures Held(Step(st, ev), h) == HeldAfter(st, ev, h)
  {
    var info := st.threads[ev.t].info;
    forall s {
      FindAfterSetPid(st.docs, info.sid, info.pid, s);
    }
    if h != InFlight(ev.t) && h != Cached(info.sid) {
      HeldElsewhere(st, Step(st, ev), ev.t, h);
    } else {
      assert PhaseOk(st.docs, st.threads[ev.t]);
    }
  }

  lemma HeldUncache(st: Sys, ev: Event, h: Holder)
    requires ev.RemoveUncache? && Inv(st) && Enabled(st, ev)
    ensures Held(Step(st, ev), h) == HeldAfter(st, ev, h)
  {
    var sid := st.threads[ev.t].info.sid;
    if h != InFlight(ev.t) && h != Cached(sid) {
      forall s {
        FindAfterRemove(st.docs, sid, s);
      }
      HeldElsewhere(st, Step(st, ev), ev.t, h);
    } else {
      HeldByRemover(st, ev, h);
    }
  }

  lemma HeldByRemover(st: Sys, ev: Event, h: Holder)
    requires ev.RemoveUncache? && Inv(st) && Enabled(st, ev)
    requires h == InFlight(ev.t) || h == Cached(st.threads[ev.t].info.sid)
    ensures Held(Step(st, ev), h) == HeldAfter(st, ev, h)
  {
    FindAfterRemove(st.docs, st.threads[ev.t].info.sid, st.threads[ev.t].info.sid);
    assert PhaseOk(st.docs, st.threads[ev.t]);
  }

  lemma HeldStart(st: Sys, ev: Event, h: Holder)
    requires ev.SpawnCheck? || ev.ReloadLookup? || ev.DetectCheck? || ev.DetectLookup? || ev.RemoveLookup?
    requires Enabled(st, ev)
    ensures Held(Step(st, ev), h) == HeldAfter(st, ev, h)
  {
  }

  lemma HeldFork(st: Sys, ev: Event, h: Holder)
    requires ev.SpawnFork? || ev.ReloadFork?
    requires Enabled(st, ev)
    ensures Held(Step(st, ev), h) == HeldAfter(st, ev, h)
  {
  }

  lemma HeldStep(st: Sys, ev: Event, h: Holder)
    requires Inv(st) && Enabled(st, ev)
    ensures Held(Step(st, ev), h) == HeldAfter(st, ev, h)
  {
    if ev.SpawnRecord? {
      HeldRecord(st, ev, h);
    } else if ev.ReloadUpdate? {
      HeldUpdate(st, ev, h);
    } else if ev.RemoveUncache? {
      HeldUncache(st, ev, h);
    } else if ev.SpawnFork? || ev.ReloadFork? {
      HeldFork(st, ev, h);
    } else if !(ev.RemoveKill? || ev.Terminate? || ev.Die?) {
      HeldStart(st, ev, h);
    }
  }

  // ----- distinct streams hold distinct pids

  ghost predicate Distinct(st: Sys) {
    forall h, k :: Held(st, h).Some? && Held(st, h) == Held(st, k) ==> h == k
  }

  ghost predicate ForkFresh(st: Sys, ev: Event) {
    (ev.SpawnFork? || ev.ReloadFork?) && ev.child.Some? ==> forall h :: Held(st, h) != ev.child
  }

  /** Where the name that h holds after the step was held before it. */
  function Source(st: Sys, ev: Event, h: Holder): Holder
    requires Enabled(st, ev)
  {
    match ev
    case SpawnRecord(t, ok) => if ok && h == Cached(st.threads[t].info.sid) then InFlight(t) else h
    case ReloadUpdate(t, ok) => if ok && h == Cached(st.threads[t].info.sid) then InFlight(t) else h
    case RemoveUncache(t, ok) => if ok && h == InFlight(t) then Cached(st.threads[t].info.sid) else h
    case _ => h
  }

  lemma NamesMove(st: Sys, ev: Event, h: Holder)
    requires Inv(st) && Enabled(st, ev)
    requires Held(Step(st, ev), h).Some?
    requires !((ev.SpawnFork? || ev.ReloadFork?) && h == InFlight(ev.t))
    ensures Held(st, Source(st, ev, h)) == Held(Step(st, ev), h)
  {
    HeldStep(st, ev, h);
  }

  lemma DistinctStep(st: Sys, ev: Event)
    requires Inv(st) && Enabled(st, ev) && Distinct(st)
    ensures Distinct(Step(st, ev)) <==> ForkFresh(st, ev)
  {
    var st' := Step(st, ev);
    if ForkFresh(st, ev) {
      forall h, k | Held(st', h).Some? && Held(st', h) == Held(st', k) ensures h == k {
        HeldStep(st, ev, h);
        HeldStep(st, ev, k);
        if !((ev.SpawnFork? || ev.ReloadFork?) && (h == InFlight(ev.t) || k == InFlight(ev.t))) {
          NamesMove(st, ev, h);
          NamesMove(st, ev, k);
        }
      }
    } else {
      var h :| Held(st, h) == ev.child;
      HeldStep(st, ev, h);
      HeldStep(st, ev, InFlight(ev.t));
    }
  }

  ghost predicate DistinctThroughout(st: Sys, tr: seq<Event>)
    requires Possible(st, tr)
    decreases |tr|
  {
    Distinct(st) && (tr != [] ==> DistinctThroughout(Step(st, tr[0]), tr[1..]))
  }

  ghost predicate ForksFresh(st: Sys, tr: seq<Event>)
    requires Possible(st, tr)
    decreases |tr|
  {
    tr != [] ==> ForkFresh(st, tr[0]) && ForksFresh(Step(st, tr[0]), tr[1..])
  }

  /**
   Pids stay injective in every state of a run exactly when no fork of the run returned a pid
   that a cache record or another operation still named.
   */
  lemma {:induction false} PidsStayDistinct(st: Sys, tr: seq<Event>)
    requires Inv(st) && OnePerStream(st, tr) && Possible(st, tr) && Distinct(st)
    ensures DistinctThroughout(st, tr) <==> ForksFresh(st, tr)
    decreases |tr|
  {
    if tr != [] {
      InvStep(st, tr[0]);
      DistinctStep(st, tr[0]);
      if ForkFresh(st, tr[0]) {
        PidsStayDistinct(Step(st, tr[0]), tr[1..]);
      }
    }
  }

  /** The name that a kill is about to drop. */
  lemma KillNames(st: Sys, t: Tid) returns (h: Holder)
    requires Inv(st) && Enabled(st, RemoveKill(t))
    ensures Held(st, h) == Some(st.threads[t].info.pid) && StreamOf(st, h) == st.threads[t].info.sid
  {
    var info := st.threads[t].info;
    assert PhaseOk(st.docs, st.threads[t]);
    h := if FindBySid(st.docs, info.sid).None? then InFlight(t) else Cached(info.sid);
  }
}
