/**
 Which workers a run leaves alive: each runs its own stream's command, none is forgotten
 unless a write drops its name, and a kill never reaches another stream.
 */
module StreamWorkers {
  import opened Wrappers
  import opened ProcessStore
  import opened StreamControl
  import opened StreamSafety

  // ----- a worker runs the command of the stream that names it

  function HeldCommand(st: Sys, h: Holder): string
    requires Held(st, h).Some?
  {
    match h
    case Cached(sid) => Command(FindBySid(st.docs, sid).value)
    case InFlight(t) => Command(st.threads[t].info)
  }

  ghost predicate OwnCommand(st: Sys) {
    forall h :: Held(st, h).Some? && Held(st, h).value in st.live
                ==> st.live[Held(st, h).value] == HeldCommand(st, h)
  }

  lemma CommandMoves(st: Sys, ev: Event, h: Holder)
    requires Inv(st) && Enabled(st, ev) && Exclusive(st, ev)
    requires Held(Step(st, ev), h).Some?
    requires !((ev.SpawnFork? || ev.ReloadFork?) && h == InFlight(ev.t))
    ensures Held(st, Source(st, ev, h)) == Held(Step(st, ev), h)
    ensures HeldCommand(st, Source(st, ev, h)) == HeldCommand(Step(st, ev), h)
  {
    NamesMove(st, ev, h);
    match ev
    case SpawnRecord(t, ok) =>
      FindAfterInsert(st.docs, st.threads[t].info.(ppid := st.self, status := "active"), StreamOf(st, h));
    case ReloadUpdate(t, ok) =>
      FindAfterSetPid(st.docs, st.threads[t].info.sid, st.threads[t].info.pid, StreamOf(st, h));
    case RemoveUncache(t, ok) =>
      FindAfterRemove(st.docs, st.threads[t].info.sid, StreamOf(st, h));
    case _ =>
  }

  lemma OwnCommandStep(st: Sys, ev: Event)
    requires Inv(st) && Enabled(st, ev) && Exclusive(st, ev) && ForkFresh(st, ev) && OwnCommand(st)
    ensures OwnCommand(Step(st, ev))
  {
    var st' := Step(st, ev);
    forall h | Held(st', h).Some? && Held(st', h).value in st'.live
      ensures st'.live[Held(st', h).value] == HeldCommand(st', h)
    {
      if !((ev.SpawnFork? || ev.ReloadFork?) && h == InFlight(ev.t)) {
        CommandMoves(st, ev, h);
      }
    }
  }

  // ----- no worker is forgotten

  ghost predicate NoOrphan(st: Sys) {
    forall p :: p in st.live ==> exists h :: Held(st, h) == Some(p)
  }

  /** The name this write drops belongs to a worker that is no longer running. */
  predicate NoLoss(st: Sys, ev: Event)
    requires Inv(st) && Enabled(st, ev)
  {
    match ev
    case SpawnRecord(t, ok) => ok || st.threads[t].info.pid !in st.live
    case ReloadUpdate(t, ok) =>
      var info := st.threads[t].info;
      var dropped := if ok then FindBySid(st.docs, info.sid).value.pid else info.pid;
      dropped !in st.live
    case _ => true
  }

  /** Where the name that h held before the step goes. */
  function Target(st: Sys, ev: Event, h: Holder): Holder
    requires Enabled(st, ev)
  {
    match ev
    case SpawnRecord(t, ok) => if ok && h == InFlight(t) then Cached(st.threads[t].info.sid) else h
    case ReloadUpdate(t, ok) => if ok && h == InFlight(t) then Cached(st.threads[t].info.sid) else h
    case RemoveUncache(t, ok) => if ok && h == Cached(st.threads[t].info.sid) then InFlight(t) else h
    case _ => h
  }

  lemma NamesSurvive(st: Sys, ev: Event, h: Holder)
    requires Inv(st) && Enabled(st, ev) && Exclusive(st, ev) && NoLoss(st, ev)
    requires Held(st, h).Some? && Held(st, h).value in Step(st, ev).live
    requires Held(st, h).value in st.live
    ensures Held(Step(st, ev), Target(st, ev, h)) == Held(st, h)
  {
    HeldStep(st, ev, Target(st, ev, h));
  }

  lemma OrphanStep(st: Sys, ev: Event)
    requires Inv(st) && Distinct(st) && NoOrphan(st)
    requires Enabled(st, ev) && Exclusive(st, ev) && ForkFresh(st, ev)
    ensures NoOrphan(Step(st, ev)) <==> NoLoss(st, ev)
  {
    var st' := Step(st, ev);
    if NoLoss(st, ev) {
      forall p | p in st'.live ensures exists h :: Held(st', h) == Some(p) {
        if p in st.live {
          var h :| Held(st, h) == Some(p);
          NamesSurvive(st, ev, h);
        } else {
          HeldStep(st, ev, InFlight(ev.t));
          assert Held(st', InFlight(ev.t)) == Some(p);
        }
      }
    } else {
      LossMakesOrphan(st, ev);
    }
  }

  /** The dropped name was the worker's only one, so the worker is orphaned. */
  lemma LossMakesOrphan(st: Sys, ev: Event)
    requires Inv(st) && Distinct(st) && Enabled(st, ev) && Exclusive(st, ev) && !NoLoss(st, ev)
    ensures !NoOrphan(Step(st, ev))
  {
    var st' := Step(st, ev);
    var info := st.threads[ev.t].info;
    var holder := if ev.ReloadUpdate? && ev.ok then Cached(info.sid) else InFlight(ev.t);
    var p := Held(st, holder).value;
    forall h ensures Held(st', h) != Some(p) {
      HeldStep(st, ev, h);
      assert h != holder ==> Held(st, h) != Held(st, holder);
      assert Held(st, InFlight(ev.t)) == Some(info.pid);
    }
    assert p in st'.live;
  }

  ghost predicate NoOrphanThroughout(st: Sys, tr: seq<Event>)
    requires Possible(st, tr)
    decreases |tr|
  {
    NoOrphan(st) && (tr != [] ==> NoOrphanThroughout(Step(st, tr[0]), tr[1..]))
  }

  ghost predicate NoLosses(st: Sys, tr: seq<Event>)
    requires Inv(st) && OnePerStream(st, tr)
    decreases |tr|
  {
    tr != [] ==> NoLoss(st, tr[0]) && (InvStep(st, tr[0]); NoLosses(Step(st, tr[0]), tr[1..]))
  }

  /**
   Along a run whose forks are fresh, every worker keeps a name in every state exactly when
   each write drops only names of dead workers.
   */
  lemma {:induction false} OrphansComeFromLosses(st: Sys, tr: seq<Event>)
    requires Inv(st) && Distinct(st) && NoOrphan(st)
    requires OnePerStream(st, tr) && Possible(st, tr) && ForksFresh(st, tr)
    ensures NoOrphanThroughout(st, tr) <==> NoLosses(st, tr)
    decreases |tr|
  {
    if tr != [] {
      InvStep(st, tr[0]);
      DistinctStep(st, tr[0]);
      OrphanStep(st, tr[0]);
      if NoLoss(st, tr[0]) {
        OrphansComeFromLosses(Step(st, tr[0]), tr[1..]);
      }
    }
  }

  // ----- a condition the caller can check before the call

  /** Writes succeed, and a reload starts only on a stream whose worker is dead. */
  predicate Careful(st: Sys, ev: Event)
    requires Enabled(st, ev)
  {
    match ev
    case SpawnRecord(_, ok) => ok
    case ReloadUpdate(_, ok) => ok
    case ReloadLookup(_, sid, reached) =>
      var found := Lookup(st.docs, sid, reached);
      found.Some? ==> found.value.pid !in st.live
    case DetectLookup(t, reached) =>
      var found := LookupPid(st.docs, st.threads[t].info.pid, reached);
      found.Some? ==> found.value.pid !in st.live
    case _ => true
  }

  ghost predicate CarefulThroughout(st: Sys, tr: seq<Event>)
    requires Possible(st, tr)
    decreases |tr|
  {
    tr != [] ==> Careful(st, tr[0]) && CarefulThroughout(Step(st, tr[0]), tr[1..])
  }

  predicate Reloading(st: Sys, t: Tid) {
    t in st.threads && (st.threads[t].ReloadFound? || st.threads[t].ReloadForked?)
  }

  /** The record of this stream names no running process. */
  predicate WorkerDead(st: Sys, sid: string) {
    var named := Held(st, Cached(sid));
    named.Some? && named.value !in st.live
  }

  ghost predicate ReloadsOfDead(st: Sys) {
    forall t :: Reloading(st, t) ==> WorkerDead(st, st.threads[t].info.sid)
  }

  lemma ReloadStarts(st: Sys, ev: Event)
    requires Inv(st) && (ev.ReloadLookup? || ev.DetectLookup?)
    requires Enabled(st, ev) && Careful(st, ev) && Reloading(Step(st, ev), ev.t)
    ensures WorkerDead(Step(st, ev), Step(st, ev).threads[ev.t].info.sid)
  {
    if ev.DetectLookup? {
      StoredIsFound(st.docs, FindByPid(st.docs, st.threads[ev.t].info.pid).value);
    }
  }

  /** The record of a stream being reloaded keeps its pid until the reload writes it. */
  lemma ReloadedKeepsName(st: Sys, ev: Event, t: Tid)
    requires Inv(st) && Enabled(st, ev) && Exclusive(st, ev)
    requires Reloading(st, t) && Reloading(Step(st, ev), t)
    ensures var sid := st.threads[t].info.sid;
            Held(Step(st, ev), Cached(sid)) == Held(st, Cached(sid)) && Step(st, ev).threads[t].info.sid == sid
  {
    HeldStep(st, ev, Cached(st.threads[t].info.sid));
    ReloadKeepsStream(st, ev, t);
    WrittenElsewhere(st, ev, t);
  }

  lemma ReloadKeepsStream(st: Sys, ev: Event, t: Tid)
    requires Enabled(st, ev) && Reloading(st, t) && Reloading(Step(st, ev), t)
    ensures Step(st, ev).threads[t].info.sid == st.threads[t].info.sid
    ensures !(ev.ReloadUpdate? && ev.t == t)
  {
  }

  lemma WrittenElsewhere(st: Sys, ev: Event, t: Tid)
    requires Inv(st) && Enabled(st, ev) && Reloading(st, t) && !(ev.ReloadUpdate? && ev.t == t)
    ensures var h := Cached(st.threads[t].info.sid); HeldAfter(st, ev, h) == Held(st, h)
  {
    if ev.SpawnRecord? || ev.ReloadUpdate? || ev.RemoveUncache? {
      assert Working(st, ev.t) && Working(st, t) && ev.t != t;
    }
  }

  lemma OnlyForksBring(st: Sys, ev: Event, p: int)
    requires Enabled(st, ev) && p in Step(st, ev).live && p !in st.live
    ensures (ev.SpawnFork? || ev.ReloadFork?) && ev.child == Some(p)
  {
  }

  lemma DeadStaysDead(st: Sys, ev: Event, t: Tid)
    requires Inv(st) && Enabled(st, ev) && Exclusive(st, ev) && ForkFresh(st, ev)
    requires Reloading(st, t) && Reloading(Step(st, ev), t) && WorkerDead(st, st.threads[t].info.sid)
    ensures WorkerDead(Step(st, ev), Step(st, ev).threads[t].info.sid)
  {
    ReloadedKeepsName(st, ev, t);
    var p := Held(st, Cached(st.threads[t].info.sid)).value;
    if p in Step(st, ev).live {
      OnlyForksBring(st, ev, p);
    }
  }

  lemma ReloadsOfDeadStep(st: Sys, ev: Event)
    requires Inv(st) && ReloadsOfDead(st)
    requires Enabled(st, ev) && Exclusive(st, ev) && ForkFresh(st, ev) && Careful(st, ev)
    ensures NoLoss(st, ev) && ReloadsOfDead(Step(st, ev))
  {
    if ev.ReloadUpdate? {
      assert Reloading(st, ev.t);
    }
    var st' := Step(st, ev);
    forall t | Reloading(st', t) ensures WorkerDead(st', st'.threads[t].info.sid) {
      if Reloading(st, t) {
        DeadStaysDead(st, ev, t);
      } else {
        ReloadStarts(st, ev);
      }
    }
  }

  /** Careful callers never orphan a worker, whatever the interleaving. */
  lemma {:induction false} CarefulRunsLoseNothing(st: Sys, tr: seq<Event>)
    requires Inv(st) && ReloadsOfDead(st)
    requires OnePerStream(st, tr) && Possible(st, tr) && ForksFresh(st, tr) && CarefulThroughout(st, tr)
    ensures NoLosses(st, tr)
    decreases |tr|
  {
    if tr != [] {
      InvStep(st, tr[0]);
      ReloadsOfDeadStep(st, tr[0]);
      CarefulRunsLoseNothing(Step(st, tr[0]), tr[1..]);
    }
  }

  // ----- counting

  lemma SubsetCard(a: set<int>, b: set<int>)
    requires a <= b
    ensures |a| <= |b|
  {
    assert b == a + (b - a);
  }

  lemma {:induction false} RecordPids(docs: seq<ProcessInfo>)
    ensures |set d | d in docs :: d.pid| <= |docs|
  {
    if docs == [] {
      assert (set d | d in docs :: d.pid) == {};
    } else {
      RecordPids(docs[1..]);
      var rest := set d | d in docs[1..] :: d.pid;
      assert (set d | d in docs :: d.pid) == rest + {docs[0].pid};
    }
  }

  lemma {:induction false} ThreadPids(threads: map<Tid, Phase>, ts: set<Tid>)
    requires ts <= threads.Keys
    ensures |set t | t in ts :: threads[t].info.pid| <= |ts|
  {
    var pids := set t | t in ts :: threads[t].info.pid;
    if ts == {} {
      assert pids == {};
    } else {
      var t :| t in ts;
      ThreadPids(threads, ts - {t});
      var rest := set u | u in ts - {t} :: threads[u].info.pid;
      assert pids == rest + {threads[t].info.pid};
    }
  }

  lemma WorkersAreBounded(st: Sys)
    requires NoOrphan(st)
    ensures |st.live| <= |st.docs| + |st.threads|
  {
    var records := set d | d in st.docs :: d.pid;
    var inFlight := set t | t in st.threads :: st.threads[t].info.pid;
    RecordPids(st.docs);
    ThreadPids(st.threads, st.threads.Keys);
    forall p | p in st.live.Keys ensures p in records + inFlight {
      var h :| Held(st, h) == Some(p);
    }
    SubsetCard(st.live.Keys, records + inFlight);
    assert |records + inFlight| == |records| + |inFlight| - |records * inFlight|;
  }

  // ----- the whole-run statements

  ghost predicate Healthy(st: Sys) {
    Inv(st) && Distinct(st) && OwnCommand(st) && NoOrphan(st) && ReloadsOfDead(st)
  }

  /** An empty cache and no workers, which is how a first deployment starts. */
  lemma FirstStartIsHealthy(self: int)
    ensures Healthy(Sys(self, [], map[], map[]))
  {
  }

  lemma {:induction false} HealthyRun(st: Sys, tr: seq<Event>)
    requires Healthy(st)
    requires OnePerStream(st, tr) && Possible(st, tr) && ForksFresh(st, tr) && CarefulThroughout(st, tr)
    ensures Healthy(Run(st, tr))
    decreases |tr|
  {
    if tr != [] {
      InvStep(st, tr[0]);
      DistinctStep(st, tr[0]);
      OwnCommandStep(st, tr[0]);
      ReloadsOfDeadStep(st, tr[0]);
      OrphanStep(st, tr[0]);
      HealthyRun(Step(st, tr[0]), tr[1..]);
    }
  }

  /** Exactly one holder names p, and p runs the command of that holder's stream. */
  ghost predicate NamedOnce(st: Sys, p: int)
    requires p in st.live
  {
    exists h :: (Held(st, h) == Some(p) && st.live[p] == HeldCommand(st, h)
                 && forall k :: Held(st, k) == Some(p) ==> k == h)
  }

  /**
   After any interleaving of careful operations each live worker is named by exactly one cache
   record or operation in flight and runs the command of the stream that names it; once nothing
   is in flight the cache names them all and has at least as many records as there are workers.
   */
  lemma EveryWorkerHasOneName(st: Sys, tr: seq<Event>)
    requires Healthy(st)
    requires OnePerStream(st, tr) && Possible(st, tr) && ForksFresh(st, tr) && CarefulThroughout(st, tr)
    ensures var end := Run(st, tr);
            && (forall p :: p in end.live ==> NamedOnce(end, p))
            && |end.live| <= |end.docs| + |end.threads|
            && (end.threads == map[] ==> forall p :: p in end.live ==> exists d :: d in end.docs && d.pid == p)
  {
    HealthyRun(st, tr);
    var end := Run(st, tr);
    WorkersAreBounded(end);
    forall p | p in end.live ensures NamedOnce(end, p) {
      var h :| Held(end, h) == Some(p);
    }
    if end.threads == map[] {
      forall p | p in end.live ensures exists d :: d in end.docs && d.pid == p {
        var h :| Held(end, h) == Some(p);
        assert FindBySid(end.docs, h.sid).value in end.docs;
      }
    }
  }

  /** With one operation per stream fresh forks alone keep a kill away from other streams' workers. */
  lemma ExclusiveKillHitsOwn(st: Sys, tr: seq<Event>, t: Tid, h: Holder)
    requires Inv(st) && Distinct(st)
    requires OnePerStream(st, tr) && Possible(st, tr) && ForksFresh(st, tr)
    requires Enabled(Run(st, tr), RemoveKill(t))
    requires var end := Run(st, tr);
             Held(end, h).Some? && StreamOf(end, h) != end.threads[t].info.sid
    ensures var end := Run(st, tr); var end' := Step(end, RemoveKill(t));
            && Held(end', h) == Held(end, h)
            && (Held(end, h).value in end.live <==> Held(end, h).value in end'.live)
            && end.threads[t].info.pid !in end'.live
  {
    InvAlways(st, tr);
    DistinctAlways(st, tr);
    KillIsLocal(Run(st, tr), t, h);
  }

  lemma KillIsLocal(st: Sys, t: Tid, h: Holder)
    requires Inv(st) && Distinct(st) && Enabled(st, RemoveKill(t))
    requires Held(st, h).Some? && StreamOf(st, h) != st.threads[t].info.sid
    ensures var st' := Step(st, RemoveKill(t));
            && Held(st', h) == Held(st, h)
            && (Held(st, h).value in st.live <==> Held(st, h).value in st'.live)
            && st.threads[t].info.pid !in st'.live
  {
    var own := KillNames(st, t);
    assert Held(st, h) != Held(st, own);
    HeldStep(st, RemoveKill(t), h);
  }

  lemma {:induction false} DistinctAlways(st: Sys, tr: seq<Event>)
    requires Inv(st) && Distinct(st)
    requires OnePerStream(st, tr) && Possible(st, tr) && ForksFresh(st, tr)
    ensures Distinct(Run(st, tr))
    decreases |tr|
  {
    if tr != [] {
      InvStep(st, tr[0]);
      DistinctStep(st, tr[0]);
      DistinctAlways(Step(st, tr[0]), tr[1..]);
    }
  }
}
