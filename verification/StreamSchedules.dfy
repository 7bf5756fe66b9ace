/**
 Schedules the code does not exclude.  Each shows, for every state of the stated kind, that a
 condition of the safety statements cannot be dropped.
 */
module StreamSchedules {
  import opened Wrappers
  import opened ProcessStore
  import opened StreamControl
  import opened StreamSafety
  import opened StreamPids
  import opened StreamHistory

  lemma RunCons(st: Sys, ev: Event, rest: seq<Event>)
    requires Enabled(st, ev) && Possible(Step(st, ev), rest)
    ensures Possible(st, [ev] + rest) && Run(st, [ev] + rest) == Run(Step(st, ev), rest)
    ensures OnePerStream(st, [ev] + rest) <==> Exclusive(st, ev) && OnePerStream(Step(st, ev), rest)
    ensures ForksFresh(st, [ev] + rest) <==> ForkFresh(st, ev) && ForksFresh(Step(st, ev), rest)
    ensures AllFresh(st, [ev] + rest) <==> FreshAll(st, ev) && AllFresh(Step(st, ev), rest)
  {
    assert ([ev] + rest)[1..] == rest;
  }

  /** Two steps in a row. */
  lemma RunTwo(st: Sys, a: Event, b: Event)
    requires Enabled(st, a) && Enabled(Step(st, a), b)
    ensures var tr := [a] + ([b] + []); var st1 := Step(st, a);
            && Possible(st, tr) && Run(st, tr) == Step(st1, b)
            && (OnePerStream(st, tr) <==> Exclusive(st, a) && Exclusive(st1, b))
            && (ForksFresh(st, tr) <==> ForkFresh(st, a) && ForkFresh(st1, b))
            && (AllFresh(st, tr) <==> FreshAll(st, a) && FreshAll(st1, b))
  {
    RunCons(Step(st, a), b, []);
    RunCons(st, a, [b] + []);
  }

  /** Three steps in a row. */
  lemma RunThree(st: Sys, a: Event, b: Event, c: Event)
    requires Enabled(st, a) && Enabled(Step(st, a), b) && Enabled(Step(Step(st, a), b), c)
    ensures var tr := [a] + ([b] + ([c] + [])); var st1 := Step(st, a); var st2 := Step(st1, b);
            && Possible(st, tr) && Run(st, tr) == Step(st2, c)
            && (OnePerStream(st, tr) <==> Exclusive(st, a) && Exclusive(st1, b) && Exclusive(st2, c))
            && (ForksFresh(st, tr) <==> ForkFresh(st, a) && ForkFresh(st1, b) && ForkFresh(st2, c))
            && (AllFresh(st, tr) <==> FreshAll(st, a) && FreshAll(st1, b) && FreshAll(st2, c))
  {
    var st1 := Step(st, a);
    var st2 := Step(st1, b);
    RunCons(st2, c, []);
    RunCons(st1, b, [c] + []);
    RunCons(st, a, [b] + ([c] + []));
  }

  lemma {:induction false} RunConcat(st: Sys, a: seq<Event>, b: seq<Event>)
    requires Possible(st, a) && Possible(Run(st, a), b)
    ensures Possible(st, a + b) && Run(st, a + b) == Run(Run(st, a), b)
    ensures OnePerStream(st, a + b) <==> OnePerStream(st, a) && OnePerStream(Run(st, a), b)
    ensures ForksFresh(st, a + b) <==> ForksFresh(st, a) && ForksFresh(Run(st, a), b)
    ensures AllFresh(st, a + b) <==> AllFresh(st, a) && AllFresh(Run(st, a), b)
    decreases |a|
  {
    if a == [] {
      assert a + b == b;
    } else {
      assert (a + b)[0] == a[0] && (a + b)[1..] == a[1..] + b;
      RunConcat(Step(st, a[0]), a[1..], b);
    }
  }

  // ----- operations that nothing interrupts

  function SpawnTrace(t: Tid, param: ProcessInfo, reached: bool, p: int): seq<Event> {
    [SpawnCheck(t, param, reached)] + ([SpawnFork(t, Some(p))] + ([SpawnRecord(t, true)] + []))
  }

  function Spawned(st: Sys, param: ProcessInfo, p: int): Sys {
    st.(docs := Insert(st.docs, param.(pid := p), st.self), live := st.live[p := Command(param)])
  }

  /** A spawn that nothing interrupts, told by its lookup that the stream is not there. */
  lemma SpawnAlone(st: Sys, t: Tid, param: ProcessInfo, reached: bool, p: int)
    requires t !in st.threads && Idle(st, param.sid) && Lookup(st.docs, param.sid, reached).None?
    requires p > 0 && p != st.self && p !in st.live
    ensures var tr := SpawnTrace(t, param, reached, p);
            && Possible(st, tr) && Run(st, tr) == Spawned(st, param, p)
            && (OnePerStream(st, tr) <==> FindBySid(st.docs, param.sid).None?)
            && (ForksFresh(st, tr) <==> forall h :: Held(st, h) != Some(p))
            && (AllFresh(st, tr) <==> forall n :: Valid(st, n) ==> Record(st, n).pid != p)
  {
    var st1 := Step(st, SpawnCheck(t, param, reached));
    var st2 := Step(st1, SpawnFork(t, Some(p)));
    RunThree(st, SpawnCheck(t, param, reached), SpawnFork(t, Some(p)), SpawnRecord(t, true));
    assert Step(st2, SpawnRecord(t, true)).threads == st.threads;
    forall h ensures Held(st1, h) == Held(st, h) {
      HeldStart(st, SpawnCheck(t, param, reached), h);
    }
    CheckKeepsNames(st, t, param, reached);
  }

  lemma CheckKeepsNames(st: Sys, t: Tid, param: ProcessInfo, reached: bool)
    requires Enabled(st, SpawnCheck(t, param, reached))
    ensures var st1 := Step(st, SpawnCheck(t, param, reached));
            forall n :: (Valid(st1, n) <==> Valid(st, n)) && (Valid(st, n) ==> Record(st1, n) == Record(st, n))
  {
  }

  function RemoveTrace(t: Tid, sid: string): seq<Event> {
    [RemoveLookup(t, sid, true)] + ([RemoveUncache(t, true)] + ([RemoveKill(t)] + []))
  }

  lemma RemoveAlone(st: Sys, t: Tid, sid: string)
    requires t !in st.threads && Idle(st, sid) && FindBySid(st.docs, sid).Some?
    ensures var tr := RemoveTrace(t, sid);
            && Possible(st, tr) && OnePerStream(st, tr)
            && Run(st, tr) == st.(docs := RemoveBySid(st.docs, sid),
                                  live := st.live - {FindBySid(st.docs, sid).value.pid})
  {
    var st1 := Step(st, RemoveLookup(t, sid, true));
    var st2 := Step(st1, RemoveUncache(t, true));
    RunThree(st, RemoveLookup(t, sid, true), RemoveUncache(t, true), RemoveKill(t));
    assert Step(st2, RemoveKill(t)).threads == st.threads;
  }

  function ReloadTrace(t: Tid, sid: string, p: int): seq<Event> {
    [ReloadLookup(t, sid, true)] + ([ReloadFork(t, Some(p))] + ([ReloadUpdate(t, true)] + []))
  }

  function Reloaded(st: Sys, d: ProcessInfo, p: int): Sys {
    st.(docs := SetPid(st.docs, d.sid, p), live := st.live[p := Command(d)])
  }

  lemma ReloadAlone(st: Sys, t: Tid, d: ProcessInfo, p: int)
    requires t !in st.threads && Idle(st, d.sid) && FindBySid(st.docs, d.sid) == Some(d)
    requires p > 0 && p != st.self && p !in st.live
    ensures var tr := ReloadTrace(t, d.sid, p);
            && Possible(st, tr) && OnePerStream(st, tr) && Run(st, tr) == Reloaded(st, d, p)
            && (ForksFresh(st, tr) <==> forall h :: Held(st, h) != Some(p))
  {
    var st1 := Step(st, ReloadLookup(t, d.sid, true));
    var st2 := Step(st1, ReloadFork(t, Some(p)));
    RunThree(st, ReloadLookup(t, d.sid, true), ReloadFork(t, Some(p)), ReloadUpdate(t, true));
    assert Step(st2, ReloadUpdate(t, true)).threads == st.threads;
    forall h ensures Held(st1, h) == Held(st, h) {
      HeldStart(st, ReloadLookup(t, d.sid, true), h);
    }
  }

  /** Who names what after such a reload. */
  lemma HeldAfterReload(st: Sys, d: ProcessInfo, p: int, h: Holder)
    requires Inv(st) && Idle(st, d.sid) && FindBySid(st.docs, d.sid) == Some(d)
    ensures Held(Reloaded(st, d, p), h) == if h == Cached(d.sid) then Some(p) else Held(st, h)
  {
    FindAfterSetPid(st.docs, d.sid, p, StreamOf(st, h));
  }

  lemma HeldAfterSpawn(st: Sys, param: ProcessInfo, p: int, h: Holder)
    requires Inv(st) && Idle(st, param.sid) && FindBySid(st.docs, param.sid).None?
    ensures Held(Spawned(st, param, p), h) == if h == Cached(param.sid) then Some(p) else Held(st, h)
  {
    FindAfterInsert(st.docs, param.(pid := p, ppid := st.self, status := "active"), StreamOf(st, h));
  }

  // ----- a fork hands out the pid of a dead but cached worker

  /**
   When a new stream's fork returns the pid of a dead worker whose record is still cached,
   removing the old stream kills the new stream's worker and leaves its record behind.
   */
  lemma ReusedPidIsKilled(st: Sys, stale: ProcessInfo, param: ProcessInfo)
    requires Inv(st) && st.threads == map[]
    requires FindBySid(st.docs, stale.sid) == Some(stale) && stale.pid > 0 && stale.pid != st.self
    requires stale.pid !in st.live && FindBySid(st.docs, param.sid).None?
    ensures Possible(st, SpawnTrace(0, param, true, stale.pid))
    ensures var mid := Run(st, SpawnTrace(0, param, true, stale.pid));
            && OnePerStream(st, SpawnTrace(0, param, true, stale.pid))
            && stale.pid in mid.live && mid.live[stale.pid] == Command(param)
            && Possible(mid, RemoveTrace(1, stale.sid)) && OnePerStream(mid, RemoveTrace(1, stale.sid))
            && var end := Run(mid, RemoveTrace(1, stale.sid));
            && Held(end, Cached(param.sid)) == Some(stale.pid) && stale.pid !in end.live
  {
    SpawnAlone(st, 0, param, true, stale.pid);
    var mid := Spawned(st, param, stale.pid);
    var d := param.(pid := stale.pid, ppid := st.self, status := "active");
    FindAfterInsert(st.docs, d, stale.sid);
    FindAfterInsert(st.docs, d, param.sid);
    InsertKeepsUnique(st.docs, d);
    RemoveAlone(mid, 1, stale.sid);
    FindAfterRemove(mid.docs, stale.sid, param.sid);
  }

  // ----- a write that is lost

  /** The spawn answers Ok all the same; its worker runs and nothing names it. */
  lemma LostWriteOrphans(st: Sys, param: ProcessInfo, p: int)
    requires Inv(st) && st.threads == map[] && FindBySid(st.docs, param.sid).None?
    requires p > 0 && p != st.self && p !in st.live && forall h :: Held(st, h) != Some(p)
    ensures var tr := [SpawnCheck(0, param, true)] + ([SpawnFork(0, Some(p))] + ([SpawnRecord(0, false)] + []));
            && Possible(st, tr) && OnePerStream(st, tr) && ForksFresh(st, tr)
            && Run(st, tr) == st.(live := st.live[p := Command(param)])
            && forall h :: Held(Run(st, tr), h) != Some(p)
  {
    var st1 := Step(st, SpawnCheck(0, param, true));
    var st2 := Step(st1, SpawnFork(0, Some(p)));
    RunThree(st, SpawnCheck(0, param, true), SpawnFork(0, Some(p)), SpawnRecord(0, false));
    assert Step(st2, SpawnRecord(0, false)).threads == st.threads;
    forall h ensures Held(st1, h) == Held(st, h) {
      HeldStart(st, SpawnCheck(0, param, true), h);
    }
    var end := Step(st2, SpawnRecord(0, false));
    assert end.docs == st.docs && end.threads == st.threads;
    forall h ensures Held(end, h) == Held(st, h) {
    }
  }

  // ----- a lookup that does not reach the database

  /** A spawn whose lookup misses stores a cached stream a second time, with a second worker. */
  lemma MissedLookupDuplicates(st: Sys, param: ProcessInfo, p: int)
    requires Inv(st) && st.threads == map[] && FindBySid(st.docs, param.sid).Some?
    requires p > 0 && p != st.self && p !in st.live
    ensures var tr := SpawnTrace(0, param, false, p);
            && Possible(st, tr) && !OnePerStream(st, tr) && !InsertsFresh(st, tr)
            && !UniqueSids(Run(st, tr).docs) && Run(st, tr).live == st.live[p := Command(param)]
  {
    var tr := SpawnTrace(0, param, false, p);
    SpawnAlone(st, 0, param, false, p);
    InsertKeepsUnique(st.docs, param.(pid := p, ppid := st.self, status := "active"));
    StoredOnceIff(st, tr);
    if UniqueThroughout(st, tr) {
      UniqueAtEnd(st, tr);
    }
  }

  lemma {:induction false} UniqueAtEnd(st: Sys, tr: seq<Event>)
    requires Possible(st, tr) && UniqueThroughout(st, tr)
    ensures UniqueSids(Run(st, tr).docs)
    decreases |tr|
  {
    if tr != [] {
      UniqueAtEnd(Step(st, tr[0]), tr[1..]);
    }
  }

  // ----- two spawns of one stream overlap

  function OverlapTrace(param: ProcessInfo, p: int, q: int): seq<Event> {
    [SpawnCheck(0, param, true)] + ([SpawnCheck(1, param, true)] + ([SpawnFork(0, Some(p))] + ([SpawnFork(1, Some(q))]
      + ([SpawnRecord(0, true)] + ([SpawnRecord(1, true)] + [])))))
  }

  /**
   With two or more worker threads the queue hands consecutive requests to different ones, so two
   spawns of one stream may both pass the check: both succeed, the stream is stored twice with two
   live workers, and a later remove takes only one of them away.
   */
  lemma OverlappingSpawnsDuplicate(st: Sys, param: ProcessInfo, p: int, q: int)
    requires Inv(st) && st.threads == map[] && FindBySid(st.docs, param.sid).None?
    requires p > 0 && q > 0 && p != q && p != st.self && q != st.self && p !in st.live && q !in st.live
    ensures Possible(st, OverlapTrace(param, p, q)) && !OnePerStream(st, OverlapTrace(param, p, q))
    ensures var end := Run(st, OverlapTrace(param, p, q));
            && !UniqueSids(end.docs) && p in end.live && q in end.live
            && Possible(end, RemoveTrace(0, param.sid))
            && var gone := Run(end, RemoveTrace(0, param.sid));
            && Held(gone, Cached(param.sid)) == Some(q) && q in gone.live
  {
    OverlapRuns(st, param, p, q);
    var end := Run(st, OverlapTrace(param, p, q));
    var d := param.(pid := p, ppid := st.self, status := "active");
    var e := param.(pid := q, ppid := st.self, status := "active");
    InsertKeepsUnique(st.docs, d);
    FindAfterInsert(st.docs, d, param.sid);
    InsertKeepsUnique(st.docs + [d], e);
    FindAfterInsert(st.docs + [d], e, param.sid);
    RemoveAlone(end, 0, param.sid);
    SecondCopyRemains(st.docs, d, e);
  }

  lemma OverlapRuns(st: Sys, param: ProcessInfo, p: int, q: int)
    requires Inv(st) && st.threads == map[] && FindBySid(st.docs, param.sid).None?
    requires p > 0 && q > 0 && p != q && p != st.self && q != st.self && p !in st.live && q !in st.live
    ensures var tr := OverlapTrace(param, p, q);
            && Possible(st, tr) && !OnePerStream(st, tr)
            && Run(st, tr) == Spawned(Spawned(st, param, p), param, q)
  {
    var st1 := Step(st, SpawnCheck(0, param, true));
    var st2 := Step(st1, SpawnCheck(1, param, true));
    OverlapForks(st2, param, p, q);
    var tr3 := [SpawnFork(0, Some(p))] + ([SpawnFork(1, Some(q))]
      + ([SpawnRecord(0, true)] + ([SpawnRecord(1, true)] + [])));
    RunCons(st1, SpawnCheck(1, param, true), tr3);
    RunCons(st, SpawnCheck(0, param, true), [SpawnCheck(1, param, true)] + tr3);
    assert !Exclusive(st1, SpawnCheck(1, param, true)) by {
      assert Working(st1, 0) && st1.threads[0].info.sid == param.sid;
    }
    assert st2.threads - {0} - {1} == map[];
  }

  lemma OverlapForks(st: Sys, param: ProcessInfo, p: int, q: int)
    requires st.threads == map[0 := SpawnChecked(param), 1 := SpawnChecked(param)]
    requires p > 0 && q > 0 && p != q && p != st.self && q != st.self && p !in st.live && q !in st.live
    ensures var tr := [SpawnFork(0, Some(p))] + ([SpawnFork(1, Some(q))]
                        + ([SpawnRecord(0, true)] + ([SpawnRecord(1, true)] + [])));
            && Possible(st, tr)
            && Run(st, tr) == Spawned(Spawned(st.(threads := map[]), param, p), param, q)
  {
    var st1 := Step(st, SpawnFork(0, Some(p)));
    var st2 := Step(st1, SpawnFork(1, Some(q)));
    var st3 := Step(st2, SpawnRecord(0, true));
    var tr4 := [SpawnRecord(1, true)] + [];
    RunCons(st3, SpawnRecord(1, true), []);
    RunCons(st2, SpawnRecord(0, true), tr4);
    RunCons(st1, SpawnFork(1, Some(q)), [SpawnRecord(0, true)] + tr4);
    RunCons(st, SpawnFork(0, Some(p)), [SpawnFork(1, Some(q))] + ([SpawnRecord(0, true)] + tr4));
    assert Step(st3, SpawnRecord(1, true)).threads == map[];
  }

  lemma {:induction false} SecondCopyRemains(docs: seq<ProcessInfo>, d: ProcessInfo, e: ProcessInfo)
    requires FindBySid(docs, d.sid).None? && e.sid == d.sid
    ensures FindBySid(RemoveBySid(docs + [d] + [e], d.sid), d.sid) == Some(e)
  {
    if docs == [] {
      assert docs + [d] + [e] == [d, e];
    } else {
      assert (docs + [d] + [e])[1..] == docs[1..] + [d] + [e];
      SecondCopyRemains(docs[1..], d, e);
      assert RemoveBySid(docs + [d] + [e], d.sid)[1..] == RemoveBySid(docs[1..] + [d] + [e], d.sid);
    }
  }

  // ----- two removes of one stream overlap

  function BothLookUp(sid: string): seq<Event> {
    [RemoveLookup(0, sid, true)] + ([RemoveLookup(1, sid, true)] + [])
  }

  function Finish(t: Tid): seq<Event> {
    [RemoveUncache(t, true)] + ([RemoveKill(t)] + [])
  }

  /** Both look the stream up, and the first goes through. */
  function FirstRemove(sid: string): seq<Event> {
    BothLookUp(sid) + Finish(0)
  }

  function SecondRemove(): seq<Event> {
    Finish(1)
  }

  lemma BothLookUpRuns(st: Sys, a: ProcessInfo)
    requires st.threads == map[] && FindBySid(st.docs, a.sid) == Some(a)
    ensures var tr := BothLookUp(a.sid);
            && Possible(st, tr) && !OnePerStream(st, tr) && ForksFresh(st, tr) && AllFresh(st, tr)
            && Run(st, tr) == st.(threads := map[0 := RemoveFound(a), 1 := RemoveFound(a)])
  {
    var st1 := Step(st, RemoveLookup(0, a.sid, true));
    RunTwo(st, RemoveLookup(0, a.sid, true), RemoveLookup(1, a.sid, true));
    assert Working(st1, 0) && st1.threads[0].info.sid == a.sid;
  }

  lemma FinishRuns(st: Sys, t: Tid, a: ProcessInfo)
    requires t in st.threads && st.threads[t] == RemoveFound(a)
    ensures var tr := Finish(t);
            && Possible(st, tr) && ForksFresh(st, tr) && AllFresh(st, tr)
            && Run(st, tr) == st.(docs := RemoveBySid(st.docs, a.sid), live := st.live - {a.pid},
                                  threads := st.threads - {t})
  {
    var st1 := Step(st, RemoveUncache(t, true));
    RunTwo(st, RemoveUncache(t, true), RemoveKill(t));
    assert Step(st1, RemoveKill(t)).threads == st.threads - {t};
  }

  lemma FirstRemoveRuns(st: Sys, a: ProcessInfo)
    requires st.threads == map[] && FindBySid(st.docs, a.sid) == Some(a)
    ensures var tr := FirstRemove(a.sid);
            && Possible(st, tr) && !OnePerStream(st, tr) && ForksFresh(st, tr) && AllFresh(st, tr)
            && Run(st, tr) == st.(docs := RemoveBySid(st.docs, a.sid), live := st.live - {a.pid},
                                  threads := map[1 := RemoveFound(a)])
  {
    BothLookUpRuns(st, a);
    var st2 := Run(st, BothLookUp(a.sid));
    FinishRuns(st2, 0, a);
    assert st2.threads - {0} == map[1 := RemoveFound(a)];
    RunConcat(st, BothLookUp(a.sid), Finish(0));
  }

  lemma SecondRemoveRuns(st: Sys, a: ProcessInfo)
    requires st.threads == map[1 := RemoveFound(a)] && FindBySid(st.docs, a.sid).None?
    ensures var tr := SecondRemove();
            && Possible(st, tr) && ForksFresh(st, tr) && AllFresh(st, tr)
            && Run(st, tr) == st.(live := st.live - {a.pid}, threads := map[])
  {
    FinishRuns(st, 1, a);
    NothingRemoved(st.docs, a.sid);
    assert st.threads - {1} == map[];
  }

  lemma {:induction false} NothingRemoved(docs: seq<ProcessInfo>, sid: string)
    requires FindBySid(docs, sid).None?
    ensures RemoveBySid(docs, sid) == docs
  {
    if docs != [] {
      NothingRemoved(docs[1..], sid);
    }
  }

  /** Both answer Ok, no write is lost, and one record goes. */
  lemma OverlappingRemovesTakeOne(st: Sys, a: ProcessInfo)
    requires Inv(st) && st.threads == map[] && FindBySid(st.docs, a.sid) == Some(a)
    ensures var tr := FirstRemove(a.sid) + SecondRemove();
            && Possible(st, tr) && WritesKept(tr) && !EffectiveThroughout(st, tr)
            && SpawnsOk(tr) == 0 && RemovesOk(tr) == 2
            && Run(st, tr).threads == map[] && |Run(st, tr).docs| == |st.docs| - 1
  {
    var tr := FirstRemove(a.sid) + SecondRemove();
    FirstRemoveRuns(st, a);
    FindAfterRemove(st.docs, a.sid, a.sid);
    SecondRemoveRuns(Run(st, FirstRemove(a.sid)), a);
    RunConcat(st, FirstRemove(a.sid), SecondRemove());
    TwoAnswers(a.sid);
    if EffectiveThroughout(st, tr) {
      RecordCount(st, tr);
    }
  }

  lemma TwoAnswers(sid: string)
    ensures var tr := FirstRemove(sid) + SecondRemove();
            WritesKept(tr) && SpawnsOk(tr) == 0 && RemovesOk(tr) == 2
  {
    var tr := FirstRemove(sid) + SecondRemove();
    assert tr == [RemoveLookup(0, sid, true), RemoveLookup(1, sid, true), RemoveUncache(0, true), RemoveKill(0),
                  RemoveUncache(1, true), RemoveKill(1)];
    assert tr[4..] == [RemoveUncache(1, true), RemoveKill(1)];
    assert tr[3..] == [RemoveKill(0)] + tr[4..] && tr[2..] == [RemoveUncache(0, true)] + tr[3..];
    assert tr[1..] == [RemoveLookup(1, sid, true)] + tr[2..];
    assert WritesKept(tr[5..]) && RemovesOk(tr[5..]) == 1 && SpawnsOk(tr[5..]) == 0;
    assert WritesKept(tr[4..]) && RemovesOk(tr[4..]) == 1 && SpawnsOk(tr[4..]) == 0;
    assert WritesKept(tr[3..]) && RemovesOk(tr[3..]) == 2 && SpawnsOk(tr[3..]) == 0;
    assert WritesKept(tr[2..]) && RemovesOk(tr[2..]) == 2 && SpawnsOk(tr[2..]) == 0;
    assert WritesKept(tr[1..]) && RemovesOk(tr[1..]) == 2 && SpawnsOk(tr[1..]) == 0;
  }

  /**
   When a fork for another stream returns the killed pid between the two kills, which is fresh for
   everybody's records and forks, the second kill ends that stream's worker and leaves its record.
   */
  lemma OverlappingRemovesKillOther(st: Sys, a: ProcessInfo, b: ProcessInfo)
    requires Inv(st) && Distinct(st) && st.threads == map[]
    requires FindBySid(st.docs, a.sid) == Some(a) && FindBySid(st.docs, b.sid).None?
    requires a.pid > 0 && a.pid != st.self
    ensures var tr := FirstRemove(a.sid) + (SpawnTrace(2, b, true, a.pid) + SecondRemove());
            && Possible(st, tr) && ForksFresh(st, tr) && AllFresh(st, tr)
            && var end := Run(st, tr);
            && end.threads == map[] && Held(end, Cached(b.sid)) == Some(a.pid) && a.pid !in end.live
  {
    var first, spawn := FirstRemove(a.sid), SpawnTrace(2, b, true, a.pid);
    FirstRemoveRuns(st, a);
    var st1 := Run(st, first);
    FindAfterRemove(st.docs, a.sid, a.sid);
    FindAfterRemove(st.docs, a.sid, b.sid);
    UnnamedAfterRemove(st, st1, a);
    SpawnAlone(st1, 2, b, true, a.pid);
    var st2 := Spawned(st1, b, a.pid);
    FindAfterInsert(st1.docs, b.(pid := a.pid, ppid := st.self, status := "active"), a.sid);
    FindAfterInsert(st1.docs, b.(pid := a.pid, ppid := st.self, status := "active"), b.sid);
    SecondRemoveRuns(st2, a);
    RunConcat(st1, spawn, SecondRemove());
    RunConcat(st, first, spawn + SecondRemove());
  }

  lemma UnnamedAfterRemove(st: Sys, st1: Sys, a: ProcessInfo)
    requires Inv(st) && Distinct(st) && st.threads == map[] && FindBySid(st.docs, a.sid) == Some(a)
    requires st1.docs == RemoveBySid(st.docs, a.sid) && st1.threads == map[1 := RemoveFound(a)]
    ensures forall h :: Held(st1, h) != Some(a.pid)
    ensures forall n :: Valid(st1, n) ==> Record(st1, n).pid != a.pid
  {
    assert Held(st, Cached(a.sid)) == Some(a.pid);
    forall h ensures Held(st1, h) != Some(a.pid) {
      if h.Cached? {
        FindAfterRemove(st.docs, a.sid, h.sid);
        assert h.sid != a.sid ==> Held(st1, h) == Held(st, h);
      }
    }
    forall n | Valid(st1, n) ensures Record(st1, n).pid != a.pid {
      RemoveKeepsUnique(st.docs, a.sid);
      StoredIsFound(st1.docs, st1.docs[n.i]);
      assert Held(st1, Cached(st1.docs[n.i].sid)) == Some(st1.docs[n.i].pid);
    }
  }

  // ----- a reload of a stream that is still running

  /** process_reload does not look at the old worker; if it runs, the reload orphans it. */
  lemma ReloadOfLiveOrphans(st: Sys, d: ProcessInfo, p: int)
    requires Inv(st) && Distinct(st) && st.threads == map[]
    requires FindBySid(st.docs, d.sid) == Some(d) && d.pid in st.live
    requires p > 0 && p != st.self && p !in st.live && forall h :: Held(st, h) != Some(p)
    ensures var tr := ReloadTrace(0, d.sid, p); Possible(st, tr) && OnePerStream(st, tr) && ForksFresh(st, tr)
    ensures var end := Run(st, ReloadTrace(0, d.sid, p));
            && d.pid in end.live && p in end.live && Held(end, Cached(d.sid)) == Some(p)
            && forall h :: Held(end, h) != Some(d.pid)
  {
    ReloadAlone(st, 0, d, p);
    assert Held(st, Cached(d.sid)) == Some(d.pid);
    forall h ensures Held(Reloaded(st, d, p), h) == if h == Cached(d.sid) then Some(p) else Held(st, h) {
      HeldAfterReload(st, d, p, h);
    }
  }

  // ----- a detector with an old snapshot

  function RestartTrace(t: Tid, r: int): seq<Event> {
    [DetectLookup(t, true)] + ([ReloadFork(t, Some(r))] + ([ReloadUpdate(t, true)] + []))
  }

  /** The rest of a pass on a suspected record, which re-forks whatever stream has the pid now. */
  lemma RestartAlone(st: Sys, t: Tid, d: ProcessInfo, r: int)
    requires Inv(st) && t in st.threads && st.threads[t].Suspected? && Idle(st, d.sid)
    requires FindByPid(st.docs, st.threads[t].info.pid) == Some(d) && r > 0 && r != st.self && r !in st.live
    requires forall h :: Held(st, h) != Some(r)
    ensures var tr := RestartTrace(t, r);
            && Possible(st, tr) && OnePerStream(st, tr) && ForksFresh(st, tr)
            && Run(st, tr) == Leave(Reloaded(st, d, r), t)
  {
    var st1 := Step(st, DetectLookup(t, true));
    var st2 := Step(st1, ReloadFork(t, Some(r)));
    RunThree(st, DetectLookup(t, true), ReloadFork(t, Some(r)), ReloadUpdate(t, true));
    assert Step(st2, ReloadUpdate(t, true)).threads == st.threads - {t};
    forall h ensures Held(st1, h) == Held(st, h) {
      HeldStart(st, DetectLookup(t, true), h);
    }
  }

  lemma {:induction false} PidFoundLast(docs: seq<ProcessInfo>, d: ProcessInfo, sid: string, q: int)
    requires forall e :: e in docs && e.pid == d.pid ==> e.sid == sid
    requires UniqueSids(docs) && q != d.pid
    ensures FindByPid(SetPid(docs, sid, q) + [d], d.pid) == Some(d)
  {
    if docs == [] {
      assert SetPid(docs, sid, q) + [d] == [d];
    } else {
      assert docs[0] in docs && forall e :: e in docs[1..] ==> e in docs;
      var rest := if docs[0].sid == sid then docs[1..] else SetPid(docs[1..], sid, q);
      assert (SetPid(docs, sid, q) + [d])[1..] == rest + [d];
      if docs[0].sid == sid {
        NoSuchPid(docs[1..], d);
      } else {
        PidFoundLast(docs[1..], d, sid, q);
      }
    }
  }

  lemma {:induction false} NoSuchPid(docs: seq<ProcessInfo>, d: ProcessInfo)
    requires forall e :: e in docs ==> e.pid != d.pid
    ensures FindByPid(docs + [d], d.pid) == Some(d)
  {
    if docs == [] {
      assert docs + [d] == [d];
    } else {
      assert docs[0] in docs && forall e :: e in docs[1..] ==> e in docs;
      assert (docs + [d])[1..] == docs[1..] + [d];
      NoSuchPid(docs[1..], d);
    }
  }

  /** Between the check and the lookup, another thread reloads the dead stream and a spawn gets its old pid. */
  function StaleTrace(a: ProcessInfo, b: ProcessInfo, q: int, r: int): seq<Event> {
    [DetectCheck(2, a)] + (ReloadTrace(0, a.sid, q) + (SpawnTrace(1, b, true, a.pid) + RestartTrace(2, r)))
  }

  /**
   One operation per stream and fresh forks do not protect the detector from an old snapshot: it
   re-forks a stream that is running, and that stream's first worker is left to nobody.
   */
  lemma StaleSnapshotOrphans(st: Sys, a: ProcessInfo, b: ProcessInfo, q: int, r: int)
    requires Inv(st) && Distinct(st) && st.threads == map[]
    requires FindBySid(st.docs, a.sid) == Some(a) && FindBySid(st.docs, b.sid).None?
    requires a.pid !in st.live && q !in st.live && r !in st.live
    requires a.pid > 0 && q > 0 && r > 0 && st.self !in {a.pid, q, r} && q != r && a.pid != q && a.pid != r
    requires forall h :: Held(st, h) != Some(q) && Held(st, h) != Some(r)
    ensures var tr := StaleTrace(a, b, q, r); Possible(st, tr) && OnePerStream(st, tr) && ForksFresh(st, tr)
    ensures var end := Run(st, StaleTrace(a, b, q, r));
            && a.pid in end.live && end.live[a.pid] == Command(b)
            && Held(end, Cached(b.sid)) == Some(r) && forall h :: Held(end, h) != Some(a.pid)
  {
    var st1 := Step(st, DetectCheck(2, a));
    InvStep(st, DetectCheck(2, a));
    forall h ensures Held(st1, h) == Held(st, h) {
      HeldStart(st, DetectCheck(2, a), h);
    }
    StaleMiddle(st1, a, b, q, r);
    var rest := ReloadTrace(0, a.sid, q) + (SpawnTrace(1, b, true, a.pid) + RestartTrace(2, r));
    RunCons(st, DetectCheck(2, a), rest);
  }

  /** The same from the state in which the detector suspects the record. */
  lemma StaleMiddle(st: Sys, a: ProcessInfo, b: ProcessInfo, q: int, r: int)
    requires Inv(st) && Distinct(st) && st.threads == map[2 := Suspected(a)]
    requires FindBySid(st.docs, a.sid) == Some(a) && FindBySid(st.docs, b.sid).None?
    requires a.pid !in st.live && q !in st.live && r !in st.live
    requires a.pid > 0 && q > 0 && r > 0 && st.self !in {a.pid, q, r} && q != r && a.pid != q && a.pid != r
    requires forall h :: Held(st, h) != Some(q) && Held(st, h) != Some(r)
    ensures var tr := ReloadTrace(0, a.sid, q) + (SpawnTrace(1, b, true, a.pid) + RestartTrace(2, r));
            && Possible(st, tr) && OnePerStream(st, tr) && ForksFresh(st, tr)
            && var end := Run(st, tr);
            && a.pid in end.live && end.live[a.pid] == Command(b)
            && Held(end, Cached(b.sid)) == Some(r) && forall h :: Held(end, h) != Some(a.pid)
  {
    var st1 := Reloaded(st, a, q);
    StaleReload(st, a, q, r);
    FindAfterSetPid(st.docs, a.sid, q, b.sid);
    StaleLookup(st, a, b, q);
    StaleRest(st1, b, a.pid, r);
    RunConcat(st, ReloadTrace(0, a.sid, q), SpawnTrace(1, b, true, a.pid) + RestartTrace(2, r));
  }

  ghost predicate Unnamed(st: Sys, p: int) {
    forall h :: Held(st, h) != Some(p)
  }

  /** The reload gives the stream a new pid, so that nothing names the old one. */
  lemma StaleReload(st: Sys, a: ProcessInfo, q: int, r: int)
    requires Inv(st) && Distinct(st) && st.threads == map[2 := Suspected(a)]
    requires FindBySid(st.docs, a.sid) == Some(a) && q > 0 && q != st.self && q !in st.live
    requires Unnamed(st, q) && Unnamed(st, r) && r != q && a.pid != q
    ensures var tr, st1 := ReloadTrace(0, a.sid, q), Reloaded(st, a, q);
            && Possible(st, tr) && OnePerStream(st, tr) && ForksFresh(st, tr) && Run(st, tr) == st1
            && Inv(st1) && Unnamed(st1, a.pid) && Unnamed(st1, r)
  {
    var st1 := Reloaded(st, a, q);
    ReloadAlone(st, 0, a, q);
    InvAlways(st, ReloadTrace(0, a.sid, q));
    assert Held(st, Cached(a.sid)) == Some(a.pid);
    forall h ensures Held(st1, h) != Some(a.pid) && Held(st1, h) != Some(r) {
      HeldAfterReload(st, a, q, h);
    }
  }

  lemma StaleSpawn(st: Sys, b: ProcessInfo, p: int, r: int)
    requires Inv(st) && 1 !in st.threads && Idle(st, b.sid) && FindBySid(st.docs, b.sid).None?
    requires p > 0 && p != st.self && p !in st.live && Unnamed(st, p) && Unnamed(st, r) && p != r
    ensures var tr, st1 := SpawnTrace(1, b, true, p), Spawned(st, b, p);
            && Possible(st, tr) && OnePerStream(st, tr) && ForksFresh(st, tr) && Run(st, tr) == st1
            && Inv(st1) && Unnamed(st1, r) && forall h :: Held(st1, h) == Some(p) <==> h == Cached(b.sid)
  {
    var st1 := Spawned(st, b, p);
    SpawnAlone(st, 1, b, true, p);
    InvAlways(st, SpawnTrace(1, b, true, p));
    forall h ensures Held(st1, h) != Some(r) && (Held(st1, h) == Some(p) <==> h == Cached(b.sid)) {
      HeldAfterSpawn(st, b, p, h);
    }
  }

  /** The lookup by the old pid finds the new stream. */
  lemma StaleLookup(st: Sys, a: ProcessInfo, b: ProcessInfo, q: int)
    requires Inv(st) && Distinct(st) && FindBySid(st.docs, a.sid) == Some(a) && a.pid != q
    ensures FindByPid(Spawned(Reloaded(st, a, q), b, a.pid).docs, a.pid)
         == Some(b.(pid := a.pid, ppid := st.self, status := "active"))
  {
    assert Held(st, Cached(a.sid)) == Some(a.pid);
    forall e | e in st.docs && e.pid == a.pid ensures e.sid == a.sid {
      StoredIsFound(st.docs, e);
      assert Held(st, Cached(e.sid)) == Held(st, Cached(a.sid));
    }
    PidFoundLast(st.docs, b.(pid := a.pid, ppid := st.self, status := "active"), a.sid, q);
  }

  lemma StaleRest(st: Sys, b: ProcessInfo, p: int, r: int)
    requires Inv(st) && 1 !in st.threads && Idle(st, b.sid) && FindBySid(st.docs, b.sid).None?
    requires 2 in st.threads && st.threads[2].Suspected? && st.threads[2].info.pid == p
    requires FindByPid(Spawned(st, b, p).docs, p) == Some(b.(pid := p, ppid := st.self, status := "active"))
    requires p > 0 && p != st.self && p !in st.live && r > 0 && r != st.self && r !in st.live && p != r
    requires Unnamed(st, p) && Unnamed(st, r)
    ensures var tr := SpawnTrace(1, b, true, p) + RestartTrace(2, r);
            && Possible(st, tr) && OnePerStream(st, tr) && ForksFresh(st, tr)
            && var end := Run(st, tr);
            && p in end.live && end.live[p] == Command(b)
            && Held(end, Cached(b.sid)) == Some(r) && Unnamed(end, p)
  {
    StaleSpawn(st, b, p, r);
    StaleEnd(Spawned(st, b, p), b, p, r);
    RunConcat(st, SpawnTrace(1, b, true, p), RestartTrace(2, r));
  }

  lemma StaleEnd(st: Sys, b: ProcessInfo, p: int, r: int)
    requires Inv(st) && 2 in st.threads && st.threads[2].Suspected? && st.threads[2].info.pid == p
    requires Idle(st, b.sid) && p in st.live && st.live[p] == Command(b)
    requires FindByPid(st.docs, p) == Some(b.(pid := p, ppid := st.self, status := "active"))
    requires r > 0 && st.self != r && p != r && r !in st.live && Unnamed(st, r)
    requires forall h :: Held(st, h) == Some(p) <==> h == Cached(b.sid)
    ensures var tr := RestartTrace(2, r);
            && Possible(st, tr) && OnePerStream(st, tr) && ForksFresh(st, tr)
            && var end := Run(st, tr);
            && p in end.live && end.live[p] == Command(b)
            && Held(end, Cached(b.sid)) == Some(r) && Unnamed(end, p)
  {
    var d := b.(pid := p, ppid := st.self, status := "active");
    RestartAlone(st, 2, d, r);
    StoredIsFound(st.docs, d);
    var end := Leave(Reloaded(st, d, r), 2);
    forall h ensures Held(end, h) == if h == Cached(b.sid) then Some(r) else Held(st, h) {
      HeldAfterReload(st, d, r, h);
      assert Held(end, h) == Held(Reloaded(st, d, r), h);
    }
  }
}
