/**
 What the kill of a remove can hit, over every possible run.
 */
module StreamKills {
  import opened Wrappers
  import opened ProcessStore
  import opened StreamControl
  import opened StreamSafety
  import opened StreamPids

  // ----- where a remembered pid comes from

  /** The thread remembers a pid that a lookup found or a fork returned. */
  predicate Keeps(st: Sys, t: Tid) {
    Working(st, t) && !st.threads[t].SpawnChecked?
  }

  /** The record that the lookup of this step puts into its thread. */
  ghost predicate LooksUp(st: Sys, ev: Event, t: Tid, info: ProcessInfo) {
    (ev.RemoveLookup? || ev.ReloadLookup? || ev.DetectLookup?) && ev.t == t && info in st.docs
    && FindBySid(st.docs, info.sid).Some? && (ev.RemoveLookup? ==> FindBySid(st.docs, info.sid) == Some(info))
  }

  ghost predicate KeptFrom(st: Sys, ev: Event, t: Tid)
    requires Enabled(st, ev) && t in Step(st, ev).threads
  {
    var info := Step(st, ev).threads[t].info;
    || (Keeps(st, t) && st.threads[t].info == info)
    || LooksUp(st, ev, t, info)
    || (NewBorn(ev, Forked(t)) && info.pid == ev.child.value)
  }

  lemma KeptByLookup(st: Sys, ev: Event, t: Tid)
    requires ev.SpawnCheck? || ev.ReloadLookup? || ev.DetectCheck? || ev.DetectLookup? || ev.RemoveLookup?
    requires Enabled(st, ev) && Keeps(Step(st, ev), t)
    ensures KeptFrom(st, ev, t)
  {
  }

  lemma KeptByWrite(st: Sys, ev: Event, t: Tid)
    requires !(ev.SpawnCheck? || ev.ReloadLookup? || ev.DetectCheck? || ev.DetectLookup? || ev.RemoveLookup?)
    requires Enabled(st, ev) && Keeps(Step(st, ev), t)
    ensures KeptFrom(st, ev, t)
  {
  }

  lemma Kept(st: Sys, ev: Event, t: Tid)
    requires Enabled(st, ev) && Keeps(Step(st, ev), t)
    ensures KeptFrom(st, ev, t)
  {
    if ev.SpawnCheck? || ev.ReloadLookup? || ev.DetectCheck? || ev.DetectLookup? || ev.RemoveLookup? {
      KeptByLookup(st, ev, t);
    } else {
      KeptByWrite(st, ev, t);
    }
  }

  /** A document or a thread has the pid. */
  ghost predicate Known(st: Sys, p: int) {
    || (exists d :: d in st.docs && d.pid == p)
    || (exists t :: Keeps(st, t) && st.threads[t].info.pid == p)
  }

  lemma StoredFrom(st: Sys, ev: Event, p: int)
    requires Enabled(st, ev) && exists d :: d in Step(st, ev).docs && d.pid == p
    ensures Known(st, p)
  {
    var st' := Step(st, ev);
    var i: nat :| i < |st'.docs| && st'.docs[i].pid == p;
    NameMoves(st, ev, Stored(i));
    var m := Origin(st, ev, Stored(i));
    if m.Stored? {
      assert st.docs[m.i] in st.docs;
    } else {
      assert Keeps(st, m.t);
    }
  }

  lemma KnownStep(st: Sys, ev: Event, p: int)
    requires Enabled(st, ev) && Known(Step(st, ev), p)
    ensures Known(st, p) || Forks(ev, p)
  {
    var st' := Step(st, ev);
    if exists d :: d in st'.docs && d.pid == p {
      StoredFrom(st, ev, p);
    } else {
      var t :| Keeps(st', t) && st'.threads[t].info.pid == p;
      Kept(st, ev, t);
    }
  }

  lemma ForkIsPositive(st: Sys, ev: Event, p: int)
    requires Enabled(st, ev) && Forks(ev, p)
    ensures p > 0 && p != st.self
  {
  }

  lemma SelfStays(st: Sys, ev: Event)
    requires Enabled(st, ev)
    ensures Step(st, ev).self == st.self
  {
  }

  lemma {:induction false} KnownFrom(st: Sys, tr: seq<Event>, p: int)
    requires Possible(st, tr) && Known(Run(st, tr), p)
    ensures Known(st, p) || (p > 0 && p != st.self && exists e :: e in tr && Forks(e, p))
    decreases |tr|
  {
    if tr != [] {
      var st', ev := Step(st, tr[0]), tr[0];
      assert ev in tr && forall e :: e in tr[1..] ==> e in tr;
      KnownFrom(st', tr[1..], p);
      SelfStays(st, ev);
      if Known(st', p) {
        KnownStep(st, ev, p);
        if !Known(st, p) {
          ForkIsPositive(st, ev, p);
        }
      }
    }
  }

  /**
   Over every possible run the pid that a remove kills was stored or remembered at the start, or a fork
   of the run returned it, and then it stands for one process that is not the server.
   */
  lemma KillComesFromFork(st: Sys, tr: seq<Event>, t: Tid)
    requires Possible(st, tr) && Enabled(Run(st, tr), RemoveKill(t))
    ensures var p := Run(st, tr).threads[t].info.pid;
            Known(st, p) || (p > 0 && p != st.self && exists e :: e in tr && Forks(e, p))
  {
    assert Keeps(Run(st, tr), t);
    KnownFrom(st, tr, Run(st, tr).threads[t].info.pid);
  }

  // ----- whom a remover may hit

  /** A remove between its lookup and its kill. */
  predicate Remembers(st: Sys, t: Tid) {
    t in st.threads && (st.threads[t].RemoveFound? || st.threads[t].RemoveUncached?)
  }

  /** No remover remembers the pid of a document or a forked thread of another stream. */
  ghost predicate KillSafe(st: Sys) {
    forall t, n :: Remembers(st, t) && Valid(st, n) && Record(st, n).pid == st.threads[t].info.pid
                   ==> Record(st, n).sid == st.threads[t].info.sid
  }

  /** The fork did not return a pid that a remover of another stream still remembers. */
  ghost predicate Forgotten(st: Sys, ev: Event)
    requires Enabled(st, ev)
  {
    IsFork(ev) ==>
      forall t :: Remembers(st, t) && st.threads[t].info.pid == ev.child.value
                  ==> st.threads[t].info.sid == st.threads[ev.t].info.sid
  }

  lemma RemoverFrom(st: Sys, ev: Event, t: Tid)
    requires Enabled(st, ev) && Remembers(Step(st, ev), t)
    ensures var info := Step(st, ev).threads[t].info;
            || (Remembers(st, t) && st.threads[t].info == info)
            || (ev.RemoveLookup? && FindBySid(st.docs, info.sid) == Some(info))
  {
  }

  lemma RemoverStays(st: Sys, ev: Event, t: Tid)
    requires Enabled(st, ev) && IsFork(ev) && Remembers(st, t)
    ensures Remembers(Step(st, ev), t) && Step(st, ev).threads[t] == st.threads[t]
  {
  }

  /** The pid of a document that a lookup has just found is nobody else's. */
  lemma FoundIsOwn(st: Sys, info: ProcessInfo, n: Name)
    requires DistinctAll(st) && FindBySid(st.docs, info.sid) == Some(info)
    requires Valid(st, n) && Record(st, n).pid == info.pid
    ensures Record(st, n).sid == info.sid
  {
    var k := Stored(FirstIndex(st.docs, info.sid));
    assert Valid(st, k) && Record(st, k) == info;
  }

  lemma PairSafe(st: Sys, ev: Event, t: Tid, n: Name)
    requires Enabled(st, ev) && DistinctAll(st) && KillSafe(st) && Forgotten(st, ev)
    requires Remembers(Step(st, ev), t) && Valid(Step(st, ev), n)
    requires Record(Step(st, ev), n).pid == Step(st, ev).threads[t].info.pid
    ensures Record(Step(st, ev), n).sid == Step(st, ev).threads[t].info.sid
  {
    RemoverFrom(st, ev, t);
    if NewBorn(ev, n) {
      NewBornIs(st, ev);
    } else {
      NameMoves(st, ev, n);
      if !Remembers(st, t) || st.threads[t].info != Step(st, ev).threads[t].info {
        FoundIsOwn(st, Step(st, ev).threads[t].info, Origin(st, ev, n));
      }
    }
  }

  lemma KillSafeStep(st: Sys, ev: Event)
    requires Enabled(st, ev) && DistinctAll(st) && KillSafe(st)
    ensures KillSafe(Step(st, ev)) <==> Forgotten(st, ev)
  {
    var st' := Step(st, ev);
    if Forgotten(st, ev) {
      forall t, n | Remembers(st', t) && Valid(st', n) && Record(st', n).pid == st'.threads[t].info.pid
        ensures Record(st', n).sid == st'.threads[t].info.sid
      {
        PairSafe(st, ev, t, n);
      }
    } else {
      var t :| Remembers(st, t) && st.threads[t].info.pid == ev.child.value
               && st.threads[t].info.sid != st.threads[ev.t].info.sid;
      RemoverStays(st, ev, t);
      NewBornIs(st, ev);
    }
  }

  ghost predicate KillSafeThroughout(st: Sys, tr: seq<Event>)
    requires Possible(st, tr)
    decreases |tr|
  {
    KillSafe(st) && (tr != [] ==> KillSafeThroughout(Step(st, tr[0]), tr[1..]))
  }

  ghost predicate AllForgotten(st: Sys, tr: seq<Event>)
    requires Possible(st, tr)
    decreases |tr|
  {
    tr != [] ==> Forgotten(st, tr[0]) && AllForgotten(Step(st, tr[0]), tr[1..])
  }

  /**
   Over every possible run whose forks return pids that no document and no forked thread has, no
   remover ever remembers a pid of another stream exactly when no fork returned a pid that a remover
   of another stream still remembered.
   */
  lemma {:induction false} KillsStaySafeIff(st: Sys, tr: seq<Event>)
    requires Possible(st, tr) && DistinctAll(st) && AllFresh(st, tr) && KillSafe(st)
    ensures KillSafeThroughout(st, tr) <==> AllForgotten(st, tr)
    decreases |tr|
  {
    if tr != [] {
      DistinctAllStep(st, tr[0]);
      KillSafeStep(st, tr[0]);
      if Forgotten(st, tr[0]) {
        KillsStaySafeIff(Step(st, tr[0]), tr[1..]);
      } else {
        UnsafeNow(Step(st, tr[0]), tr[1..]);
      }
    }
  }

  lemma UnsafeNow(st: Sys, tr: seq<Event>)
    requires Possible(st, tr) && !KillSafe(st)
    ensures !KillSafeThroughout(st, tr)
  {
  }

  lemma {:induction false} SafeAtEnd(st: Sys, tr: seq<Event>)
    requires Possible(st, tr) && KillSafeThroughout(st, tr)
    ensures KillSafe(Run(st, tr))
    decreases |tr|
  {
    if tr != [] {
      SafeAtEnd(Step(st, tr[0]), tr[1..]);
    }
  }

  /** A kill ends the process of exactly the names with its pid, and takes no name away. */
  lemma KillEnds(st: Sys, t: Tid, n: Name)
    requires Enabled(st, RemoveKill(t)) && Valid(st, n)
    ensures var st' := Step(st, RemoveKill(t)); var p := Record(st, n).pid;
            && Valid(st', n) && Record(st', n) == Record(st, n)
            && (p in st'.live <==> p in st.live && p != st.threads[t].info.pid)
  {
  }

  /**
   After every such run the kill of a remove changes the fate of no process that a document or a forked
   thread of another stream names.
   */
  lemma KillHitsOwnStream(st: Sys, tr: seq<Event>, t: Tid, n: Name)
    requires Possible(st, tr) && DistinctAll(st) && AllFresh(st, tr) && KillSafe(st) && AllForgotten(st, tr)
    requires Enabled(Run(st, tr), RemoveKill(t)) && Valid(Run(st, tr), n)
    requires Record(Run(st, tr), n).sid != Run(st, tr).threads[t].info.sid
    ensures var end := Run(st, tr); var end' := Step(end, RemoveKill(t));
            && Valid(end', n) && Record(end', n) == Record(end, n)
            && (Record(end, n).pid in end'.live <==> Record(end, n).pid in end.live)
            && end.threads[t].info.pid !in end'.live
  {
    KillsStaySafeIff(st, tr);
    SafeAtEnd(st, tr);
    var end := Run(st, tr);
    assert Remembers(end, t);
    KillEnds(end, t, n);
  }

  // ----- with one operation per stream

  /** A remover whose stream the cache no longer has. */
  predicate Uncached(st: Sys, t: Tid) {
    Remembers(st, t) && FindBySid(st.docs, st.threads[t].info.sid).None?
  }

  ghost predicate RemoversApart(st: Sys) {
    forall t, u :: Uncached(st, t) && Uncached(st, u) && st.threads[t].info.pid == st.threads[u].info.pid ==> t == u
  }

  function HolderOf(st: Sys, n: Name): Holder
    requires Valid(st, n)
  {
    if n.Stored? then Cached(st.docs[n.i].sid) else InFlight(n.t)
  }

  lemma {:induction false} FirstOfItsStream(docs: seq<ProcessInfo>, i: nat)
    requires UniqueSids(docs) && i < |docs|
    ensures FirstIndex(docs, docs[i].sid) == i && FindBySid(docs, docs[i].sid) == Some(docs[i])
  {
    StoredIsFound(docs, docs[i]);
    if i > 0 {
      assert docs[i] == docs[1..][i - 1] && docs[1..][i - 1] in docs[1..];
      FirstOfItsStream(docs[1..], i - 1);
    }
  }

  lemma NameIsHolder(st: Sys, n: Name)
    requires Inv(st) && Valid(st, n)
    ensures Held(st, HolderOf(st, n)) == Some(Record(st, n).pid)
  {
    if n.Stored? {
      FirstOfItsStream(st.docs, n.i);
    }
  }

  lemma HoldersToNames(st: Sys)
    requires Inv(st) && Distinct(st)
    ensures DistinctAll(st) && KillSafe(st) && RemoversApart(st)
  {
    forall m, n | Valid(st, m) && Valid(st, n) && Record(st, m).pid == Record(st, n).pid ensures m == n {
      SameNames(st, m, n);
    }
    forall t, n | Remembers(st, t) && Valid(st, n) && Record(st, n).pid == st.threads[t].info.pid
      ensures Record(st, n).sid == st.threads[t].info.sid
    {
      RemoverIsHolder(st, t);
      NameIsHolder(st, n);
    }
    forall t, u | Uncached(st, t) && Uncached(st, u) && st.threads[t].info.pid == st.threads[u].info.pid
      ensures t == u
    {
      RemoverIsHolder(st, t);
      RemoverIsHolder(st, u);
    }
  }

  /** A holder is a name, or a remover whose record is gone. */
  ghost predicate IsName(st: Sys, h: Holder, n: Name) {
    Valid(st, n) && Held(st, h) == Some(Record(st, n).pid) && HolderOf(st, n) == h
  }

  ghost predicate IsRemover(st: Sys, h: Holder) {
    h.InFlight? && Uncached(st, h.t) && Held(st, h) == Some(st.threads[h.t].info.pid)
  }

  lemma HolderIs(st: Sys, h: Holder) returns (n: Name)
    requires Inv(st) && Held(st, h).Some?
    ensures IsName(st, h, n) || IsRemover(st, h)
  {
    n := if h.Cached? then Stored(FirstIndex(st.docs, h.sid)) else Forked(h.t);
  }

  lemma NameIsNoRemover(st: Sys, h: Holder, n: Name, k: Holder)
    requires Inv(st) && KillSafe(st) && IsName(st, h, n) && IsRemover(st, k)
    ensures Held(st, h) != Held(st, k)
  {
    if n.Stored? {
      assert st.docs[n.i] in st.docs;
    } else {
      assert Working(st, n.t) && Working(st, k.t);
    }
  }

  lemma NamesToHolders(st: Sys, h: Holder, k: Holder)
    requires Inv(st) && DistinctAll(st) && KillSafe(st) && RemoversApart(st)
    requires Held(st, h).Some? && Held(st, h) == Held(st, k)
    ensures h == k
  {
    var m := HolderIs(st, h);
    var n := HolderIs(st, k);
    if IsName(st, h, m) && IsRemover(st, k) {
      NameIsNoRemover(st, h, m, k);
    } else if IsName(st, k, n) && IsRemover(st, h) {
      NameIsNoRemover(st, k, n, h);
    }
  }

  /**
   With one operation per stream, holders have different pids exactly when documents and forked threads
   do, no remover remembers another stream's pid, and removers that have left the cache differ.
   */
  lemma DistinctMeansIff(st: Sys)
    requires Inv(st)
    ensures Distinct(st) <==> DistinctAll(st) && KillSafe(st) && RemoversApart(st)
  {
    if Distinct(st) {
      HoldersToNames(st);
    } else if DistinctAll(st) && KillSafe(st) && RemoversApart(st) {
      var h, k :| Held(st, h).Some? && Held(st, h) == Held(st, k) && h != k;
      NamesToHolders(st, h, k);
    }
  }

  lemma SameNames(st: Sys, m: Name, n: Name)
    requires Inv(st) && Distinct(st) && Valid(st, m) && Valid(st, n) && Record(st, m).pid == Record(st, n).pid
    ensures m == n
  {
    NameIsHolder(st, m);
    NameIsHolder(st, n);
    if m.Stored? && n.Stored? {
      FirstOfItsStream(st.docs, m.i);
      FirstOfItsStream(st.docs, n.i);
    }
  }

  lemma RemoverIsHolder(st: Sys, t: Tid)
    requires Inv(st) && Remembers(st, t)
    ensures var info := st.threads[t].info;
            var h := if FindBySid(st.docs, info.sid).None? then InFlight(t) else Cached(info.sid);
            Held(st, h) == Some(info.pid)
  {
    assert PhaseOk(st.docs, st.threads[t]);
  }
}
