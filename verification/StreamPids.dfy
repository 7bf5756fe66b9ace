/**
 Who has which pid, over every possible run: with operations that overlap on one stream, streams that
 are stored twice, lookups that miss and writes that are lost.
 */
module StreamPids {
  import opened Wrappers
  import opened ProcessStore
  import opened StreamControl

  /** A stored document, by position, or a thread between its fork and its write. */
  datatype Name = Stored(i: nat) | Forked(t: Tid)

  predicate Valid(st: Sys, n: Name) {
    match n
    case Stored(i) => i < |st.docs|
    case Forked(t) => t in st.threads && (st.threads[t].SpawnForked? || st.threads[t].ReloadForked?)
  }

  function Record(st: Sys, n: Name): ProcessInfo
    requires Valid(st, n)
  {
    if n.Stored? then st.docs[n.i] else st.threads[n.t].info
  }

  // ----- the document that a write reaches

  /** The position of the first document of a stream, or the end. */
  function FirstIndex(docs: seq<ProcessInfo>, sid: string): (k: nat)
    ensures k <= |docs| && forall j :: 0 <= j < k ==> docs[j].sid != sid
    ensures k < |docs| ==> docs[k].sid == sid && FindBySid(docs, sid) == Some(docs[k])
    ensures k == |docs| ==> FindBySid(docs, sid).None?
  {
    if docs == [] || docs[0].sid == sid then 0 else 1 + FirstIndex(docs[1..], sid)
  }

  /** An update changes that document only. */
  lemma {:induction false} SetPidAt(docs: seq<ProcessInfo>, sid: string, pid: int, i: nat)
    requires i < |docs|
    ensures SetPid(docs, sid, pid)[i] == if i == FirstIndex(docs, sid) then docs[i].(pid := pid) else docs[i]
  {
    if docs[0].sid != sid && i > 0 {
      SetPidAt(docs[1..], sid, pid, i - 1);
    }
  }

  /** A delete takes that document out, and the later ones move up. */
  lemma {:induction false} RemoveAt(docs: seq<ProcessInfo>, sid: string, i: nat)
    requires i < |RemoveBySid(docs, sid)|
    ensures var j := if i >= FirstIndex(docs, sid) then i + 1 else i;
            j < |docs| && RemoveBySid(docs, sid)[i] == docs[j]
  {
    if docs[0].sid != sid && i > 0 {
      RemoveAt(docs[1..], sid, i - 1);
    }
  }

  // ----- how one step moves names

  predicate IsFork(ev: Event) {
    (ev.SpawnFork? || ev.ReloadFork?) && ev.child.Some?
  }

  /** The one name that a successful fork makes. */
  predicate NewBorn(ev: Event, n: Name) {
    IsFork(ev) && n == Forked(ev.t)
  }

  /** The document whose pid an update replaces. */
  predicate Updated(st: Sys, ev: Event, n: Name)
    requires Enabled(st, ev)
  {
    ev.ReloadUpdate? && ev.ok && n == Stored(FirstIndex(st.docs, st.threads[ev.t].info.sid))
  }

  /** Which name of the state before had the pid that n has after the step. */
  function Origin(st: Sys, ev: Event, n: Name): Name
    requires Enabled(st, ev)
  {
    match ev
    case SpawnRecord(t, ok) => if ok && n == Stored(|st.docs|) then Forked(t) else n
    case ReloadUpdate(t, ok) => if Updated(st, ev, n) then Forked(t) else n
    case RemoveUncache(t, ok) =>
      if ok && n.Stored? && n.i >= FirstIndex(st.docs, st.threads[t].info.sid) then Stored(n.i + 1) else n
    case _ => n
  }

  /** A name has its pid and its stream from its origin, and its command unless an update wrote it. */
  ghost predicate Moves(st: Sys, ev: Event, n: Name)
    requires Enabled(st, ev) && Valid(Step(st, ev), n)
  {
    var m := Origin(st, ev, n);
    && Valid(st, m)
    && Record(st, m).pid == Record(Step(st, ev), n).pid && Record(st, m).sid == Record(Step(st, ev), n).sid
    && (!Updated(st, ev, n) ==> Command(Record(st, m)) == Command(Record(Step(st, ev), n)))
  }

  lemma MovesByStart(st: Sys, ev: Event, n: Name)
    requires ev.SpawnCheck? || ev.ReloadLookup? || ev.DetectCheck? || ev.DetectLookup? || ev.RemoveLookup?
    requires Enabled(st, ev) && Valid(Step(st, ev), n)
    ensures Moves(st, ev, n)
  {
  }

  lemma MovesByFork(st: Sys, ev: Event, n: Name)
    requires ev.SpawnFork? || ev.ReloadFork?
    requires Enabled(st, ev) && Valid(Step(st, ev), n) && !NewBorn(ev, n)
    ensures Moves(st, ev, n)
  {
  }

  lemma MovesByRecord(st: Sys, ev: Event, n: Name)
    requires ev.SpawnRecord? && Enabled(st, ev) && Valid(Step(st, ev), n)
    ensures Moves(st, ev, n)
  {
  }

  lemma MovesByUpdate(st: Sys, ev: Event, n: Name)
    requires ev.ReloadUpdate? && Enabled(st, ev) && Valid(Step(st, ev), n)
    ensures Moves(st, ev, n)
  {
    if n.Stored? {
      SetPidAt(st.docs, st.threads[ev.t].info.sid, st.threads[ev.t].info.pid, n.i);
    }
  }

  lemma MovesByUncache(st: Sys, ev: Event, n: Name)
    requires ev.RemoveUncache? && Enabled(st, ev) && Valid(Step(st, ev), n)
    ensures Moves(st, ev, n)
  {
    if n.Stored? && ev.ok {
      RemoveAt(st.docs, st.threads[ev.t].info.sid, n.i);
    }
  }

  lemma MovesByKill(st: Sys, ev: Event, n: Name)
    requires ev.RemoveKill? || ev.Terminate? || ev.Die?
    requires Enabled(st, ev) && Valid(Step(st, ev), n)
    ensures Moves(st, ev, n)
  {
  }

  lemma NameMoves(st: Sys, ev: Event, n: Name)
    requires Enabled(st, ev) && Valid(Step(st, ev), n) && !NewBorn(ev, n)
    ensures Moves(st, ev, n)
  {
    if ev.SpawnFork? || ev.ReloadFork? {
      MovesByFork(st, ev, n);
    } else if ev.SpawnRecord? {
      MovesByRecord(st, ev, n);
    } else if ev.ReloadUpdate? {
      MovesByUpdate(st, ev, n);
    } else if ev.RemoveUncache? {
      MovesByUncache(st, ev, n);
    } else if ev.RemoveKill? || ev.Terminate? || ev.Die? {
      MovesByKill(st, ev, n);
    } else {
      MovesByStart(st, ev, n);
    }
  }

  lemma NewBornIs(st: Sys, ev: Event)
    requires Enabled(st, ev) && IsFork(ev)
    ensures Valid(Step(st, ev), Forked(ev.t)) && !Valid(st, Forked(ev.t))
    ensures Record(Step(st, ev), Forked(ev.t)) == st.threads[ev.t].info.(pid := ev.child.value)
  {
  }

  /** No two names have the same origin. */
  lemma OriginsDiffer(st: Sys, ev: Event, m: Name, n: Name)
    requires Enabled(st, ev) && Valid(Step(st, ev), m) && Valid(Step(st, ev), n)
    requires Origin(st, ev, m) == Origin(st, ev, n)
    ensures m == n
  {
  }

  /** A fork takes no name away. */
  lemma ForkKeepsNames(st: Sys, ev: Event, n: Name)
    requires Enabled(st, ev) && IsFork(ev) && Valid(st, n)
    ensures Valid(Step(st, ev), n) && Record(Step(st, ev), n) == Record(st, n) && n != Forked(ev.t)
  {
  }

  // ----- pids are injective

  ghost predicate DistinctAll(st: Sys) {
    forall m, n :: Valid(st, m) && Valid(st, n) && Record(st, m).pid == Record(st, n).pid ==> m == n
  }

  /** The fork returned a pid that no document and no forked thread has. */
  ghost predicate FreshAll(st: Sys, ev: Event) {
    IsFork(ev) ==> forall n :: Valid(st, n) ==> Record(st, n).pid != ev.child.value
  }

  lemma DistinctAllKept(st: Sys, ev: Event)
    requires Enabled(st, ev) && DistinctAll(st) && FreshAll(st, ev)
    ensures DistinctAll(Step(st, ev))
  {
    var st' := Step(st, ev);
    forall m, n | Valid(st', m) && Valid(st', n) && Record(st', m).pid == Record(st', n).pid ensures m == n {
      if NewBorn(ev, m) || NewBorn(ev, n) {
        NewBornIs(st, ev);
        if !NewBorn(ev, m) {
          NameMoves(st, ev, m);
        } else if !NewBorn(ev, n) {
          NameMoves(st, ev, n);
        }
      } else {
        NameMoves(st, ev, m);
        NameMoves(st, ev, n);
        OriginsDiffer(st, ev, m, n);
      }
    }
  }

  lemma DistinctAllStep(st: Sys, ev: Event)
    requires Enabled(st, ev) && DistinctAll(st)
    ensures DistinctAll(Step(st, ev)) <==> FreshAll(st, ev)
  {
    if FreshAll(st, ev) {
      DistinctAllKept(st, ev);
    } else {
      var n :| Valid(st, n) && Record(st, n).pid == ev.child.value;
      NewBornIs(st, ev);
      ForkKeepsNames(st, ev, n);
    }
  }

  ghost predicate DistinctAllThroughout(st: Sys, tr: seq<Event>)
    requires Possible(st, tr)
    decreases |tr|
  {
    DistinctAll(st) && (tr != [] ==> DistinctAllThroughout(Step(st, tr[0]), tr[1..]))
  }

  ghost predicate AllFresh(st: Sys, tr: seq<Event>)
    requires Possible(st, tr)
    decreases |tr|
  {
    tr != [] ==> FreshAll(st, tr[0]) && AllFresh(Step(st, tr[0]), tr[1..])
  }

  /**
   Over every possible run no two documents or forked threads have the same pid, in any state, exactly
   when each fork of the run returned a pid that no document and no forked thread had.
   */
  lemma {:induction false} PidsDistinctIff(st: Sys, tr: seq<Event>)
    requires Possible(st, tr) && DistinctAll(st)
    ensures DistinctAllThroughout(st, tr) <==> AllFresh(st, tr)
    decreases |tr|
  {
    if tr != [] {
      DistinctAllStep(st, tr[0]);
      if FreshAll(st, tr[0]) {
        PidsDistinctIff(Step(st, tr[0]), tr[1..]);
      } else {
        SharedNow(Step(st, tr[0]), tr[1..]);
      }
    }
  }

  lemma SharedNow(st: Sys, tr: seq<Event>)
    requires Possible(st, tr) && !DistinctAll(st)
    ensures !DistinctAllThroughout(st, tr)
  {
  }

  // ----- a worker runs the command of whoever has its pid

  ghost predicate OwnCommandAll(st: Sys) {
    forall n :: Valid(st, n) && Record(st, n).pid in st.live
                ==> st.live[Record(st, n).pid] == Command(Record(st, n))
  }

  /** Whoever has the pid that a fork returns has the forked command too. */
  ghost predicate ForkAgrees(st: Sys, ev: Event)
    requires Enabled(st, ev)
  {
    IsFork(ev) ==>
      forall n :: Valid(st, n) && Record(st, n).pid == ev.child.value
                  ==> Command(Record(st, n)) == Command(st.threads[ev.t].info)
  }

  /** An update gives a running worker to a document with that worker's command. */
  predicate UpdateAgrees(st: Sys, ev: Event)
    requires Enabled(st, ev)
  {
    ev.ReloadUpdate? && ev.ok && st.threads[ev.t].info.pid in st.live ==>
      var k := FirstIndex(st.docs, st.threads[ev.t].info.sid);
      k < |st.docs| ==> st.live[st.threads[ev.t].info.pid] == Command(st.docs[k])
  }

  ghost predicate Agrees(st: Sys, ev: Event)
    requires Enabled(st, ev)
  {
    ForkAgrees(st, ev) && UpdateAgrees(st, ev)
  }

  lemma LiveStep(st: Sys, ev: Event, p: int)
    requires Enabled(st, ev) && p in Step(st, ev).live
    ensures !(IsFork(ev) && p == ev.child.value) ==> p in st.live && Step(st, ev).live[p] == st.live[p]
    ensures IsFork(ev) && p == ev.child.value ==> Step(st, ev).live[p] == Command(st.threads[ev.t].info)
  {
  }

  lemma UpdatedIs(st: Sys, ev: Event, n: Name)
    requires Enabled(st, ev) && Updated(st, ev, n) && Valid(Step(st, ev), n)
    ensures n.i < |st.docs|
    ensures Record(Step(st, ev), n) == st.docs[n.i].(pid := st.threads[ev.t].info.pid)
    ensures Step(st, ev).live == st.live
  {
    SetPidAt(st.docs, st.threads[ev.t].info.sid, st.threads[ev.t].info.pid, n.i);
  }

  lemma CommandOfName(st: Sys, ev: Event, n: Name)
    requires Enabled(st, ev) && OwnCommandAll(st) && Agrees(st, ev)
    requires Valid(Step(st, ev), n) && Record(Step(st, ev), n).pid in Step(st, ev).live
    ensures Step(st, ev).live[Record(Step(st, ev), n).pid] == Command(Record(Step(st, ev), n))
  {
    LiveStep(st, ev, Record(Step(st, ev), n).pid);
    if NewBorn(ev, n) {
      NewBornIs(st, ev);
    } else if Updated(st, ev, n) {
      UpdatedIs(st, ev, n);
    } else {
      NameMoves(st, ev, n);
    }
  }

  lemma CommandLost(st: Sys, ev: Event)
    requires Enabled(st, ev) && !Agrees(st, ev)
    ensures !OwnCommandAll(Step(st, ev))
  {
    if !ForkAgrees(st, ev) {
      var n :| Valid(st, n) && Record(st, n).pid == ev.child.value
               && Command(Record(st, n)) != Command(st.threads[ev.t].info);
      ForkKeepsNames(st, ev, n);
      NewBornIs(st, ev);
      assert Valid(Step(st, ev), n);
    } else {
      var n := Stored(FirstIndex(st.docs, st.threads[ev.t].info.sid));
      UpdatedValid(st, ev);
      UpdatedIs(st, ev, n);
    }
  }

  lemma UpdatedValid(st: Sys, ev: Event)
    requires Enabled(st, ev) && ev.ReloadUpdate? && FirstIndex(st.docs, st.threads[ev.t].info.sid) < |st.docs|
    ensures Valid(Step(st, ev), Stored(FirstIndex(st.docs, st.threads[ev.t].info.sid)))
  {
  }

  lemma OwnCommandAllStep(st: Sys, ev: Event)
    requires Enabled(st, ev) && OwnCommandAll(st)
    ensures OwnCommandAll(Step(st, ev)) <==> Agrees(st, ev)
  {
    if Agrees(st, ev) {
      forall n | Valid(Step(st, ev), n) && Record(Step(st, ev), n).pid in Step(st, ev).live
        ensures Step(st, ev).live[Record(Step(st, ev), n).pid] == Command(Record(Step(st, ev), n))
      {
        CommandOfName(st, ev, n);
      }
    } else {
      CommandLost(st, ev);
    }
  }

  ghost predicate OwnCommandThroughout(st: Sys, tr: seq<Event>)
    requires Possible(st, tr)
    decreases |tr|
  {
    OwnCommandAll(st) && (tr != [] ==> OwnCommandThroughout(Step(st, tr[0]), tr[1..]))
  }

  ghost predicate AllAgree(st: Sys, tr: seq<Event>)
    requires Possible(st, tr)
    decreases |tr|
  {
    tr != [] ==> Agrees(st, tr[0]) && AllAgree(Step(st, tr[0]), tr[1..])
  }

  /**
   Over every possible run each running worker runs the command of every document or forked thread
   that has its pid, in every state, exactly when no fork returned a pid that somebody with another
   command had and no update gave its worker to a document with another command.
   */
  lemma {:induction false} CommandsStayOwnIff(st: Sys, tr: seq<Event>)
    requires Possible(st, tr) && OwnCommandAll(st)
    ensures OwnCommandThroughout(st, tr) <==> AllAgree(st, tr)
    decreases |tr|
  {
    if tr != [] {
      OwnCommandAllStep(st, tr[0]);
      if Agrees(st, tr[0]) {
        CommandsStayOwnIff(Step(st, tr[0]), tr[1..]);
      } else {
        StrangerNow(Step(st, tr[0]), tr[1..]);
      }
    }
  }

  lemma StrangerNow(st: Sys, tr: seq<Event>)
    requires Possible(st, tr) && !OwnCommandAll(st)
    ensures !OwnCommandThroughout(st, tr)
  {
  }
}
