/**
 What callers see of a run: it is linearizable, and its records are conserved exactly when the
 database keeps its writes.
 */
module StreamHistory {
  import opened Wrappers
  import opened ProcessStore
  import opened StreamControl
  import opened StreamSafety

  // ----- the atomic operations

  datatype Operation =
    | Spawn(param: ProcessInfo, reached: bool, child: Option<int>, ok: bool)
    | Reload(sid: string, reached: bool, child: Option<int>, ok: bool)
    | Remove(sid: string, reached: bool, ok: bool)

  /**
   One operation on the cache alone: whether its lookup reached the database, what its fork returned
   and whether its write took effect are given.  A reload does not report a failed fork, and no operation
   reports a failed write.
   */
  function Apply(self: int, docs: seq<ProcessInfo>, op: Operation): (seq<ProcessInfo>, Code) {
    match op
    case Spawn(param, reached, child, ok) =>
      if Lookup(docs, param.sid, reached).Some? then (docs, StreamExist)
      else if child.None? then (docs, ForkFailed)
      else (if ok then Insert(docs, param.(pid := child.value), self) else docs, Ok)
    case Reload(sid, reached, child, ok) =>
      if Lookup(docs, sid, reached).None? then (docs, StreamNotExist)
      else (if child.Some? && ok then SetPid(docs, sid, child.value) else docs, Ok)
    case Remove(sid, reached, ok) =>
      if Lookup(docs, sid, reached).None? then (docs, StreamNotExist)
      else (if ok then RemoveBySid(docs, sid) else docs, Ok)
  }

  datatype Commit = Commit(t: Tid, op: Operation)

  /** The step of an operation at which it takes effect on the cache. */
  function CommitOf(st: Sys, ev: Event): Option<Commit>
    requires Enabled(st, ev)
  {
    match ev
    case SpawnCheck(t, param, reached) =>
      if Lookup(st.docs, param.sid, reached).Some? then
        Some(Commit(t, Spawn(param, reached, None, true)))
      else None
    case SpawnFork(t, child) =>
      if child.None? then Some(Commit(t, Spawn(st.threads[t].info, true, None, true))) else None
    case SpawnRecord(t, ok) =>
      var info := st.threads[t].info;
      Some(Commit(t, Spawn(info, true, Some(info.pid), ok)))
    case ReloadLookup(t, sid, reached) =>
      if Lookup(st.docs, sid, reached).None? then Some(Commit(t, Reload(sid, reached, None, true))) else None
    case ReloadFork(t, child) =>
      if child.None? then Some(Commit(t, Reload(st.threads[t].info.sid, true, None, true))) else None
    case ReloadUpdate(t, ok) =>
      var info := st.threads[t].info;
      Some(Commit(t, Reload(info.sid, true, Some(info.pid), ok)))
    case RemoveLookup(t, sid, reached) =>
      if Lookup(st.docs, sid, reached).None? then Some(Commit(t, Remove(sid, reached, true))) else None
    case RemoveUncache(t, ok) => Some(Commit(t, Remove(st.threads[t].info.sid, true, ok)))
    case _ => None
  }

  function History(st: Sys, tr: seq<Event>): seq<Commit>
    requires Possible(st, tr)
    decreases |tr|
  {
    if tr == [] then []
    else
      var c := CommitOf(st, tr[0]);
      (if c.Some? then [c.value] else []) + History(Step(st, tr[0]), tr[1..])
  }

  /** The committed operations executed one after the other, none overlapping. */
  function Replay(self: int, docs: seq<ProcessInfo>, hist: seq<Commit>): seq<ProcessInfo>
    decreases |hist|
  {
    if hist == [] then docs else Replay(self, Apply(self, docs, hist[0].op).0, hist[1..])
  }

  /** What thread t's operations return in that serial execution. */
  function ReplayCodes(self: int, docs: seq<ProcessInfo>, hist: seq<Commit>, t: Tid): seq<Code>
    decreases |hist|
  {
    if hist == [] then []
    else
      var (docs', code) := Apply(self, docs, hist[0].op);
      (if hist[0].t == t then [code] else []) + ReplayCodes(self, docs', hist[1..], t)
  }

  /** What thread t's operations return in the interleaved run. */
  function Answers(st: Sys, tr: seq<Event>, t: Tid): seq<Code>
    requires Possible(st, tr)
    decreases |tr|
  {
    if tr == [] then []
    else
      AnswerOf(st, tr[0], t) + Answers(Step(st, tr[0]), tr[1..], t)
  }

  predicate KillPending(st: Sys, t: Tid) {
    t in st.threads && st.threads[t].RemoveUncached?
  }

  /** A remove that has left the cache is bound to answer Ok. */
  function Owed(st: Sys, t: Tid): seq<Code> {
    if KillPending(st, t) then [Ok] else []
  }

  lemma CommitStep(st: Sys, ev: Event)
    requires Inv(st) && Enabled(st, ev) && Exclusive(st, ev)
    ensures var c := CommitOf(st, ev);
            if c.None? then Step(st, ev).docs == st.docs
            else
              var (docs', code) := Apply(st.self, st.docs, c.value.op);
              && docs' == Step(st, ev).docs
              && Some(code) == (if ev.RemoveUncache? then Some(Ok) else Return(st, ev))
  {
    if ev.SpawnFork? || ev.SpawnRecord? || ev.ReloadFork? || ev.ReloadUpdate? || ev.RemoveUncache? {
      assert PhaseOk(st.docs, st.threads[ev.t]);
    }
  }

  lemma {:induction false} ReplayMatchesRun(st: Sys, tr: seq<Event>)
    requires Inv(st) && OnePerStream(st, tr) && Possible(st, tr)
    ensures Replay(st.self, st.docs, History(st, tr)) == Run(st, tr).docs
    decreases |tr|
  {
    if tr != [] {
      CommitStep(st, tr[0]);
      InvStep(st, tr[0]);
      ReplayMatchesRun(Step(st, tr[0]), tr[1..]);
      HistoryUnfolds(st, tr);
    }
  }

  lemma HistoryUnfolds(st: Sys, tr: seq<Event>)
    requires Possible(st, tr) && tr != []
    ensures var c := CommitOf(st, tr[0]); var later := History(Step(st, tr[0]), tr[1..]);
            if c.None? then History(st, tr) == later
            else History(st, tr) != [] && History(st, tr)[0] == c.value && History(st, tr)[1..] == later
  {
  }

  /** The answer that one step gives thread t, if any. */
  function AnswerOf(st: Sys, ev: Event, t: Tid): seq<Code>
    requires Enabled(st, ev)
  {
    var r := Return(st, ev);
    if r.Some? && !ev.Terminate? && ev.t == t then [r.value] else []
  }

  /** The answer that one step commits for thread t, if any. */
  function CommittedCode(st: Sys, ev: Event, t: Tid): seq<Code>
    requires Enabled(st, ev)
  {
    var c := CommitOf(st, ev);
    if c.Some? && c.value.t == t then [Apply(st.self, st.docs, c.value.op).1] else []
  }

  lemma AnswerStart(st: Sys, ev: Event, t: Tid)
    requires ev.SpawnCheck? || ev.ReloadLookup? || ev.DetectCheck? || ev.DetectLookup? || ev.RemoveLookup?
    requires Inv(st) && Enabled(st, ev) && Exclusive(st, ev)
    ensures Owed(st, t) + CommittedCode(st, ev, t) == AnswerOf(st, ev, t) + Owed(Step(st, ev), t)
  {
    CommitStep(st, ev);
  }

  lemma AnswerWrite(st: Sys, ev: Event, t: Tid)
    requires ev.SpawnFork? || ev.SpawnRecord? || ev.ReloadFork? || ev.ReloadUpdate?
    requires Inv(st) && Enabled(st, ev) && Exclusive(st, ev)
    ensures Owed(st, t) + CommittedCode(st, ev, t) == AnswerOf(st, ev, t) + Owed(Step(st, ev), t)
  {
    CommitStep(st, ev);
  }

  lemma AnswerEnd(st: Sys, ev: Event, t: Tid)
    requires ev.RemoveUncache? || ev.RemoveKill? || ev.Terminate? || ev.Die?
    requires Inv(st) && Enabled(st, ev) && Exclusive(st, ev)
    ensures Owed(st, t) + CommittedCode(st, ev, t) == AnswerOf(st, ev, t) + Owed(Step(st, ev), t)
  {
    CommitStep(st, ev);
  }

  lemma AnswerStep(st: Sys, ev: Event, t: Tid)
    requires Inv(st) && Enabled(st, ev) && Exclusive(st, ev)
    ensures Owed(st, t) + CommittedCode(st, ev, t) == AnswerOf(st, ev, t) + Owed(Step(st, ev), t)
  {
    if ev.SpawnFork? || ev.SpawnRecord? || ev.ReloadFork? || ev.ReloadUpdate? {
      AnswerWrite(st, ev, t);
    } else if ev.RemoveUncache? || ev.RemoveKill? || ev.Terminate? || ev.Die? {
      AnswerEnd(st, ev, t);
    } else {
      AnswerStart(st, ev, t);
    }
  }

  lemma Glue<T>(a: seq<T>, b: seq<T>, c: seq<T>, d: seq<T>, x: seq<T>, y: seq<T>, e: seq<T>)
    requires a + b == c + d && d + x == y + e
    ensures a + (b + x) == (c + y) + e
  {
    assert a + (b + x) == (a + b) + x == c + (d + x) == (c + y) + e;
  }

  lemma CodesUnfold(st: Sys, tr: seq<Event>, t: Tid)
    requires Inv(st) && Possible(st, tr) && tr != [] && Exclusive(st, tr[0])
    ensures var st' := Step(st, tr[0]);
            ReplayCodes(st.self, st.docs, History(st, tr), t)
            == CommittedCode(st, tr[0], t) + ReplayCodes(st.self, st'.docs, History(st', tr[1..]), t)
  {
    CommitStep(st, tr[0]);
    HistoryUnfolds(st, tr);
  }

  lemma AnswersUnfold(st: Sys, tr: seq<Event>, t: Tid)
    requires Possible(st, tr) && tr != []
    ensures Answers(st, tr, t) == AnswerOf(st, tr[0], t) + Answers(Step(st, tr[0]), tr[1..], t)
    ensures Run(st, tr) == Run(Step(st, tr[0]), tr[1..])
  {
  }

  lemma SameServer(st: Sys, ev: Event)
    requires Enabled(st, ev)
    ensures Step(st, ev).self == st.self
  {
  }

  lemma {:induction false} ReplayAnswersAlike(st: Sys, tr: seq<Event>, t: Tid)
    requires Inv(st) && OnePerStream(st, tr) && Possible(st, tr)
    ensures Owed(st, t) + ReplayCodes(st.self, st.docs, History(st, tr), t)
         == Answers(st, tr, t) + Owed(Run(st, tr), t)
    decreases |tr|
  {
    if tr != [] {
      var st', rest := Step(st, tr[0]), tr[1..];
      InvStep(st, tr[0]);
      AnswerStep(st, tr[0], t);
      CodesUnfold(st, tr, t);
      AnswersUnfold(st, tr, t);
      SameServer(st, tr[0]);
      ReplayAnswersAlike(st', rest, t);
      Glue(Owed(st, t), CommittedCode(st, tr[0], t), AnswerOf(st, tr[0], t), Owed(st', t),
           ReplayCodes(st.self, st'.docs, History(st', rest), t), Answers(st', rest, t), Owed(Run(st', rest), t));
    }
  }

  /**
   Every interleaving with one operation per stream in flight is linearizable: the cache it
   leaves is the cache that its operations leave when run one by one in the order of their
   commits, every commit is a step of its own operation, and each operation answers the same.
   */
  lemma Linearizable(st: Sys, tr: seq<Event>, t: Tid)
    requires Inv(st) && OnePerStream(st, tr) && Possible(st, tr) && st.threads == map[]
    requires Run(st, tr).threads == map[]
    ensures Replay(st.self, st.docs, History(st, tr)) == Run(st, tr).docs
    ensures ReplayCodes(st.self, st.docs, History(st, tr), t) == Answers(st, tr, t)
  {
    ReplayMatchesRun(st, tr);
    ReplayAnswersAlike(st, tr, t);
    assert Owed(st, t) + ReplayCodes(st.self, st.docs, History(st, tr), t)
        == ReplayCodes(st.self, st.docs, History(st, tr), t);
  }

  // ----- conservation of records

  function KillsPending(st: Sys): set<Tid> {
    set t | t in st.threads && st.threads[t].RemoveUncached?
  }

  /** Cached streams, plus those taken out by a remove that has not answered yet. */
  function Ledger(st: Sys): nat {
    |st.docs| + |KillsPending(st)|
  }

  function SpawnAnswer(ev: Event): int { if ev.SpawnRecord? then 1 else 0 }

  function RemoveAnswer(ev: Event): int { if ev.RemoveKill? then 1 else 0 }

  /** The insert of a spawn took effect, and the delete of a remove did and found its stream. */
  predicate Effective(st: Sys, ev: Event)
    requires Enabled(st, ev)
  {
    match ev
    case SpawnRecord(_, ok) => ok
    case RemoveUncache(t, ok) => ok && FindBySid(st.docs, st.threads[t].info.sid).Some?
    case _ => true
  }

  lemma LedgerUncache(st: Sys, ev: Event)
    requires ev.RemoveUncache? && Enabled(st, ev)
    ensures Ledger(Step(st, ev)) == Ledger(st) <==> Effective(st, ev)
  {
    assert KillsPending(Step(st, ev)) == KillsPending(st) + {ev.t};
  }

  lemma LedgerKill(st: Sys, ev: Event)
    requires ev.RemoveKill? && Enabled(st, ev)
    ensures Ledger(Step(st, ev)) == Ledger(st) - 1
  {
    assert KillsPending(Step(st, ev)) == KillsPending(st) - {ev.t};
  }

  lemma LedgerSpawn(st: Sys, ev: Event)
    requires ev.SpawnCheck? || ev.SpawnFork? || ev.SpawnRecord?
    requires Enabled(st, ev)
    ensures Ledger(Step(st, ev)) == Ledger(st) + (if ev.SpawnRecord? && ev.ok then 1 else 0)
  {
    assert KillsPending(Step(st, ev)) == KillsPending(st);
  }

  lemma LedgerReload(st: Sys, ev: Event)
    requires ev.ReloadLookup? || ev.DetectCheck? || ev.DetectLookup? || ev.ReloadFork? || ev.ReloadUpdate?
    requires Enabled(st, ev)
    ensures Ledger(Step(st, ev)) == Ledger(st)
  {
    assert KillsPending(Step(st, ev)) == KillsPending(st);
  }

  lemma LedgerStep(st: Sys, ev: Event)
    requires Enabled(st, ev)
    ensures Ledger(Step(st, ev)) == Ledger(st) + SpawnAnswer(ev) - RemoveAnswer(ev) <==> Effective(st, ev)
  {
    if ev.RemoveUncache? {
      LedgerUncache(st, ev);
    } else if ev.RemoveKill? {
      LedgerKill(st, ev);
    } else if ev.SpawnCheck? || ev.SpawnFork? || ev.SpawnRecord? {
      LedgerSpawn(st, ev);
    } else if ev.ReloadLookup? || ev.DetectCheck? || ev.DetectLookup? || ev.ReloadFork? || ev.ReloadUpdate? {
      LedgerReload(st, ev);
    } else {
      assert KillsPending(Step(st, ev)) == KillsPending(st);
    }
  }

  /** In every state the ledger is the initial count, plus spawns that answered Ok, minus removes that did. */
  ghost predicate ConservedThroughout(st: Sys, tr: seq<Event>, balance: int)
    requires Possible(st, tr)
    decreases |tr|
  {
    Ledger(st) == balance &&
    (tr != [] ==> ConservedThroughout(Step(st, tr[0]), tr[1..], balance + SpawnAnswer(tr[0]) - RemoveAnswer(tr[0])))
  }

  ghost predicate EffectiveThroughout(st: Sys, tr: seq<Event>)
    requires Possible(st, tr)
    decreases |tr|
  {
    tr != [] ==> Effective(st, tr[0]) && EffectiveThroughout(Step(st, tr[0]), tr[1..])
  }

  /**
   Over every possible run the number of stored streams follows the answers of spawn and remove in
   every state exactly when each insert of the run took effect and each delete took effect on a record
   of its stream; reloads, terminations, refused calls and dying workers never matter.
   */
  lemma {:induction false} RecordsAreConserved(st: Sys, tr: seq<Event>)
    requires Possible(st, tr)
    ensures ConservedThroughout(st, tr, Ledger(st)) <==> EffectiveThroughout(st, tr)
    decreases |tr|
  {
    if tr != [] {
      ConservedStep(st, tr);
      var st' := Step(st, tr[0]);
      if Effective(st, tr[0]) {
        RecordsAreConserved(st', tr[1..]);
      } else {
        OffBalance(st', tr[1..], Ledger(st) + SpawnAnswer(tr[0]) - RemoveAnswer(tr[0]));
      }
    }
  }

  lemma ConservedStep(st: Sys, tr: seq<Event>)
    requires Possible(st, tr) && tr != []
    ensures var st', rest := Step(st, tr[0]), tr[1..];
            var balance := Ledger(st) + SpawnAnswer(tr[0]) - RemoveAnswer(tr[0]);
            && Possible(st', rest)
            && (Ledger(st') == balance <==> Effective(st, tr[0]))
            && (ConservedThroughout(st, tr, Ledger(st)) <==> ConservedThroughout(st', rest, balance))
  {
    LedgerStep(st, tr[0]);
  }

  lemma OffBalance(st: Sys, tr: seq<Event>, balance: int)
    requires Possible(st, tr) && Ledger(st) != balance
    ensures !ConservedThroughout(st, tr, balance)
  {
  }

  function SpawnsOk(tr: seq<Event>): nat {
    if tr == [] then 0 else SpawnAnswer(tr[0]) + SpawnsOk(tr[1..])
  }

  function RemovesOk(tr: seq<Event>): nat {
    if tr == [] then 0 else RemoveAnswer(tr[0]) + RemovesOk(tr[1..])
  }

  /**
   The same between the two ends of a run, as a count; with no remove waiting to kill at either end
   it is the number of stored streams itself.
   */
  lemma {:induction false} RecordCount(st: Sys, tr: seq<Event>)
    requires Possible(st, tr) && EffectiveThroughout(st, tr)
    ensures Ledger(Run(st, tr)) == Ledger(st) + SpawnsOk(tr) - RemovesOk(tr)
    ensures KillsPending(st) == {} && KillsPending(Run(st, tr)) == {} ==>
              |Run(st, tr).docs| == |st.docs| + SpawnsOk(tr) - RemovesOk(tr)
    decreases |tr|
  {
    if tr != [] {
      LedgerStep(st, tr[0]);
      RecordCount(Step(st, tr[0]), tr[1..]);
    }
  }

  // ----- with one operation per stream

  predicate WriteKept(ev: Event) {
    (ev.SpawnRecord? || ev.RemoveUncache?) ==> ev.ok
  }

  predicate WritesKept(tr: seq<Event>) {
    tr == [] || (WriteKept(tr[0]) && WritesKept(tr[1..]))
  }

  lemma {:induction false} KeptIsEffective(st: Sys, tr: seq<Event>)
    requires Inv(st) && OnePerStream(st, tr) && Possible(st, tr)
    ensures EffectiveThroughout(st, tr) <==> WritesKept(tr)
    decreases |tr|
  {
    if tr != [] {
      InvStep(st, tr[0]);
      KeptStep(st, tr[0]);
      KeptIsEffective(Step(st, tr[0]), tr[1..]);
    }
  }

  lemma KeptStep(st: Sys, ev: Event)
    requires Inv(st) && Enabled(st, ev)
    ensures Effective(st, ev) <==> WriteKept(ev)
  {
    if ev.RemoveUncache? {
      assert PhaseOk(st.docs, st.threads[ev.t]);
    }
  }

  /** Then a delete always finds its stream, and it is enough that the database loses no write. */
  lemma ConservedIfKept(st: Sys, tr: seq<Event>)
    requires Inv(st) && OnePerStream(st, tr) && Possible(st, tr)
    ensures ConservedThroughout(st, tr, Ledger(st)) <==> WritesKept(tr)
  {
    RecordsAreConserved(st, tr);
    KeptIsEffective(st, tr);
  }
}
