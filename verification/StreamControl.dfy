/**
 The operations of ProcessCtlModule (processCommonApi.cpp) as small steps of concurrent
 threads over two stores: the stream cache and the operating-system process table.

 Every database call, fork and kill is one step, so any interleaving of the worker threads
 and of the detection thread is a trace of these events.  The database may fail a write, a
 lookup that does not reach it finds nothing, a fork may fail, and a worker may die at any moment.
 SIGCHLD is ignored (serverBiz.cpp:28), so a dead worker is reaped at once and its pid may be handed
 out again.
 */
module StreamControl {
  import opened Wrappers
  import opened ProcessStore

  type Tid = nat

  datatype Code = Ok | StreamExist | ForkFailed | StreamNotExist

  /** What a thread inside an operation remembers between two steps. */
  datatype Phase =
    | SpawnChecked(info: ProcessInfo)    // is_process_exist said no
    | SpawnForked(info: ProcessInfo)     // info.pid names the child
    | Suspected(info: ProcessInfo)       // a snapshot record whose pid named no process
    | ReloadFound(info: ProcessInfo)     // the record as it was looked up
    | ReloadForked(info: ProcessInfo)    // info.pid names the new child
    | RemoveFound(info: ProcessInfo)
    | RemoveUncached(info: ProcessInfo)  // taken out of the cache, kill still to come

  datatype Sys = Sys(self: int, docs: seq<ProcessInfo>, live: map<int, string>, threads: map<Tid, Phase>)

  datatype Event =
    | SpawnCheck(t: Tid, param: ProcessInfo, reached: bool)
    | SpawnFork(t: Tid, child: Option<int>)
    | SpawnRecord(t: Tid, ok: bool)
    | ReloadLookup(t: Tid, sid: string, reached: bool)
    | DetectCheck(t: Tid, was: ProcessInfo)
    | DetectLookup(t: Tid, reached: bool)
    | ReloadFork(t: Tid, child: Option<int>)
    | ReloadUpdate(t: Tid, ok: bool)
    | RemoveLookup(t: Tid, sid: string, reached: bool)
    | RemoveUncache(t: Tid, ok: bool)
    | RemoveKill(t: Tid)
    | Terminate(pid: int)
    | Die(pid: int)

  const FFMPEG_PARAM_MAX_LEN: nat := 2048

  /** The shell command of a worker; snprintf keeps what fits its stated size. */
  function Command(info: ProcessInfo): string {
    var cmd := "ffmpeg -v quiet -i " + info.srcUrl + " -c copy -f flv " + info.destUrl;
    if |cmd| <= FFMPEG_PARAM_MAX_LEN - 2 then cmd else cmd[..FFMPEG_PARAM_MAX_LEN - 2]
  }

  /** findOne answers "not there" also when it does not reach the database. */
  function Lookup(docs: seq<ProcessInfo>, sid: string, reached: bool): (r: Option<ProcessInfo>)
    ensures r == if reached then FindBySid(docs, sid) else None
  {
    if reached then FindBySid(docs, sid) else None
  }

  function LookupPid(docs: seq<ProcessInfo>, pid: int, reached: bool): Option<ProcessInfo> {
    if reached then FindByPid(docs, pid) else None
  }

  /** fork returns a positive number that no running process has, the server included. */
  predicate ForkResult(st: Sys, child: Option<int>) {
    child.Some? ==> child.value > 0 && child.value != st.self && child.value !in st.live
  }

  predicate Enabled(st: Sys, ev: Event) {
    match ev
    case SpawnCheck(t, _, _) => t !in st.threads
    case SpawnFork(t, child) => t in st.threads && st.threads[t].SpawnChecked? && ForkResult(st, child)
    case SpawnRecord(t, _) => t in st.threads && st.threads[t].SpawnForked?
    case ReloadLookup(t, _, _) => t !in st.threads
    case DetectCheck(t, was) => t !in st.threads && was.pid > 0
    case DetectLookup(t, _) => t in st.threads && st.threads[t].Suspected?
    case ReloadFork(t, child) => t in st.threads && st.threads[t].ReloadFound? && ForkResult(st, child)
    case ReloadUpdate(t, _) => t in st.threads && st.threads[t].ReloadForked?
    case RemoveLookup(t, _, _) => t !in st.threads
    case RemoveUncache(t, _) => t in st.threads && st.threads[t].RemoveFound?
    case RemoveKill(t) => t in st.threads && st.threads[t].RemoveUncached?
    case Terminate(pid) => pid > 0
    case Die(pid) => pid in st.live
  }

  predicate Forks(ev: Event, pid: int) {
    (ev.SpawnFork? || ev.ReloadFork?) && ev.child == Some(pid)
  }

  function Goto(st: Sys, t: Tid, ph: Phase): Sys {
    st.(threads := st.threads[t := ph])
  }

  function Leave(st: Sys, t: Tid): Sys {
    st.(threads := st.threads - {t})
  }

  function Launch(st: Sys, info: ProcessInfo): Sys {
    st.(live := st.live[info.pid := Command(info)])
  }

  function Step(st: Sys, ev: Event): Sys
    requires Enabled(st, ev)
  {
    match ev
    case SpawnCheck(t, param, reached) =>
      if Lookup(st.docs, param.sid, reached).Some? then st else Goto(st, t, SpawnChecked(param))
    case SpawnFork(t, child) =>
      if child.None? then Leave(st, t) else
        var info := st.threads[t].info.(pid := child.value);
        Goto(Launch(st, info), t, SpawnForked(info))
    case SpawnRecord(t, ok) =>
      var docs := if ok then Insert(st.docs, st.threads[t].info, st.self) else st.docs;
      Leave(st.(docs := docs), t)
    case ReloadLookup(t, sid, reached) =>
      var found := Lookup(st.docs, sid, reached);
      if found.None? then st else Goto(st, t, ReloadFound(found.value))
    case DetectCheck(t, was) =>
      if was.pid in st.live then st else Goto(st, t, Suspected(was))
    case DetectLookup(t, reached) =>
      var found := LookupPid(st.docs, st.threads[t].info.pid, reached);
      if found.None? then Leave(st, t) else Goto(st, t, ReloadFound(found.value))
    case ReloadFork(t, child) =>
      if child.None? then Leave(st, t) else
        var info := st.threads[t].info.(pid := child.value);
        Goto(Launch(st, info), t, ReloadForked(info))
    case ReloadUpdate(t, ok) =>
      var info := st.threads[t].info;
      var docs := if ok then SetPid(st.docs, info.sid, info.pid) else st.docs;
      Leave(st.(docs := docs), t)
    case RemoveLookup(t, sid, reached) =>
      var found := Lookup(st.docs, sid, reached);
      if found.None? then st else Goto(st, t, RemoveFound(found.value))
    case RemoveUncache(t, ok) =>
      var info := st.threads[t].info;
      var docs := if ok then RemoveBySid(st.docs, info.sid) else st.docs;
      Goto(st.(docs := docs), t, RemoveUncached(info))
    case RemoveKill(t) =>
      Leave(st.(live := st.live - {st.threads[t].info.pid}), t)
    case Terminate(pid) => st.(live := st.live - {pid})
    case Die(pid) => st.(live := st.live - {pid})
  }

  /** What the operation returns to its caller, when this step is its last. */
  function Return(st: Sys, ev: Event): Option<Code>
    requires Enabled(st, ev)
  {
    match ev
    case SpawnCheck(_, param, reached) =>
      if Lookup(st.docs, param.sid, reached).Some? then Some(StreamExist) else None
    case SpawnFork(_, child) => if child.None? then Some(ForkFailed) else None
    case SpawnRecord(_, _) => Some(Ok)
    case ReloadLookup(_, sid, reached) =>
      if Lookup(st.docs, sid, reached).None? then Some(StreamNotExist) else None
    case DetectCheck(_, _) => None
    case DetectLookup(_, _) => None
    case ReloadFork(_, child) => if child.None? then Some(Ok) else None
    case ReloadUpdate(_, _) => Some(Ok)
    case RemoveLookup(_, sid, reached) =>
      if Lookup(st.docs, sid, reached).None? then Some(StreamNotExist) else None
    case RemoveUncache(_, _) => None
    case RemoveKill(_) => Some(Ok)
    case Terminate(_) => Some(Ok)
    case Die(_) => None
  }

  // ----- traces

  ghost predicate Possible(st: Sys, tr: seq<Event>)
    decreases |tr|
  {
    tr == [] || (Enabled(st, tr[0]) && Possible(Step(st, tr[0]), tr[1..]))
  }

  function Run(st: Sys, tr: seq<Event>): Sys
    requires Possible(st, tr)
    decreases |tr|
  {
    if tr == [] then st else Run(Step(st, tr[0]), tr[1..])
  }

  /** The thread is inside an operation on the stream of its record; a suspicion is not one yet. */
  predicate Working(st: Sys, t: Tid) {
    t in st.threads && !st.threads[t].Suspected?
  }

  predicate Idle(st: Sys, sid: string) {
    forall t :: t in st.threads && Working(st, t) ==> st.threads[t].info.sid != sid
  }

  /**
   A thread that goes on to work on a stream finds no other one working on it, and one that goes on
   to spawn a stream was told the truth by its lookup.
   */
  predicate Exclusive(st: Sys, ev: Event)
    requires Enabled(st, ev)
  {
    match ev
    case SpawnCheck(_, param, reached) =>
      Lookup(st.docs, param.sid, reached).None? ==> Idle(st, param.sid) && FindBySid(st.docs, param.sid).None?
    case ReloadLookup(_, sid, reached) => Lookup(st.docs, sid, reached).Some? ==> Idle(st, sid)
    case RemoveLookup(_, sid, reached) => Lookup(st.docs, sid, reached).Some? ==> Idle(st, sid)
    case DetectLookup(t, reached) =>
      var found := LookupPid(st.docs, st.threads[t].info.pid, reached);
      found.Some? ==> Idle(st, found.value.sid)
    case _ => true
  }

  /** A possible trace with at most one operation in flight per stream. */
  ghost predicate OnePerStream(st: Sys, tr: seq<Event>)
    decreases |tr|
  {
    tr == [] ||
    (Enabled(st, tr[0]) && Exclusive(st, tr[0]) && OnePerStream(Step(st, tr[0]), tr[1..]))
  }
}
