/**
 ProcessCtlModule (processCommonApi.cpp) and the detection pass of ServerBiz as they run in one
 thread: each call changes the stream cache and the process table in place, and its contract
 ties the new state to the atomic operation of the history model.
 */
module ProcessControl {
  import opened Wrappers
  import opened ProcessStore
  import opened StreamControl
  import opened StreamHistory

  function CountPid(docs: seq<ProcessInfo>, pid: int): nat {
    if docs == [] then 0 else (if docs[0].pid == pid then 1 else 0) + CountPid(docs[1..], pid)
  }

  lemma {:induction false} CountedIsStored(docs: seq<ProcessInfo>, d: ProcessInfo)
    requires d in docs
    ensures CountPid(docs, d.pid) > 0
  {
    if docs[0] != d {
      CountedIsStored(docs[1..], d);
    }
  }

  lemma {:induction false} NoneCounted(docs: seq<ProcessInfo>, pid: int)
    requires FindByPid(docs, pid).None?
    ensures CountPid(docs, pid) == 0
  {
    if docs != [] {
      assert docs[0] in docs && forall d :: d in docs[1..] ==> d in docs;
      NoneCounted(docs[1..], pid);
    }
  }

  /** An update moves one record from its old pid to the new one. */
  lemma {:induction false} CountAfterSetPid(docs: seq<ProcessInfo>, sid: string, pid: int, p: int)
    requires FindBySid(docs, sid).Some?
    ensures CountPid(SetPid(docs, sid, pid), p) ==
            CountPid(docs, p) - (if FindBySid(docs, sid).value.pid == p then 1 else 0) + (if pid == p then 1 else 0)
  {
    if docs[0].sid == sid {
      assert SetPid(docs, sid, pid)[1..] == docs[1..];
    } else {
      CountAfterSetPid(docs[1..], sid, pid, p);
      assert SetPid(docs, sid, pid)[1..] == SetPid(docs[1..], sid, pid);
    }
  }

  // ----- the addressees of kill

  /** A server process and the group that it and its workers are in. */
  datatype ServerIds = ServerIds(pid: int, group: int)

  type Server = s: ServerIds | s.pid > 0 && s.group > 0 witness ServerIds(1, 1)

  /** kill(pid, 0) succeeds: a process, the caller's group, or, for -1, any process but the caller. */
  predicate Exists(server: Server, live: map<int, string>, pid: int) {
    if pid > 0 then pid in live || pid == server.pid
    else pid == 0 || pid == -server.group || (pid == -1 && live != map[])
  }

  /** The workers left after kill(pid, SIGKILL). */
  function Killed(server: Server, live: map<int, string>, pid: int): map<int, string> {
    if pid > 0 then live - {pid}
    else if pid == 0 || pid == -1 || pid == -server.group then map[]
    else live
  }

  predicate StopsServer(server: Server, pid: int) {
    pid == 0 || pid == server.pid || pid == -server.group
  }

  /** Addressed workers are gone, others are not touched, and kill(pid, 0) then finds at most the server. */
  lemma KillIsExact(server: Server, live: map<int, string>, pid: int, p: int)
    ensures pid > 0 ==> (p in Killed(server, live, pid) <==> p in live && p != pid)
    ensures pid in {0, -1, -server.group} ==> Killed(server, live, pid) == map[]
    ensures Exists(server, Killed(server, live, pid), pid) <==> StopsServer(server, pid)
    ensures !Exists(server, live, pid) ==> Killed(server, live, pid) == live && !StopsServer(server, pid)
  {
    if !Exists(server, live, pid) && pid > 0 {
      assert live - {pid} == live;
    }
  }

  /** Signal 0 finds somebody exactly when SIGKILL would end somebody. */
  lemma ExistsForetellsKill(server: Server, live: map<int, string>, pid: int)
    ensures Exists(server, live, pid) <==> Killed(server, live, pid) != live || StopsServer(server, pid)
  {
    if pid > 0 {
      assert pid in live ==> pid !in live - {pid};
      assert pid !in live ==> live - {pid} == live;
    }
  }

  lemma ExistsGrows(server: Server, live: map<int, string>, live': map<int, string>, pid: int)
    requires forall p :: p in live ==> p in live'
    ensures Exists(server, live, pid) ==> Exists(server, live', pid)
  {
    if pid == -1 && live != map[] {
      assert (forall p :: p !in live) ==> live == map[];
      var p :| p in live;
      assert p in live';
    }
  }

  // ----- the detection pass

  /** The records are the same but for their pids. */
  predicate SameStreams(docs: seq<ProcessInfo>, docs': seq<ProcessInfo>) {
    |docs'| == |docs| && forall i :: 0 <= i < |docs| ==> docs'[i] == docs[i].(pid := docs'[i].pid)
  }

  lemma {:induction false} SetPidKeepsStreams(docs: seq<ProcessInfo>, sid: string, pid: int)
    ensures SameStreams(docs, SetPid(docs, sid, pid))
  {
    if docs != [] && docs[0].sid != sid {
      SetPidKeepsStreams(docs[1..], sid, pid);
    }
  }

  /** What a detection pass may do to the record of one stream. */
  ghost predicate Restarted(server: Server, docs: seq<ProcessInfo>, live: map<int, string>,
                            docs': seq<ProcessInfo>, live': map<int, string>, s: string)
  {
    var was, now := FindBySid(docs, s), FindBySid(docs', s);
    && (was.None? <==> now.None?)
    && (was.Some? ==>
          && now.value == was.value.(pid := now.value.pid)
          && (Exists(server, live, was.value.pid) ==> now == was)
          && (now != was ==> now.value.pid > 0 && now.value.pid in live' && now.value.pid !in live
                             && live'[now.value.pid] == Command(was.value)))
  }

  class ProcessCtl {
    const server: Server
    var docs: seq<ProcessInfo>
    var live: map<int, string>
    var stopped: bool  // the server has killed itself
    var errors: nat    // failed forks and database calls, each of which is logged

    constructor (server: Server)
      ensures this.server == server && docs == [] && live == map[] && !stopped && errors == 0
    {
      this.server := server;
      docs, live, stopped, errors := [], map[], false, 0;
    }

    method Fork(info: ProcessInfo) returns (pid: int)
      modifies this`live, this`errors
      ensures pid < 0 ==> live == old(live) && errors == old(errors) + 1
      ensures pid >= 0 ==> pid > 0 && pid != server.pid && pid !in old(live) && errors == old(errors)
                           && live == old(live)[pid := Command(info)]
    {
      if * {
        pid, errors := -1, errors + 1;
      } else {
        FreePid(live.Keys + {server.pid});
        pid :| pid > 0 && pid !in live.Keys + {server.pid};
        live := live[pid := Command(info)];
      }
    }

    method FindStream(sid: string) returns (found: Option<ProcessInfo>)
      modifies this`errors
      ensures exists reached :: found == Lookup(docs, sid, reached)
                                && errors == old(errors) + (if reached then 0 else 1)
    {
      ghost var reached := true;
      if * {
        found, errors := None, errors + 1;
        reached := false;
      } else {
        found := FindBySid(docs, sid);
      }
      assert found == Lookup(docs, sid, reached);
    }

    method UpdateProcessInfo(info: ProcessInfo)
      modifies this`docs, this`errors
      ensures errors == old(errors) ==> docs == SetPid(old(docs), info.sid, info.pid)
      ensures errors != old(errors) ==> docs == old(docs) && errors == old(errors) + 1
    {
      if * {
        errors := errors + 1;
      } else {
        docs := SetPid(docs, info.sid, info.pid);
      }
    }

    method AddProcessToCache(info: ProcessInfo)
      modifies this`docs, this`errors
      ensures errors == old(errors) ==> docs == Insert(old(docs), info, server.pid)
      ensures errors != old(errors) ==> docs == old(docs) && errors == old(errors) + 1
    {
      if * {
        errors := errors + 1;
      } else {
        docs := Insert(docs, info, server.pid);
      }
    }

    method RemoveProcessByStream(sid: string)
      modifies this`docs, this`errors
      ensures errors == old(errors) ==> docs == RemoveBySid(old(docs), sid)
      ensures errors != old(errors) ==> docs == old(docs) && errors == old(errors) + 1
    {
      if * {
        errors := errors + 1;
      } else {
        docs := RemoveBySid(docs, sid);
      }
    }

    method SpawnProcess(param: ProcessInfo) returns (r: Code, info: ProcessInfo)
      modifies this`docs, this`live, this`errors
      ensures var child := if r == Ok then Some(info.pid) else None;
              exists reached, ok :: (docs, r) == Apply(server.pid, old(docs), Spawn(param, reached, child, ok))
                                    && (errors == old(errors) ==> reached && ok)
      ensures r == Ok ==> info == param.(pid := info.pid) && info.pid > 0 && info.pid !in old(live)
                          && live == old(live)[info.pid := Command(param)]
      ensures r != Ok ==> info == param && docs == old(docs) && live == old(live)
    {
      info := param;
      var temp := FindStream(param.sid);
      ghost var reached: bool :| temp == Lookup(docs, param.sid, reached) && (errors == old(errors) ==> reached);
      if temp.Some? {
        assert (docs, StreamExist) == Apply(server.pid, old(docs), Spawn(param, reached, None, true));
        return StreamExist, info;
      }
      label looked:
      var pid := Fork(param);
      if pid < 0 {
        assert (docs, ForkFailed) == Apply(server.pid, old(docs), Spawn(param, reached, None, true));
        return ForkFailed, info;
      }
      info := info.(pid := pid);
      label forked:
      AddProcessToCache(info);
      r := Ok;
      ghost var ok := errors == old@forked(errors);
      assert (docs, r) == Apply(server.pid, old(docs), Spawn(param, reached, Some(pid), ok));
    }

    method SpawnProcessI(param: ProcessInfo) returns (r: Code, info: ProcessInfo)
      modifies this`docs, this`live, this`errors
      ensures r == Ok || r == ForkFailed
      ensures r == ForkFailed ==> info == param && docs == old(docs) && live == old(live)
                                  && errors == old(errors) + 1
      ensures r == Ok ==> info == param.(pid := info.pid) && info.pid > 0 && info.pid !in old(live)
                          && live == old(live)[info.pid := Command(param)]
                          && docs == (if errors == old(errors) then SetPid(old(docs), param.sid, info.pid)
                                      else old(docs))
      ensures errors >= old(errors)
    {
      info := param;
      var pid := Fork(param);
      if pid < 0 {
        return ForkFailed, info;
      }
      info := info.(pid := pid);
      UpdateProcessInfo(info);
      r := Ok;
    }

    /** The answer is Ok even when the fork failed. */
    method ProcessReload(sid: string) returns (r: Code)
      modifies this`docs, this`live, this`errors
      ensures exists reached, child: Option<int>, ok ::
                && (docs, r) == Apply(server.pid, old(docs), Reload(sid, reached, child, ok))
                && (errors == old(errors) ==> reached && ok && (r == Ok ==> child.Some?))
                && (r == Ok && child.Some? ==>
                      && child.value > 0 && child.value !in old(live)
                      && live == old(live)[child.value := Command(FindBySid(old(docs), sid).value)])
                && (r != Ok || child.None? ==> live == old(live))
    {
      var found := FindStream(sid);
      ghost var reached: bool :| found == Lookup(docs, sid, reached) && (errors == old(errors) ==> reached);
      if found.None? {
        assert (docs, StreamNotExist) == Apply(server.pid, old(docs), Reload(sid, reached, None, true));
        return StreamNotExist;
      }
      label looked:
      var code, info := SpawnProcessI(found.value);
      r := Ok;
      var child := if code == Ok then Some(info.pid) else None;
      ghost var ok := errors == old@looked(errors);
      assert (docs, r) == Apply(server.pid, old(docs), Reload(sid, reached, child, ok));
    }

    method RemoveProcess(info: ProcessInfo) returns (r: Code)
      modifies this`docs, this`live, this`stopped, this`errors
      ensures exists reached, ok :: (docs, r) == Apply(server.pid, old(docs), Remove(info.sid, reached, ok))
                                    && (errors == old(errors) ==> reached && ok)
      ensures r == Ok ==> var pid := FindBySid(old(docs), info.sid).value.pid;
                          live == Killed(server, old(live), pid)
                          && stopped == (old(stopped) || StopsServer(server, pid))
      ensures r != Ok ==> live == old(live) && stopped == old(stopped)
    {
      var p := FindStream(info.sid);
      ghost var reached: bool :| p == Lookup(docs, info.sid, reached) && (errors == old(errors) ==> reached);
      if p.None? {
        assert (docs, StreamNotExist) == Apply(server.pid, old(docs), Remove(info.sid, reached, true));
        return StreamNotExist;
      }
      label looked:
      RemoveProcessByStream(p.value.sid);
      Kill(p.value.pid);
      r := Ok;
      ghost var ok := errors == old@looked(errors);
      assert (docs, r) == Apply(server.pid, old(docs), Remove(info.sid, reached, ok));
    }

    /** kill(pid, SIGKILL). */
    method Kill(pid: int)
      modifies this`live, this`stopped
      ensures live == Killed(server, old(live), pid)
      ensures stopped == (old(stopped) || StopsServer(server, pid))
    {
      live := Killed(server, live, pid);
      stopped := stopped || StopsServer(server, pid);
    }

    /** The process is killed; the record, if any, stays. */
    method TerminateProcess(info: ProcessInfo) returns (r: Code)
      modifies this`live, this`stopped
      ensures r == Ok && live == Killed(server, old(live), info.pid)
      ensures stopped == (old(stopped) || StopsServer(server, info.pid))
    {
      Kill(info.pid);
      r := Ok;
    }

    /** True exactly when a kill of the same pid would end some worker or the server itself. */
    method CheckSystemProcessExist(pid: int) returns (b: bool)
      ensures b <==> Killed(server, live, pid) != live || StopsServer(server, pid)
    {
      ExistsForetellsKill(server, live, pid);
      var ret := if Exists(server, live, pid) then 0 else -1;
      b := ret == 0;
    }

    /**
     One pass of the detection thread, on any collection.  It changes nothing in the records but pids
     and ends no process.  When each stream is stored once it leaves running streams alone and gives
     every stream it restarts a new worker running that stream's own command, and if then no fork and
     no database call failed, kill(pid, 0) succeeds on every record when it ends.
     */
    method ProcessAliveDetect()
      modifies this`docs, this`live, this`errors
      ensures SameStreams(old(docs), docs)
      ensures forall p :: p in old(live) ==> p in live && live[p] == old(live)[p]
      ensures UniqueSids(old(docs)) ==>
                UniqueSids(docs) && forall s :: Restarted(server, old(docs), old(live), docs, live, s)
      ensures UniqueSids(old(docs)) && errors == old(errors) ==> forall d :: d in docs ==> Exists(server, live, d.pid)
    {
      var processes := docs;
      if * {
        processes, errors := [], errors + 1;
      }
      var i := 0;
      while i < |processes|
        invariant 0 <= i <= |processes|
        invariant errors >= old(errors)
        invariant SameStreams(old(docs), docs)
        invariant UniqueSids(old(docs)) ==>
                    UniqueSids(docs) && forall s :: Restarted(server, old(docs), old(live), docs, live, s)
        invariant forall p :: p in old(live) ==> p in live && live[p] == old(live)[p]
        invariant UniqueSids(old(docs)) && errors == old(errors) ==>
                    forall p :: !Exists(server, live, p) ==> CountPid(docs, p) == CountPid(processes[i..], p)
      {
        var pid := processes[i].pid;
        var exist := CheckSystemProcessExist(pid);
        ExistsForetellsKill(server, live, pid);
        if !exist {
          DetectDead(pid, old(docs), old(live));
        }
        assert processes[i..][1..] == processes[i + 1..];
        i := i + 1;
      }
      if errors == old(errors) && UniqueSids(old(docs)) {
        forall d | d in docs ensures Exists(server, live, d.pid) {
          CountedIsStored(docs, d);
        }
      }
    }

    /** The look-up by pid and the refork of one dead stream inside the pass. */
    method DetectDead(pid: int, ghost docs0: seq<ProcessInfo>, ghost live0: map<int, string>)
      requires !Exists(server, live, pid) && SameStreams(docs0, docs)
      requires UniqueSids(docs0) ==> UniqueSids(docs) && forall s :: Restarted(server, docs0, live0, docs, live, s)
      requires forall p :: p in live0 ==> p in live && live[p] == live0[p]
      modifies this`docs, this`live, this`errors
      ensures errors >= old(errors) && SameStreams(docs0, docs)
      ensures forall p :: p in old(live) ==> p in live && live[p] == old(live)[p]
      ensures UniqueSids(docs0) ==> UniqueSids(docs) && forall s :: Restarted(server, docs0, live0, docs, live, s)
      ensures UniqueSids(docs0) && errors == old(errors) ==>
                forall p :: !Exists(server, live, p) ==>
                  !Exists(server, old(live), p) && CountPid(docs, p) ==
                  CountPid(old(docs), p) - (if p == pid && CountPid(old(docs), pid) > 0 then 1 else 0)
    {
      var found: Option<ProcessInfo>;
      if * {
        found, errors := None, errors + 1;
      } else {
        found := FindByPid(docs, pid);
      }
      if found.None? {
        if errors == old(errors) {
          NoneCounted(docs, pid);
        }
        return;
      }
      CountedIsStored(docs, found.value);
      var code, forked := SpawnProcessI(found.value);
      SetPidKeepsStreams(old(docs), found.value.sid, forked.pid);
      if UniqueSids(docs0) && code == Ok {
        RestartKeeps(server, docs0, live0, old(docs), old(live), found.value, forked.pid, errors == old(errors));
      }
    }
  }

  lemma RestartKeeps(server: Server, docs0: seq<ProcessInfo>, live0: map<int, string>, docs: seq<ProcessInfo>,
                     live: map<int, string>, info: ProcessInfo, pid: int, written: bool)
    requires UniqueSids(docs) && info in docs && !Exists(server, live, info.pid)
    requires forall s :: Restarted(server, docs0, live0, docs, live, s)
    requires forall p :: p in live0 ==> p in live
    requires pid > 0 && pid !in live
    ensures var docs' := if written then SetPid(docs, info.sid, pid) else docs;
            var live' := live[pid := Command(info)];
            && UniqueSids(docs')
            && (forall s :: Restarted(server, docs0, live0, docs', live', s))
            && (written ==> forall p :: !Exists(server, live', p) ==>
                  && !Exists(server, live, p)
                  && CountPid(docs', p) == CountPid(docs, p) - (if p == info.pid then 1 else 0))
  {
    SetPidKeepsUnique(docs, info.sid, pid);
    var docs' := if written then SetPid(docs, info.sid, pid) else docs;
    var live' := live[pid := Command(info)];
    forall s ensures Restarted(server, docs0, live0, docs', live', s) {
      assert Restarted(server, docs0, live0, docs, live, s);
      RestartedAfter(server, docs0, live0, docs, live, info, pid, written, s);
    }
    forall p | written && !Exists(server, live', p)
      ensures !Exists(server, live, p) && CountPid(docs', p) == CountPid(docs, p) - (if p == info.pid then 1 else 0)
    {
      ExistsGrows(server, live, live', p);
      CountsAfter(server, docs, live, info, pid, p);
    }
  }

  /** A refork of a dead record, with or without its write, keeps what the pass has promised so far. */
  lemma RestartedAfter(server: Server, docs0: seq<ProcessInfo>, live0: map<int, string>, docs: seq<ProcessInfo>,
                       live: map<int, string>, info: ProcessInfo, pid: int, written: bool, s: string)
    requires UniqueSids(docs) && info in docs && !Exists(server, live, info.pid)
    requires Restarted(server, docs0, live0, docs, live, s)
    requires forall p :: p in live0 ==> p in live
    requires pid > 0 && pid !in live
    ensures var docs' := if written then SetPid(docs, info.sid, pid) else docs;
            Restarted(server, docs0, live0, docs', live[pid := Command(info)], s)
  {
    StoredIsFound(docs, info);
    FindAfterSetPid(docs, info.sid, pid, s);
    if s == info.sid {
      var was := FindBySid(docs0, s).value;
      ExistsGrows(server, live0, live, was.pid);
      assert info == was;
    }
  }

  /** The write takes the dead pid out of the count and puts in one that exists. */
  lemma CountsAfter(server: Server, docs: seq<ProcessInfo>, live: map<int, string>, info: ProcessInfo, pid: int, p: int)
    requires UniqueSids(docs) && info in docs && pid > 0 && !Exists(server, live[pid := Command(info)], p)
    ensures CountPid(SetPid(docs, info.sid, pid), p) == CountPid(docs, p) - (if p == info.pid then 1 else 0)
  {
    StoredIsFound(docs, info);
    CountAfterSetPid(docs, info.sid, pid, p);
  }

  lemma FreePid(taken: set<int>)
    ensures exists p :: p > 0 && p !in taken
  {
    var bound := UpperBound(taken);
    assert bound + 1 !in taken;
  }

  lemma {:induction false} UpperBound(taken: set<int>) returns (b: nat)
    ensures forall p :: p in taken ==> p <= b
  {
    if p :| p in taken {
      var c := UpperBound(taken - {p});
      b := if p > c then p else c;
      assert taken == (taken - {p}) + {p};
    } else {
      b := 0;
    }
  }
}
