/**
 The "process" collection of the stream cache (serverBiz.cpp over mongoCommonApi.cpp).

 A collection is a sequence of documents in insertion order.  No index makes `sid`
 unique, so duplicates can be stored; a find returns the first match, and update and
 remove change only the first match (MONGOC_UPDATE_NONE, MONGOC_REMOVE_SINGLE_REMOVE).
 */
module ProcessStore {
  import opened Wrappers

  datatype ProcessInfo = ProcessInfo(
    sid: string, pid: int, ppid: int, srcUrl: string, destUrl: string,
    kind: int, status: string, host: string)

  function FindBySid(docs: seq<ProcessInfo>, sid: string): (r: Option<ProcessInfo>)
    ensures r.Some? ==> r.value in docs && r.value.sid == sid
    ensures r.None? ==> forall d :: d in docs ==> d.sid != sid
  {
    if docs == [] then None
    else if docs[0].sid == sid then Some(docs[0])
    else FindBySid(docs[1..], sid)
  }

  function FindByPid(docs: seq<ProcessInfo>, pid: int): (r: Option<ProcessInfo>)
    ensures r.Some? ==> r.value in docs && r.value.pid == pid
    ensures r.None? ==> forall d :: d in docs ==> d.pid != pid
  {
    if docs == [] then None
    else if docs[0].pid == pid then Some(docs[0])
    else FindByPid(docs[1..], pid)
  }

  /** add_process_to_cache: the parent pid and the status are filled in on the way. */
  function Insert(docs: seq<ProcessInfo>, info: ProcessInfo, self: int): seq<ProcessInfo> {
    docs + [info.(ppid := self, status := "active")]
  }

  /** update_process_info: `$set` the pid of the first document with this sid. */
  function SetPid(docs: seq<ProcessInfo>, sid: string, pid: int): (r: seq<ProcessInfo>)
    ensures |r| == |docs|
  {
    if docs == [] then []
    else if docs[0].sid == sid then [docs[0].(pid := pid)] + docs[1..]
    else [docs[0]] + SetPid(docs[1..], sid, pid)
  }

  /** remove_process_by_stream: drop the first document with this sid. */
  function RemoveBySid(docs: seq<ProcessInfo>, sid: string): (r: seq<ProcessInfo>)
    ensures |r| == |docs| - (if FindBySid(docs, sid).Some? then 1 else 0)
  {
    if docs == [] then []
    else if docs[0].sid == sid then docs[1..]
    else [docs[0]] + RemoveBySid(docs[1..], sid)
  }

  predicate UniqueSids(docs: seq<ProcessInfo>) {
    docs == [] || (FindBySid(docs[1..], docs[0].sid).None? && UniqueSids(docs[1..]))
  }

  // ----- what a lookup and an insert promise

  /** Of several records of a stream, or with a pid, a lookup finds the one stored first. */
  lemma {:induction false} FoundFirst(docs: seq<ProcessInfo>, i: nat)
    requires i < |docs|
    ensures (forall j :: 0 <= j < i ==> docs[j].sid != docs[i].sid) ==> FindBySid(docs, docs[i].sid) == Some(docs[i])
    ensures (forall j :: 0 <= j < i ==> docs[j].pid != docs[i].pid) ==> FindByPid(docs, docs[i].pid) == Some(docs[i])
  {
    if i > 0 {
      assert forall j :: 0 <= j < i - 1 ==> docs[1..][j] == docs[j + 1];
      FoundFirst(docs[1..], i - 1);
    }
  }

  /** A new record goes behind the others, as an active child of the server. */
  lemma InsertedLast(docs: seq<ProcessInfo>, info: ProcessInfo, self: int)
    ensures var docs' := Insert(docs, info, self); var d := docs'[|docs|];
            && |docs'| == |docs| + 1 && docs'[..|docs|] == docs
            && d.sid == info.sid && d.pid == info.pid && d.srcUrl == info.srcUrl && d.destUrl == info.destUrl
            && d.kind == info.kind && d.host == info.host && d.ppid == self && d.status == "active"
  {
  }

  // ----- how a lookup sees each write

  lemma {:induction false} FindAfterInsert(docs: seq<ProcessInfo>, d: ProcessInfo, s: string)
    ensures FindBySid(docs + [d], s) ==
            if FindBySid(docs, s).Some? then FindBySid(docs, s)
            else if d.sid == s then Some(d) else None
  {
    if docs == [] {
      assert docs + [d] == [d];
    } else {
      assert (docs + [d])[1..] == docs[1..] + [d];
      FindAfterInsert(docs[1..], d, s);
    }
  }

  lemma {:induction false} FindAfterSetPid(docs: seq<ProcessInfo>, sid: string, pid: int, s: string)
    ensures FindBySid(SetPid(docs, sid, pid), s) ==
            if s == sid && FindBySid(docs, s).Some? then Some(FindBySid(docs, s).value.(pid := pid))
            else FindBySid(docs, s)
  {
    if docs != [] && docs[0].sid != sid {
      FindAfterSetPid(docs[1..], sid, pid, s);
      assert SetPid(docs, sid, pid)[1..] == SetPid(docs[1..], sid, pid);
    } else if docs != [] {
      assert SetPid(docs, sid, pid)[1..] == docs[1..];
    }
  }

  /** A single remove hides the stream only because its sid was stored once. */
  lemma {:induction false} FindAfterRemove(docs: seq<ProcessInfo>, sid: string, s: string)
    requires UniqueSids(docs)
    ensures FindBySid(RemoveBySid(docs, sid), s) == if s == sid then None else FindBySid(docs, s)
  {
    if docs != [] && docs[0].sid != sid {
      FindAfterRemove(docs[1..], sid, s);
      assert RemoveBySid(docs, sid)[1..] == RemoveBySid(docs[1..], sid);
    }
  }

  // ----- uniqueness

  lemma {:induction false} InsertKeepsUnique(docs: seq<ProcessInfo>, d: ProcessInfo)
    requires UniqueSids(docs)
    ensures UniqueSids(docs + [d]) <==> FindBySid(docs, d.sid).None?
  {
    if docs == [] {
      assert docs + [d] == [d];
    } else {
      assert (docs + [d])[1..] == docs[1..] + [d];
      InsertKeepsUnique(docs[1..], d);
      FindAfterInsert(docs[1..], d, docs[0].sid);
    }
  }

  lemma {:induction false} SetPidKeepsUnique(docs: seq<ProcessInfo>, sid: string, pid: int)
    requires UniqueSids(docs)
    ensures UniqueSids(SetPid(docs, sid, pid))
  {
    if docs != [] && docs[0].sid != sid {
      SetPidKeepsUnique(docs[1..], sid, pid);
      FindAfterSetPid(docs[1..], sid, pid, docs[0].sid);
      assert SetPid(docs, sid, pid)[1..] == SetPid(docs[1..], sid, pid);
    } else if docs != [] {
      assert SetPid(docs, sid, pid)[1..] == docs[1..];
    }
  }

  lemma {:induction false} RemoveKeepsUnique(docs: seq<ProcessInfo>, sid: string)
    requires UniqueSids(docs)
    ensures UniqueSids(RemoveBySid(docs, sid))
  {
    if docs != [] && docs[0].sid != sid {
      RemoveKeepsUnique(docs[1..], sid);
      FindAfterRemove(docs[1..], sid, docs[0].sid);
      assert RemoveBySid(docs, sid)[1..] == RemoveBySid(docs[1..], sid);
    }
  }

  /** Every stored document is the one its own sid finds. */
  lemma {:induction false} StoredIsFound(docs: seq<ProcessInfo>, d: ProcessInfo)
    requires UniqueSids(docs) && d in docs
    ensures FindBySid(docs, d.sid) == Some(d)
  {
    if docs[0] != d {
      StoredIsFound(docs[1..], d);
    }
  }
}
