/**
 What the pid file says over whole runs of the lock protocol.
 */
module LockText {
  import opened Wrappers
  import opened LockProtocol
  import opened LockSafety
  import opened LockRuns

  /** The process whose write to file i completed last. */
  function LastWriter(st: Sys, tr: seq<Event>, i: nat, before: Option<nat>): Option<nat>
    requires Possible(st, tr)
    decreases |tr|
  {
    if tr == [] then before
    else
      var now := if tr[0].WritePid? && st.procs[tr[0].p].inode == i then Some(tr[0].p) else before;
      LastWriter(Step(st, tr[0]), tr[1..], i, now)
  }

  ghost predicate Names(st: Sys, i: nat, w: Option<nat>) {
    w.Some? ==> i in st.content && PidFile.FirstLine(st.content[i]) == PidFile.Digits(w.value)
                && PidFile.ReadPid(st.content[i]) == w.value
  }

  lemma NamesStep(st: Sys, ev: Event, i: nat, w: Option<nat>)
    requires Inv(st) && Enabled(st, ev) && Names(st, i, w)
    ensures var now := if ev.WritePid? && st.procs[ev.p].inode == i then Some(ev.p) else w;
            Names(Step(st, ev), i, now)
  {
    if ev.WritePid? {
      assert ProcOk(ev.p, st.procs[ev.p]);
      PidFile.WriteThenRead(st.content[st.procs[ev.p].inode], ev.p);
    } else if i in st.content {
      OnlyOwnerWrites(st, ev, i);
    }
  }

  /**
   In every run the first line of the pid file, and the pid a reader gets, are those of the process
   whose write completed last, whatever longer text the file held before.
   */
  lemma {:induction false} FileNamesLastWriter(st: Sys, tr: seq<Event>, i: nat, w: Option<nat>)
    requires Inv(st) && Possible(st, tr) && Names(st, i, w)
    ensures Names(Run(st, tr), i, LastWriter(st, tr, i, w))
    decreases |tr|
  {
    if tr != [] {
      InvStep(st, tr[0]);
      NamesStep(st, tr[0], i, w);
      var now := if tr[0].WritePid? && st.procs[tr[0].p].inode == i then Some(tr[0].p) else w;
      FileNamesLastWriter(Step(st, tr[0]), tr[1..], i, now);
    }
  }

  // ----- a running server is the one the file names

  /** The server has completed its write. */
  predicate PastWrite(st: Sys, p: nat) {
    Running(st, p) && !st.procs[p].pc.Locked?
  }

  lemma PastWriteByDaemon(st: Sys, ev: Event)
    requires IsDaemonEvent(ev) && !ev.WritePid? && Enabled(st, ev) && PastWrite(Step(st, ev), ev.p)
    ensures PastWrite(st, ev.p)
  {
  }

  lemma PastWriteByProbe(st: Sys, ev: Event)
    requires IsProbeEvent(ev) && Enabled(st, ev)
    ensures !PastWrite(Step(st, ev), ev.p)
  {
  }

  lemma PastWriteByServer(st: Sys, ev: Event)
    requires !IsDaemonEvent(ev) && !IsProbeEvent(ev) && !ev.OtherHosts?
    requires Enabled(st, ev) && PastWrite(Step(st, ev), ev.p)
    ensures PastWrite(st, ev.p)
  {
  }

  lemma PastWriteBefore(st: Sys, ev: Event, p: nat)
    requires Enabled(st, ev) && PastWrite(Step(st, ev), p) && ev != WritePid(p)
    ensures PastWrite(st, p) && Step(st, ev).procs[p].inode == st.procs[p].inode
  {
    Standing(st, ev, p);
    if !TakenBy(ev, p) {
      OthersStay(st, ev, p);
    } else if IsDaemonEvent(ev) {
      PastWriteByDaemon(st, ev);
    } else if IsProbeEvent(ev) {
      PastWriteByProbe(st, ev);
    } else {
      PastWriteByServer(st, ev);
    }
  }

  ghost predicate FileNamesRunning(st: Sys) {
    forall p :: PastWrite(st, p) ==> Names(st, st.procs[p].inode, Some(p))
  }

  lemma FileNamesStep(st: Sys, ev: Event)
    requires Inv(st) && Enabled(st, ev) && FileNamesRunning(st)
    ensures FileNamesRunning(Step(st, ev))
  {
    forall p | PastWrite(Step(st, ev), p) ensures Names(Step(st, ev), Step(st, ev).procs[p].inode, Some(p)) {
      if ev == WritePid(p) {
        assert ProcOk(p, st.procs[p]);
        PidFile.WriteThenRead(st.content[st.procs[p].inode], p);
      } else {
        PastWriteBefore(st, ev, p);
        NamesStep(st, ev, st.procs[p].inode, Some(p));
        if ev.WritePid? {
          assert OwnsLock(st.procs[ev.p].pc) && OwnsLock(st.procs[p].pc);
        }
      }
    }
  }

  /**
   Reading the pid file of a running server gives that server's pid, in every state of every run,
   also after other servers were turned away and after the file was unlinked.
   */
  lemma {:induction false} RunningServerIsNamed(st: Sys, tr: seq<Event>)
    requires Inv(st) && Possible(st, tr) && FileNamesRunning(st)
    ensures FileNamesRunning(Run(st, tr))
    decreases |tr|
  {
    if tr != [] {
      InvStep(st, tr[0]);
      FileNamesStep(st, tr[0]);
      RunningServerIsNamed(Step(st, tr[0]), tr[1..]);
    }
  }
}
