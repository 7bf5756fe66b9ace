/**
 pulld's main.cpp in one process: the pid file written under a lock, the descriptor work of
 daemon(), the liveness probe and the supervising loop, as calls that change the process's
 descriptors, the shared lock table, the pid file and the host records in place.
 */
module Daemon {
  import opened Descriptors
  import PidFile

  /** What one turn of the supervising loop saw and did. */
  datatype Round = Round(
    held: bool, failed: bool, hostsBefore: multiset<string>, hostsAfter: multiset<string>, launched: bool)

  /**
   The supervisor launches exactly when its probe found nobody, and exactly then one record of this
   host is removed, if there is one and the database did not fail.
   */
  predicate FaithfulRound(host: string, r: Round) {
    && r.launched == !r.held
    && r.hostsAfter == (if r.held || r.failed then r.hostsBefore else r.hostsBefore - multiset{host})
    && (r.failed ==> !r.held)
  }

  function LaunchesIn(rounds: seq<Round>): nat {
    if rounds == [] then 0
    else LaunchesIn(rounds[..|rounds| - 1]) + (if rounds[|rounds| - 1].launched then 1 else 0)
  }

  class Process {
    const self: nat
    var fds: FdTable
    var locks: map<nat, nat>
    var content: map<nat, string>
    var hosts: multiset<string>
    var exited: bool
    var launches: nat
    var errors: nat  // failed system and database calls, each of which is logged
    ghost var rounds: seq<Round>

    constructor (self: nat, fds: FdTable, locks: map<nat, nat>, content: map<nat, string>, hosts: multiset<string>)
      ensures this.self == self && this.fds == fds && this.locks == locks
      ensures this.content == content && this.hosts == hosts && !exited && rounds == []
      ensures errors == 0 && launches == 0
    {
      this.self, this.fds, this.locks := self, fds, locks;
      this.content, this.hosts, this.exited, this.errors := content, hosts, false, 0;
      this.rounds, this.launches := [], 0;
    }

    function Seen(): View
      reads this`fds, this`locks
    {
      View(self, fds, locks)
    }

    method OpenFile(f: File) returns (fd: int)
      modifies this`fds, this`errors
      ensures fd == -1 ==> fds == old(fds) && errors == old(errors) + 1
      ensures fd != -1 ==> fd == LowestFree(old(fds)) && Seen() == Open(old(Seen()), f) && errors == old(errors)
    {
      if * {
        fd, errors := -1, errors + 1;
      } else {
        fd := LowestFree(fds);
        fds := fds[fd := f];
      }
    }

    method CloseFile(fd: nat)
      modifies this`fds, this`locks
      ensures Seen() == Close(old(Seen()), fd)
    {
      var v := Close(Seen(), fd);
      fds, locks := v.fds, v.locks;
    }

    /** close that is looked at: where it reports a failure the descriptor may be closed or not. */
    method CloseChecked(fd: nat) returns (ret: int)
      modifies this`fds, this`locks, this`errors
      ensures ret == 0 ==> errors == old(errors) && Seen() == Close(old(Seen()), fd)
      ensures ret != 0 ==> ret == -1 && errors == old(errors) + 1
    {
      if * {
        CloseFile(fd);
        return 0;
      }
      if * {
        CloseFile(fd);
      }
      ret, errors := -1, errors + 1;
    }

    method Duplicate(from: nat, to: nat) returns (ret: int)
      requires from in fds
      modifies this`fds, this`locks, this`errors
      ensures ret != -1 ==> errors == old(errors) && Seen() == Dup2(old(Seen()), from, to)
      ensures ret == -1 ==> errors == old(errors) + 1 && Seen() == old(Seen())
    {
      if * {
        ret, errors := -1, errors + 1;
        return;
      }
      ret := to;
      var v := Dup2(Seen(), from, to);
      fds, locks := v.fds, v.locks;
    }

    method LockFile(fd: nat) returns (ret: int)
      requires fd in fds
      modifies this`locks
      ensures Seen() == TryLock(old(Seen()), fd)
      ensures ret >= 0 <==> TryLockSucceeds(old(Seen()), fd)
    {
      ret := if TryLockSucceeds(Seen(), fd) then 0 else -1;
      locks := TryLock(Seen(), fd).locks;
    }

    method UnlockFile(fd: nat)
      modifies this`locks
      ensures Seen() == Unlock(old(Seen()), fd)
    {
      locks := Unlock(Seen(), fd).locks;
    }

    /**
     check_process_alive.  It answers alive exactly when another process holds the lock, gives
     back the lock table and its descriptors untouched, and removes a left-over host record exactly
     when nobody holds the lock; it exits only when it cannot open the file.
     */
    method CheckProcessAlive(inode: nat, host: string) returns (alive: bool)
      requires !exited && !Owns(Seen(), inode)
      modifies this`fds, this`locks, this`hosts, this`exited, this`errors
      ensures fds == old(fds) && locks == old(locks)
      ensures exited ==> hosts == old(hosts) && errors == old(errors) + 1
      ensures !exited ==> (alive <==> HeldByOther(old(Seen()), inode))
      ensures alive || errors != old(errors) ==> hosts == old(hosts)
      ensures !exited && alive ==> errors == old(errors)
      ensures !alive && errors == old(errors) ==> hosts == old(hosts) - multiset{host}
      ensures old(errors) <= errors <= old(errors) + 1
    {
      ProbeRestores(Seen(), inode);
      var m_fd := OpenFile(File.PidFile(inode));
      if m_fd == -1 {
        exited := true;
        return true;
      }
      var ret := LockFile(m_fd);
      CloseFile(m_fd);
      if ret < 0 {
        CloseFile(m_fd);
        return true;
      }
      UnlockFile(m_fd);
      var exist := IsHostExist(host);
      if exist {
        RemoveHost(host);
      }
      CloseFile(m_fd);
      return false;
    }

    /** A lookup that does not reach the database finds nothing. */
    method IsHostExist(host: string) returns (exist: bool)
      modifies this`errors
      ensures errors == old(errors) ==> (exist <==> host in hosts)
      ensures errors != old(errors) ==> !exist && errors == old(errors) + 1
    {
      if * {
        exist, errors := false, errors + 1;
      } else {
        exist := host in hosts;
      }
    }

    method RemoveHost(host: string)
      modifies this`hosts, this`errors
      ensures errors == old(errors) ==> hosts == old(hosts) - multiset{host}
      ensures errors != old(errors) ==> hosts == old(hosts) && errors == old(errors) + 1
    {
      if * {
        errors := errors + 1;
      } else {
        hosts := hosts - multiset{host};
      }
    }

    /**
     write_pid_to_file.  When no call fails the process exits exactly if another one holds the
     lock.  A process that does not exit here owns the lock, and then the file's first line and what
     a reader gets are its own pid; one that is turned away writes nothing.
     */
    method WritePidToFile(inode: nat)
      requires !exited && self <= PidFile.PID_MAX && inode in content
      modifies this`fds, this`locks, this`content, this`exited, this`errors
      ensures HeldByOther(old(Seen()), inode) ==> exited
      ensures exited ==> HeldByOther(old(Seen()), inode) || errors == old(errors) + 1
      ensures !exited ==> errors == old(errors)
      ensures !exited ==> Seen() == TryLock(Open(old(Seen()), File.PidFile(inode)), LowestFree(old(fds)))
      ensures !exited ==> Owns(Seen(), inode) && inode in content
                          && content == old(content)[inode := content[inode]]
                          && content[inode] == PidFile.Overwrite(old(content)[inode], PidFile.PidLine(self))
                          && PidFile.FirstLine(content[inode]) == PidFile.Digits(self)
                          && PidFile.ReadPid(content[inode]) == self
      ensures exited ==> content == old(content)
    {
      var m_fd := OpenFile(File.PidFile(inode));
      if m_fd == -1 {
        exited := true;
        return;
      }
      var ret := LockFile(m_fd);
      if ret < 0 {
        exited := true;
        return;
      }
      if * {  // write failed
        errors := errors + 1;
        exited := true;
        return;
      }
      PidFile.WriteThenRead(content[inode], self);
      content := content[inode := PidFile.Overwrite(content[inode], PidFile.PidLine(self))];
    }

    /**
     daemon(), in the child of its fork.  Unless a call fails it ends the process if another one
     holds the lock and returns 0 otherwise, and then the child still owns the lock exactly if it
     started with descriptors 0 and 1 open.
     */
    method Daemonize(inode: nat) returns (ret: int)
      requires !exited && self <= PidFile.PID_MAX && inode in content
      requires forall fd :: fd in fds ==> fds[fd].Other?
      modifies this`fds, this`locks, this`content, this`exited, this`errors
      ensures ret == 0 || (ret == -1 && (errors == old(errors) ==> exited && HeldByOther(old(Seen()), inode)))
      ensures ret == 0 ==>
                && !exited && !HeldByOther(old(Seen()), inode) && errors == old(errors)
                && Seen() == LockAndRedirect(old(Seen()), inode)
                && (Owns(Seen(), inode) <==> STDIN_FILENO in old(fds) && STDOUT_FILENO in old(fds))
                && inode in content && PidFile.ReadPid(content[inode]) == self
      ensures ret == 0 ==>
                var table := old(fds)[LowestFree(old(fds)) := File.PidFile(inode)];
                fds == (if STDIN_FILENO in table && STDOUT_FILENO in table && STDERR_FILENO !in table
                        then table[STDIN_FILENO := DevNull][STDOUT_FILENO := DevNull][STDERR_FILENO := DevNull]
                        else table[STDIN_FILENO := DevNull][STDOUT_FILENO := DevNull])
    {
      WritePidToFile(inode);
      if exited {
        return -1;
      }
      LockSurvivesRedirect(old(Seen()), inode);
      if * {  // setsid failed
        errors := errors + 1;
        return -1;
      }
      ret := RedirectStandardFiles();
      if ret == 0 {
        RedirectedFiles(TryLock(Open(old(Seen()), File.PidFile(inode)), LowestFree(old(fds))));
      }
    }

    /** The end of daemon(). */
    method RedirectStandardFiles() returns (ret: int)
      modifies this`fds, this`locks, this`errors
      ensures ret == 0 || (ret == -1 && errors == old(errors) + 1)
      ensures ret == 0 ==> Seen() == Redirect(old(Seen())) && errors == old(errors)
    {
      var fd := OpenFile(DevNull);
      if fd == -1 {
        return -1;
      }
      ret := Duplicate(fd, STDIN_FILENO);
      if ret == -1 {
        return -1;
      }
      ret := Duplicate(fd, STDOUT_FILENO);
      if ret == -1 {
        return -1;
      }
      if fd > STDERR_FILENO {
        ret := CloseChecked(fd);
        return ret;
      }
      return 0;
    }

    /** Time passes: other processes lock and unlock, and the host collection changes. */
    method OthersRun()
      modifies this`locks, this`hosts
      ensures forall i :: (i in locks && locks[i] == self) <==> (i in old(locks) && old(locks)[i] == self)
    {
      var theirs: map<nat, nat> := *;
      var records: multiset<string> := *;
      var mine := map i | i in locks && locks[i] == self :: self;
      locks := (map i | i in theirs && theirs[i] != self && i !in mine :: theirs[i]) + mine;
      hosts := records;
    }

    /** system(): the server is started and runs on its own. */
    method Launch()
      modifies this`launches, this`locks, this`hosts
      ensures launches == old(launches) + 1
      ensures forall i :: (i in locks && locks[i] == self) <==> (i in old(locks) && old(locks)[i] == self)
    {
      launches := launches + 1;
      OthersRun();
    }

    /**
     The supervising loop up to the round in which SIGTERM or SIGINT arrives.  Every round is
     faithful, the supervisor's descriptors stay as they were, and so do the locks it owns; it ends
     early only when a probe cannot open the file.
     */
    method Supervise(inode: nat, host: string, signalRound: nat)
      requires !exited && !Owns(Seen(), inode) && rounds == []
      modifies this`fds, this`locks, this`hosts, this`exited, this`errors, this`launches, this`rounds
      ensures launches == old(launches) + LaunchesIn(rounds)
      ensures exited ==> errors > old(errors)
      ensures forall r :: r in rounds ==> FaithfulRound(host, r)
      ensures !exited ==> |rounds| == signalRound + 1
      ensures fds == old(fds)
      ensures forall i :: (i in locks && locks[i] == self) <==> (i in old(locks) && old(locks)[i] == self)
    {
      var isRunning := true;
      var i := 0;
      while isRunning
        invariant !exited && !Owns(Seen(), inode) && fds == old(fds) && errors >= old(errors)
        invariant launches == old(launches) + LaunchesIn(rounds)
        invariant |rounds| == i && i <= signalRound + 1 && isRunning == (i <= signalRound)
        invariant forall r :: r in rounds ==> FaithfulRound(host, r)
        invariant forall j :: (j in locks && locks[j] == self) <==> (j in old(locks) && old(locks)[j] == self)
        decreases signalRound + 1 - i
      {
        ghost var held := HeldByOther(Seen(), inode);
        ghost var before, failures, starts := hosts, errors, launches;
        var alive := CheckProcessAlive(inode, host);
        if exited {
          return;
        }
        ghost var after := hosts;
        if !alive {
          Launch();
        }
        ghost var round := Round(held, errors > failures, before, after, launches > starts);
        assert (rounds + [round])[..|rounds|] == rounds;
        rounds := rounds + [round];
        OthersRun();  // sleep(5)
        isRunning := i < signalRound;
        i := i + 1;
      }
    }
  }
}
