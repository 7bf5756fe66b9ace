# Verification model of the stream injection service

The service takes REST requests to pull streams and hands each one to an `ffmpeg` worker process.
A cache in MongoDB maps each stream id (`sid`) to its process record; worker threads spawn, reload
and remove streams; a detection thread restarts workers that died; and a supervisor, `pulld`, starts
the server again when it finds nobody holding the lock on the server's pid file. This project models
that control logic, and the fixed-width arithmetic and string scanning below it, in Dafny 4.11:

    dafny verify dfyconfig.toml

| files | what they model |
|---|---|
| `ProcessStore`, `StreamControl` | the collection of process records; spawn, reload, remove, terminate and detection as small steps of any number of threads over the cache and the process table |
| `StreamCommand`, `StreamSteps`, `StreamPids`, `StreamKills`, `StreamSafety`, `StreamWorkers`, `StreamHistory`, `StreamDetection`, `StreamSchedules` | what a command line says, what single steps do, who has which pid and what a kill can hit over every run, what runs with one operation per stream keep, whole-run theorems, the detector between its looks, and schedules that show where a condition cannot be dropped |
| `ProcessControl` | the same operations and the detection pass as methods that change the two stores in place |
| `PidFile`, `Descriptors`, `Daemon` | the text of the pid file, descriptors with POSIX record locks, and the calls of one process |
| `LockProtocol`, `LockSafety`, `LockRuns`, `LockProbe`, `LockHosts`, `LockText`, `LockSteps`, `LockSchedules` | any number of servers and supervisors on one pid file, one system or database call a step |
| `Words`, `PowerOfTwo`, `Endian`, `IterRead`, `ObjectId` | the libbson inline functions, over bit and byte strings of any length and then at their widths |
| `CStrings`, `ProcessTitle`, `PathScan` | C strings in a flat memory, the argument block, and the directory part of a path |

## Reading the statements

- A run of the stream model is a sequence of steps `SpawnCheck`, `SpawnFork`, `SpawnRecord` and so
  on, each one database call, fork or kill. `StreamPids`, `StreamKills`, the conservation results of
  `StreamHistory` and `StreamSafety.StoredOnceIff` hold over every possible run.
- The other results assume `OnePerStream`: no thread goes on to work on a stream another thread is
  working on, and no spawn was wrongly told that its stream is not there. The code does not enforce
  it; `StreamSafety.InvThroughoutIff` says that it is exactly what keeps the invariant. Some also
  assume `ForksFresh`, that no fork returns a pid that a holder still has, or `Careful`, that writes
  succeed and reloads start on dead workers only. Their rows say so, and `StreamSchedules` has runs
  that go wrong without them.
- `fork` returns a positive pid of no running process. The server ignores SIGCHLD
  (`serverBiz.cpp:28`), so a dead worker is reaped at once and its pid can be handed out again while
  its record is still cached. This is why `StreamPids.PidsDistinctIff` is an equivalence and not a promise.
- A failed database write is a possible outcome of every step that writes, since the callers ignore it,
  and a lookup that does not reach the database is a possible outcome of every step that looks up: it
  finds nothing.
- In the lock model `lockf` locks belong to a process and a file, and closing any descriptor of the
  process on the file releases them (POSIX.1-2017, System Interfaces, `lockf()` and `close()`). The
  supervised pid file is not `pulld`'s own. Every process starts with descriptors 0 and 1 open;
  `Descriptors.LockSurvivesRedirect` shows what happens when one is not.
- In `ProcessControl` and `Daemon` a branch on `*` is a system or database call that may fail, and
  `errors` counts those failures, so that contracts say what happens when there are none. The methods
  of `ProcessControl` tie the new state to `StreamHistory.Apply`, the atomic operation to which the
  interleaved runs are linearized.

## Where the code and its documentation differ

- `bson_next_power_of_two` documents a 32-bit argument; the code takes a `size_t`. The model follows
  the code in both word sizes and says what the documented "caller's responsibility" case returns.
- `bson_iter_time_t_unsafe` promises seconds since the epoch; where an unsigned long has 64 bits the
  division by `1000UL` is unsigned, so a date before the epoch gives a large positive number
  (`IterRead.TimeTAgreesIff`). Where it has 32 the timeval reader loses seconds instead, since it casts
  them to a long (`IterRead.TimevalUnsafe`).
- The README (line 8) promises parallel queues. Requests are dealt to the queues in turn and not by
  stream, so two requests on one stream may overlap (`StreamSchedules.OverlappingSpawnsDuplicate`).
- The README (line 20) promises that the supervisor brings a crashed server back. It removes one host
  record a turn, so a turn succeeds exactly when at most one was left behind (`LockSchedules.RestartSucceedsIff`).

## Model

| member | source | states |
|---|---|---|
| StreamHistory.Linearizable | injectService/pull/src/app/processCommonApi.cpp:67-241 | With one operation per stream in flight, every interleaving of the small steps of spawn, reload and remove leaves the cache that the same operations leave when executed one after the other in commit order, and each thread gets the same answers |
| StreamHistory.ReplayMatchesRun | injectService/pull/src/app/processCommonApi.cpp:67-241 | From every invariant state, also with operations in flight, the cache after a run with one operation per stream is the serial replay of the operations it committed |
| StreamHistory.ReplayAnswersAlike | injectService/pull/src/app/processCommonApi.cpp:67-241 | In such a run each thread's return codes are those of the replay, up to the one Ok a remove still owes before its kill |
| StreamHistory.CommitStep | injectService/pull/src/app/processCommonApi.cpp:67-241 | With one operation per stream the cache changes in no step but the commit of an operation, and then exactly as that whole operation does atomically |
| StreamHistory.RecordsAreConserved | injectService/pull/src/app/processCommonApi.cpp:67-250 | Over every possible run, the stored streams, counting those whose remove has uncached them and not yet killed, equal in every state the initial number plus spawns answered Ok minus removes answered Ok, if and only if each insert took effect and each delete took effect on a record of its stream |
| StreamHistory.ConservedIfKept | injectService/pull/src/app/processCommonApi.cpp:67-250 | With one operation per stream a delete always finds its stream, so the balance holds if and only if the database loses no insert and no delete |
| StreamHistory.RecordCount | injectService/pull/src/app/processCommonApi.cpp:67-250 | Over every possible run with such writes, the same as a count between its two ends, and for the stored streams themselves when no remove is waiting to kill at either end |
| StreamHistory.LedgerStep | injectService/pull/src/app/processCommonApi.cpp:99-241 | Any enabled step keeps the balance exactly when its insert took effect, or its delete did on a record of its stream |
| StreamSteps.AnswerEndsOperation | injectService/pull/src/app/processCommonApi.cpp:67-250 | A step of an operation leaves its thread in the operation exactly when it gives the caller no answer |
| StreamSteps.DetectionGoesOn | injectService/pull/src/app/serverBiz.cpp:138-154 | A detector goes on exactly when the pid is dead, and then exactly when its lookup finds a record, and changes nothing by looking |
| StreamSteps.AnswersTell | injectService/pull/src/app/processCommonApi.cpp:67-241 | What each answer means: the stream was stored, the lookup found none, the fork failed; and only Ok may have changed the cache |
| StreamSteps.NeverStuck | injectService/pull/src/app/processCommonApi.cpp:67-250 | Each thread can always take its next step, with a lookup, a fork or a write that fails as well as not |
| StreamSteps.DeathIff | injectService/pull/src/app/processCommonApi.cpp:223-250 | A running process is gone after a step exactly when the step is its own death, its termination or the kill of a remove with its pid, and otherwise runs what it ran |
| StreamSteps.DeathAnyTime | injectService/pull/src/app/processCommonApi.cpp:243-250 | A worker may die at any moment, and a positive pid may be terminated at any moment, which answers Ok |
| StreamSteps.DeathIsSilent | injectService/pull/src/app/processCommonApi.cpp:243-250 | Termination and death take exactly that process out of the table and change nothing else |
| StreamSafety.InvStep | injectService/pull/src/app/processCommonApi.cpp:67-250 | A step keeps the invariant (streams unique in the cache, at most one thread on a stream, what a thread remembers agrees with the cache) exactly when it does not start a second thread on a stream or a spawn of a stored one |
| StreamSafety.InvThroughoutIff | injectService/pull/src/app/processCommonApi.cpp:67-250 | Over every possible run the invariant holds in every state if and only if the run has one operation per stream in flight |
| StreamSafety.InvAlways | injectService/pull/src/app/processCommonApi.cpp:67-250 | So it holds at the end of every such run |
| StreamSafety.StoredOnceIff | injectService/pull/src/app/processCommonApi.cpp:99-164 | Over every run, whatever overlaps and whatever a lookup or a write missed, each stream is stored at most once in every state if and only if no insert met a record of its own stream |
| StreamSafety.UniqueStep | injectService/pull/src/app/processCommonApi.cpp:99-241 | The same for one step |
| StreamSafety.HeldStep | injectService/pull/src/app/processCommonApi.cpp:67-241 | How one step moves the name of a worker: a fork makes it, the write hands it to the cache, the delete hands it back to the remover, the kill drops it; nothing else changes hands |
| StreamPids.PidsDistinctIff | injectService/pull/src/app/processCommonApi.cpp:67-250 | Over every possible run, with overlaps, duplicates, missed lookups and lost writes, no two stored documents or forked threads have the same pid, in any state, if and only if each fork returned a pid that no stored document and no forked thread had |
| StreamPids.DistinctAllStep | injectService/pull/src/app/processCommonApi.cpp:99-221 | The same for one step |
| StreamPids.NameMoves | injectService/pull/src/app/processCommonApi.cpp:99-241 | Where the pid of each document and forked thread was before the step: an insert and an update take it from the thread, a delete moves the later documents up, and every other step leaves it |
| StreamPids.CommandsStayOwnIff | injectService/pull/src/app/processCommonApi.cpp:99-221 | Over every possible run a running worker runs the command of every document or forked thread with its pid, in every state, if and only if no fork returned a pid that somebody with another command had and no update gave a running worker to a document with another command |
| StreamPids.OwnCommandAllStep | injectService/pull/src/app/processCommonApi.cpp:99-221 | The same for one step |
| StreamCommand.CommandArguments | injectService/pull/src/app/processCommonApi.cpp:154-157 | Split at blanks as a shell does, the command of a record with blank-free URLs that fit is ffmpeg with -v quiet, the source after -i, -c copy, -f flv, and the destination last |
| StreamCommand.SameCommandIff | injectService/pull/src/app/processCommonApi.cpp:154-155 | Two such records have the same command exactly when both URLs agree |
| StreamCommand.CommandIsLine | injectService/pull/src/app/processCommonApi.cpp:154-155 | The command is the whole line exactly when that has at most 2046 characters, and otherwise its first 2046 |
| StreamCommand.WorkerCopiesOwnStream | injectService/pull/src/app/processCommonApi.cpp:99-221 | After every run in which commands agree, a running worker's arguments name the source and the destination of each document or forked thread with its pid |
| StreamKills.KillsStaySafeIff | injectService/pull/src/app/processCommonApi.cpp:223-241 | Over every possible run whose forks are fresh in that sense, no remover ever remembers the pid of a document or a forked thread of another stream if and only if no fork returned a pid that a remover of another stream still remembered |
| StreamKills.KillHitsOwnStream | injectService/pull/src/app/processCommonApi.cpp:223-241 | So after every such run the kill of a remove leaves every document and forked thread of another stream and its worker alone, and ends its own |
| StreamKills.KillSafeStep | injectService/pull/src/app/processCommonApi.cpp:223-241 | The same for one step |
| StreamKills.KillComesFromFork | injectService/pull/src/app/processCommonApi.cpp:223-241 | Over every possible run the pid that a remove kills was stored or remembered at the start, or a fork of the run returned it, and then it is positive and not the server's |
| StreamKills.DistinctMeansIff | injectService/pull/src/app/processCommonApi.cpp:67-250 | With one operation per stream, holders have different pids exactly when documents and forked threads do, no remover remembers another stream's pid, and removers that have left the cache differ |
| StreamSafety.PidsStayDistinct | injectService/pull/src/app/processCommonApi.cpp:99-221 | With one operation per stream, where a remover between its write and its kill counts as a holder too: pids are distinct in every state of a run if and only if no fork returned a pid that a record or an operation still named |
| StreamSchedules.ReusedPidIsKilled | injectService/pull/src/app/processCommonApi.cpp:223-241 | SIGCHLD is ignored, so a dead worker's pid can come back; then removing the old stream kills the new stream's worker and leaves its record |
| StreamSchedules.OverlappingRemovesKillOther | injectService/pull/src/app/serverBiz.cpp:100-113 | Two removes of one stream overlap, a fork for another stream returns the killed pid between the two kills, and the second kill ends that stream's worker; the fork is fresh and no write is lost |
| StreamSchedules.OverlappingRemovesTakeOne | injectService/pull/src/app/serverBiz.cpp:100-113 | Two overlapping removes of one stream both answer Ok, no write is lost, and one record goes |
| StreamWorkers.OrphanStep | injectService/pull/src/app/processCommonApi.cpp:67-221 | With one operation per stream and a fresh fork, a step keeps every live worker named exactly when the name it drops belongs to a dead worker |
| StreamWorkers.OrphansComeFromLosses | injectService/pull/src/app/processCommonApi.cpp:67-250 | Over a run with one operation per stream and fresh forks no worker is ever orphaned if and only if every write drops only names of dead workers |
| StreamWorkers.CarefulRunsLoseNothing | injectService/pull/src/app/processCommonApi.cpp:67-83 | In a run with one operation per stream and fresh forks, if writes succeed and a reload starts only on a stream whose worker is dead, no name of a live worker is dropped |
| StreamWorkers.EveryWorkerHasOneName | injectService/pull/src/app/processCommonApi.cpp:67-250 | After every such run each live worker is named by exactly one record or operation in flight and runs that stream's command; with nothing in flight the cache names them all, and workers never outnumber records plus operations |
| StreamWorkers.HealthyRun | injectService/pull/src/app/processCommonApi.cpp:67-250 | All of these conditions together are kept by every such run |
| StreamWorkers.WorkersAreBounded | injectService/pull/src/app/processCommonApi.cpp:67-250 | Without orphans, live workers do not outnumber cached streams plus operations in flight |
| StreamWorkers.FirstStartIsHealthy | injectService/pull/src/app/serverBiz.cpp:26-41 | The empty cache with no workers meets every condition the whole-run statements start from |
| StreamWorkers.ExclusiveKillHitsOwn | injectService/pull/src/app/processCommonApi.cpp:223-241 | With one operation per stream fresh forks alone keep a kill away from every other stream's name and worker |
| StreamSchedules.ReloadOfLiveOrphans | injectService/pull/src/app/processCommonApi.cpp:67-83 | Reload does not look at the old worker: on a running stream it leaves two workers, the old one named by nobody |
| StreamSchedules.OverlappingSpawnsDuplicate | injectService/pull/src/app/serverBiz.cpp:100-113 | With two or more worker threads consecutive requests go to different ones, so two spawns of one stream can both succeed; the stream is stored twice and a later remove leaves one worker and one record behind (`StreamSafety.StoredOnceIff` says exactly when a run does this) |
| StreamSchedules.MissedLookupDuplicates | injectService/pull/src/app/mongoCommonApi.cpp:144-172 | A lookup that does not reach the database reads as no record, so a spawn of a cached stream stores it again with a second worker |
| StreamSchedules.LostWriteOrphans | injectService/pull/src/app/processCommonApi.cpp:120-126 | A spawn whose insert is lost answers Ok and leaves a running worker that nothing names |
| StreamDetection.DetectorIsCarefulIff | injectService/pull/src/app/serverBiz.cpp:132-163 | The detector's check of a running pid goes no further. After its check of a dead one and any steps of other threads, it goes on to re-fork only a dead worker's stream if and only if the lookup finds nothing or no fork in between returned that pid to a process that still runs |
| StreamDetection.SuspicionSawDead | injectService/pull/src/app/serverBiz.cpp:144-154 | Over every possible run each lookup of a detector follows, with no other step of its own in between, a check of that pid at an instant at which no process had it |
| StreamDetection.ReforkHasReason | injectService/pull/src/app/serverBiz.cpp:138-154 | Over every possible run each refork goes back to a request to reload that stream, or to a detector that had seen the recorded pid dead and then found the record by it |
| StreamDetection.AliveAtEndIff | injectService/pull/src/app/processCommonApi.cpp:85-97 | A process is running at the end of a run exactly when it ran all along or some fork of the run returned its pid and it has run since |
| StreamDetection.CheckStaysGood | injectService/pull/src/app/serverBiz.cpp:132-163 | With fresh forks the detector's check stays good for as long as a record or an operation still names the dead pid |
| StreamSchedules.StaleSnapshotOrphans | injectService/pull/src/app/serverBiz.cpp:132-163 | With an old snapshot, one operation per stream and fresh forks do not protect it: it re-forks a running stream, whose first worker nobody names any more |
| StreamSchedules.SpawnAlone | injectService/pull/src/app/processCommonApi.cpp:99-164 | A spawn that nothing interrupts adds exactly its record and its worker; it keeps to one operation per stream exactly when the stream was not stored, and its fork is fresh exactly when nobody named the pid |
| StreamSchedules.RemoveAlone | injectService/pull/src/app/processCommonApi.cpp:223-241 | A remove that nothing interrupts takes away exactly the record and the process it names |
| StreamSchedules.ReloadAlone | injectService/pull/src/app/processCommonApi.cpp:67-83 | A reload that nothing interrupts adds one worker and moves the record to its pid; the old worker is not touched |
| ProcessControl.ProcessCtl.SpawnProcess | injectService/pull/src/app/processCommonApi.cpp:99-164 | The new cache and the answer are those of one atomic spawn, with the missed lookup and the lost write; a refused or failed call changes neither store; a successful one adds the one worker it reports |
| ProcessControl.ProcessCtl.SpawnProcessI | injectService/pull/src/app/processCommonApi.cpp:166-221 | A new worker for a known record and the update of its pid, or on a failed fork no change at all |
| ProcessControl.ProcessCtl.ProcessReload | injectService/pull/src/app/processCommonApi.cpp:67-83 | One atomic reload; the answer is Ok also when the fork failed |
| ProcessControl.ProcessCtl.RemoveProcess | injectService/pull/src/app/processCommonApi.cpp:223-241 | One atomic remove and a kill of the pid the record named, also when the delete was lost |
| ProcessControl.ProcessCtl.TerminateProcess | injectService/pull/src/app/processCommonApi.cpp:243-250 | For every pid, 0 and negative ones included, exactly the addressed workers end, the server ends exactly when it is addressed too, and the record stays |
| ProcessControl.ProcessCtl.CheckSystemProcessExist | injectService/pull/src/app/processCommonApi.cpp:85-97 | For every pid, true exactly when SIGKILL to the same pid would end some worker or the server |
| ProcessControl.KillIsExact | injectService/pull/src/app/processCommonApi.cpp:241-250 | After a kill the addressed workers are gone and no others, signal 0 then finds somebody only if the server itself was addressed, and a kill of a pid at which signal 0 finds nobody changes nothing |
| ProcessControl.ProcessCtl.ProcessAliveDetect | injectService/pull/src/app/serverBiz.cpp:132-163 | On any collection a pass changes nothing in the records but pids and ends no process; when streams are stored once it leaves running streams alone, gives each restarted stream a new worker running that stream's own command, and if nothing failed signal 0 finds every record's process when it ends |
| ProcessControl.CountAfterSetPid | injectService/pull/src/app/serverBiz.cpp:64-98 | An update moves exactly one record from its old pid to the new one, the progress measure of the detection pass |
| ProcessStore.FindBySid | injectService/pull/src/app/mongoCommonApi.cpp:144-172 | A lookup returns a stored record of that stream, and none only when there is none |
| ProcessStore.FindByPid | injectService/pull/src/app/serverBiz.cpp:429-455 | The same by pid |
| ProcessStore.FoundFirst | injectService/pull/src/app/mongoCommonApi.cpp:144-172 | Of several records of a stream, or with a pid, a lookup finds the one stored first |
| ProcessStore.InsertedLast | injectService/pull/src/app/serverBiz.cpp:290-319 | A new record goes behind the others with the caller's fields, the server as parent and the status active |
| ProcessStore.FindAfterInsert | injectService/pull/src/app/serverBiz.cpp:290-319 | A lookup after an insert sees the new record unless the stream was stored already |
| ProcessStore.FindAfterSetPid | injectService/pull/src/app/serverBiz.cpp:64-98 | A lookup after an update sees the new pid on that stream and nothing else changed |
| ProcessStore.FindAfterRemove | injectService/pull/src/app/serverBiz.cpp:580-602 | A lookup after a delete sees every other stream unchanged and, when streams are unique, the deleted one gone |
| ProcessStore.InsertKeepsUnique | injectService/pull/src/app/serverBiz.cpp:290-319 | Streams stay unique under an insert exactly when the stream was not stored |
| ProcessStore.RemoveKeepsUnique | injectService/pull/src/app/mongoCommonApi.cpp:174-188 | Deleting the first match keeps streams unique |
| LockRuns.SingleInstance | injectService/pulld/src/main.cpp:143-238 | Without unlink there is at most one server past the lock in every state of every run |
| LockRuns.SingleInstanceIff | injectService/pulld/src/main.cpp:143-238 | Over every run, with unlinks, there is at most one server in every state if and only if no server takes a lock while another still runs on a different file |
| LockRuns.BesideIsUnlinked | injectService/pull/src/main.cpp:102 | Such a step needs a file that is no longer the one the path names |
| LockRuns.OneServerPerFile | injectService/pulld/src/main.cpp:200-238 | Unconditionally: servers past the lock of one file are the same server, and it owns the lock |
| LockRuns.TurnedAwayByProbeIff | injectService/pulld/src/main.cpp:212-219 | A server at lockf is turned away although nobody serves its file if and only if a probe holds the lock for its instant |
| LockRuns.RefusalsHonestIff | injectService/pulld/src/main.cpp:200-238 | Over every run each server that was turned away met a running server if and only if no server tried the lock during the instant of a probe |
| LockRuns.LockKeptUntilExit | injectService/pulld/src/main.cpp:143-238 | A server that got past lockf owns the lock in every later state until it ends |
| LockRuns.OnlyOwnerWrites | injectService/pulld/src/main.cpp:225-231 | The text of the pid file changes only by the write of the process owning its lock |
| LockRuns.ServerDescriptors | injectService/pulld/src/main.cpp:167-197 | In every run a server that has come through daemon() has /dev/null on descriptors 0 and 1, the pid file still open on its own, and the extra /dev/null closed |
| LockProbe.ProbeIsExact | injectService/pulld/src/main.cpp:37-77 | With any steps of other processes between its try and its close: the probe gets the lock exactly when nobody held it at the instant of its try, owns it until its close, and the close gives up that lock and nothing else |
| LockProbe.ProbeAloneRestores | injectService/pulld/src/main.cpp:48-52 | Without such steps the lock table is as the probe found it |
| LockProbe.LaunchFollowsFreeInstant | injectService/pulld/src/main.cpp:388-400 | Each launch of a run is preceded, with no other launch by that supervisor in between, by an instant at which nobody held the lock |
| LockHosts.HostRecordsBounded | injectService/pulld/src/main.cpp:66-76 | Without unlink, and when a server's lookup that finds nothing is right, this host's records never exceed the larger of one and their initial number in any state, also when removals fail |
| LockHosts.HostsBoundedIff | injectService/pull/src/app/serverBiz.cpp:43-57 | Over every run, with unlinks and missed lookups, a bound on this host's records holds in every state if and only if no insert met the bound already reached |
| LockHosts.RecordsBalance | injectService/pull/src/app/serverBiz.cpp:43-57 | Over every run this host's records are the initial ones plus the inserts minus the removals that found one |
| LockHosts.InsertExceedsIff | injectService/pull/src/app/serverBiz.cpp:43-57 | A server that looks the host up and inserts after any steps of others makes it more than one record if and only if the records its lookup missed and those inserted since outnumber the removals since; a lookup that reached the database missed none |
| LockHosts.CleanStopLeavesNoRecord | injectService/pull/src/main.cpp:12-21 | In every run without unlink that starts with at most one record, a server that removes its record on the way out leaves none of this host, so the next duplicate check passes |
| LockHosts.RecordLostIff | injectService/pulld/src/main.cpp:62-71 | Without unlink a step loses the one record of a server that stays registered if and only if it is a supervisor's clean-up |
| LockHosts.RecordKeptIff | injectService/pulld/src/main.cpp:62-71 | Over every such run the record is there in every state if and only if no supervisor's clean-up takes effect |
| LockHosts.CleanUpHadEarlyProbe | injectService/pulld/src/main.cpp:48-71 | Such a clean-up goes back to a probe of the same supervisor that met a free lock before the server took it, with no launch in between |
| LockHosts.OtherHostsUntouched | injectService/pulld/src/main.cpp:116-141 | No server or supervisor changes another host's records |
| LockText.FileNamesLastWriter | injectService/pulld/src/main.cpp:225-231 | In every run the first line of the pid file, and the pid a reader gets, are those of the process whose write completed last |
| LockText.RunningServerIsNamed | injectService/pulld/src/main.cpp:200-238 | Reading the pid file of a server past its write gives that server's pid, in every state of every run |
| LockSchedules.FirstStartIsSafe | injectService/pulld/src/main.cpp:380-390 | A host on which nothing has run meets every condition the whole-run statements start from |
| LockSafety.InvStep | injectService/pulld/src/main.cpp:37-238 | Each step keeps: being past lockf and being in the lock table are the same, descriptors 0 and 1 stay open and never carry the pid file |
| LockSteps.DaemonNeverStuck | injectService/pulld/src/main.cpp:143-238 | In every reachable state a process inside daemon() can take its next step |
| LockSteps.ServerNeverStuck | injectService/pull/src/app/serverBiz.cpp:43-57 | A running server can take its next step, with database calls that fail as well as not |
| LockSteps.SupervisorNeverStuck | injectService/pulld/src/main.cpp:37-77 | A supervisor can take its next step, with database calls that fail as well as not |
| LockSteps.OthersAnyTime | injectService/pull/src/app/mongoCommonApi.cpp:83-97 | At any moment other hosts may do anything to their records, and nothing else changes then |
| LockSteps.ServerGoesOn | injectService/pull/src/app/serverBiz.cpp:43-57 | A server ends at its host lookup exactly when that finds a record, and goes on whatever the database did to its insert |
| LockSteps.SupervisorGoesOn | injectService/pulld/src/main.cpp:62-76 | A supervisor launches whatever became of its clean-up, and the server starts with its descriptors |
| LockSteps.MissedLookupRegisters | injectService/pull/src/app/serverBiz.cpp:43-57 | A server whose lookup misses stores a second record of its host |
| LockSteps.OpenCreates | injectService/pulld/src/main.cpp:205-210 | Opening makes an empty file under the path if there is none, and otherwise changes no file |
| LockSchedules.RestartSucceedsIff | injectService/pulld/src/main.cpp:388-400 | An uninterrupted turn that finds nobody brings the new server past the lock and the duplicate check, with the pid file naming it, exactly when at most one record of this host was left behind |
| LockSchedules.UnlinkAdmitsSecond | injectService/pull/src/main.cpp:102 | After an unlink by a server that has not ended, the next server locks a new file and runs beside it |
| LockSchedules.ProbeTurnsServerAway | injectService/pulld/src/main.cpp:48-54 | The schedule in which it happens: while a probe holds the lock a server that tries it exits though none is running (exactly when: `LockRuns.TurnedAwayByProbeIff`) |
| LockSchedules.LiveRecordRemoved | injectService/pulld/src/main.cpp:62-71 | The schedule in which it happens: a server that starts by other means between a probe and its clean-up loses its record (exactly when: `LockHosts.RecordKeptIff`) |
| Descriptors.LockSurvivesRedirect | injectService/pulld/src/main.cpp:167-195 | daemon() still owns the lock after redirecting descriptors 0 and 1 exactly when both were open at its start |
| Descriptors.RedirectedFiles | injectService/pulld/src/main.cpp:176-195 | After the redirection descriptors 0 and 1 are /dev/null, the third one is closed again, and the rest is as it was; only where 2 was the lowest free one it stays |
| Descriptors.LockRules | injectService/pulld/src/main.cpp:48-60 | A try fails exactly when another process has the lock; an unlock and a close give up the own lock and nobody else's |
| Descriptors.ProbeRestores | injectService/pulld/src/main.cpp:37-77 | The probe's calls, late unlock and double close included, leave every descriptor as it was, and the lock table exactly when the prober did not own the lock itself |
| Daemon.Process.CheckProcessAlive | injectService/pulld/src/main.cpp:37-77 | Alive exactly when another process holds the lock; descriptors and locks unchanged; one left-over record of this host is removed exactly when nobody holds the lock and the database obeys; it exits only when the file cannot be opened |
| Daemon.Process.WritePidToFile | injectService/pulld/src/main.cpp:200-238 | Unless a call fails, the process exits exactly if another one holds the lock; a process that does not exit owns the lock and the file's first line is its pid; one turned away writes nothing |
| Daemon.Process.Daemonize | injectService/pulld/src/main.cpp:143-198 | Unless a call fails, `dup2` and `close` included, the process ends if another one holds the lock and 0 is returned otherwise; then the file reads back as this pid, and the lock is still owned exactly if descriptors 0 and 1 were open; what each descriptor is then, the pid file and /dev/null included, is told for every start |
| Daemon.Process.Supervise | injectService/pulld/src/main.cpp:388-400 | Whatever others do between rounds, every round starts the server exactly when its probe found nobody, exactly then one record of this host is removed unless the database fails, and there are no other starts; the loop ends early only when a probe cannot open the file |
| PidFile.WriteThenRead | injectService/pulld/src/main.cpp:225-231 | For every old content and every pid, an overwrite from offset 0 leaves a file whose first line is the pid and which reads back as it, with the old text unchanged behind the line when it was longer |
| PidFile.NoLeadingZero | injectService/pulld/src/main.cpp:225-228 | The number is written without leading zeros |
| PidFile.AtoiOfDigits | injectService/pull/src/utils/utils.cpp:118-146 | Reading the decimal digits of a pid followed by a newline and anything gives the pid |
| PidFile.AtoiSigned | injectService/pull/src/utils/utils.cpp:118-146 | Blanks are skipped and one sign is taken |
| PidFile.SpacesOfC | injectService/pull/src/utils/utils.cpp:118-146 | The characters skipped are the six white-space characters of C |
| PidFile.ReadsSixtyFour | injectService/pull/src/utils/utils.cpp:133-141 | A digit counts exactly when fewer than 64 characters come before it |
| PowerOfTwo.NextPowerOfTwo | injectService/pull/inc/bson-types.h:518-533 | In a size_t of 32 or 64 bits: the least power of two not below v for v from 1 to half the word, and 0 for every other v |
| PowerOfTwo.NextPower | injectService/pull/inc/bson-types.h:507-517 | The independent definition, by halving, and that it is the least power of two from v |
| PowerOfTwo.SmearDown | injectService/pull/inc/bson-types.h:521-529 | After the shift-and-OR statements each bit is the OR of all bits of the word from it up |
| PowerOfTwo.SmearDoubles | injectService/pull/inc/bson-types.h:521-529 | After v |= v >> w, bit i is the OR of twice as many bits of the start value from i up |
| PowerOfTwo.SmearFills | injectService/pull/inc/bson-types.h:521-530 | A smear over the whole word fills it below its highest bit |
| PowerOfTwo.NextPowerProperties | injectService/pull/inc/bson-types.h:518-533 | What the function returns is the same when asked again, is the request itself exactly for 0 and the powers up to half the word, and never decreases up to there |
| PowerOfTwo.IsPowerOfTwoIff | injectService/pull/inc/bson-types.h:536-540 | The test holds exactly of 2^k, in any width |
| PowerOfTwo.ResultPassesTestIff | injectService/pull/inc/bson-types.h:518-540 | Truncated to the test's 32 bits, the result for v passes exactly when v is from 1 to 2^31 |
| Endian.AndShifted | injectService/pull/inc/bson-endian.h:186-193 | Masking at a shifted position is masking after the shift, for any mask and position |
| Endian.OrDisjoint | injectService/pull/inc/bson-endian.h:186-193 | The OR of parts that do not overlap is their sum, at any position |
| Endian.EndsOfOrders | injectService/pull/inc/bson-endian.h:85-117 | The first byte counts least in the one order, the last in the other |
| Endian.SwapReadsBackwards2 | injectService/pull/inc/bson-endian.h:136-140 | The 16-bit swap turns the little-endian value of two bytes into their big-endian value |
| Endian.SwapReadsBackwards4 | injectService/pull/inc/bson-endian.h:159-164 | The same for the 32-bit swap |
| Endian.SwapReadsBackwards8 | injectService/pull/inc/bson-endian.h:183-194 | The same for the 64-bit swap |
| Endian.SwapsAreInvolutions | injectService/pull/inc/bson-endian.h:136-194 | Each swap undoes itself on every word of its width |
| Endian.Swap64IsTwoSwaps | injectService/pull/inc/bson-endian.h:183-194 | The 64-bit swap is the two 32-bit swaps with the halves exchanged |
| Endian.ConversionsAreHostIndependent | injectService/pull/inc/bson-endian.h:85-117 | On a host of either byte order, a native read followed by FROM_LE or FROM_BE gives the little- or big-endian value, in each width |
| IterRead.IntReadersAreLittleEndian | injectService/pull/inc/bson-iter.h:219-252 | The 32- and 64-bit readers give the signed little-endian value of the bytes of the document from d1 on, on every host |
| IterRead.IntReadersReadTheValue | injectService/pull/inc/bson-iter.h:219-252 | So they read the value itself out of any document that has it at d1 |
| IterRead.ValueAt | injectService/pull/inc/bson-iter.h:304-315 | Any piece of a value that a document has at d1 lies at d1 plus its offset, where the readers look for it |
| IterRead.Decimal128Unsafe | injectService/pull/inc/bson-iter.h:304-315 | low and high are the little-endian values of the first and second eight bytes from d1 on, and low + 2^64 * high that of all sixteen, on every host |
| IterRead.TimevalUnsafe | injectService/pull/inc/bson-iter.h:395-405 | Seconds and microseconds together are exactly the milliseconds if and only if the seconds fit the long they are cast to, always in 64 bits; the microseconds are not negative exactly from the epoch on or at whole seconds before it |
| IterRead.NarrowIff | injectService/pull/inc/bson-iter.h:395-405 | A cast to a signed type keeps a number exactly when it is in the type's range |
| IterRead.TimeTAgreesIff | injectService/pull/inc/bson-iter.h:377-381 | The time_t reader gives the truncated seconds exactly for dates from the epoch on or where a long has 32 bits: with 64 its divisor makes the division unsigned; an earlier date then gives (2^64 + date) / 1000 |
| IterRead.DateReadersReadTheValue | injectService/pull/inc/bson-iter.h:377-405 | The date readers see the value of any document that has it at d1 |
| ObjectId.CompareIsNumeric | injectService/pull/inc/bson-oid.h:75-79 | The sign of the comparison is the order of the big-endian numbers, and 0 is equality, for any length |
| ObjectId.CompareIsTotalOrder | injectService/pull/inc/bson-oid.h:75-98 | A total order that agrees with the equality test |
| ObjectId.TimeIsMonotone | injectService/pull/inc/bson-oid.h:233-240 | The time is the first four bytes on every host, and comparison never goes against it |
| ObjectId.Hash | injectService/pull/inc/bson-oid.h:113-124 | The loop returns the function the collision results speak of, which is 5381*33^n plus the sum of bytes[i]*33^(n-1-i), modulo 2^32 |
| ObjectId.PolyClosedForm | injectService/pull/inc/bson-oid.h:116-121 | The recurrence without overflow equals that closed form |
| ObjectId.OneByteNeverCollides | injectService/pull/inc/bson-oid.h:113-124 | Ids that differ in exactly one byte never collide |
| ObjectId.LastThreeCollideIff | injectService/pull/inc/bson-oid.h:113-124 | Ids that agree on all but the last three bytes collide exactly when 1089*d9 + 33*d10 + d11 is 0 |
| ObjectId.TailKeepsDifference | injectService/pull/inc/bson-oid.h:119-121 | Two running hashes are equal after a common tail exactly when they were equal before it |
| ObjectId.InitFromString | injectService/pull/inc/bson-oid.h:213-222 | The id is filled with the bytes that the string's first 24 characters spell |
| ObjectId.NibblePair | injectService/pull/inc/bson-oid.h:219-220 | The shift-and-OR of two digits is 16 * high + low |
| ObjectId.HexDigits | injectService/pull/inc/bson-oid.h:154-199 | The digits are the sixteen usual ones in either case, and every other character counts as 0 |
| ObjectId.DecodeEncode | injectService/pull/inc/bson-oid.h:154-222 | Decoding the canonical lower-case form gives the id back |
| ObjectId.EncodeDecode | injectService/pull/inc/bson-oid.h:154-222 | Printing a decoded string gives its canonical form, whatever the characters |
| ObjectId.HexUpToCase | injectService/pull/inc/bson-oid.h:154-222 | A hexadecimal string prints back in lower case, and two decode alike exactly when equal up to case |
| ObjectId.DecodeAlikeIff | injectService/pull/inc/bson-oid.h:154-222 | Any two strings of whole pairs decode alike exactly when their canonical forms agree; characters that are not digits count as 0 |
| ObjectId.HexOrderAgrees | injectService/pull/inc/bson-oid.h:75-79 | Canonical strings sort exactly as the ids they stand for |
| ProcessTitle.Conf.InitProcessTitle | injectService/pulld/src/global_conf.cpp:46-78 | The two scans find the end of the strings that follow argv[0] without a gap, taking argv and then environ in list order; the end is a terminator |
| ProcessTitle.Conf.SetProcessTitle | injectService/pulld/src/global_conf.cpp:37-44 | Memory is the title cut to fit, then NULs up to the end of the block, and otherwise unchanged; with a block of no positions the copy faults, and only then |
| ProcessTitle.ExtendTiles | injectService/pulld/src/global_conf.cpp:59-76 | What a scan steps over is a chain of strings of the list, each starting where the one before ends |
| ProcessTitle.ChainCovers | injectService/pulld/src/global_conf.cpp:59-76 | Every position of the block lies in a string of that chain or is its terminator |
| ProcessTitle.WholeChain | injectService/pulld/src/global_conf.cpp:59-76 | When the list is one chain the scan reaches its end |
| ProcessTitle.RoomIff | injectService/pulld/src/global_conf.cpp:37-78 | There is room for a title exactly when argv[0] is not an empty string standing alone |
| ProcessTitle.TitleStaysInBlock | injectService/pulld/src/global_conf.cpp:37-78 | The two calls together: the block is tiled by argv and environ strings, no position outside it changes, it ends NUL-terminated, and every string sharing no position with the chain is intact |
| CStrings.RcStrncpy | injectService/pulld/src/string/p_string.h:10 | For every pair of sizes, negative ones included: with n the smaller of s_l and d_l - 1, it stores n characters of the source and a terminator and nothing else, and faults exactly when n is negative or that runs past the end of memory |
| CStrings.StrNCpy | injectService/pulld/src/string/p_string.h:10 | strncpy stores the string, padded with NULs, and faults exactly when its count runs past the end of memory |
| CStrings.StaysInsideIff | injectService/pulld/src/string/p_string.h:10 | The copy stays inside its destination exactly when the stated size is positive, and then stores exactly up to the smaller of s_l and d_l - 1 |
| PathScan.ScanSlashes | injectService/pulld/src/global_conf.cpp:12-25 | The scan ends at the last slash, or finds none exactly when there is none |
| PathScan.LastSlash | injectService/pulld/src/global_conf.cpp:12-25 | The last slash, found from the end: a slash with none behind it |
| PathScan.SplitIsExact | injectService/pulld/src/global_conf.cpp:12-33 | That position is the only one of its kind, and directory, slash and name together are the path |
| PathScan.GetCurPath | injectService/pulld/src/global_conf.cpp:10-35 | With a slash at k and none behind it, the process exits with the buffer untouched exactly when k characters and a terminator do not fit, and otherwise the buffer holds exactly the directory part, the rest as before; without a slash the length is the s32 at the distance of the negated address, and the outcome is told for each |

## Left out

- REST parsing, configuration files, logging, sockets and network interfaces: plumbing around the modelled calls.
- The MongoDB driver: a collection is a sequence of documents with first-match lookup, update and delete; connections are not modelled.
- `find_orphan_process` and `remove_process_by_id`: nothing calls them in the modelled paths.
- The queues and the event types: worker_loop's dispatch is the choice of which operation a thread starts next; the terminate event has no case there, so `Terminate` stands for direct calls.
- The shell's quoting and expansion, and `ffmpeg`: a command line is read by its blanks, and a forked child is a live worker holding its command; the path where `execl` fails is not modelled.
- Signals other than SIGKILL to a worker, and processes other than the server and its workers.
- StreamControl.Step: the step that terminates takes a positive pid, and so does the detector's check; `ProcessControl` has the calls for every pid.
- StreamWorkers.EveryWorkerHasOneName: assumes that writes succeed, that reloads start on dead workers and that forks are fresh; each is needed (`StreamWorkers.OrphansComeFromLosses`, `StreamSchedules.ReloadOfLiveOrphans`, `StreamSchedules.ReusedPidIsKilled`).
- ProcessControl.ProcessCtl.ProcessAliveDetect: runs without requests in between; among other threads its steps are `DetectCheck` and `DetectLookup` of `StreamControl`. The group of the server is the one its workers are in.
- LockHosts.RecordKeptIff: excludes runs in which a server unlinks the pid file, where a second server has a record of its own.
- Daemon.Process.WritePidToFile: a write is complete or fails; short counts of `write` are not modelled.
- Daemon.Process.Supervise: the signal arrives at the end of a round, and the five-second sleep is one step in which other processes may do anything to their own locks and to the host records.
- The descriptor flag that closes the pid file on exec: no modelled process calls exec.
- The parent of daemon()'s fork and the fork that fails: the model starts in the child.
- A server's descriptors beyond those of daemon() and the pid file.
- IterRead.TimeTAgreesIff: time_t has 64 bits, and suseconds_t is a long.
- ProcessTitle.Conf.InitProcessTitle: the variable `size` of the first loop has no effect and its wrap-around is the only thing kept of it.
- CStrings.RcStrncpy: memory is smaller than 2^63 and lengths fit 32 bits, without the one stated size whose predecessor does not; a fault ends the statement, and what a copy did beyond its destination before it is not said.
- PathScan.GetCurPath: the buffer is taken as all of the memory behind it; the subtraction from a null pointer, which C leaves undefined, is that of the addresses.
- ObjectId.InitFromString: assumes at least 24 characters, as its documentation asks of the caller.
- The floating-point swap, the string and array readers, version checks and the second copy of these headers under pulld: the same code again or no claim beyond one body.
- The jsoncpp, log4cplus, libevent and mongoc libraries: only declarations are in the repository.
