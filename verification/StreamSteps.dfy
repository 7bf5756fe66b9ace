/**
 What single steps of the stream model do to operations, their callers and running processes.
 */
module StreamSteps {
  import opened Wrappers
  import opened ProcessStore
  import opened StreamControl
  import opened StreamHistory

  // ----- operations end when they answer

  predicate IsDetection(ev: Event) {
    ev.DetectCheck? || ev.DetectLookup?
  }

  /** A step of an operation leaves its thread in the operation exactly when it does not answer. */
  lemma AnswerEndsOperation(st: Sys, ev: Event)
    requires Enabled(st, ev) && !ev.Terminate? && !ev.Die? && !IsDetection(ev)
    ensures ev.t in Step(st, ev).threads <==> Return(st, ev).None?
  {
  }

  /** A detector goes on exactly when the pid is dead, and then exactly when its lookup finds a record. */
  lemma DetectionGoesOn(st: Sys, ev: Event)
    requires Enabled(st, ev) && IsDetection(ev)
    ensures ev.DetectCheck? ==> (ev.t in Step(st, ev).threads <==> ev.was.pid !in st.live)
    ensures ev.DetectLookup? ==>
              (ev.t in Step(st, ev).threads <==> ev.reached && FindByPid(st.docs, st.threads[ev.t].info.pid).Some?)
    ensures Step(st, ev).docs == st.docs && Step(st, ev).live == st.live
  {
  }

  /** What a caller learns from each answer. */
  lemma AnswersTell(self: int, docs: seq<ProcessInfo>, op: Operation)
    ensures var (docs', code) := Apply(self, docs, op);
            && (code == StreamExist <==> op.Spawn? && op.reached && exists d :: d in docs && d.sid == op.param.sid)
            && (code == StreamNotExist <==>
                (op.Reload? || op.Remove?) && !(op.reached && exists d :: d in docs && d.sid == op.sid))
            && (code == ForkFailed ==> op.Spawn? && op.child.None?)
            && (code != Ok ==> docs' == docs)
            && (op.Spawn? && code == Ok ==> op.child.Some?)
  {
  }

  // ----- no operation gets stuck

  /** From every state each thread can take its next step, with a fork or a write that fails as well as not. */
  lemma NeverStuck(st: Sys, t: Tid, info: ProcessInfo, child: Option<int>, ok: bool)
    requires ForkResult(st, child)
    ensures t !in st.threads ==>
              && Enabled(st, SpawnCheck(t, info, ok)) && Enabled(st, ReloadLookup(t, info.sid, ok))
              && Enabled(st, RemoveLookup(t, info.sid, ok)) && (info.pid > 0 ==> Enabled(st, DetectCheck(t, info)))
    ensures t in st.threads ==>
              match st.threads[t]
              case SpawnChecked(_) => Enabled(st, SpawnFork(t, child))
              case SpawnForked(_) => Enabled(st, SpawnRecord(t, ok))
              case Suspected(_) => Enabled(st, DetectLookup(t, ok))
              case ReloadFound(_) => Enabled(st, ReloadFork(t, child))
              case ReloadForked(_) => Enabled(st, ReloadUpdate(t, ok))
              case RemoveFound(_) => Enabled(st, RemoveUncache(t, ok))
              case RemoveUncached(_) => Enabled(st, RemoveKill(t))
  {
  }

  // ----- who dies

  /** This step is the end of the process with that pid. */
  predicate Ends(st: Sys, ev: Event, p: int)
    requires Enabled(st, ev)
  {
    match ev
    case Terminate(pid) => p == pid
    case Die(pid) => p == pid
    case RemoveKill(t) => p == st.threads[t].info.pid
    case _ => false
  }

  /** A running process is gone after a step exactly when the step is its end, and else runs what it ran. */
  lemma DeathIff(st: Sys, ev: Event, p: int)
    requires Enabled(st, ev) && p in st.live
    ensures p !in Step(st, ev).live <==> Ends(st, ev, p)
    ensures p in Step(st, ev).live ==> Step(st, ev).live[p] == st.live[p]
  {
    if ev.SpawnFork? || ev.ReloadFork? {
      ForkEndsNobody(st, ev, p);
    }
  }

  lemma ForkEndsNobody(st: Sys, ev: Event, p: int)
    requires Enabled(st, ev) && (ev.SpawnFork? || ev.ReloadFork?) && p in st.live
    ensures p in Step(st, ev).live && Step(st, ev).live[p] == st.live[p]
  {
  }

  /** A worker may die at any moment, and any pid may be terminated at any moment; the caller hears Ok. */
  lemma DeathAnyTime(st: Sys, pid: int)
    ensures pid in st.live <==> Enabled(st, Die(pid))
    ensures pid > 0 <==> Enabled(st, Terminate(pid))
    ensures pid > 0 ==> Return(st, Terminate(pid)) == Some(Ok)
  {
  }

  /** Termination and death change nothing but the process table. */
  lemma DeathIsSilent(st: Sys, ev: Event)
    requires Enabled(st, ev) && (ev.Terminate? || ev.Die?)
    ensures Step(st, ev) == st.(live := st.live - {ev.pid})
    ensures forall p :: p in Step(st, ev).live <==> p in st.live && p != ev.pid
  {
  }
}
