/** A job that has ended is left alone: whatever happens to the worker, only a clear removes it and nothing is asked for it. */
module WorkerEnding {
  import opened Wrappers
  import opened ParticipantSchedule
  import opened CoordinatorModel
  import opened LiveJobModel
  import opened WorkerModel
  import opened WorkerRuns

  ghost predicate Rests(w: World, retained: RetainedJob) {
    w.r.job == Some(IdleJob(retained)) && JobTerminal(retained.job)
  }

  lemma RestingIsIdle(w: World, retained: RetainedJob)
    requires Owned(w) && Rests(w, retained)
    ensures forall k | k in w.tasks :: !w.tasks[k].OperationTask?
  {
    hide DevicesOwned, JobTerminal;
  }

  lemma EndedRefusesStop(j: Job)
    requires JobTerminal(j)
    ensures RequestStop(j) == (j, Err(NotLegal)) && JobPhaseOf(j) != JobReady
  {
    hide GlobalPhaseOf;
  }

  lemma EventLeavesItAlone(w: World, e: Event, retained: RetainedJob)
    requires Owned(w) && Rests(w, retained) && Allowed(w, e)
    requires e != ClearCachedJob(retained.jobId)
    ensures Rests(After(w, e), retained)
  {
    hide JobTerminal, JobPhaseOf, Owned;
    RestingIsIdle(w, retained);
    EndedRefusesStop(retained.job);
  }

  /**
   * From the moment a job has ended, in every interleaving, it stays as it is until it is cleared by name, and no
   * operation of it is ever out: no participant is asked anything more, not even to abort.
   */
  lemma {:induction false} EndedJobIsLeftAlone(
    run: seq<World>, events: seq<Event>, from: nat, to: nat, retained: RetainedJob)
    requires IsWorkerRun(run, events) && from <= to <= |events| && Rests(run[from], retained)
    requires forall k | from <= k < to :: events[k] != ClearCachedJob(retained.jobId)
    ensures Rests(run[to], retained) && forall k | k in run[to].tasks :: !run[to].tasks[k].OperationTask?
  {
    hide After, Owned, Rests, Allowed;
    if from < to {
      EndedJobIsLeftAlone(run, events, from, to - 1, retained);
      RunsKeepOwned(run, events, to - 1);
      EventLeavesItAlone(run[to - 1], events[to - 1], retained);
    }
    RunsKeepOwned(run, events, to);
    RestingIsIdle(run[to], retained);
  }
}
