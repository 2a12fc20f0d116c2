/** Exactly when the worker accepts each command, and all that the command changes. */
module WorkerCommands {
  import opened Wrappers
  import opened ParticipantSchedule
  import opened CoordinatorModel
  import opened CoordinatorPhases
  import opened StartTiming
  import opened LiveJobModel
  import opened WorkerTiming
  import opened WorkerModel

  /** A bound connection, whether its job is at rest or out on an operation. */
  ghost predicate Bound(r: Runtime, connectionId: nat) {
    r.job.Some? && exists b <- BindingsOf(r.job.value) :: b.connectionId == connectionId
  }

  lemma BindsIsBound(r: Runtime, connectionId: nat)
    ensures Binds(r, connectionId) <==> Bound(r, connectionId)
  {
    if Bound(r, connectionId) {
      var b :| b in BindingsOf(r.job.value) && b.connectionId == connectionId;
      var i :| 0 <= i < |BindingsOf(r.job.value)| && BindingsOf(r.job.value)[i] == b;
    }
  }

  // ---- Devices ----------------------------------------------------------------------------

  /**
   * A connection is configured exactly when no job binds it, the request is sound, and a generation is left. It starts
   * over under a generation never handed out before, with no session and no identity; nobody else is touched.
   */
  lemma ConfigureIsExact(r: Runtime, connectionId: nat, wellFormed: bool, accepted: bool)
    ensures var (t, result) := Configure(r, connectionId, wellFormed, accepted);
            && (result.Ok? <==> !Bound(r, connectionId) && wellFormed && accepted && r.nextGeneration < U64_MAXIMUM)
            && (result.Ok? ==>
                  && t.devices == r.devices[connectionId :=
                       IdleDevice(DeviceState(connectionId, r.nextGeneration, false, false, None, 0))]
                  && t == r.(devices := t.devices, nextGeneration := r.nextGeneration + 1))
            && (result.Err? ==> t == r.(nextGeneration := t.nextGeneration) && t.nextGeneration >= r.nextGeneration)
  {
    BindsIsBound(r, connectionId);
  }

  /** A connection is dropped exactly when it exists and no job binds it; everyone else stays. */
  lemma DisconnectIsExact(r: Runtime, connectionId: nat)
    ensures var (t, dropped) := Disconnect(r, connectionId);
            && (dropped <==> connectionId in r.devices && !Bound(r, connectionId))
            && t == r.(devices := t.devices)
            && (forall k :: k in t.devices <==> k in r.devices && !(dropped && k == connectionId))
            && (forall k <- t.devices :: t.devices[k] == r.devices[k])
  {
    BindsIsBound(r, connectionId);
  }

  /** An idle device is handed out as it stands, leaving its generation and snapshot; a busy one is not. */
  lemma TakeIsExact(r: Runtime, connectionId: nat, state: DeviceState)
    ensures TakeIdleDevice(r, connectionId).1 == Some(state) <==>
              connectionId in r.devices && r.devices[connectionId] == IdleDevice(state)
    ensures TakeIdleDevice(r, connectionId).1 == Some(state) ==>
              TakeIdleDevice(r, connectionId).0 ==
                r.(devices := r.devices[connectionId := BusyDevice(state.generation, state)])
    ensures TakeIdleDevice(r, connectionId).1.None? ==> TakeIdleDevice(r, connectionId).0 == r
  {
  }

  /** A returning device is put back exactly when the entry still waits for that generation; a stale one is discarded. */
  lemma ReturnIsExact(r: Runtime, connectionId: nat, generation: nat, state: DeviceState)
    ensures var (t, restored) := FinishDeviceStep(r, connectionId, generation, state);
            && (restored <==> connectionId in r.devices && r.devices[connectionId].BusyDevice?
                              && r.devices[connectionId].generation == generation)
            && t == if restored then r.(devices := r.devices[connectionId := IdleDevice(state)]) else r
  {
  }

  // ---- Jobs -------------------------------------------------------------------------------

  /** The entry's last known state belongs to the device the participant was compiled for, and its clock is qualified. */
  ghost predicate Compiled(r: Runtime, b: Binding) {
    && b.connectionId in r.devices
    && var state := match r.devices[b.connectionId] case IdleDevice(s) => s case BusyDevice(_, s) => s;
       && state.connectionId == b.connectionId && state.generation == b.generation
       && state.identity == Some(b.identity) && state.clockQualified
  }

  /** A job is retained exactly when none is and every participant's device is the one it was compiled for. */
  lemma StageIsExact(r: Runtime, retained: RetainedJob, authorized: bool)
    ensures var (t, result) := StageJob(r, retained, authorized);
            && (result.Ok? <==> r.job.None? && authorized && forall b <- retained.bindings :: Compiled(r, b))
            && t == if result.Ok? then r.(job := Some(IdleJob(retained))) else r
  {
    forall i | 0 <= i < |retained.bindings|
      ensures Staged(r, retained.bindings[i]) <==> Compiled(r, retained.bindings[i])
    {
    }
    if forall i | 0 <= i < |retained.bindings| :: Staged(r, retained.bindings[i]) {
      forall b | b in retained.bindings
        ensures Compiled(r, b)
      {
        var i :| 0 <= i < |retained.bindings| && retained.bindings[i] == b;
      }
    }
    if forall b <- retained.bindings :: Compiled(r, b) {
      forall i | 0 <= i < |retained.bindings|
        ensures Staged(r, retained.bindings[i])
      {
        assert Compiled(r, retained.bindings[i]);
      }
    }
  }

  /** A start is noted exactly for the idle, ready job it names, while no other start is noted. */
  lemma StartIsExact(r: Runtime, jobId: nat)
    ensures var (t, result) := StartJob(r, jobId);
            && (result.Ok? <==>
                  && r.pendingStart.None? && r.job.Some? && r.job.value.IdleJob?
                  && r.job.value.retained.jobId == jobId && JobPhaseOf(r.job.value.retained.job) == JobReady)
            && t == if result.Ok? then r.(pendingStart := Some(jobId)) else r
  {
    hide GlobalPhaseOf;
  }

  /** An ended job is cleared by its own name, and with it any start still noted. */
  lemma ClearIsExact(r: Runtime, jobId: nat)
    ensures var (t, cleared) := ClearJob(r, jobId);
            && (cleared <==> r.job.Some? && r.job.value.IdleJob? && r.job.value.retained.jobId == jobId
                             && JobTerminal(r.job.value.retained.job))
            && t == if cleared then r.(job := None, pendingStart := None) else r
  {
    hide GlobalPhaseOf;
  }

  /**
   * A stop withdraws the start noted for the job it names even when it is then refused, and is accepted exactly when
   * that job is at rest, has not ended, and its coordinator still accepts an abort (once bound) or a cancellation.
   */
  lemma StopIsExact(r: Runtime, jobId: nat)
    ensures var (t, result) := StopJob(r, jobId);
            && t.pendingStart == (if r.pendingStart == Some(jobId) then None else r.pendingStart)
            && t.devices == r.devices && t.nextGeneration == r.nextGeneration
            && (result.Ok? <==>
                  && r.job.Some? && r.job.value.IdleJob? && r.job.value.retained.jobId == jobId
                  && Stoppable(r.job.value.retained.job))
            && (result.Ok? ==>
                  var retained := r.job.value.retained;
                  t.job == Some(IdleJob(retained.(job := Stopping(retained.job)))))
  {
    hide GlobalPhaseOf, JobTerminal, BeginAbortAll, BeginCancelAll;
    if r.job.Some? && r.job.value.IdleJob? {
      AcceptedIntent(r.job.value.retained.job.c);
    }
  }

  /** Judged by the phases of the participants in `CoordinatorPhases`. */
  ghost predicate Stoppable(j: Job) {
    && !JobTerminal(j)
    && if j.c.target.Some? then BeginAbortAll(j.c).1.Ok? else BeginCancelAll(j.c).1.Ok?
  }

  /** The queue is dropped; the intent turns to abort, which is remembered as a stop, or to cancellation. */
  function Stopping(j: Job): Job {
    if j.c.target.Some? then j.(c := j.c.(intent := AbortIntent), queue := [], stopRequested := true)
    else j.(c := j.c.(intent := CancelIntent), queue := [])
  }

  lemma AcceptedIntent(c: Coordinator)
    ensures BeginAbortAll(c).1.Ok? ==> BeginAbortAll(c).0 == c.(intent := AbortIntent)
    ensures BeginCancelAll(c).1.Ok? ==> BeginCancelAll(c).0 == c.(intent := CancelIntent)
  {
    hide GlobalPhaseOf;
  }

  // ---- Starts -----------------------------------------------------------------------------

  /** The noted start names the job that is at rest and Ready, and every bound device is at rest too. */
  ghost predicate MayStart(r: Runtime) {
    && r.pendingStart.Some? && r.job.Some? && r.job.value.IdleJob?
    && r.job.value.retained.jobId == r.pendingStart.value
    && JobPhaseOf(r.job.value.retained.job) == JobReady
    && forall b <- r.job.value.retained.bindings ::
         b.connectionId in r.devices && r.devices[b.connectionId].IdleDevice?
  }

  /** What the start makes of the job: the coordinator with an epoch five seconds ahead bound. */
  ghost predicate Begins(j: Job, s: Surroundings, after: Coordinator) {
    && j.terminalOverride.None? && j.queue == []
    && s.nowUi.Some? && s.nowUi.value + 5_000_000_000 <= U64_MAXIMUM && s.startInputs.Some?
    && j.c.target.None? && Bindable(j.c, s.nowUi.value, s.nowUi.value + 5_000_000_000, s.startInputs.value, s.encodes, after)
  }

  lemma IdleByBinding(r: Runtime, bindings: seq<Binding>)
    ensures AllIdle(r, bindings) <==>
              forall b <- bindings :: b.connectionId in r.devices && r.devices[b.connectionId].IdleDevice?
  {
    if forall b <- bindings :: b.connectionId in r.devices && r.devices[b.connectionId].IdleDevice? {
      forall i | 0 <= i < |bindings|
        ensures bindings[i].connectionId in r.devices && r.devices[bindings[i].connectionId].IdleDevice?
      {
        assert bindings[i] in bindings;
      }
    }
  }

  lemma ReadyMeans(j: Job)
    requires JobPhaseOf(j) == JobReady && j.terminalOverride.None?
    ensures GlobalPhaseOf(j.c) == GReady
  {
    hide GlobalPhaseOf;
    ProjectionIsExact(j);
  }

  lemma LiveStartIsExact(
    j: Job, nowUi: u64, targetUi: u64, inputs: seq<StartInput>, encodes: Commit -> bool, after: Job)
    requires WellFormed(j.c) && JobPhaseOf(j) == JobReady
    ensures (var (k, result) := LiveJobModel.BeginStart(j, nowUi, targetUi, inputs, encodes); result.Ok? && k == after) <==>
              && j.terminalOverride.None? && j.queue == [] && j.c.target.None?
              && Bindable(j.c, nowUi, targetUi, inputs, encodes, after.c) && after == j.(c := after.c)
    ensures LiveJobModel.BeginStart(j, nowUi, targetUi, inputs, encodes).1.Err? ==>
              LiveJobModel.BeginStart(j, nowUi, targetUi, inputs, encodes).0 == j
  {
    hide GlobalPhaseOf, StartTiming.BindStart, Bindable, WellFormed, JobPhaseOf;
    if j.terminalOverride.None? {
      ReadyMeans(j);
      BindStartIsExact(j.c, nowUi, targetUi, inputs, encodes, after.c);
      RefusedStartChangesNothing(j.c, nowUi, targetUi, inputs, encodes);
    }
  }

  lemma BindFromIsExact(j: Job, s: Surroundings, after: Job)
    requires WellFormed(j.c) && JobPhaseOf(j) == JobReady
    ensures (BindFrom(j, s).1.Ok? && BindFrom(j, s).0 == after) <==> Begins(j, s, after.c) && after == j.(c := after.c)
    ensures BindFrom(j, s).1.Err? ==> BindFrom(j, s).0 == j
  {
    hide LiveJobModel.BeginStart, Bindable, WellFormed, JobPhaseOf;
    if s.nowUi.Some? && s.nowUi.value + START_LEAD_NS <= U64_MAXIMUM && s.startInputs.Some? {
      LiveStartIsExact(j, s.nowUi.value, s.nowUi.value + START_LEAD_NS, s.startInputs.value, s.encodes, after);
    }
  }

  lemma RefusedStartChangesNothing(
    c: Coordinator, nowUi: u64, targetUi: u64, inputs: seq<StartInput>, encodes: Commit -> bool)
    ensures StartTiming.BindStart(c, nowUi, targetUi, inputs, encodes).1.Err? ==>
              StartTiming.BindStart(c, nowUi, targetUi, inputs, encodes).0 == c
  {
    hide GlobalPhaseOf, PlanCommits, Planned;
  }

  /** `j` is the job at rest with the coordinator replaced by one that bound the epoch. */
  ghost predicate Started(r: Runtime, s: Surroundings, t: Runtime) {
    && r.job.Some? && r.job.value.IdleJob? && t.job.Some? && t.job.value.IdleJob?
    && var (before, after) := (r.job.value.retained, t.job.value.retained);
       Begins(before.job, s, after.job.c) && after == before.(job := before.job.(c := after.job.c))
  }

  /**
   * The noted start is carried out exactly when it may start and the epoch can be bound; it waits while the job or a
   * device is out; a job that may start but cannot be bound is given up, and the start is spent either way.
   */
  lemma PendingStartIsCarriedOut(r: Runtime, s: Surroundings, t: Runtime)
    requires r.job.Some? && r.job.value.IdleJob? ==> WellFormed(r.job.value.retained.job.c)
    ensures BeginPendingJobStart(r, s) == (t, Ok(true)) <==>
              MayStart(r) && Started(r, s, t) && t == r.(pendingStart := None, job := t.job)
    ensures MayStart(r) && BeginPendingJobStart(r, s).1 != Ok(true) ==>
              && BeginPendingJobStart(r, s).1.Err?
              && BeginPendingJobStart(r, s).0 ==
                   r.(pendingStart := None, job := Some(IdleJob(FaultJob(r.job.value.retained))))
    ensures BeginPendingJobStart(r, s).1 == Ok(false) <==>
              r.pendingStart.None? || (r.job.Some? && (r.job.value.BusyJob? || (WaitsForDevices(r) && !MayStart(r))))
  {
    hide BindFrom, JobPhaseOf, AllIdle, Begins, WellFormed;
    if r.pendingStart.Some? && r.job.Some? && r.job.value.IdleJob? {
      var retained := r.job.value.retained;
      IdleByBinding(r, retained.bindings);
      if JobPhaseOf(retained.job) == JobReady {
        BindFromIsExact(retained.job, s, BindFrom(retained.job, s).0);
        if t.job.Some? && t.job.value.IdleJob? {
          BindFromIsExact(retained.job, s, t.job.value.retained.job);
        }
      }
    }
  }

  ghost predicate WaitsForDevices(r: Runtime) {
    && r.pendingStart.Some? && r.job.Some? && r.job.value.IdleJob?
    && r.job.value.retained.jobId == r.pendingStart.value
    && JobPhaseOf(r.job.value.retained.job) == JobReady
  }

  // ---- The policy of one participant ------------------------------------------------------

  /** Three seconds to confirm, one to abort; three seconds of lease when attended, else the job and thirty seconds. */
  ghost predicate DerivedPolicy(
    policy: NetworkPolicy, hz: u64, maximumUncertainty: u64, durationTicks: u64, timebaseHz: u64, commitId: nat,
    t: StartPolicy)
  {
    && t.maximumUncertainty == t.requiredSync == maximumUncertainty && t.commitId == commitId
    && t.confirmationLead == 3 * hz && t.abortGuardLead == hz
    && (policy == NetworkAttended ==> t.leaseCycles == 3 * hz)
    && (policy == CachedAutonomous ==>
          && timebaseHz != 0 && 30 * hz <= t.leaseCycles
          && LeastCover(durationTicks, hz, timebaseHz, t.leaseCycles - 30 * hz))
  }

  lemma StartPolicyIsExact(
    policy: NetworkPolicy, hz: u64, maximumUncertainty: u64, durationTicks: u64, timebaseHz: u64, commitId: nat,
    t: StartPolicy)
    ensures StartPolicyOf(policy, hz, maximumUncertainty, durationTicks, timebaseHz, commitId) == Ok(t) <==>
              DerivedPolicy(policy, hz, maximumUncertainty, durationTicks, timebaseHz, commitId, t)
  {
    hide CeilProductRatio, LeastCover;
    var least := CeilProductRatio(durationTicks, hz, timebaseHz);
    CoverIsUnique(durationTicks, hz, timebaseHz, t.leaseCycles - 30 * hz);
  }

  lemma CoverIsUnique(value: u64, multiplier: u64, divisor: u64, c: int)
    ensures 0 <= c <= U64_MAXIMUM ==>
              (CeilProductRatio(value, multiplier, divisor) == Some(c as u64) <==>
                 divisor != 0 && LeastCover(value, multiplier, divisor, c))
  {
    hide CeilProductRatio;
    if 0 <= c <= U64_MAXIMUM && divisor != 0 {
      CeilProductRatioIsExact(value, multiplier, divisor);
      var least := CeilProductRatio(value, multiplier, divisor);
      if LeastCover(value, multiplier, divisor, c) {
        assert c * divisor >= value * multiplier;
        LeastIsUnique(value * multiplier, divisor, c, least.value);
        LeastIsUnique(value * multiplier, divisor, least.value, c);
      }
    } else if divisor == 0 {
      CeilProductRatioIsExact(value, multiplier, divisor);
    }
  }
}
