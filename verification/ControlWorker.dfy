/** The browser worker's runtime: entries are taken out by a handler and put back by a later one. */
module ControlWorker {
  import opened Wrappers
  import opened ParticipantSchedule
  import opened CoordinatorModel
  import opened StartTiming
  import opened LiveJobModel
  import opened WorkerTiming
  import opened WorkerModel

  class ControlWorkerRuntime {
    var devices: map<nat, DeviceEntry>
    var nextGeneration: u64
    var job: Option<JobEntry>
    var pendingStart: Option<nat>

    function Model(): Runtime
      reads this
    {
      Runtime(devices, nextGeneration, job, pendingStart)
    }

    constructor ()
      ensures Model() == NewRuntime()
    {
      devices, nextGeneration, job, pendingStart := map[], 1, None, None;
    }

    method AllocateGeneration() returns (generation: Option<u64>)
      modifies this
      ensures (Model(), generation) == WorkerModel.AllocateGeneration(old(Model()))
    {
      if nextGeneration == U64_MAXIMUM {
        return None;
      }
      generation := Some(nextGeneration);
      nextGeneration := nextGeneration + 1;
    }

    method Configure(connectionId: nat, wellFormed: bool, accepted: bool) returns (result: Result<(), WorkerError>)
      modifies this
      ensures (Model(), result) == WorkerModel.Configure(old(Model()), connectionId, wellFormed, accepted)
    {
      if Binds(Model(), connectionId) || !wellFormed {
        return Err(Rejected);
      }
      var generation := AllocateGeneration();
      if generation.None? {
        return Err(GenerationsExhausted);
      }
      if !accepted {
        return Err(Rejected);
      }
      devices := devices[connectionId := IdleDevice(NewDevice(connectionId, generation.value))];
      return Ok(());
    }

    method Disconnect(connectionId: nat) returns (removed: bool)
      modifies this
      ensures (Model(), removed) == WorkerModel.Disconnect(old(Model()), connectionId)
    {
      if Binds(Model(), connectionId) {
        return false;
      }
      removed := connectionId in devices;
      devices := devices - {connectionId};
      assert !removed ==> devices == old(devices);
    }

    /** The entry is removed, and reinserted unchanged when it turns out to be busy. */
    method TakeIdleDevice(connectionId: nat) returns (taken: Option<DeviceState>)
      modifies this
      ensures (Model(), taken) == WorkerModel.TakeIdleDevice(old(Model()), connectionId)
    {
      if connectionId !in devices {
        return None;
      }
      var entry := devices[connectionId];
      devices := devices - {connectionId};
      match entry {
        case IdleDevice(state) =>
          devices := devices[connectionId := BusyDevice(state.generation, state)];
          assert devices == old(devices)[connectionId := BusyDevice(state.generation, state)];
          return Some(state);
        case BusyDevice(_, _) =>
          devices := devices[connectionId := entry];
          assert devices == old(devices);
          return None;
      }
    }

    method FinishDeviceStep(connectionId: nat, generation: nat, state: DeviceState) returns (restored: bool)
      modifies this
      ensures (Model(), restored) == WorkerModel.FinishDeviceStep(old(Model()), connectionId, generation, state)
    {
      restored := BusyWith(Model(), connectionId, generation);
      if restored {
        devices := devices[connectionId := IdleDevice(state)];
      }
    }

    method StageJob(retained: RetainedJob, authorized: bool) returns (result: Result<(), WorkerError>)
      modifies this
      ensures (Model(), result) == WorkerModel.StageJob(old(Model()), retained, authorized)
    {
      if job.Some? || !authorized {
        return Err(Rejected);
      }
      var n := 0;
      while n < |retained.bindings|
        invariant n <= |retained.bindings|
        invariant forall i | 0 <= i < n :: Staged(Model(), retained.bindings[i])
      {
        if !Staged(Model(), retained.bindings[n]) {
          return Err(Rejected);
        }
        n := n + 1;
      }
      job := Some(IdleJob(retained));
      return Ok(());
    }

    method StartJob(jobId: nat) returns (result: Result<(), WorkerError>)
      modifies this
      ensures (Model(), result) == WorkerModel.StartJob(old(Model()), jobId)
    {
      if pendingStart.Some? {
        return Err(Rejected);
      }
      match job {
        case None => return Err(Rejected);
        case Some(BusyJob(_, _)) => return Err(Rejected);
        case Some(IdleJob(retained)) =>
          if retained.jobId != jobId || JobPhaseOf(retained.job) != JobReady {
            return Err(Rejected);
          }
          pendingStart := Some(jobId);
          return Ok(());
      }
    }

    method StopJob(jobId: nat) returns (result: Result<(), WorkerError>)
      modifies this
      ensures (Model(), result) == WorkerModel.StopJob(old(Model()), jobId)
    {
      if pendingStart == Some(jobId) {
        pendingStart := None;
      }
      match job {
        case None => return Err(Rejected);
        case Some(BusyJob(_, _)) => return Err(Rejected);
        case Some(IdleJob(retained)) =>
          if retained.jobId != jobId {
            return Err(Rejected);
          }
          var (j, stopped) := RequestStop(retained.job);
          job := Some(IdleJob(retained.(job := j)));
          if stopped.Err? {
            return Err(JobRefused(stopped.error));
          }
          return Ok(());
      }
    }

    method ClearJob(jobId: nat) returns (removed: bool)
      modifies this
      ensures (Model(), removed) == WorkerModel.ClearJob(old(Model()), jobId)
    {
      removed := job.Some? && job.value.IdleJob? && job.value.retained.jobId == jobId && JobTerminal(job.value.retained.job);
      if removed {
        job, pendingStart := None, None;
      }
    }

    /** The job is taken out, started, and put back on every path. */
    method BeginPendingJobStart(s: Surroundings) returns (result: Result<bool, WorkerError>)
      modifies this
      ensures (Model(), result) == WorkerModel.BeginPendingJobStart(old(Model()), s)
    {
      if pendingStart.None? {
        return Ok(false);
      }
      var entry := job;
      job := None;
      if entry.None? {
        pendingStart := None;
        return Err(Rejected);
      }
      if entry.value.BusyJob? {
        job := entry;
        return Ok(false);
      }
      var retained := entry.value.retained;
      if retained.jobId != pendingStart.value || JobPhaseOf(retained.job) != JobReady {
        pendingStart := None;
        job := Some(IdleJob(retained));
        return Err(Rejected);
      }
      if !AllIdle(Model(), retained.bindings) {
        job := Some(IdleJob(retained));
        return Ok(false);
      }
      var (j, bound) := BindFrom(retained.job, s);
      retained := retained.(job := j);
      pendingStart := None;
      if bound.Err? {
        job := Some(IdleJob(FaultJob(retained)));
        return Err(bound.error);
      }
      job := Some(IdleJob(retained));
      return Ok(true);
    }

    /** Bound devices are inspected in order while the job is out of its entry. */
    method InspectBindings(bindings: seq<Binding>) returns (readiness: Readiness)
      ensures readiness == ReadinessOf(Model(), bindings)
    {
      var n := 0;
      while n < |bindings|
        invariant n <= |bindings|
        invariant ReadinessOf(Model(), bindings) == ReadinessOf(Model(), bindings[n..])
      {
        var b := bindings[n];
        if b.connectionId !in devices || devices[b.connectionId].BusyDevice? {
          return NotReady;
        }
        var state := devices[b.connectionId].state;
        if !state.session || !state.clockQualified {
          return NotReady;
        }
        if !Matches(state, b) {
          return Mismatched;
        }
        n := n + 1;
      }
      return AllReady;
    }

    method TakeLiveJobTask(s: Surroundings) returns (result: Result<Option<JobTask>, WorkerError>)
      modifies this
      ensures (Model(), result) == WorkerModel.TakeLiveJobTask(old(Model()), s)
    {
      hide PrepareNext, ReadinessOf, JobTerminal;
      var entry := job;
      job := None;
      if entry.None? {
        return Ok(None);
      }
      if entry.value.BusyJob? || JobTerminal(entry.value.retained.job) {
        job := entry;
        return Ok(None);
      }
      var retained := entry.value.retained;
      var readiness := InspectBindings(retained.bindings);
      assert readiness == ReadinessOf(old(Model()), retained.bindings) by {
        ReadinessIgnoresJob(Model(), old(Model()), retained.bindings);
      }
      if readiness != AllReady {
        job := Some(IdleJob(if readiness == Mismatched then FaultJob(retained) else retained));
        if readiness == Mismatched {
          return Err(IdentityChanged);
        }
        return Ok(None);
      }
      var prepared := PrepareNext(retained.job, s);
      retained := retained.(job := prepared.job);
      match prepared.next {
        case Err(error) =>
          job := Some(IdleJob(FaultJob(retained)));
          return Err(error);
        case Ok(None) =>
          job := Some(IdleJob(retained));
          return Ok(None);
        case Ok(Some(request)) =>
          assert LaunchRequest(Model(), retained, request) == LaunchRequest(old(Model()), retained, request);
          result := Launch(retained, request);
      }
    }

    /** One pass over the participants; the first lease that has run out ends the whole round. */
    method CollectTargets(ps: seq<ParticipantCoordinator>, clocks: seq<LeaseClock>, nowUi: u64, targetUi: u64)
      returns (targets: Result<Option<LeaseTargets>, TimingError>)
      requires |ps| == |clocks|
      ensures targets == TargetsFrom(ps, clocks, nowUi, targetUi, 0)
    {
      hide AttendedLeaseTarget, ReportedLease;
      var renewals, due, n := [], false, 0;
      NothingExtended(TargetsFrom(ps, clocks, nowUi, targetUi, 0));
      while n < |ps|
        invariant n <= |ps|
        invariant TargetsFrom(ps, clocks, nowUi, targetUi, 0) == Extended(renewals, due, TargetsFrom(ps, clocks, nowUi, targetUi, n))
      {
        var reported := ReportedLease(ps[n]);
        var authorized := ps[n].control.authorizedLease;
        if !clocks[n].eligible {
          return Err(Ineligible);
        }
        if reported.None? || authorized.None? {
          return Err(NoLease);
        }
        match AttendedLeaseTarget(clocks[n], reported.value, authorized.value, nowUi, targetUi) {
          case Err(error) => return Err(error);
          case Ok(None) => return Ok(None);
          case Ok(Some(target)) =>
            var added := renewals + [LeaseRenewal(ps[n].deviceId, target.lease)];
            ExtendedOnce(renewals, due, LeaseRenewal(ps[n].deviceId, target.lease), target.due,
                         TargetsFrom(ps, clocks, nowUi, targetUi, n + 1));
            renewals, due, n := added, due || target.due, n + 1;
        }
      }
      assert renewals + [] == renewals;
      return Ok(Some(LeaseTargets(renewals, due)));
    }

    method BeginAttendedLeaseRenewalIfDue(j: Job, nowUi: u64, clocks: seq<LeaseClock>)
      returns (renewals: Result<Option<seq<LeaseRenewal>>, TimingError>)
      requires |clocks| == |j.c.participants|
      ensures renewals == RenewalIfDue(j, nowUi, clocks)
    {
      if j.c.policy != NetworkAttended {
        return Ok(None);
      }
      if nowUi + ATTENDED_RENEWAL_HORIZON_NS > U64_MAXIMUM {
        return Err(CycleOverflow);
      }
      var targets := CollectTargets(j.c.participants, clocks, nowUi, nowUi + ATTENDED_RENEWAL_HORIZON_NS);
      match targets {
        case Err(error) => return Err(error);
        case Ok(None) => return Ok(None);
        case Ok(Some(pair)) =>
          return if j.renewalRounds == 0 || pair.due then Ok(Some(pair.renewals)) else Ok(None);
      }
    }

    /** Moves the prepared operation's device out together with the job, or gives the request back. */
    method Launch(retained: RetainedJob, request: Request) returns (result: Result<Option<JobTask>, WorkerError>)
      modifies this
      ensures (Model(), result) == LaunchRequest(old(Model()), retained, request)
    {
      var binding := BindingFor(retained.bindings, request.deviceId);
      if binding.None? {
        job := Some(IdleJob(FaultJob(retained)));
        return Err(UnknownParticipant);
      }
      var b := binding.value;
      var lost := retained.(job := JobAbandon(retained.job, request.deviceId).0);
      if b.connectionId !in devices {
        job := Some(IdleJob(FaultJob(lost)));
        return Err(ConnectionGone);
      }
      var entry := devices[b.connectionId];
      if entry.BusyDevice? {
        job := Some(IdleJob(lost));
        return Ok(None);
      }
      if !Matches(entry.state, b) {
        job := Some(IdleJob(FaultJob(lost)));
        return Err(IdentityChanged);
      }
      job := Some(BusyJob(retained.jobId, retained.bindings));
      devices := devices[b.connectionId := BusyDevice(entry.state.generation, entry.state)];
      return Ok(Some(JobTask(b, retained, entry.state, request)));
    }

    method FinishLiveJobStep(jobId: nat, connectionId: nat, generation: nat, retained: RetainedJob, state: DeviceState)
      returns (restored: bool)
      modifies this
      ensures (Model(), restored)
           == WorkerModel.FinishLiveJobStep(old(Model()), jobId, connectionId, generation, retained, state)
    {
      restored := job.Some? && job.value.BusyJob? && job.value.jobId == jobId && BusyWith(Model(), connectionId, generation);
      if restored {
        job := Some(IdleJob(retained));
        devices := devices[connectionId := IdleDevice(state)];
      }
    }
  }

  type Targets = Result<Option<LeaseTargets>, TimingError>

  /** What has been collected, followed by what the remaining participants yield. */
  ghost function Extended(renewals: seq<LeaseRenewal>, due: bool, rest: Targets): Targets {
    if rest.Ok? && rest.value.Some? then Ok(Some(LeaseTargets(renewals + rest.value.value.renewals, due || rest.value.value.due))) else rest
  }

  lemma NothingExtended(rest: Targets)
    ensures Extended([], false, rest) == rest
  {
    if rest.Ok? && rest.value.Some? {
      assert [] + rest.value.value.renewals == rest.value.value.renewals;
    }
  }

  lemma ExtendedOnce(renewals: seq<LeaseRenewal>, due: bool, next: LeaseRenewal, nextDue: bool, rest: Targets)
    ensures Extended(renewals, due, Extended([next], nextDue, rest)) == Extended(renewals + [next], due || nextDue, rest)
  {
    if rest.Ok? && rest.value.Some? {
      assert renewals + ([next] + rest.value.value.renewals) == renewals + [next] + rest.value.value.renewals;
    }
  }

  lemma {:induction false} ReadinessIgnoresJob(a: Runtime, b: Runtime, bindings: seq<Binding>)
    requires a.devices == b.devices
    ensures ReadinessOf(a, bindings) == ReadinessOf(b, bindings)
  {
    if bindings != [] {
      ReadinessIgnoresJob(a, b, bindings[1..]);
    }
  }
}
