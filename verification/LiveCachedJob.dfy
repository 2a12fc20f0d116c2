/** The job object the worker retains: a coordinator, a queue of begun requests and a sweep flag. */
module LiveJob {
  import opened Wrappers
  import opened ParticipantSchedule
  import opened CoordinatorModel
  import opened StartTiming
  import opened DistributedCoordinator
  import opened LiveJobModel

  class LiveCachedJob {
    const coordinator: DistributedScheduleCoordinator
    var statusQueue: seq<Request>
    var sweepRequired: bool
    var renewalRounds: u32
    var stopRequested: bool
    var terminalOverride: Option<JobPhase>

    function Model(): Job
      reads this, coordinator
    {
      Job(coordinator.Model(), statusQueue, sweepRequired, renewalRounds, stopRequested, terminalOverride)
    }

    constructor (coordinator: DistributedScheduleCoordinator)
      ensures this.coordinator == coordinator
      ensures Model() == Job(coordinator.Model(), [], false, 0, false, None)
    {
      this.coordinator := coordinator;
      statusQueue, sweepRequired, renewalRounds := [], false, 0;
      stopRequested, terminalOverride := false, None;
    }

    method NextOperation() returns (result: Result<Option<Request>, JobError>)
      modifies this, coordinator
      ensures (Model(), result) == LiveJobModel.NextOperation(old(Model()))
    {
      if terminalOverride.Some? {
        return Ok(None);
      }
      if statusQueue == [] && sweepRequired {
        var round := coordinator.BeginStatusRound();
        if round.Err? {
          return Err(Scheduling(round.error));
        }
        statusQueue := round.value;
        sweepRequired := false;
      }
      if statusQueue != [] {
        var request := statusQueue[0];
        statusQueue := statusQueue[1..];
        return Ok(Some(request));
      }
      var next := coordinator.NextRequest();
      match next {
        case Err(error) => return Err(Scheduling(error));
        case Ok(request) => return Ok(request);
      }
    }

    method AcceptResponse(deviceId: nat, response: Response) returns (result: Result<(), JobError>)
      modifies this, coordinator
      ensures (Model(), result) == JobAccept(old(Model()), deviceId, response)
    {
      var accepted := coordinator.AcceptResponse(deviceId, response);
      match accepted {
        case Err(error) => return Err(Scheduling(error));
        case Ok(_) => return Ok(());
      }
    }

    method AbandonPending(deviceId: nat) returns (result: Result<bool, JobError>)
      modifies this, coordinator
      ensures (Model(), result) == JobAbandon(old(Model()), deviceId)
    {
      var abandoned := coordinator.AbandonPending(deviceId);
      match abandoned {
        case Err(error) => return Err(Scheduling(error));
        case Ok(false) => return Ok(false);
        case Ok(true) =>
          ghost var first := coordinator.Model();
          ghost var before := statusQueue;
          while statusQueue != []
            invariant AbandonQueue(first, before) == AbandonQueue(coordinator.Model(), statusQueue)
            invariant unchanged(`sweepRequired, `renewalRounds, `stopRequested, `terminalOverride)
            decreases |statusQueue|
          {
            var request := statusQueue[0];
            statusQueue := statusQueue[1..];
            var given := coordinator.AbandonPending(request.deviceId);
            if given.Err? {
              return Err(Scheduling(given.error));
            }
          }
          sweepRequired := true;
          return Ok(true);
      }
    }

    method BeginStart(nowUi: u64, targetUi: u64, inputs: seq<StartInput>, encodes: Commit -> bool)
      returns (result: Result<(), JobError>)
      modifies this, coordinator
      ensures (Model(), result) == LiveJobModel.BeginStart(old(Model()), nowUi, targetUi, inputs, encodes)
    {
      if terminalOverride.Some? || statusQueue != [] {
        return Err(NotLegal);
      }
      var bound := coordinator.BindStart(nowUi, targetUi, inputs, encodes);
      match bound {
        case Err(error) => return Err(Scheduling(error));
        case Ok(_) => return Ok(());
      }
    }

    method BeginConfirmation(nowUi: u64, inputs: seq<StartInput>) returns (result: Result<(), JobError>)
      modifies this, coordinator
      ensures (Model(), result) == JobBeginConfirmation(old(Model()), nowUi, inputs)
    {
      if terminalOverride.Some? || statusQueue != [] {
        return Err(NotLegal);
      }
      var confirming := coordinator.BeginConfirmation(nowUi, inputs);
      match confirming {
        case Err(error) => return Err(Scheduling(error));
        case Ok(_) => return Ok(());
      }
    }

    method BeginStatusRound() returns (result: Result<(), JobError>)
      modifies this, coordinator
      ensures (Model(), result) == JobBeginStatusRound(old(Model()))
    {
      if terminalOverride.Some? || statusQueue != [] {
        return Err(NotLegal);
      }
      var round := coordinator.BeginStatusRound();
      if round.Err? {
        return Err(Scheduling(round.error));
      }
      statusQueue := round.value;
      return Ok(());
    }

    method BeginLeaseRenewal(renewals: seq<LeaseRenewal>) returns (result: Result<(), JobError>)
      modifies this, coordinator
      ensures (Model(), result) == JobBeginLeaseRenewal(old(Model()), renewals)
    {
      hide CoordinatorModel.BeginLeaseRenewal;
      if terminalOverride.Some? || statusQueue != [] || sweepRequired || stopRequested {
        return Err(NotLegal);
      }
      var round := coordinator.BeginLeaseRenewal(renewals);
      if round.Err? {
        return Err(Scheduling(round.error));
      }
      statusQueue := round.value;
      renewalRounds := if renewalRounds + 1 < U32_MODULUS then renewalRounds + 1 else renewalRounds;
      return Ok(());
    }

    method RequestStop() returns (result: Result<(), JobError>)
      modifies this, coordinator
      ensures (Model(), result) == LiveJobModel.RequestStop(old(Model()))
    {
      if JobTerminal(Model()) {
        return Err(NotLegal);
      }
      statusQueue := [];
      var stopped: Result<(), DistributedError>;
      if coordinator.target.Some? {
        stopped := coordinator.BeginAbort();
        stopRequested := stopRequested || stopped.Ok?;
      } else {
        stopped := coordinator.BeginCancel();
      }
      match stopped {
        case Err(error) => return Err(Scheduling(error));
        case Ok(_) => return Ok(());
      }
    }

    method MarkFault()
      modifies this
      ensures Model() == LiveJobModel.MarkFault(old(Model()))
    {
      terminalOverride := Some(JobFaulted);
      statusQueue := [];
    }
  }
}
