/** What one step of the worker's retained job computes once its schedule exists. */
module LiveJobModel {
  import opened Wrappers
  import opened ParticipantSchedule
  import opened CoordinatorModel
  import opened StartTiming

  datatype JobPhase =
    | JobPreparing | JobReady | JobInstalling | JobInstalled | JobConfirming | JobConfirmed | JobIrrevocable
    | JobAborting | JobAborted | JobSplitAfterStop | JobCancelling | JobCancelled
    | JobComplete | JobCompletedAfterStop | JobRetainedComplete | JobFaulted

  datatype JobError = NotLegal | Scheduling(error: DistributedError)

  datatype Job = Job(
    c: Coordinator,
    queue: seq<Request>,
    sweepRequired: bool,
    renewalRounds: u32,
    stopRequested: bool,
    terminalOverride: Option<JobPhase>)

  function Project(phase: GlobalPhase, bound: bool, stopRequested: bool): JobPhase {
    if phase == GComplete && !bound then JobRetainedComplete
    else if phase == GComplete && stopRequested then JobCompletedAfterStop
    else
      match phase
      case GPreparing => JobPreparing
      case GReady => JobReady
      case GInstalling => JobInstalling
      case GInstalled => JobInstalled
      case GConfirming => JobConfirming
      case GConfirmed => JobConfirmed
      case GIrrevocable => JobIrrevocable
      case GAborting => JobAborting
      case GAborted => JobAborted
      case GSplitAfterAbort => JobSplitAfterStop
      case GCancelling => JobCancelling
      case GCancelled => JobCancelled
      case GComplete => JobComplete
      case GFaulted => JobFaulted
  }

  function JobPhaseOf(j: Job): JobPhase {
    if j.terminalOverride.Some? then j.terminalOverride.value
    else Project(GlobalPhaseOf(j.c), j.c.target.Some?, j.stopRequested)
  }

  predicate JobTerminal(j: Job) {
    JobPhaseOf(j) in {JobAborted, JobCancelled, JobComplete, JobCompletedAfterStop, JobSplitAfterStop,
                      JobRetainedComplete, JobFaulted}
  }

  /** A required sweep is opened when the queue runs dry; an opening that is refused leaves everything as it was. */
  function OpenSweep(j: Job): (Job, Result<(), JobError>) {
    if j.queue == [] && j.sweepRequired then
      var (c, round) := CoordinatorModel.BeginStatusRound(j.c);
      match round
      case Err(error) => (j, Err(Scheduling(error)))
      case Ok(requests) => (j.(c := c, queue := requests, sweepRequired := false), Ok(()))
    else (j, Ok(()))
  }

  function NextOperation(j: Job): (Job, Result<Option<Request>, JobError>) {
    if j.terminalOverride.Some? then (j, Ok(None))
    else
      var (o, sweep) := OpenSweep(j);
      if sweep.Err? then (o, Err(sweep.error))
      else if o.queue != [] then (o.(queue := o.queue[1..]), Ok(Some(o.queue[0])))
      else
        var (c, next) := NextRequest(o.c);
        (o.(c := c), match next
                     case Err(error) => Err(Scheduling(error))
                     case Ok(request) => Ok(request))
  }

  function JobAccept(j: Job, deviceId: nat, response: Response): (Job, Result<(), JobError>) {
    var (c, accepted) := Accept(j.c, deviceId, response);
    (j.(c := c), match accepted
                 case Err(error) => Err(Scheduling(error))
                 case Ok(_) => Ok(()))
  }

  /** Gives up every queued request in order; what is left of the queue is what a refusal would leave. */
  function AbandonQueue(c: Coordinator, queue: seq<Request>): (Coordinator, seq<Request>, Result<(), DistributedError>)
    decreases |queue|
  {
    if queue == [] then (c, [], Ok(()))
    else
      var (d, abandoned) := Abandon(c, queue[0].deviceId);
      if abandoned.Err? then (d, queue[1..], Err(abandoned.error)) else AbandonQueue(d, queue[1..])
  }

  /** A lost request takes the whole unsent queue with it and asks for a sweep. */
  function JobAbandon(j: Job, deviceId: nat): (Job, Result<bool, JobError>) {
    var (c, abandoned) := Abandon(j.c, deviceId);
    match abandoned
    case Err(error) => (j, Err(Scheduling(error)))
    case Ok(false) => (j.(c := c), Ok(false))
    case Ok(true) =>
      var (d, rest, drained) := AbandonQueue(c, j.queue);
      match drained
      case Err(error) => (j.(c := d, queue := rest), Err(Scheduling(error)))
      case Ok(_) => (j.(c := d, queue := rest, sweepRequired := true), Ok(true))
  }

  function BeginStart(j: Job, nowUi: u64, targetUi: u64, inputs: seq<StartInput>, encodes: Commit -> bool)
    : (Job, Result<(), JobError>)
  {
    if j.terminalOverride.Some? || j.queue != [] then (j, Err(NotLegal))
    else
      var (c, bound) := BindStart(j.c, nowUi, targetUi, inputs, encodes);
      (j.(c := c), match bound case Err(error) => Err(Scheduling(error)) case Ok(_) => Ok(()))
  }

  function JobBeginConfirmation(j: Job, nowUi: u64, inputs: seq<StartInput>): (Job, Result<(), JobError>) {
    if j.terminalOverride.Some? || j.queue != [] then (j, Err(NotLegal))
    else
      var (c, confirming) := BeginConfirmation(j.c, nowUi, inputs);
      (j.(c := c), match confirming case Err(error) => Err(Scheduling(error)) case Ok(_) => Ok(()))
  }

  function JobBeginStatusRound(j: Job): (Job, Result<(), JobError>) {
    if j.terminalOverride.Some? || j.queue != [] then (j, Err(NotLegal))
    else
      var (c, round) := CoordinatorModel.BeginStatusRound(j.c);
      match round
      case Err(error) => (j, Err(Scheduling(error)))
      case Ok(requests) => (j.(c := c, queue := requests), Ok(()))
  }

  function JobBeginLeaseRenewal(j: Job, renewals: seq<LeaseRenewal>): (Job, Result<(), JobError>) {
    if j.terminalOverride.Some? || j.queue != [] || j.sweepRequired || j.stopRequested then (j, Err(NotLegal))
    else
      var (c, round) := BeginLeaseRenewal(j.c, renewals);
      match round
      case Err(error) => (j.(c := c), Err(Scheduling(error)))
      case Ok(requests) =>
        (j.(c := c, queue := requests,
            renewalRounds := if j.renewalRounds + 1 < U32_MODULUS then j.renewalRounds + 1 else j.renewalRounds),
         Ok(()))
  }

  /** The queue is dropped before the coordinator is asked, and its requests are not abandoned. */
  function RequestStop(j: Job): (Job, Result<(), JobError>) {
    if JobTerminal(j) then (j, Err(NotLegal))
    else
      var cleared := j.(queue := []);
      var (c, stopped) := if j.c.target.Some? then BeginAbortAll(j.c) else BeginCancelAll(j.c);
      match stopped
      case Err(error) => (cleared, Err(Scheduling(error)))
      case Ok(_) => (cleared.(c := c, stopRequested := j.stopRequested || j.c.target.Some?), Ok(()))
  }

  function MarkFault(j: Job): Job {
    j.(terminalOverride := Some(JobFaulted), queue := [])
  }
}
