/** What one handler of the browser worker does to its device and job entries. */
module WorkerModel {
  import opened Wrappers
  import opened ParticipantSchedule
  import opened CoordinatorModel
  import opened StartTiming
  import opened LiveJobModel
  import opened WorkerTiming

  /** Everything a device task may carry away and bring back; `evidence` stands for clock, session and download state. */
  datatype DeviceState = DeviceState(
    connectionId: nat, generation: nat, session: bool, clockQualified: bool, identity: Option<nat>, evidence: nat)

  datatype DeviceEntry = IdleDevice(state: DeviceState) | BusyDevice(generation: nat, snapshot: DeviceState)

  /** The connection a participant was compiled for; `identity` stands for device, boot, capability and configuration. */
  datatype Binding = Binding(connectionId: nat, generation: nat, deviceId: nat, identity: nat)

  datatype RetainedJob = RetainedJob(jobId: nat, bindings: seq<Binding>, job: Job)

  datatype JobEntry = IdleJob(retained: RetainedJob) | BusyJob(jobId: nat, bindings: seq<Binding>)

  datatype Runtime = Runtime(
    devices: map<nat, DeviceEntry>, nextGeneration: u64, job: Option<JobEntry>, pendingStart: Option<nat>)

  datatype WorkerError =
    | Rejected | GenerationsExhausted | IdentityChanged | ClockUnavailable | StartOverflow | InputsRefused
    | JobRefused(error: JobError) | RenewalRefused(timing: TimingError) | UnknownParticipant | ConnectionGone

  /** What the worker's clocks and the bound devices answer during one handler. */
  datatype Surroundings = Surroundings(
    nowUi: Option<u64>,
    startInputs: Option<seq<StartInput>>,
    encodes: Commit -> bool,
    leaseClock: nat -> LeaseClock)

  function NewRuntime(): Runtime {
    Runtime(map[], 1, None, None)
  }

  // ---- Entries ----------------------------------------------------------------------------

  function GenerationOf(e: DeviceEntry): nat {
    match e
    case IdleDevice(state) => state.generation
    case BusyDevice(generation, _) => generation
  }

  function SnapshotOf(e: DeviceEntry): DeviceState {
    match e
    case IdleDevice(state) => state
    case BusyDevice(_, snapshot) => snapshot
  }

  function BindingsOf(e: JobEntry): seq<Binding> {
    match e
    case IdleJob(retained) => retained.bindings
    case BusyJob(_, bindings) => bindings
  }

  predicate Binds(r: Runtime, connectionId: nat) {
    r.job.Some? && exists i | 0 <= i < |BindingsOf(r.job.value)| :: BindingsOf(r.job.value)[i].connectionId == connectionId
  }

  predicate Matches(snapshot: DeviceState, b: Binding) {
    snapshot.connectionId == b.connectionId && snapshot.generation == b.generation && snapshot.identity == Some(b.identity)
  }

  // ---- Device commands --------------------------------------------------------------------

  function AllocateGeneration(r: Runtime): (Runtime, Option<u64>) {
    if r.nextGeneration + 1 > U64_MAXIMUM then (r, None)
    else (r.(nextGeneration := r.nextGeneration + 1), Some(r.nextGeneration))
  }

  function NewDevice(connectionId: nat, generation: nat): DeviceState {
    DeviceState(connectionId, generation, false, false, None, 0)
  }

  /** `wellFormed` is the outcome of validating the request, `accepted` that of building the device state from it. */
  function Configure(r: Runtime, connectionId: nat, wellFormed: bool, accepted: bool): (Runtime, Result<(), WorkerError>) {
    if Binds(r, connectionId) || !wellFormed then (r, Err(Rejected))
    else
      var (numbered, generation) := AllocateGeneration(r);
      if generation.None? then (numbered, Err(GenerationsExhausted))
      else if !accepted then (numbered, Err(Rejected))
      else
        (numbered.(devices := r.devices[connectionId := IdleDevice(NewDevice(connectionId, generation.value))]), Ok(()))
  }

  function Disconnect(r: Runtime, connectionId: nat): (Runtime, bool) {
    if Binds(r, connectionId) || connectionId !in r.devices then (r, false)
    else (r.(devices := r.devices - {connectionId}), true)
  }

  function TakeIdleDevice(r: Runtime, connectionId: nat): (Runtime, Option<DeviceState>) {
    if connectionId in r.devices && r.devices[connectionId].IdleDevice? then
      var state := r.devices[connectionId].state;
      (r.(devices := r.devices[connectionId := BusyDevice(state.generation, state)]), Some(state))
    else (r, None)
  }

  predicate BusyWith(r: Runtime, connectionId: nat, generation: nat) {
    && connectionId in r.devices
    && r.devices[connectionId].BusyDevice?
    && r.devices[connectionId].generation == generation
  }

  function FinishDeviceStep(r: Runtime, connectionId: nat, generation: nat, state: DeviceState): (Runtime, bool) {
    if BusyWith(r, connectionId, generation) then (r.(devices := r.devices[connectionId := IdleDevice(state)]), true)
    else (r, false)
  }

  // ---- Job commands -----------------------------------------------------------------------

  predicate Staged(r: Runtime, b: Binding) {
    && b.connectionId in r.devices
    && Matches(SnapshotOf(r.devices[b.connectionId]), b)
    && SnapshotOf(r.devices[b.connectionId]).clockQualified
  }

  /** `authorized` is the outcome of the configuration-flag and board-kind checks. */
  function StageJob(r: Runtime, retained: RetainedJob, authorized: bool): (Runtime, Result<(), WorkerError>) {
    if r.job.Some? || !authorized || !(forall i | 0 <= i < |retained.bindings| :: Staged(r, retained.bindings[i])) then
      (r, Err(Rejected))
    else (r.(job := Some(IdleJob(retained))), Ok(()))
  }

  function StartJob(r: Runtime, jobId: nat): (Runtime, Result<(), WorkerError>) {
    if r.pendingStart.Some? || r.job.None? || r.job.value.BusyJob? || r.job.value.retained.jobId != jobId
       || JobPhaseOf(r.job.value.retained.job) != JobReady then (r, Err(Rejected))
    else (r.(pendingStart := Some(jobId)), Ok(()))
  }

  function StopJob(r: Runtime, jobId: nat): (Runtime, Result<(), WorkerError>) {
    var unpended := if r.pendingStart == Some(jobId) then r.(pendingStart := None) else r;
    if r.job.None? || r.job.value.BusyJob? || r.job.value.retained.jobId != jobId then (unpended, Err(Rejected))
    else
      var retained := r.job.value.retained;
      var (j, stopped) := RequestStop(retained.job);
      (unpended.(job := Some(IdleJob(retained.(job := j)))),
       match stopped case Err(error) => Err(JobRefused(error)) case Ok(_) => Ok(()))
  }

  function ClearJob(r: Runtime, jobId: nat): (Runtime, bool) {
    if r.job.Some? && r.job.value.IdleJob? && r.job.value.retained.jobId == jobId && JobTerminal(r.job.value.retained.job)
    then (r.(job := None, pendingStart := None), true)
    else (r, false)
  }

  function FaultJob(retained: RetainedJob): RetainedJob {
    retained.(job := LiveJobModel.MarkFault(retained.job))
  }

  predicate AllIdle(r: Runtime, bindings: seq<Binding>) {
    forall i | 0 <= i < |bindings| ::
      bindings[i].connectionId in r.devices && r.devices[bindings[i].connectionId].IdleDevice?
  }

  /** Binds the start epoch a fixed lead from now. */
  function BindFrom(j: Job, s: Surroundings): (Job, Result<(), WorkerError>) {
    if s.nowUi.None? then (j, Err(WorkerError.ClockUnavailable))
    else if s.nowUi.value + START_LEAD_NS > U64_MAXIMUM then (j, Err(StartOverflow))
    else if s.startInputs.None? then (j, Err(InputsRefused))
    else
      var (bound, result) :=
        LiveJobModel.BeginStart(j, s.nowUi.value, s.nowUi.value + START_LEAD_NS, s.startInputs.value, s.encodes);
      (bound, match result case Err(error) => Err(JobRefused(error)) case Ok(_) => Ok(()))
  }

  function BeginPendingJobStart(r: Runtime, s: Surroundings): (Runtime, Result<bool, WorkerError>) {
    if r.pendingStart.None? then (r, Ok(false))
    else if r.job.None? then (r.(pendingStart := None), Err(Rejected))
    else if r.job.value.BusyJob? then (r, Ok(false))
    else
      var retained := r.job.value.retained;
      if retained.jobId != r.pendingStart.value || JobPhaseOf(retained.job) != JobReady then
        (r.(pendingStart := None), Err(Rejected))
      else if !AllIdle(r, retained.bindings) then (r, Ok(false))
      else
        var (j, bound) := BindFrom(retained.job, s);
        var after := retained.(job := j);
        match bound
        case Err(error) => (r.(pendingStart := None, job := Some(IdleJob(FaultJob(after)))), Err(error))
        case Ok(_) => (r.(pendingStart := None, job := Some(IdleJob(after))), Ok(true))
  }

  // ---- One operation of the job -----------------------------------------------------------

  datatype Preparation = Preparation(job: Job, next: Result<Option<Request>, WorkerError>)

  function Emit(j: Job): Preparation {
    var (after, next) := NextOperation(j);
    Preparation(after, match next case Err(error) => Err(JobRefused(error)) case Ok(request) => Ok(request))
  }

  /** What the job begins when it has nothing to send: confirmation, a lease round, or a status round. */
  function BeginRound(j: Job, s: Surroundings): (Job, Result<bool, WorkerError>) {
    match JobPhaseOf(j)
    case JobInstalled =>
      if s.nowUi.None? then (j, Err(WorkerError.ClockUnavailable))
      else if s.startInputs.None? then (j, Err(InputsRefused))
      else
        var (after, result) := JobBeginConfirmation(j, s.nowUi.value, s.startInputs.value);
        (after, match result case Err(error) => Err(JobRefused(error)) case Ok(_) => Ok(true))
    case JobConfirmed => BeginCadence(j, s)
    case JobIrrevocable => BeginCadence(j, s)
    case _ => (j, Ok(false))
  }

  function ClocksOf(j: Job, s: Surroundings): seq<LeaseClock> {
    seq(|j.c.participants|, i requires 0 <= i < |j.c.participants| => s.leaseClock(i))
  }

  function BeginCadence(j: Job, s: Surroundings): (Job, Result<bool, WorkerError>) {
    if j.c.policy == NetworkAttended && s.nowUi.None? then (j, Err(WorkerError.ClockUnavailable))
    else
      var due :=
        if j.c.policy == NetworkAttended
        then RenewalIfDue(j, s.nowUi.value, ClocksOf(j, s))
        else Ok(None);
      match due
      case Err(error) => (j, Err(RenewalRefused(error)))
      case Ok(None) =>
        var (after, result) := JobBeginStatusRound(j);
        (after, match result case Err(error) => Err(JobRefused(error)) case Ok(_) => Ok(true))
      case Ok(Some(renewals)) =>
        var (after, result) := JobBeginLeaseRenewal(j, renewals);
        (after, match result case Err(error) => Err(JobRefused(error)) case Ok(_) => Ok(true))
  }

  function PrepareNext(j: Job, s: Surroundings): Preparation {
    var first := Emit(j);
    if first.next.Err? || first.next.value.Some? then first
    else
      var (begun, result) := BeginRound(first.job, s);
      match result
      case Err(error) => Preparation(begun, Err(error))
      case Ok(false) => Preparation(begun, Ok(None))
      case Ok(true) => Emit(begun)
  }

  function BindingFor(bindings: seq<Binding>, deviceId: nat): (r: Option<Binding>)
    ensures r.Some? ==> r.value in bindings && r.value.deviceId == deviceId
    ensures r.None? ==> forall b <- bindings :: b.deviceId != deviceId
  {
    if bindings == [] then None
    else if bindings[0].deviceId == deviceId then Some(bindings[0])
    else BindingFor(bindings[1..], deviceId)
  }

  datatype Readiness = NotReady | Mismatched | AllReady

  /** The bound devices are inspected in order, and the first that is busy, unqualified or changed decides. */
  function ReadinessOf(r: Runtime, bindings: seq<Binding>): Readiness {
    if bindings == [] then AllReady
    else
      var b := bindings[0];
      if b.connectionId !in r.devices || r.devices[b.connectionId].BusyDevice? then NotReady
      else
        var state := r.devices[b.connectionId].state;
        if !state.session || !state.clockQualified then NotReady
        else if !Matches(state, b) then Mismatched
        else ReadinessOf(r, bindings[1..])
  }

  datatype JobTask = JobTask(binding: Binding, retained: RetainedJob, state: DeviceState, request: Request)

  type Launch = (Runtime, Result<Option<JobTask>, WorkerError>)

  function Put(r: Runtime, retained: RetainedJob): Runtime {
    r.(job := Some(IdleJob(retained)))
  }

  /** Gives the prepared request back and, unless the device is merely busy, faults the job. */
  function GiveBack(r: Runtime, retained: RetainedJob, request: Request, error: Option<WorkerError>): Launch {
    var lost := retained.(job := JobAbandon(retained.job, request.deviceId).0);
    match error
    case None => (Put(r, lost), Ok(None))
    case Some(e) => (Put(r, FaultJob(lost)), Err(e))
  }

  function LaunchRequest(r: Runtime, retained: RetainedJob, request: Request): Launch {
    var binding := BindingFor(retained.bindings, request.deviceId);
    if binding.None? then (Put(r, FaultJob(retained)), Err(UnknownParticipant))
    else
      var b := binding.value;
      if b.connectionId !in r.devices then GiveBack(r, retained, request, Some(ConnectionGone))
      else if r.devices[b.connectionId].BusyDevice? then GiveBack(r, retained, request, None)
      else
        var state := r.devices[b.connectionId].state;
        if !Matches(state, b) then GiveBack(r, retained, request, Some(IdentityChanged))
        else
          (r.(job := Some(BusyJob(retained.jobId, retained.bindings)),
              devices := r.devices[b.connectionId := BusyDevice(state.generation, state)]),
           Ok(Some(JobTask(b, retained, state, request))))
  }

  function TakeLiveJobTask(r: Runtime, s: Surroundings): Launch {
    if r.job.None? || r.job.value.BusyJob? || JobTerminal(r.job.value.retained.job) then (r, Ok(None))
    else
      var retained := r.job.value.retained;
      match ReadinessOf(r, retained.bindings)
      case NotReady => (r, Ok(None))
      case Mismatched => (Put(r, FaultJob(retained)), Err(IdentityChanged))
      case AllReady =>
        var prepared := PrepareNext(retained.job, s);
        var after := retained.(job := prepared.job);
        match prepared.next
        case Err(error) => (Put(r, FaultJob(after)), Err(error))
        case Ok(None) => (Put(r, after), Ok(None))
        case Ok(Some(request)) => LaunchRequest(r, after, request)
  }

  /** The one operation is answered, or given up when no answer came. */
  function Performed(task: JobTask, answer: Option<Response>): RetainedJob {
    var j := task.retained.job;
    match answer
    case Some(response) => task.retained.(job := JobAccept(j, task.request.deviceId, response).0)
    case None => task.retained.(job := JobAbandon(j, task.request.deviceId).0)
  }

  /** Both entries are restored together or neither is touched. */
  function FinishLiveJobStep(
    r: Runtime, jobId: nat, connectionId: nat, generation: nat, retained: RetainedJob, state: DeviceState): (Runtime, bool)
  {
    if r.job.Some? && r.job.value.BusyJob? && r.job.value.jobId == jobId && BusyWith(r, connectionId, generation) then
      (r.(job := Some(IdleJob(retained)), devices := r.devices[connectionId := IdleDevice(state)]), true)
    else (r, false)
  }
}
