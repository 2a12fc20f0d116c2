/** The smallest device the coordinator's reports describe: one job actor pair and one schedule. */
module DeviceModel {
  import opened Wrappers
  import opened ParticipantSchedule

  datatype Stage =
    | AtBlank | AtStarting | AtStaged | AtPrepared | AtInstalled | AtConfirmed | AtPriming | AtPrimed | AtRunning
    | AtComplete | AtAborted | AtExpired | AtFaulted | AtCancelled

  /**
   * `stage` is how far the schedule has come. `installed` is history: once a commit was installed it is never
   * forgotten. `actorFault` says that an actor of the job has faulted, whatever the schedule does.
   */
  datatype Device = Device(
    stage: Stage, installed: Option<Commit>, lease: nat, observation: Option<StartObservation>, actorFault: bool)

  const BLANK_DEVICE := Device(AtBlank, None, 0, None, false)

  const NEEDS_COMMIT: set<Stage> :=
    {AtInstalled, AtConfirmed, AtPriming, AtPrimed, AtRunning, AtComplete, AtExpired}

  const BEFORE_COMMIT: set<Stage> := {AtBlank, AtStarting, AtStaged, AtPrepared, AtCancelled}

  const STARTED: set<Stage> := {AtConfirmed, AtPriming, AtPrimed, AtRunning, AtComplete}

  const RENEWABLE: set<Stage> := {AtConfirmed, AtPriming, AtPrimed, AtRunning}

  ghost predicate ValidDevice(d: Device) {
    && (d.stage in NEEDS_COMMIT ==> d.installed.Some?)
    && (d.stage in BEFORE_COMMIT ==> d.installed.None?)
    && (d.stage == AtBlank ==> !d.actorFault)
    && (d.observation.Some? ==> d.installed.Some? && d.stage in {AtRunning, AtComplete, AtFaulted})
    && (d.installed.Some? ==> d.installed.value.leaseExpiry <= d.lease)
    && (d.installed.Some? && d.installed.value.policy == CachedAutonomous ==> d.lease == d.installed.value.leaseExpiry)
  }

  /** A fault of either kind is what the device reports, until its actors are cancelled. */
  predicate ShowsFault(d: Device) {
    d.stage == AtFaulted || (d.actorFault && d.stage != AtCancelled)
  }

  // ---- Moves ------------------------------------------------------------------------------

  /** Steps a device takes on its own. */
  ghost predicate Ticks(d: Device, e: Device) {
    || e == d
    || (d.stage !in {AtBlank, AtCancelled} && e == d.(actorFault := true))
    || (d.stage == AtStarting && e == d.(stage := e.stage) && e.stage in {AtStaged, AtPrepared})
    || (d.stage == AtStaged && e == d.(stage := e.stage) && e.stage in {AtPrepared, AtFaulted})
    || (d.stage == AtPrepared && e == d.(stage := AtFaulted))
    || (d.stage == AtInstalled && e == d.(stage := e.stage) && e.stage in {AtExpired, AtFaulted})
    || (d.stage == AtConfirmed && e == d.(stage := e.stage) && e.stage in {AtPriming, AtFaulted})
    || (d.stage == AtPriming && e == d.(stage := e.stage) && e.stage in {AtPrimed, AtFaulted})
    || (d.stage == AtPrimed && e == d.(stage := e.stage) && e.stage in {AtRunning, AtFaulted})
    || (d.stage == AtRunning && e == d.(stage := e.stage) && e.stage in {AtComplete, AtFaulted})
    || (d.stage == AtRunning && d.observation.None? && e == d.(observation := e.observation))
  }

  /** Possible outcomes of one request; a device may always refuse and stay as it is. */
  ghost predicate Handles(d: Device, operation: ScheduleOperation, e: Device) {
    || e == d
    || match operation
       case JobStatus => false
       case JobPrepare(_) => d.stage == AtBlank && e == d.(stage := AtStarting)
       case JobCommit(commit) =>
         d.stage == AtPrepared && e == Device(AtInstalled, Some(commit), commit.leaseExpiry, None, d.actorFault)
       case JobConfirm(commit) =>
         d.stage == AtInstalled && d.installed == Some(commit) && e == d.(stage := AtConfirmed)
       case JobLeaseRenew(commit, lease) =>
         && d.stage in RENEWABLE && d.installed == Some(commit) && commit.policy == NetworkAttended
         && d.lease < lease && e == d.(lease := lease)
       case JobAbort(commit) =>
         || (d.stage in {AtInstalled, AtConfirmed} && d.installed == Some(commit) && e == d.(stage := AtAborted))
         // Nothing is installed: the reference names a commit this device never held.
         || (d.stage == AtPrepared && e == d.(stage := e.stage) && e.stage in {AtAborted, AtCancelled})
       case JobCancel(_) =>
         && (d.stage in {AtStarting, AtStaged, AtPrepared} || (d.stage == AtFaulted && d.installed.None?))
         && e == d.(stage := AtCancelled)
  }

  // ---- What a later device state may be ---------------------------------------------------

  ghost predicate Reach(a: Stage, b: Stage) {
    match a
    case AtBlank => true
    case AtStarting => b != AtBlank
    case AtStaged => b !in {AtBlank, AtStarting}
    case AtPrepared => b !in {AtBlank, AtStarting, AtStaged}
    case AtInstalled => b in {AtInstalled, AtConfirmed, AtPriming, AtPrimed, AtRunning, AtComplete, AtAborted, AtExpired, AtFaulted}
    case AtConfirmed => b in {AtConfirmed, AtPriming, AtPrimed, AtRunning, AtComplete, AtAborted, AtFaulted}
    case AtPriming => b in {AtPriming, AtPrimed, AtRunning, AtComplete, AtFaulted}
    case AtPrimed => b in {AtPrimed, AtRunning, AtComplete, AtFaulted}
    case AtRunning => b in {AtRunning, AtComplete, AtFaulted}
    case AtComplete => b == AtComplete
    case AtAborted => b == AtAborted
    case AtExpired => b == AtExpired
    case AtFaulted => b in {AtFaulted, AtCancelled}
    case AtCancelled => b == AtCancelled
  }

  ghost predicate Leads(a: Device, b: Device) {
    && Reach(a.stage, b.stage)
    && (a.actorFault ==> b.actorFault)
    && (a.installed.Some? ==> b.installed == a.installed && a.lease <= b.lease)
    && (a.installed.None? && b.installed.Some? ==> a.stage in {AtBlank, AtStarting, AtStaged, AtPrepared})
    && (a.observation.Some? ==> b.observation == a.observation)
    && (a.stage == b.stage && a.stage != AtRunning ==> b.observation == a.observation)
    && (a.stage == b.stage && a.stage !in RENEWABLE ==> b.installed == a.installed && b.lease == a.lease)
  }

  lemma LeadsIsTransitive(a: Device, b: Device, c: Device)
    requires ValidDevice(a) && ValidDevice(b) && ValidDevice(c)
    requires Leads(a, b) && Leads(b, c)
    ensures Leads(a, c)
  {
  }

  lemma LeadsItself(d: Device)
    ensures Leads(d, d)
  {
  }

  lemma TickLeads(d: Device, e: Device)
    requires ValidDevice(d) && Ticks(d, e)
    ensures ValidDevice(e) && Leads(d, e) && e.installed == d.installed && e.lease == d.lease
  {
  }

  lemma HandleLeads(d: Device, operation: ScheduleOperation, e: Device)
    requires ValidDevice(d) && Handles(d, operation, e)
    ensures ValidDevice(e) && Leads(d, e)
  {
  }

  // ---- Reports ----------------------------------------------------------------------------

  function ScheduleStateOf(stage: Stage): ScheduleState {
    match stage
    case AtInstalled => ScheduleState.Installed
    case AtConfirmed => ScheduleState.Confirmed
    case AtPriming => ScheduleState.Priming
    case AtPrimed => ScheduleState.Primed
    case AtRunning => ScheduleState.Running
    case AtComplete => ScheduleState.Complete
    case AtAborted => ScheduleState.Aborted
    case AtExpired => ScheduleState.Expired
    case AtFaulted => ScheduleState.Faulted
    case _ => ScheduleState.Prepared
  }

  function ScheduleOf(d: Device, token: nat): ScheduleReport {
    if d.installed.Some? then
      var c := d.installed.value;
      ScheduleReport(ScheduleStateOf(d.stage), Some(c.policy), token, None, c.localStart, c.confirmDeadline,
                     c.abortGuard, d.lease, c.commitId, d.observation)
    else
      ScheduleReport(ScheduleStateOf(d.stage), None, token,
                     if d.stage in {AtStaged, AtPrepared} then Some(token) else None, 0, 0, 0, 0, 0, None)
  }

  function ServiceOf(d: Device, id: nat, healthy: ServiceState, blocks: nat): Option<ServiceReport> {
    Some(ServiceReport(id, if d.actorFault then ServiceFaulted else healthy, JOB_AXES, blocks))
  }

  /** The truthful report of one device state; a faulted actor is reported beside the unchanged schedule. */
  function ReportOf(d: Device, descriptor: Descriptor, token: nat): StatusReport {
    var id := descriptor.prepareId;
    var blocks := descriptor.blockCount;
    match d.stage
    case AtBlank => DEFAULT_REPORT
    case AtStarting =>
      StatusReport(ServiceOf(d, id, Starting, blocks), Some(RealtimeReport(id, Waiting, blocks, false)), None)
    case AtStaged =>
      StatusReport(ServiceOf(d, id, Starting, blocks), Some(RealtimeReport(id, Waiting, blocks, false)), Some(ScheduleOf(d, token)))
    case AtCancelled =>
      StatusReport(Some(ServiceReport(id, ServiceCancelled, JOB_AXES, blocks)),
                   Some(RealtimeReport(id, RealtimeCancelled, blocks, false)), None)
    case _ =>
      StatusReport(ServiceOf(d, id, Prefetching, blocks), Some(RealtimeReport(id, Admitted, blocks, true)),
                   Some(ScheduleOf(d, token)))
  }

  function PhaseAtStage(stage: Stage, committed: bool): ParticipantPhase {
    match stage
    case AtBlank => Empty
    case AtStarting => Preparing
    case AtStaged => Preparing
    case AtPrepared => if committed then Installing else Ready
    case AtInstalled => ParticipantPhase.Installed
    case AtConfirmed => ParticipantPhase.Confirmed
    case AtPriming => ParticipantPhase.Priming
    case AtPrimed => ParticipantPhase.Primed
    case AtRunning => ParticipantPhase.Running
    case AtComplete => ParticipantPhase.Complete
    case AtAborted => ParticipantPhase.Aborted
    case AtExpired => ParticipantPhase.Expired
    case AtFaulted => ParticipantPhase.Faulted
    case AtCancelled => Cancelled
  }

  /** A shown fault takes precedence over the schedule. */
  function PhaseAt(d: Device, committed: bool): ParticipantPhase {
    if ShowsFault(d) then ParticipantPhase.Faulted else PhaseAtStage(d.stage, committed)
  }

  lemma PhaseOfTruthfulReport(d: Device, descriptor: Descriptor, token: nat, committed: bool)
    requires ValidDevice(d)
    ensures PhaseOfReport(Some(ReportOf(d, descriptor, token)), committed) == PhaseAt(d, committed)
  {
    hide ScheduleOf;
    ScheduleShowsStage(d, token);
  }

  lemma ScheduleShowsStage(d: Device, token: nat)
    ensures ScheduleOf(d, token).state == ScheduleStateOf(d.stage)
  {
  }

  /** Truthful reports of an ageing device always count as progress. */
  lemma TruthfulReportsAdvance(a: Device, b: Device, descriptor: Descriptor, token: nat)
    requires ValidDevice(a) && ValidDevice(b) && Leads(a, b)
    ensures ReportAdvances(ReportOf(a, descriptor, token), ReportOf(b, descriptor, token))
  {
  }
}
