/** One device's schedule controller: the retry-safe machine the coordinator keeps per participant. */
module ParticipantSchedule {
  import opened Wrappers

  // ---- Report shapes returned by a device -------------------------------------------------

  datatype NetworkPolicy = NetworkAttended | CachedAutonomous

  datatype ServiceState = Starting | Prefetching | Finished | ServiceCancelled | ServiceFaulted

  datatype RealtimeState = Waiting | Admitted | Drained | RealtimeCancelled | RealtimeFaulted

  datatype ScheduleState =
    | Prepared | Installed | Confirmed | Priming | Primed | Running
    | Aborted | Expired | Complete | Faulted

  datatype ServiceReport = ServiceReport(prepareId: nat, state: ServiceState, axisCount: nat, totalBlocks: nat)

  datatype RealtimeReport = RealtimeReport(prepareId: nat, state: RealtimeState, totalBlocks: nat, outstanding: bool)

  datatype StartObservation = StartObservation(
    source: nat, outputToken: nat, scheduledCycle: nat, earliestCycle: nat, latestCycle: nat)

  datatype ScheduleReport = ScheduleReport(
    state: ScheduleState,
    policy: Option<NetworkPolicy>,
    descriptorToken: nat,
    preparedToken: Option<nat>,
    localStart: nat,
    confirmDeadline: nat,
    abortGuard: nat,
    leaseExpiry: nat,
    commitId: nat,
    startObservation: Option<StartObservation>)

  datatype StatusReport = StatusReport(
    service: Option<ServiceReport>, realtime: Option<RealtimeReport>, schedule: Option<ScheduleReport>)

  const DEFAULT_REPORT := StatusReport(None, None, None)

  // ---- Requests ---------------------------------------------------------------------------

  const JOB_AXES: nat := 2

  datatype Descriptor = Descriptor(prepareId: nat, partition: nat, blockCount: nat)

  datatype Commit = Commit(
    policy: NetworkPolicy,
    prepareId: nat,
    bootId: nat,
    globalJob: nat,
    participantSet: nat,
    preparedToken: nat,
    partition: nat,
    localStart: u64,
    confirmDeadline: u64,
    abortGuard: u64,
    leaseExpiry: u64,
    clockProbe: nat,
    clockUncertainty: u64,
    requiredSync: u64,
    commitId: nat)

  datatype Action = PrepareAction | StatusAction | InstallAction | ConfirmAction | RenewAction | AbortAction | CancelAction

  predicate Mutates(action: Action) {
    action != StatusAction
  }

  datatype ScheduleOperation =
    | JobPrepare(descriptor: Descriptor)
    | JobStatus
    | JobCommit(commit: Commit)
    | JobConfirm(commit: Commit)
    | JobLeaseRenew(commit: Commit, leaseExpiry: nat)
    | JobAbort(commit: Commit)
    | JobCancel(prepareId: nat)

  function ActionOf(operation: ScheduleOperation): Action {
    match operation
    case JobPrepare(_) => PrepareAction
    case JobStatus => StatusAction
    case JobCommit(_) => InstallAction
    case JobConfirm(_) => ConfirmAction
    case JobLeaseRenew(_, _) => RenewAction
    case JobAbort(_) => AbortAction
    case JobCancel(_) => CancelAction
  }

  datatype ResponseBody = EmptyBody | UndecodableBody | ReportBody(report: StatusReport)

  /** An authenticated reply: its application status and its body. */
  datatype Response = Response(ok: bool, body: ResponseBody)

  datatype ControlError =
    | RequestPending | NoPendingRequest | ReconciliationRequired | State | Conflict | Identity
    | MissingBody | DeviceStatus | Regression | PolicyRejected | Status

  // ---- The machine ------------------------------------------------------------------------

  datatype ParticipantPhase =
    | Empty | Preparing | Ready | Installing | Installed | Confirmed | Priming | Primed | Running
    | Aborted | Cancelled | Expired | Complete | Faulted

  /** The coordinator stores these machines by value and clones them, so they are values here too. */
  datatype Participant = Participant(
    descriptor: Descriptor,
    bootId: nat,
    preparedToken: nat,
    commit: Option<Commit>,
    authorizedLease: Option<nat>,
    report: Option<StatusReport>,
    pending: Option<Action>,
    reconciliationRequired: bool)
  {
    predicate Fresh() {
      commit == None && authorizedLease == None && report == None && pending == None && !reconciliationRequired
    }
  }

  predicate ServiceIn(report: StatusReport, states: set<ServiceState>) {
    report.service.Some? && report.service.value.state in states
  }

  predicate RealtimeIn(report: StatusReport, state: RealtimeState) {
    report.realtime.Some? && report.realtime.value.state == state
  }

  predicate BothCancelled(report: StatusReport) {
    ServiceIn(report, {ServiceCancelled}) && RealtimeIn(report, RealtimeCancelled)
  }

  predicate ReadyReport(report: StatusReport) {
    && ServiceIn(report, {Prefetching, Finished})
    && RealtimeIn(report, Admitted)
    && report.realtime.value.outstanding
  }

  function PhaseOfState(state: ScheduleState): ParticipantPhase
    requires state != ScheduleState.Prepared
  {
    match state
    case Installed => ParticipantPhase.Installed
    case Confirmed => ParticipantPhase.Confirmed
    case Priming => ParticipantPhase.Priming
    case Primed => ParticipantPhase.Primed
    case Running => ParticipantPhase.Running
    case Aborted => ParticipantPhase.Aborted
    case Expired => ParticipantPhase.Expired
    case Complete => ParticipantPhase.Complete
    case Faulted => ParticipantPhase.Faulted
  }

  /** Device-observed phase, with the locally bound install intent retained. */
  function PhaseOfReport(report: Option<StatusReport>, committed: bool): ParticipantPhase {
    if report.None? || report.value == DEFAULT_REPORT then
      Empty
    else if ServiceIn(report.value, {ServiceFaulted}) || RealtimeIn(report.value, RealtimeFaulted) then
      ParticipantPhase.Faulted
    else if BothCancelled(report.value) then
      Cancelled
    else if report.value.schedule.None? then
      Preparing
    else if report.value.schedule.value.state != ScheduleState.Prepared then
      PhaseOfState(report.value.schedule.value.state)
    else if !ReadyReport(report.value) then
      Preparing
    else if committed then
      Installing
    else
      Ready
  }

  function Phase(p: Participant): ParticipantPhase {
    PhaseOfReport(p.report, p.commit.Some?)
  }

  type Begun = Result<(Participant, ScheduleOperation), ControlError>

  function BeginPrepare(p: Participant): Begun {
    if p.pending.Some? then Err(RequestPending)
    else if p.reconciliationRequired then Err(ReconciliationRequired)
    else if Phase(p) !in {Empty, Preparing} || p.commit.Some? then Err(State)
    else Ok((p.(pending := Some(PrepareAction)), JobPrepare(p.descriptor)))
  }

  function BeginStatus(p: Participant): Begun {
    if p.pending.Some? then Err(RequestPending)
    else Ok((p.(pending := Some(StatusAction)), JobStatus))
  }

  predicate CommitNames(p: Participant, commit: Commit) {
    && commit.prepareId == p.descriptor.prepareId
    && commit.bootId == p.bootId
    && commit.preparedToken == p.preparedToken
    && commit.partition == p.descriptor.partition
  }

  function BeginInstall(p: Participant, commit: Commit): Begun {
    if p.pending.Some? then Err(RequestPending)
    else if p.reconciliationRequired then Err(ReconciliationRequired)
    else if !CommitNames(p, commit) then Err(Identity)
    else if p.commit.Some? && p.commit.value != commit then Err(Conflict)
    else if Phase(p) !in {Ready, Installing} then Err(State)
    else
      Ok((p.(commit := Some(commit), authorizedLease := Some(commit.leaseExpiry), pending := Some(InstallAction)),
          JobCommit(commit)))
  }

  function BeginConfirm(p: Participant): Begun {
    if p.pending.Some? then Err(RequestPending)
    else if p.reconciliationRequired then Err(ReconciliationRequired)
    else if Phase(p) != ParticipantPhase.Installed || p.commit.None? then Err(State)
    else Ok((p.(pending := Some(ConfirmAction)), JobConfirm(p.commit.value)))
  }

  function BeginLeaseRenew(p: Participant, lease: nat): Begun {
    if p.pending.Some? then Err(RequestPending)
    else if p.reconciliationRequired then Err(ReconciliationRequired)
    else if Phase(p) !in {ParticipantPhase.Confirmed, ParticipantPhase.Priming,
                          ParticipantPhase.Primed, ParticipantPhase.Running} then Err(State)
    else if p.commit.None? || p.report.None? || p.report.value.schedule.None? then Err(State)
    else if lease <= p.report.value.schedule.value.leaseExpiry then Err(State)
    else if p.authorizedLease.Some? && lease < p.authorizedLease.value then Err(Conflict)
    else if p.commit.value.policy != NetworkAttended then Err(PolicyRejected)
    else
      Ok((p.(authorizedLease := Some(lease), pending := Some(RenewAction)),
          JobLeaseRenew(p.commit.value, lease)))
  }

  function BeginAbort(p: Participant): Begun {
    if p.pending.Some? then Err(RequestPending)
    else if p.reconciliationRequired then Err(ReconciliationRequired)
    else if Phase(p) !in {Installing, ParticipantPhase.Installed, ParticipantPhase.Confirmed}
         || p.commit.None? then Err(State)
    else Ok((p.(pending := Some(AbortAction)), JobAbort(p.commit.value)))
  }

  function BeginCancel(p: Participant): Begun {
    if p.pending.Some? then Err(RequestPending)
    else if p.reconciliationRequired then Err(ReconciliationRequired)
    else if p.commit.Some? || Phase(p) !in {Preparing, Ready, ParticipantPhase.Faulted} then Err(State)
    else Ok((p.(pending := Some(CancelAction)), JobCancel(p.descriptor.prepareId)))
  }

  // ---- Response validation ----------------------------------------------------------------

  predicate LeaseMatches(lease: nat, commit: Commit, authorized: Option<nat>) {
    match commit.policy
    case NetworkAttended => authorized.Some? && commit.leaseExpiry <= lease <= authorized.value
    case CachedAutonomous => lease == commit.leaseExpiry && authorized == Some(commit.leaseExpiry)
  }

  predicate ScheduleMatchesCommit(s: ScheduleReport, commit: Commit, authorized: Option<nat>) {
    && s.policy == Some(commit.policy)
    && s.preparedToken == None
    && s.localStart == commit.localStart
    && s.confirmDeadline == commit.confirmDeadline
    && s.abortGuard == commit.abortGuard
    && LeaseMatches(s.leaseExpiry, commit, authorized)
    && s.commitId == commit.commitId
  }

  predicate ValidReport(p: Participant, report: StatusReport) {
    && (report.service.Some? ==>
          && report.service.value.prepareId == p.descriptor.prepareId
          && report.service.value.axisCount == JOB_AXES
          && report.service.value.totalBlocks == p.descriptor.blockCount)
    && (report.realtime.Some? ==>
          && report.realtime.value.prepareId == p.descriptor.prepareId
          && report.realtime.value.totalBlocks == p.descriptor.blockCount)
    && (report.schedule.Some? ==>
          var s := report.schedule.value;
          && s.descriptorToken == p.preparedToken
          && (if s.state == ScheduleState.Prepared then s.preparedToken == Some(p.preparedToken)
              else p.commit.Some? ==> ScheduleMatchesCommit(s, p.commit.value, p.authorizedLease)))
  }

  predicate ReplaceableForeignTerminal(descriptor: Descriptor, report: StatusReport) {
    && report.service.Some?
    && report.realtime.Some?
    && report.service.value.prepareId != descriptor.prepareId
    && (if report.schedule.None? then BothCancelled(report)
        else report.schedule.value.state in
               {ScheduleState.Aborted, ScheduleState.Expired, ScheduleState.Complete, ScheduleState.Faulted})
  }

  predicate LaterState(previous: ScheduleState, next: ScheduleState) {
    match previous
    case Prepared => next != ScheduleState.Prepared
    case Installed => next !in {ScheduleState.Prepared, ScheduleState.Installed}
    case Confirmed => next !in {ScheduleState.Prepared, ScheduleState.Installed, ScheduleState.Confirmed, ScheduleState.Expired}
    case Priming => next in {ScheduleState.Primed, ScheduleState.Running, ScheduleState.Complete, ScheduleState.Faulted}
    case Primed => next in {ScheduleState.Running, ScheduleState.Complete, ScheduleState.Faulted}
    case Running => next in {ScheduleState.Complete, ScheduleState.Faulted}
    case Aborted => false
    case Expired => false
    case Complete => false
    case Faulted => false
  }

  function Normalized(previous: ScheduleReport, next: ScheduleReport): ScheduleReport {
    var leased :=
      if previous.policy == Some(NetworkAttended) && next.leaseExpiry > previous.leaseExpiry
      then next.(leaseExpiry := previous.leaseExpiry) else next;
    if previous.state == ScheduleState.Running && previous.startObservation.None? && next.startObservation.Some?
    then leased.(startObservation := None) else leased
  }

  predicate ScheduleAdvances(previous: ScheduleReport, next: ScheduleReport) {
    || previous == next
    || (&& (previous.policy == Some(NetworkAttended) ==> previous.leaseExpiry <= next.leaseExpiry)
        && (|| (previous.state == next.state && Normalized(previous, next) == previous)
            || LaterState(previous.state, next.state)))
  }

  predicate ReportAdvances(previous: StatusReport, next: StatusReport) {
    previous.schedule.Some? ==>
      if next.schedule.None? then BothCancelled(next)
      else ScheduleAdvances(previous.schedule.value, next.schedule.value)
  }

  type Accepted = (Participant, Result<ParticipantPhase, ControlError>)

  /** Consumes the pending request; a report is retained only after it is validated, even under a rejection status. */
  function AcceptResponse(p: Participant, response: Response): Accepted {
    if p.pending.None? then (p, Err(NoPendingRequest))
    else
      var action := p.pending.value;
      var q := p.(pending := None, reconciliationRequired := p.reconciliationRequired || Mutates(action));
      match response.body
      case EmptyBody => (q, Err(if response.ok || action == StatusAction then MissingBody else DeviceStatus))
      case UndecodableBody => (q, Err(Status))
      case ReportBody(report) =>
        if action == StatusAction && p.report.None? && p.commit.None?
           && ReplaceableForeignTerminal(p.descriptor, report) then
          var r := q.(report := Some(DEFAULT_REPORT), reconciliationRequired := false);
          (r, if response.ok then Ok(Empty) else Err(DeviceStatus))
        else if !ValidReport(p, report) then (q, Err(Identity))
        else if p.report.Some? && !ReportAdvances(p.report.value, report) then (q, Err(Regression))
        else
          var r := q.(report := Some(report), reconciliationRequired := false);
          (r, if response.ok then Ok(Phase(r)) else Err(DeviceStatus))
  }

  function AbandonPending(p: Participant): (Participant, bool) {
    if p.pending.None? then (p, false)
    else
      (p.(pending := None, reconciliationRequired := p.reconciliationRequired || Mutates(p.pending.value)), true)
  }
}
