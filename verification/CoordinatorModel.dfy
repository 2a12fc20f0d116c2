/** What one step of the multi-device start coordinator computes, as functions on its state. */
module CoordinatorModel {
  import opened Wrappers
  import opened ParticipantSchedule
  import Ordering

  datatype Intent = PrepareIntent | InstallIntent | ConfirmIntent | AbortIntent | CancelIntent

  datatype ParticipantCoordinator = ParticipantCoordinator(
    deviceId: nat, control: Participant, planned: Option<Commit>)

  datatype Coordinator = Coordinator(
    participants: seq<ParticipantCoordinator>,
    globalJob: nat,
    participantSet: nat,
    timebaseHz: u64,
    durationTicks: u64,
    policy: NetworkPolicy,
    target: Option<u64>,
    intent: Intent,
    faultCleanup: bool)

  datatype GlobalPhase =
    | GPreparing | GReady | GInstalling | GInstalled | GConfirming | GConfirmed | GIrrevocable
    | GAborting | GAborted | GSplitAfterAbort | GCancelling | GCancelled | GComplete | GFaulted

  datatype DistributedError =
    | ParticipantSet | BadState | ParticipantState | PointOfNoReturn | ConfirmationClosed
    | ClockUnavailable | ClockIdentity | ClockModel
    | StartObservationUnavailable | StartObservationIdentity
    | Timing | LeaseTooShort(supplied: nat, required: nat) | CommitEncoding
    | Schedule(error: ControlError)

  datatype Request = Request(deviceId: nat, operation: ScheduleOperation)

  // ---- Phases -----------------------------------------------------------------------------

  predicate TerminalFailure(phase: ParticipantPhase) {
    phase in {ParticipantPhase.Aborted, Cancelled, ParticipantPhase.Expired, ParticipantPhase.Faulted}
  }

  predicate PostGuard(phase: ParticipantPhase) {
    phase in {ParticipantPhase.Priming, ParticipantPhase.Primed, ParticipantPhase.Running, ParticipantPhase.Complete}
  }

  predicate All(ps: seq<ParticipantCoordinator>, phase: ParticipantPhase) {
    forall i | 0 <= i < |ps| :: Phase(ps[i].control) == phase
  }

  predicate AnyTerminalFailure(ps: seq<ParticipantCoordinator>) {
    exists i | 0 <= i < |ps| :: TerminalFailure(Phase(ps[i].control))
  }

  predicate AnyPostGuard(ps: seq<ParticipantCoordinator>) {
    exists i | 0 <= i < |ps| :: PostGuard(Phase(ps[i].control))
  }

  predicate AnyUnreported(ps: seq<ParticipantCoordinator>) {
    exists i | 0 <= i < |ps| :: ps[i].control.report.None?
  }

  predicate AnyPending(ps: seq<ParticipantCoordinator>) {
    exists i | 0 <= i < |ps| :: ps[i].control.pending.Some?
  }

  predicate AnyFaulted(ps: seq<ParticipantCoordinator>) {
    exists i | 0 <= i < |ps| :: Phase(ps[i].control) == ParticipantPhase.Faulted
  }

  predicate SafeAfterAbort(pc: ParticipantCoordinator) {
    if pc.control.commit.None? then Phase(pc.control) in {Empty, Cancelled}
    else Phase(pc.control) in {ParticipantPhase.Aborted, ParticipantPhase.Expired, ParticipantPhase.Faulted}
  }

  predicate TerminalAfterFaultCleanup(pc: ParticipantCoordinator) {
    if pc.control.commit.None? then Phase(pc.control) in {Empty, Cancelled, ParticipantPhase.Faulted}
    else Phase(pc.control) in
           {ParticipantPhase.Aborted, ParticipantPhase.Expired, ParticipantPhase.Complete, ParticipantPhase.Faulted}
  }

  predicate Stopped(pc: ParticipantCoordinator) {
    Phase(pc.control) in {ParticipantPhase.Aborted, ParticipantPhase.Expired}
  }

  predicate Completed(pc: ParticipantCoordinator) {
    Phase(pc.control) == ParticipantPhase.Complete
  }

  predicate AllCleaned(ps: seq<ParticipantCoordinator>) {
    forall i | 0 <= i < |ps| :: TerminalAfterFaultCleanup(ps[i])
  }

  predicate AllSafe(ps: seq<ParticipantCoordinator>) {
    forall i | 0 <= i < |ps| :: SafeAfterAbort(ps[i])
  }

  predicate SplitIsTerminal(ps: seq<ParticipantCoordinator>) {
    && (forall i | 0 <= i < |ps| :: Stopped(ps[i]) || Completed(ps[i]))
    && (exists i | 0 <= i < |ps| :: Stopped(ps[i]))
    && (exists i | 0 <= i < |ps| :: Completed(ps[i]))
  }

  predicate AllAbsentOrCancelled(ps: seq<ParticipantCoordinator>) {
    forall i | 0 <= i < |ps| :: Phase(ps[i].control) in {Empty, Cancelled}
  }

  function AbortPhase(ps: seq<ParticipantCoordinator>, faultCleanup: bool): GlobalPhase {
    if faultCleanup && AllCleaned(ps) then GFaulted
    else if AllSafe(ps) then GAborted
    else if SplitIsTerminal(ps) then GSplitAfterAbort
    else if AnyPostGuard(ps) then GIrrevocable
    else GAborting
  }

  /** The global phase is never stored: it is recomputed from every participant report. */
  function GlobalPhaseOf(c: Coordinator): GlobalPhase {
    var ps := c.participants;
    if All(ps, ParticipantPhase.Complete) then GComplete
    else
      match c.intent
      case PrepareIntent =>
        if AnyUnreported(ps) then GPreparing
        else if All(ps, ParticipantPhase.Ready) then GReady
        else if AnyTerminalFailure(ps) || AnyPostGuard(ps) then GFaulted
        else GPreparing
      case InstallIntent =>
        if All(ps, ParticipantPhase.Installed) then GInstalled
        else if AnyTerminalFailure(ps) then GFaulted
        else if AnyPostGuard(ps) then GIrrevocable
        else GInstalling
      case ConfirmIntent =>
        if All(ps, ParticipantPhase.Confirmed) then GConfirmed
        else if AnyPostGuard(ps) then GIrrevocable
        else if AnyTerminalFailure(ps) then GFaulted
        else GConfirming
      case AbortIntent => AbortPhase(ps, c.faultCleanup)
      case CancelIntent =>
        if c.faultCleanup && AllCleaned(ps) then GFaulted
        else if AllAbsentOrCancelled(ps) then GCancelled
        else GCancelling
  }

  predicate TerminalPhase(phase: GlobalPhase) {
    phase in {GAborted, GSplitAfterAbort, GCancelled, GComplete, GFaulted}
  }

  // ---- Construction -----------------------------------------------------------------------

  ghost predicate WellFormed(c: Coordinator) {
    && c.participants != []
    && forall i, j | 0 <= i < j < |c.participants| :: c.participants[i].deviceId < c.participants[j].deviceId
  }

  /** A coordinator as it leaves construction, before any request was emitted. */
  ghost predicate Fresh(c: Coordinator) {
    && WellFormed(c)
    && c.target == None
    && c.intent == PrepareIntent
    && !c.faultCleanup
    && (forall i | 0 <= i < |c.participants| ::
          c.participants[i].planned == None && c.participants[i].control.Fresh())
  }

  // ---- Requests ---------------------------------------------------------------------------

  type Decision = Result<Option<(Participant, ScheduleOperation)>, DistributedError>

  function Lift(begun: Begun): Decision {
    match begun
    case Ok(pair) => Ok(Some(pair))
    case Err(error) => Err(Schedule(error))
  }

  function NextAbortOperation(pc: ParticipantCoordinator): Decision {
    var phase := Phase(pc.control);
    if pc.control.commit.None? then
      if phase in {Empty, Cancelled} then Ok(None)
      else if phase in {Preparing, Ready, ParticipantPhase.Faulted} then Lift(BeginCancel(pc.control))
      else Err(ParticipantState)
    else if phase in {Installing, ParticipantPhase.Installed, ParticipantPhase.Confirmed} then
      Lift(BeginAbort(pc.control))
    else if phase in {ParticipantPhase.Aborted, ParticipantPhase.Expired, ParticipantPhase.Faulted} || PostGuard(phase) then
      Ok(None)
    else Err(ParticipantState)
  }

  /** What one idle participant must do under the global intent. */
  function Decide(pc: ParticipantCoordinator, intent: Intent, initialRound: bool): Decision {
    var phase := Phase(pc.control);
    if pc.control.reconciliationRequired then Lift(BeginStatus(pc.control))
    else if initialRound then
      if pc.control.report.None? then Lift(BeginStatus(pc.control)) else Ok(None)
    else
      match intent
      case PrepareIntent =>
        if phase == Empty then Lift(BeginPrepare(pc.control))
        else if phase == Preparing then Lift(BeginStatus(pc.control))
        else if phase == Ready then Ok(None)
        else Err(ParticipantState)
      case InstallIntent =>
        if phase in {Ready, Installing} then
          if pc.planned.None? then Err(BadState) else Lift(BeginInstall(pc.control, pc.planned.value))
        else if phase == ParticipantPhase.Installed then Ok(None)
        else Err(ParticipantState)
      case ConfirmIntent =>
        if phase == ParticipantPhase.Installed then Lift(BeginConfirm(pc.control))
        else if phase == ParticipantPhase.Confirmed || PostGuard(phase) then Ok(None)
        else Err(ParticipantState)
      case AbortIntent => NextAbortOperation(pc)
      case CancelIntent =>
        if phase in {Empty, Cancelled} then Ok(None)
        else if phase in {Preparing, Ready, ParticipantPhase.Faulted} && pc.control.commit.None? then
          Lift(BeginCancel(pc.control))
        else Err(ParticipantState)
  }

  predicate InitialRound(c: Coordinator) {
    c.intent == PrepareIntent && AnyUnreported(c.participants)
  }

  type Scanned = Result<Option<(nat, Participant, ScheduleOperation)>, DistributedError>

  /** The first participant at or after `from` that has something to send, or the first refusal. */
  function Scan(ps: seq<ParticipantCoordinator>, intent: Intent, initialRound: bool, from: nat): (r: Scanned)
    requires from <= |ps|
    ensures r.Ok? && r.value.Some? ==>
      var (k, q, operation) := r.value.value;
      && from <= k < |ps|
      && ps[k].control.pending.None?
      && Decide(ps[k], intent, initialRound) == Ok(Some((q, operation)))
      && forall j | from <= j < k ::
           ps[j].control.pending.Some? || Decide(ps[j], intent, initialRound) == Ok(None)
    ensures r.Ok? && r.value.None? ==>
      forall j | from <= j < |ps| ::
        ps[j].control.pending.Some? || Decide(ps[j], intent, initialRound) == Ok(None)
    ensures r.Err? ==>
      exists k | from <= k < |ps| ::
        ps[k].control.pending.None? && Decide(ps[k], intent, initialRound) == Err(r.error)
    decreases |ps| - from
  {
    if from == |ps| then Ok(None)
    else if ps[from].control.pending.Some? then Scan(ps, intent, initialRound, from + 1)
    else
      match Decide(ps[from], intent, initialRound)
      case Err(error) => Err(error)
      case Ok(None) => Scan(ps, intent, initialRound, from + 1)
      case Ok(Some(pair)) => Ok(Some((from, pair.0, pair.1)))
  }

  function SetControl(c: Coordinator, k: nat, q: Participant): Coordinator
    requires k < |c.participants|
  {
    c.(participants := c.participants[k := c.participants[k].(control := q)])
  }

  function NextRequest(c: Coordinator): (Coordinator, Result<Option<Request>, DistributedError>) {
    if TerminalPhase(GlobalPhaseOf(c)) then (c, Ok(None))
    else
      match Scan(c.participants, c.intent, InitialRound(c), 0)
      case Err(error) => (c, Err(error))
      case Ok(None) => (c, Ok(None))
      case Ok(Some(found)) =>
        (SetControl(c, found.0, found.1), Ok(Some(Request(c.participants[found.0].deviceId, found.2))))
  }

  function StatusBegun(pc: ParticipantCoordinator): ParticipantCoordinator {
    pc.(control := pc.control.(pending := Some(StatusAction)))
  }

  function StatusRequests(ps: seq<ParticipantCoordinator>): seq<Request> {
    seq(|ps|, i requires 0 <= i < |ps| => Request(ps[i].deviceId, JobStatus))
  }

  /** Either every participant begins a status request or nothing changes. */
  function BeginStatusRound(c: Coordinator): (Coordinator, Result<seq<Request>, DistributedError>) {
    var ps := c.participants;
    if AnyPending(ps) then (c, Err(ParticipantState))
    else
      (c.(participants := seq(|ps|, i requires 0 <= i < |ps| => StatusBegun(ps[i]))), Ok(StatusRequests(ps)))
  }

  /** The lease a participant's retained report shows. */
  function ReportedLease(pc: ParticipantCoordinator): Option<nat> {
    if pc.control.report.Some? && pc.control.report.value.schedule.Some?
       && pc.control.report.value.schedule.value.policy.Some?
    then Some(pc.control.report.value.schedule.value.leaseExpiry) else None
  }

  datatype LeaseRenewal = LeaseRenewal(deviceId: nat, leaseExpiry: nat)

  function RenewalKey(r: LeaseRenewal): nat { r.deviceId }

  /** Begins every renewal in device order on a copy; the first refusal discards the copy. */
  function StageRenewals(ps: seq<ParticipantCoordinator>, rs: seq<LeaseRenewal>)
    : (r: Result<(seq<ParticipantCoordinator>, seq<Request>), DistributedError>)
    requires |ps| == |rs|
    ensures r.Ok? ==> |r.value.0| == |ps| == |r.value.1|
    ensures r.Ok? ==> forall i | 0 <= i < |ps| ::
      var begun := BeginLeaseRenew(ps[i].control, rs[i].leaseExpiry);
      && begun.Ok?
      && r.value.0[i] == ps[i].(control := begun.value.0)
      && r.value.1[i] == Request(ps[i].deviceId, begun.value.1)
    ensures r.Err? ==> exists i | 0 <= i < |ps| :: BeginLeaseRenew(ps[i].control, rs[i].leaseExpiry).Err?
  {
    if ps == [] then Ok(([], []))
    else
      match BeginLeaseRenew(ps[0].control, rs[0].leaseExpiry)
      case Err(error) => Err(Schedule(error))
      case Ok(begun) =>
        match StageRenewals(ps[1..], rs[1..])
        case Err(error) =>
          assert forall i | 0 <= i < |ps| - 1 :: ps[1..][i] == ps[i+1] && rs[1..][i] == rs[i+1];
          Err(error)
        case Ok(rest) =>
          Ok(([ps[0].(control := begun.0)] + rest.0, [Request(ps[0].deviceId, begun.1)] + rest.1))
  }

  function BeginLeaseRenewal(c: Coordinator, renewals: seq<LeaseRenewal>)
    : (Coordinator, Result<seq<Request>, DistributedError>)
  {
    var ps := c.participants;
    var ordered := Ordering.Sort(RenewalKey, renewals);
    if c.policy != NetworkAttended || GlobalPhaseOf(c) !in {GConfirmed, GIrrevocable}
       || |renewals| != |ps| || AnyPending(ps) then (c, Err(BadState))
    else if |ordered| != |ps| || exists i | 0 <= i < |ps| :: ps[i].deviceId != ordered[i].deviceId then
      (c, Err(ParticipantSet))
    else
      match StageRenewals(ps, ordered)
      case Err(error) => (c, Err(error))
      case Ok(staged) => (c.(participants := staged.0), Ok(staged.1))
  }

  // ---- Responses and intents --------------------------------------------------------------

  function IndexOf(ps: seq<ParticipantCoordinator>, deviceId: nat): (r: Option<nat>)
    ensures r.Some? ==> r.value < |ps| && ps[r.value].deviceId == deviceId
    ensures r.None? ==> forall i | 0 <= i < |ps| :: ps[i].deviceId != deviceId
  {
    if ps == [] then None
    else if ps[0].deviceId == deviceId then Some(0)
    else
      match IndexOf(ps[1..], deviceId)
      case None =>
        assert forall i | 0 < i < |ps| :: ps[i] == ps[1..][i-1];
        None
      case Some(i) => Some(i + 1)
  }

  function ActivateFaultCleanup(c: Coordinator): Coordinator {
    if !AnyFaulted(c.participants) then c
    else c.(faultCleanup := true, intent := if c.target.Some? then AbortIntent else CancelIntent)
  }

  function AcceptAt(c: Coordinator, k: nat, response: Response): (Coordinator, Result<GlobalPhase, DistributedError>)
    requires k < |c.participants|
  {
    var (q, result) := AcceptResponse(c.participants[k].control, response);
    var after := SetControl(c, k, q);
    var settled :=
      if !InitialRound(c) || !AnyUnreported(after.participants) then ActivateFaultCleanup(after) else after;
    (settled, match result
              case Err(error) => Err(Schedule(error))
              case Ok(_) => Ok(GlobalPhaseOf(settled)))
  }

  function Accept(c: Coordinator, deviceId: nat, response: Response): (Coordinator, Result<GlobalPhase, DistributedError>) {
    match IndexOf(c.participants, deviceId)
    case None => (c, Err(ParticipantSet))
    case Some(k) => AcceptAt(c, k, response)
  }

  function Abandon(c: Coordinator, deviceId: nat): (Coordinator, Result<bool, DistributedError>) {
    match IndexOf(c.participants, deviceId)
    case None => (c, Err(ParticipantSet))
    case Some(k) =>
      var (q, abandoned) := AbandonPending(c.participants[k].control);
      (SetControl(c, k, q), Ok(abandoned))
  }

  function BeginAbortAll(c: Coordinator): (Coordinator, Result<(), DistributedError>) {
    if c.target.None? then (c, Err(BadState))
    else if GlobalPhaseOf(c) in {GIrrevocable, GComplete, GAborted, GSplitAfterAbort} then (c, Err(PointOfNoReturn))
    else (c.(intent := AbortIntent), Ok(()))
  }

  function BeginCancelAll(c: Coordinator): (Coordinator, Result<(), DistributedError>) {
    if c.target.Some? || GlobalPhaseOf(c) in {GCancelled, GComplete} then (c, Err(BadState))
    else (c.(intent := CancelIntent), Ok(()))
  }
}
