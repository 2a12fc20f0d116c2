/** One coordinator, its devices, and a channel that may lose a request or its reply: every run of the three together. */
module JointSystem {
  import opened Wrappers
  import opened ParticipantSchedule
  import opened CoordinatorModel
  import opened CoordinatorRuns
  import opened StartTiming
  import opened DeviceModel

  datatype ReplyKind = WithReport | WithoutBody | Garbled

  /** One request in flight per device: on its way, or answered with the device state it saw. */
  datatype Slot = Free | Sent(operation: ScheduleOperation) | Answered(ok: bool, kind: ReplyKind, snapshot: Device)

  /** `seen[i]` is the device state behind the report the coordinator retains for participant `i`. */
  datatype System = System(
    c: Coordinator, devices: seq<Device>, slots: seq<Slot>, seen: seq<Option<Device>>)

  datatype Move =
    | Coordinate(event: Event)
    | Handle(i: nat, after: Device, ok: bool, kind: ReplyKind)
    | Deliver(i: nat)
    | Drop(i: nat)
    | Tick(i: nat, after: Device)

  ghost predicate Shaped(s: System) {
    && WellFormed(s.c)
    && |s.devices| == |s.slots| == |s.seen| == |s.c.participants|
  }

  function BodyOf(kind: ReplyKind, snapshot: Device, p: Participant): ResponseBody {
    match kind
    case WithReport => ReportBody(ReportOf(snapshot, p.descriptor, p.preparedToken))
    case WithoutBody => EmptyBody
    case Garbled => UndecodableBody
  }

  /** Whether the machine keeps the report it was just given. */
  predicate Retains(p: Participant, report: StatusReport) {
    ValidReport(p, report) && (p.report.Some? ==> ReportAdvances(p.report.value, report))
  }

  function SeenAfter(p: Participant, seen: Option<Device>, kind: ReplyKind, snapshot: Device): Option<Device> {
    if kind == WithReport && Retains(p, ReportOf(snapshot, p.descriptor, p.preparedToken)) then Some(snapshot) else seen
  }

  ghost predicate SlotFollows(sent: seq<Request>, deviceId: nat, before: Slot, after: Slot) {
    || (exists k | 0 <= k < |sent| :: sent[k].deviceId == deviceId && after == Sent(sent[k].operation))
    || ((forall k | 0 <= k < |sent| :: sent[k].deviceId != deviceId) && after == before)
  }

  /** The system's transitions. */
  ghost predicate Step(s: System, m: Move, t: System)
    requires Shaped(s)
  {
    match m
    case Coordinate(event) =>
      && !event.Reply? && !event.Lose?
      && t.c == Advance(s.c, event).0
      && t.devices == s.devices && t.seen == s.seen && |t.slots| == |s.slots|
      && forall i | 0 <= i < |s.slots| ::
           SlotFollows(Advance(s.c, event).1, s.c.participants[i].deviceId, s.slots[i], t.slots[i])
    case Handle(i, after, ok, kind) =>
      && i < |s.slots| && s.slots[i].Sent?
      && Handles(s.devices[i], s.slots[i].operation, after)
      && t == s.(devices := s.devices[i := after], slots := s.slots[i := Answered(ok, kind, after)])
    case Deliver(i) =>
      && i < |s.slots| && s.slots[i].Answered?
      && var p := s.c.participants[i].control;
         var r := s.slots[i];
         t == s.(c := AcceptAt(s.c, i, Response(r.ok, BodyOf(r.kind, r.snapshot, p))).0,
                 slots := s.slots[i := Free],
                 seen := s.seen[i := SeenAfter(p, s.seen[i], r.kind, r.snapshot)])
    case Drop(i) =>
      && i < |s.slots|
      && t == s.(c := SetControl(s.c, i, AbandonPending(s.c.participants[i].control).0), slots := s.slots[i := Free])
    case Tick(i, after) =>
      && i < |s.devices| && Ticks(s.devices[i], after)
      && t == s.(devices := s.devices[i := after])
  }

  /** Nothing has been asked and no device holds a job. */
  ghost predicate Initial(s: System) {
    && Shaped(s) && CoordinatorModel.Fresh(s.c)
    && forall i | 0 <= i < |s.devices| :: s.devices[i] == BLANK_DEVICE && s.slots[i] == Free && s.seen[i] == None
  }

  ghost predicate IsJointRun(run: seq<System>, moves: seq<Move>) {
    && |run| == |moves| + 1
    && Initial(run[0])
    && forall k | 0 <= k < |moves| :: Shaped(run[k]) && Step(run[k], moves[k], run[k + 1])
  }

  // ---- The invariant of one participant ---------------------------------------------------

  datatype Node = Node(pc: ParticipantCoordinator, device: Device, slot: Slot, seen: Option<Device>)

  datatype Context = Context(intent: Intent, bound: bool, faultCleanup: bool, initial: bool, allInstalled: bool)

  function NodeAt(s: System, i: nat): Node
    requires i < |s.c.participants| == |s.devices| == |s.slots| == |s.seen|
  {
    Node(s.c.participants[i], s.devices[i], s.slots[i], s.seen[i])
  }

  ghost predicate AllInstalled(s: System) {
    forall i | 0 <= i < |s.devices| :: s.devices[i].installed.Some?
  }

  ghost function ContextOf(s: System): Context {
    Context(s.c.intent, s.c.target.Some?, s.c.faultCleanup, InitialRound(s.c), AllInstalled(s))
  }

  /** The retained report is the truth about an earlier state of this device. */
  ghost predicate ViewInv(n: Node) {
    var p := n.pc.control;
    && ValidDevice(n.device)
    && p.report == (if n.seen.None? then None else Some(ReportOf(n.seen.value, p.descriptor, p.preparedToken)))
    && (n.seen.Some? ==>
          && ValidDevice(n.seen.value) && Leads(n.seen.value, n.device)
          && (n.seen.value.stage == AtAborted ==> n.seen.value.installed.Some?))
  }

  /** What the device holds is what the coordinator planned for it, and never more lease than it authorized. */
  ghost predicate CommitInv(x: Context, n: Node) {
    var p := n.pc.control;
    && (x.bound <==> n.pc.planned.Some?)
    && (p.authorizedLease.Some? <==> p.commit.Some?)
    && (p.commit.Some? ==>
          && p.commit == n.pc.planned
          && n.seen.Some? && n.seen.value.stage !in {AtBlank, AtStarting, AtStaged}
          && p.commit.value.leaseExpiry <= p.authorizedLease.value
          && (p.commit.value.policy == CachedAutonomous ==> p.authorizedLease.value == p.commit.value.leaseExpiry)
          && (n.seen.value.stage == AtPrepared ==> p.authorizedLease.value == p.commit.value.leaseExpiry)
          && (n.seen.value.stage == AtFaulted ==> n.seen.value.installed.Some?))
    && (n.device.installed.Some? ==>
          p.commit == n.device.installed && n.device.lease <= p.authorizedLease.value)
    && (n.device.stage == AtAborted && n.device.installed.None? ==> p.commit.Some?)
  }

  ghost predicate SentInv(x: Context, n: Node, operation: ScheduleOperation) {
    var p := n.pc.control;
    match operation
    case JobPrepare(_) => p.commit.None? && !x.initial
    case JobStatus => true
    case JobCommit(commit) => p.commit == Some(commit)
    case JobConfirm(commit) => p.commit == Some(commit) && x.allInstalled
    case JobLeaseRenew(commit, lease) => p.commit == Some(commit) && p.authorizedLease.Some? && lease <= p.authorizedLease.value
    case JobAbort(commit) => p.commit == Some(commit) && x.intent in {AbortIntent, CancelIntent}
    case JobCancel(_) => p.commit.None? && x.intent in {AbortIntent, CancelIntent}
  }

  ghost predicate SlotInv(x: Context, n: Node)
    requires CommitInv(x, n)
  {
    var p := n.pc.control;
    match n.slot
    case Free => p.pending.None?
    case Sent(operation) => p.pending == Some(ActionOf(operation)) && SentInv(x, n, operation)
    case Answered(_, _, snapshot) =>
      && p.pending.Some?
      && ValidDevice(snapshot) && Leads(snapshot, n.device) && snapshot.installed == n.device.installed
      && (n.seen.Some? ==> Leads(n.seen.value, snapshot))
  }

  /** An install the coordinator has not seen is one it knows to be ambiguous. */
  ghost predicate KnownInv(n: Node) {
    var p := n.pc.control;
    n.device.installed.Some? && (n.seen.None? || n.seen.value.installed.None?) ==>
      p.reconciliationRequired || p.pending == Some(InstallAction)
  }

  predicate SeenFault(seen: Option<Device>) {
    seen.Some? && ShowsFault(seen.value)
  }

  ghost predicate StageInv(x: Context, n: Node) {
    && (x.initial ==> n.device.stage == AtBlank)
    && (n.device.stage in STARTED ==> x.allInstalled)
    && (n.device.stage == AtCancelled ==> x.intent in {AbortIntent, CancelIntent})
    && (SeenFault(n.seen) ==> x.faultCleanup)
  }

  ghost predicate NodeInv(x: Context, n: Node) {
    ViewInv(n) && CommitInv(x, n) && SlotInv(x, n) && KnownInv(n) && StageInv(x, n)
  }

  /** The retained report shows a fault, or the cancellation that followed one: never again a success. */
  ghost predicate Dead(seen: Option<Device>) {
    seen.Some? && (seen.value.actorFault || seen.value.stage in {AtFaulted, AtCancelled})
  }

  ghost predicate Inv(s: System) {
    && Shaped(s)
    && EpochMatchesIntent(s.c)
    && (s.c.faultCleanup ==> s.c.intent in {AbortIntent, CancelIntent})
    && (s.c.intent == ConfirmIntent ==> AllInstalled(s))
    && (forall i | 0 <= i < |s.devices| :: NodeInv(ContextOf(s), NodeAt(s, i)))
    && (s.c.faultCleanup ==> exists i | 0 <= i < |s.seen| :: Dead(s.seen[i]))
  }

  lemma ViewPhase(n: Node)
    requires ViewInv(n)
    ensures Phase(n.pc.control) ==
            if n.seen.None? then Empty else PhaseAt(n.seen.value, n.pc.control.commit.Some?)
  {
    if n.seen.Some? {
      PhaseOfTruthfulReport(n.seen.value, n.pc.control.descriptor, n.pc.control.preparedToken, n.pc.control.commit.Some?);
    }
  }

  // ---- Contexts only gain -----------------------------------------------------------------

  ghost predicate Later(x: Context, y: Context) {
    && x.bound == y.bound
    && (x.faultCleanup ==> y.faultCleanup)
    && (y.initial ==> x.initial)
    && (x.allInstalled ==> y.allInstalled)
    && (x.intent in {AbortIntent, CancelIntent} ==> y.intent in {AbortIntent, CancelIntent})
  }

  lemma NodeKeptLater(x: Context, y: Context, n: Node)
    requires NodeInv(x, n) && Later(x, y)
    ensures NodeInv(y, n)
  {
  }

  /** Binding an epoch gives every participant its plan and changes nothing else. */
  lemma NodeAfterBind(x: Context, y: Context, n: Node, commit: Commit)
    requires NodeInv(x, n) && !x.bound && y == x.(bound := true, intent := InstallIntent, initial := false)
    requires x.intent == PrepareIntent
    ensures NodeInv(y, n.(pc := n.pc.(planned := Some(commit))))
  {
  }

  // ---- A request begins -------------------------------------------------------------------

  ghost predicate Begins(x: Context, pc: ParticipantCoordinator, q: Participant, operation: ScheduleOperation) {
    match operation
    case JobPrepare(_) => x.intent == PrepareIntent && !x.initial && BeginPrepare(pc.control) == Ok((q, operation))
    case JobStatus => BeginStatus(pc.control) == Ok((q, operation))
    case JobCommit(commit) => pc.planned == Some(commit) && BeginInstall(pc.control, commit) == Ok((q, operation))
    case JobConfirm(_) => x.intent == ConfirmIntent && BeginConfirm(pc.control) == Ok((q, operation))
    case JobLeaseRenew(_, lease) => BeginLeaseRenew(pc.control, lease) == Ok((q, operation))
    case JobAbort(_) => x.intent == AbortIntent && BeginAbort(pc.control) == Ok((q, operation))
    case JobCancel(_) => x.intent in {AbortIntent, CancelIntent} && BeginCancel(pc.control) == Ok((q, operation))
  }

  lemma NodeAfterBegin(x: Context, n: Node, q: Participant, operation: ScheduleOperation)
    requires NodeInv(x, n) && n.slot == Free
    requires Begins(x, n.pc, q, operation)
    requires x.intent == ConfirmIntent ==> x.allInstalled
    ensures NodeInv(x, n.(pc := n.pc.(control := q), slot := Sent(operation)))
    ensures n.pc.control.authorizedLease.Some? ==>
              q.authorizedLease.Some? && n.pc.control.authorizedLease.value <= q.authorizedLease.value
  {
    ViewPhase(n);
  }

  lemma DecidedBegins(c: Coordinator, x: Context, k: nat)
    requires k < |c.participants| && c.participants[k].control.pending.None?
    requires x.intent == c.intent && x.initial == InitialRound(c)
    requires Decide(c.participants[k], c.intent, InitialRound(c)).Ok?
    requires Decide(c.participants[k], c.intent, InitialRound(c)).value.Some?
    ensures var step := Decide(c.participants[k], c.intent, InitialRound(c)).value.value;
            Begins(x, c.participants[k], step.0, step.1)
  {
  }

  // ---- A device acts ----------------------------------------------------------------------

  lemma NodeAfterTick(x: Context, n: Node, after: Device)
    requires NodeInv(x, n) && Ticks(n.device, after)
    ensures NodeInv(x, n.(device := after))
  {
    TickLeads(n.device, after);
    if n.seen.Some? {
      LeadsIsTransitive(n.seen.value, n.device, after);
    }
    if n.slot.Answered? {
      LeadsIsTransitive(n.slot.snapshot, n.device, after);
    }
  }

  lemma HandledView(x: Context, n: Node, after: Device, slot: Slot)
    requires NodeInv(x, n) && n.slot.Sent? && Handles(n.device, n.slot.operation, after)
    ensures ViewInv(n.(device := after, slot := slot))
    ensures n.seen.Some? ==> Leads(n.seen.value, after)
  {
    HandleLeads(n.device, n.slot.operation, after);
    hide Handles, ReportOf, Reach;
    if n.seen.Some? {
      LeadsIsTransitive(n.seen.value, n.device, after);
    }
  }

  lemma HandledCommit(x: Context, y: Context, n: Node, after: Device, slot: Slot)
    requires NodeInv(x, n) && n.slot.Sent? && Handles(n.device, n.slot.operation, after) && slot.Answered?
    requires Later(x, y) && x.intent == y.intent
    ensures CommitInv(y, n.(device := after, slot := slot))
    ensures KnownInv(n.(device := after, slot := slot))
  {
    hide ViewInv, StageInv;
  }

  lemma HandledStage(x: Context, y: Context, n: Node, after: Device, slot: Slot)
    requires NodeInv(x, n) && n.slot.Sent? && Handles(n.device, n.slot.operation, after)
    requires Later(x, y) && x.intent == y.intent
    ensures StageInv(y, n.(device := after, slot := slot))
  {
    hide ViewInv, KnownInv;
  }

  lemma NodeAfterHandle(x: Context, y: Context, n: Node, after: Device, ok: bool, kind: ReplyKind)
    requires NodeInv(x, n) && n.slot.Sent? && Handles(n.device, n.slot.operation, after)
    requires Later(x, y) && x.intent == y.intent
    ensures NodeInv(y, n.(device := after, slot := Answered(ok, kind, after)))
  {
    var slot := Answered(ok, kind, after);
    HandledView(x, n, after, slot);
    HandledCommit(x, y, n, after, slot);
    HandledStage(x, y, n, after, slot);
    HandleLeads(n.device, n.slot.operation, after);
    LeadsItself(after);
    hide Handles, Leads, ViewInv, CommitInv, KnownInv, StageInv, ValidDevice;
  }
}
