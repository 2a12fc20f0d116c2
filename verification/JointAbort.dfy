/** An abort that loses nothing more drains in a bounded number of steps, and where it comes to rest. */
module JointAbort {
  import opened Wrappers
  import opened ParticipantSchedule
  import opened CoordinatorModel
  import opened CoordinatorRuns
  import opened DeviceModel
  import opened JointSystem
  import opened JointProofs
  import opened JointRequests
  import opened JointTheorems

  // ---- Classification at rest -------------------------------------------------------------

  const RESTING: set<Stage> := {AtBlank, AtComplete, AtAborted, AtExpired, AtFaulted, AtCancelled}

  /** The coordinator bound a commit for this participant and its device does not hold it. */
  predicate Unheld(n: Node) {
    n.pc.control.commit.Some? && n.device.installed.None?
  }

  /** A device at rest, or one with a faulted actor, as last reported; a commit never held only under a shown fault. */
  ghost predicate RestingNode(n: Node) {
    if Unheld(n) then SeenFault(n.seen)
    else n.seen == Some(n.device) && (n.device.stage in RESTING || ShowsFault(n.device))
  }

  /** Finished, and shown so: a faulted actor hides the completion. */
  predicate Done(d: Device) {
    d.stage == AtComplete && !d.actorFault
  }

  lemma RestingPhase(x: Context, n: Node)
    requires NodeInv(x, n) && RestingNode(n)
    ensures Completed(n.pc) <==> Done(n.device)
    ensures Done(n.device) ==> x.allInstalled && !SafeAfterAbort(n.pc) && !Dead(n.seen)
    ensures n.device.installed.Some? ==> n.pc.control.commit.Some?
    ensures TerminalAfterFaultCleanup(n.pc)
    ensures !x.faultCleanup && !Done(n.device) ==> SafeAfterAbort(n.pc)
    ensures !x.faultCleanup && !Done(n.device) && n.device.installed.Some? ==> Stopped(n.pc)
    ensures Completed(n.pc) ==> !Stopped(n.pc)
  {
    ViewPhase(n);
  }

  /** With every device at rest or shown faulted, an aborting job is in exactly one of four terminal phases. */
  lemma AbortIsClassified(s: System)
    requires Inv(s) && s.c.intent == AbortIntent
    requires forall i | 0 <= i < |s.devices| :: RestingNode(NodeAt(s, i))
    ensures GlobalPhaseOf(s.c) == GComplete <==> forall i | 0 <= i < |s.devices| :: Done(s.devices[i])
    ensures GlobalPhaseOf(s.c) == GFaulted <==> s.c.faultCleanup
    ensures GlobalPhaseOf(s.c) == GAborted <==>
              !s.c.faultCleanup && forall i | 0 <= i < |s.devices| :: !Done(s.devices[i])
    ensures GlobalPhaseOf(s.c) == GSplitAfterAbort <==>
              && !s.c.faultCleanup
              && (exists i | 0 <= i < |s.devices| :: Done(s.devices[i]))
              && (exists i | 0 <= i < |s.devices| :: !Done(s.devices[i]))
  {
    hide NodeInv, Phase, AnyUnreported, Done, RestingNode, Dead;
    var ps := s.c.participants;
    forall i | 0 <= i < |s.devices|
      ensures Completed(ps[i]) <==> Done(s.devices[i])
      ensures TerminalAfterFaultCleanup(ps[i])
      ensures !s.c.faultCleanup && !Done(s.devices[i]) ==> SafeAfterAbort(ps[i])
      ensures Done(s.devices[i]) ==> !Dead(s.seen[i])
    {
      RestingPhase(ContextOf(s), NodeAt(s, i));
    }
    if s.c.faultCleanup {
      CleanupEndsFaulted(s);
      var d :| 0 <= d < |s.seen| && Dead(s.seen[d]);
      assert !Done(s.devices[d]);
    } else if forall i | 0 <= i < |s.devices| :: Done(s.devices[i]) {
      assert forall i | 0 <= i < |ps| :: Completed(ps[i]);
      assert All(ps, ParticipantPhase.Complete);
      assert Done(s.devices[0]);
    } else if forall i | 0 <= i < |s.devices| :: !Done(s.devices[i]) {
      assert !Completed(ps[0]);
    } else {
      SplitIsClassified(s);
    }
  }

  lemma SplitIsClassified(s: System)
    requires Inv(s) && s.c.intent == AbortIntent && !s.c.faultCleanup
    requires forall i | 0 <= i < |s.devices| :: RestingNode(NodeAt(s, i))
    requires exists i | 0 <= i < |s.devices| :: Done(s.devices[i])
    requires exists i | 0 <= i < |s.devices| :: !Done(s.devices[i])
    ensures GlobalPhaseOf(s.c) == GSplitAfterAbort
  {
    hide NodeInv, Phase, AnyUnreported, Done, RestingNode;
    var ps := s.c.participants;
    var a :| 0 <= a < |s.devices| && Done(s.devices[a]);
    var b :| 0 <= b < |s.devices| && !Done(s.devices[b]);
    RestingPhase(ContextOf(s), NodeAt(s, a));
    forall i | 0 <= i < |ps|
      ensures if Done(s.devices[i]) then Completed(ps[i]) else Stopped(ps[i])
    {
      RestingPhase(ContextOf(s), NodeAt(s, i));
      assert s.devices[i].installed.Some?;
    }
    assert Completed(ps[a]) && Stopped(ps[b]);
    assert !SafeAfterAbort(ps[a]);
  }

  /**
   * A fault of an actor hides the schedule: a participant shown Faulted under a bound commit is asked to do nothing
   * and counts as cleaned up, wherever its schedule stands.
   */
  lemma ShownFaultEndsTheAbort(x: Context, n: Node)
    requires NodeInv(x, n) && SeenFault(n.seen) && n.pc.control.commit.Some?
    ensures Phase(n.pc.control) == ParticipantPhase.Faulted
    ensures NextAbortOperation(n.pc) == Ok(None) && TerminalAfterFaultCleanup(n.pc) && x.faultCleanup
  {
    ViewPhase(n);
  }

  // ---- Who can still be drained -----------------------------------------------------------

  /** Bound, not held, and no install on its way: no report of its schedule can match the commit any more. */
  predicate StrandedNode(n: Node) {
    Unheld(n) && !(n.slot.Sent? && n.slot.operation.JobCommit?)
  }

  /** The retained report shows a fault, and nothing is in flight or in doubt. */
  predicate FaultShown(n: Node) {
    SeenFault(n.seen) && n.slot == Free && !n.pc.control.reconciliationRequired
  }

  /** The bound commit is held, or on its way, or no longer matters because a fault was shown. */
  predicate CalmNode(n: Node) {
    StrandedNode(n) ==> FaultShown(n)
  }

  ghost predicate Calm(s: System) {
    && Inv(s) && s.c.intent == AbortIntent
    && forall i | 0 <= i < |s.devices| :: CalmNode(NodeAt(s, i))
  }

  predicate InstallInFlight(s: System, k: nat)
    requires k < |s.slots|
  {
    s.slots[k].Sent? && s.slots[k].operation.JobCommit?
  }

  ghost predicate SomeoneStranded(s: System) {
    Shaped(s) && exists i | 0 <= i < |s.devices| :: !CalmNode(NodeAt(s, i))
  }

  // ---- The steps that remain --------------------------------------------------------------

  /** How many answers one idle participant still needs: a status if ambiguous, then at most one mutation. */
  function Rank(pc: ParticipantCoordinator): nat {
    if pc.control.reconciliationRequired then 2
    else if NextAbortOperation(pc) == Ok(None) then 0
    else 1
  }

  /** How many sends, applications and arrivals one participant can still cause. */
  function Weight(n: Node): nat {
    match n.slot
    case Free => 3 * Rank(n.pc)
    case Sent(operation) =>
      if operation.JobStatus? then 5 else if operation.JobAbort? || operation.JobCancel? then 2 else 8
    case Answered(_, _, _) => 3 * Rank(Delivered(n).pc) + 1
  }

  function Total(ns: seq<Node>): nat {
    if ns == [] then 0 else Total(ns[..|ns|-1]) + Weight(ns[|ns|-1])
  }

  lemma {:induction false} TotalAt(ns: seq<Node>, k: nat, m: Node)
    requires k < |ns|
    ensures Total(ns[k := m]) + Weight(ns[k]) == Total(ns) + Weight(m)
  {
    var n := |ns| - 1;
    if k == n {
      assert ns[k := m][..n] == ns[..n];
    } else {
      TotalAt(ns[..n], k, m);
      assert ns[k := m][..n] == ns[..n][k := m];
    }
  }

  lemma {:induction false} TotalIsBounded(ns: seq<Node>)
    ensures Total(ns) <= 8 * |ns|
  {
    if ns != [] {
      TotalIsBounded(ns[..|ns|-1]);
    }
  }

  function Nodes(s: System): seq<Node>
    requires |s.c.participants| == |s.devices| == |s.slots| == |s.seen|
  {
    seq(|s.devices|, i requires 0 <= i < |s.devices| => NodeAt(s, i))
  }

  lemma OneNodeMoves(s: System, k: nat, t: System)
    requires Shaped(s) && Shaped(t) && |s.devices| == |t.devices| && k < |s.devices|
    requires forall j | 0 <= j < |s.devices| && j != k :: NodeAt(t, j) == NodeAt(s, j)
    ensures Total(Nodes(t)) + Weight(NodeAt(s, k)) == Total(Nodes(s)) + Weight(NodeAt(t, k))
  {
    assert Nodes(t) == Nodes(s)[k := NodeAt(t, k)];
    TotalAt(Nodes(s), k, NodeAt(t, k));
  }

  /** What counts as answering: a status with its report, an abort or cancel that took effect with its report. */
  ghost predicate Answering(operation: ScheduleOperation, after: Device, kind: ReplyKind) {
    && (operation.JobStatus? || operation.JobAbort? || operation.JobCancel? ==> kind == WithReport)
    && (operation.JobAbort? ==> after.stage !in {AtPrepared, AtInstalled, AtConfirmed})
    && (operation.JobCancel? ==> after.stage == AtCancelled)
  }

  datatype Settling =
    | Emit
    | Apply(k: nat, after: Device, ok: bool, kind: ReplyKind)
    | Arrive(k: nat)
    | Wait(i: nat, after: Device)

  /** The coordinator asks, a device applies what is on its way, a reply arrives, or a device moves by itself. */
  ghost predicate Settles(s: System, e: Settling, t: System)
    requires Shaped(s)
  {
    match e
    case Emit => Step(s, Coordinate(Next), t)
    case Apply(k, after, ok, kind) =>
      && Step(s, Handle(k, after, ok, kind), t)
      && (k < |s.slots| && s.slots[k].Sent? ==> Answering(s.slots[k].operation, after, kind))
    case Arrive(k) => Step(s, Deliver(k), t)
    case Wait(i, after) => Step(s, Tick(i, after), t)
  }

  // ---- Each step keeps calm or strands someone, and lowers the total ----------------------

  lemma AbortPersists(s: System, m: Move, t: System)
    requires Inv(s) && Step(s, m, t) && s.c.intent == AbortIntent
    ensures t.c.intent == AbortIntent
  {
    hide NodeInv, BeginLeaseRenewal, NextRequest, CoordinatorModel.BeginStatusRound, AcceptResponse, Phase;
    PhaseFixesIntent(s.c);
    match m
    case Coordinate(e) =>
      match e {
        case Next => RequestsKeepGlobals(s.c, [], 0);
        case StatusRound => RequestsKeepGlobals(s.c, [], 0);
        case Renew(renewals) => RequestsKeepGlobals(s.c, renewals, 0);
        case _ =>
      }
    case Deliver(i) => DeliverChanges(s, i, t);
    case _ =>
  }

  lemma CalmShape(s: System)
    requires Calm(s)
    ensures Inv(s) && Shaped(s) && s.c.intent == AbortIntent
  {
  }

  lemma CalmAt(s: System, k: nat)
    requires Calm(s) && k < |s.devices|
    ensures k < |s.slots| == |s.c.participants| == |s.seen| == |s.devices| && CalmNode(NodeAt(s, k))
  {
  }

  lemma InvAt(s: System, k: nat)
    requires Inv(s) && k < |s.devices|
    ensures NodeInv(ContextOf(s), NodeAt(s, k))
  {
  }

  /** While aborting no install is ever sent. */
  lemma NoInstallWhileAborting(s: System, e: Event, t: System, i: nat)
    requires Shaped(s) && Step(s, Coordinate(e), t) && s.c.intent == AbortIntent && i < |s.slots|
    requires t.slots[i].Sent? && t.slots[i].operation.JobCommit?
    ensures s.slots[i] == t.slots[i]
  {
    hide NextRequest, BeginLeaseRenewal, CoordinatorModel.BeginStatusRound, Accept, Abandon, GlobalPhaseOf, Advance;
    if t.slots[i] != s.slots[i] {
      var sent := Advance(s.c, e).1;
      assert SlotFollows(sent, s.c.participants[i].deviceId, s.slots[i], t.slots[i]);
      var k :| 0 <= k < |sent| && t.slots[i] == Sent(sent[k].operation);
      SentOperationFitsIntent(s.c, e, k);
    }
  }

  /** Calm after a step that changed one node hangs on that node. */
  lemma CalmOrStranded(s: System, k: nat, t: System)
    requires Calm(s) && Inv(t) && t.c.intent == AbortIntent && |s.devices| == |t.devices| && k < |s.devices|
    requires forall j | 0 <= j < |s.devices| && j != k :: NodeAt(t, j) == NodeAt(s, j)
    ensures if CalmNode(NodeAt(t, k)) then Calm(t) else SomeoneStranded(t)
  {
    hide NodeInv, CalmNode;
    forall j | 0 <= j < |t.devices| && j != k
      ensures CalmNode(NodeAt(t, j))
    {
      CalmAt(s, j);
    }
  }

  lemma EmittedWeight(x: Context, n: Node, q: Participant, operation: ScheduleOperation)
    requires NodeInv(x, n) && n.slot == Free && CalmNode(n)
    requires Decide(n.pc, AbortIntent, false) == Ok(Some((q, operation)))
    ensures var m := n.(pc := n.pc.(control := q), slot := Sent(operation));
            CalmNode(m) && Weight(m) < Weight(n)
  {
    ViewPhase(n);
  }

  lemma EmitSettles(s: System, t: System)
    requires Calm(s) && Settles(s, Emit, t)
    ensures Calm(t)
    ensures Shaped(t) && |t.devices| == |s.devices|
    ensures t == s || Total(Nodes(t)) < Total(Nodes(s))
  {
    hide Inv, NodeInv, Decide, Weight, CalmNode, Total;
    CalmShape(s);
    StepKeepsInv(s, Coordinate(Next), t);
    AbortPersists(s, Coordinate(Next), t);
    InvIsShaped(t);
    var sends, k, q, operation := NextChanges(s, t);
    if sends {
      InvAt(s, k);
      CalmAt(s, k);
      IdleSlotIsFree(ContextOf(s), NodeAt(s, k));
      EmittedWeight(ContextOf(s), NodeAt(s, k), q, operation);
      assert NodeAt(t, k) == NodeAt(s, k).(pc := NodeAt(s, k).pc.(control := q), slot := Sent(operation));
      OneNodeMoves(s, k, t);
      CalmOrStranded(s, k, t);
    } else {
      assert t == s;
    }
  }

  lemma InvIsShaped(s: System)
    requires Inv(s)
    ensures Shaped(s)
  {
  }

  /** A truthful report of a device that holds what was bound for it is always retained. */
  lemma HeldReportIsRetained(x: Context, n: Node)
    requires NodeInv(x, n) && n.slot.Answered? && !Unheld(n)
    ensures Retains(n.pc.control, ReportOf(n.slot.snapshot, n.pc.control.descriptor, n.pc.control.preparedToken))
  {
    var p := n.pc.control;
    if n.seen.Some? {
      TruthfulReportsAdvance(n.seen.value, n.slot.snapshot, p.descriptor, p.preparedToken);
    }
    HeldReportIsValid(x, n);
  }

  lemma HeldReportIsValid(x: Context, n: Node)
    requires NodeInv(x, n) && n.slot.Answered? && !Unheld(n)
    ensures ValidReport(n.pc.control, ReportOf(n.slot.snapshot, n.pc.control.descriptor, n.pc.control.preparedToken))
  {
    var d := n.slot.snapshot;
    assert n.device.installed.Some? ==> d.lease <= n.device.lease;
  }

  /** A stopped or cancelled device needs nothing more once its report is retained. */
  lemma StoppedNeedsNothing(x: Context, m: Node)
    requires NodeInv(x, m) && m.slot.Answered? && m.slot.kind == WithReport && !Unheld(m)
    requires Retains(m.pc.control, ReportOf(m.slot.snapshot, m.pc.control.descriptor, m.pc.control.preparedToken))
    requires if m.pc.control.commit.Some? then m.slot.snapshot.stage !in {AtInstalled, AtConfirmed}
             else m.slot.snapshot.stage == AtCancelled
    ensures Rank(Delivered(m).pc) == 0
  {
    var q := m.pc.control;
    AcceptedControl(q, m.slot.ok, WithReport, m.slot.snapshot);
    PhaseOfTruthfulReport(m.slot.snapshot, q.descriptor, q.preparedToken, q.commit.Some?);
  }

  lemma ReportedNeedsOne(m: Node)
    requires m.slot.Answered? && m.slot.kind == WithReport && m.pc.control.pending.Some?
    requires Retains(m.pc.control, ReportOf(m.slot.snapshot, m.pc.control.descriptor, m.pc.control.preparedToken))
    ensures Rank(Delivered(m).pc) <= 1
  {
    AcceptedControl(m.pc.control, m.slot.ok, WithReport, m.slot.snapshot);
  }

  lemma AppliedWeight(x: Context, y: Context, n: Node, after: Device, ok: bool, kind: ReplyKind)
    requires NodeInv(x, n) && n.slot.Sent? && CalmNode(n)
    requires Handles(n.device, n.slot.operation, after) && Answering(n.slot.operation, after, kind)
    requires NodeInv(y, n.(device := after, slot := Answered(ok, kind, after)))
    ensures Weight(n.(device := after, slot := Answered(ok, kind, after))) < Weight(n)
    ensures n.slot.operation.JobCommit? || CalmNode(n.(device := after, slot := Answered(ok, kind, after)))
  {
    if !n.slot.operation.JobCommit? {
      HandledKeepsHeld(x, n, after);
    }
    hide Rank, Delivered, AcceptResponse, ReportOf;
    var m := n.(device := after, slot := Answered(ok, kind, after));
    var operation := n.slot.operation;
    AtMostTwo(Delivered(m).pc);
    if operation.JobStatus? || operation.JobAbort? || operation.JobCancel? {
      HandledKeepsHeld(x, n, after);
      HeldReportIsRetained(y, m);
      if operation.JobStatus? {
        ReportedNeedsOne(m);
      } else {
        StoppedNeedsNothing(y, m);
      }
    }
  }

  lemma AtMostTwo(pc: ParticipantCoordinator)
    ensures Rank(pc) <= 2
  {
  }

  lemma HandledKeepsHeld(x: Context, n: Node, after: Device)
    requires NodeInv(x, n) && n.slot.Sent? && CalmNode(n) && !n.slot.operation.JobCommit?
    requires Handles(n.device, n.slot.operation, after)
    ensures !Unheld(n.(device := after)) && after.installed == n.device.installed
    ensures n.slot.operation.JobAbort? ==> n.pc.control.commit.Some? && after.installed.Some?
    ensures n.slot.operation.JobCancel? ==> n.pc.control.commit.None?
  {
  }

  lemma ApplySettles(s: System, k: nat, after: Device, ok: bool, kind: ReplyKind, t: System)
    requires Calm(s) && Settles(s, Apply(k, after, ok, kind), t)
    ensures Calm(t) || (SomeoneStranded(t) && InstallInFlight(s, k))
    ensures Shaped(t) && |t.devices| == |s.devices|
    ensures Total(Nodes(t)) < Total(Nodes(s))
  {
    hide Inv, NodeInv, Handles, Weight, CalmNode, Answering, Total;
    CalmShape(s);
    StepKeepsInv(s, Handle(k, after, ok, kind), t);
    AbortPersists(s, Handle(k, after, ok, kind), t);
    InvAt(s, k);
    InvAt(t, k);
    CalmAt(s, k);
    assert NodeAt(t, k) == NodeAt(s, k).(device := after, slot := Answered(ok, kind, after));
    AppliedWeight(ContextOf(s), ContextOf(t), NodeAt(s, k), after, ok, kind);
    InvIsShaped(t);
    OneNodeMoves(s, k, t);
    CalmOrStranded(s, k, t);
  }

  lemma ArrivedWeight(x: Context, n: Node)
    requires NodeInv(x, n) && n.slot.Answered? && CalmNode(n)
    ensures CalmNode(Delivered(n)) && Weight(Delivered(n)) < Weight(n)
  {
    AcceptedControl(n.pc.control, n.slot.ok, n.slot.kind, n.slot.snapshot);
  }

  lemma ArriveSettles(s: System, k: nat, t: System)
    requires Calm(s) && Settles(s, Arrive(k), t)
    ensures Calm(t)
    ensures Shaped(t) && |t.devices| == |s.devices|
    ensures Total(Nodes(t)) < Total(Nodes(s))
  {
    hide Inv, NodeInv, Weight, CalmNode, Delivered, AcceptResponse, Total;
    CalmShape(s);
    StepKeepsInv(s, Deliver(k), t);
    AbortPersists(s, Deliver(k), t);
    DeliverChanges(s, k, t);
    InvAt(s, k);
    CalmAt(s, k);
    ArrivedWeight(ContextOf(s), NodeAt(s, k));
    InvIsShaped(t);
    OneNodeMoves(s, k, t);
    CalmOrStranded(s, k, t);
  }

  lemma TickedStaysCalm(x: Context, n: Node, after: Device)
    requires NodeInv(x, n) && Ticks(n.device, after) && CalmNode(n)
    ensures CalmNode(n.(device := after)) && Weight(n.(device := after)) == Weight(n)
  {
    TickLeads(n.device, after);
  }

  lemma WaitSettles(s: System, i: nat, after: Device, t: System)
    requires Calm(s) && Settles(s, Wait(i, after), t)
    ensures Calm(t)
    ensures Shaped(t) && |t.devices| == |s.devices|
    ensures Total(Nodes(t)) == Total(Nodes(s))
  {
    hide Inv, NodeInv, Weight, CalmNode, Ticks, Total;
    CalmShape(s);
    StepKeepsInv(s, Tick(i, after), t);
    InvAt(s, i);
    CalmAt(s, i);
    TickedStaysCalm(ContextOf(s), NodeAt(s, i), after);
    assert NodeAt(t, i) == NodeAt(s, i).(device := after);
    InvIsShaped(t);
    OneNodeMoves(s, i, t);
    CalmOrStranded(s, i, t);
  }

  // ---- The drain theorem ------------------------------------------------------------------

  ghost predicate IsSettling(run: seq<System>, events: seq<Settling>) {
    && |run| == |events| + 1
    && forall k | 0 <= k < |events| :: Shaped(run[k]) && Settles(run[k], events[k], run[k + 1])
  }

  /** Sends, applications and arrivals: everything but silence and waiting. */
  ghost function Steps(run: seq<System>, events: seq<Settling>, n: nat): nat
    requires |run| == |events| + 1 && n <= |events|
  {
    if n == 0 then 0
    else
      Steps(run, events, n - 1)
      + if events[n - 1].Apply? || events[n - 1].Arrive? || (events[n - 1].Emit? && run[n] != run[n - 1]) then 1 else 0
  }

  /** A device refused an install that was still on its way. */
  ghost predicate Strands(run: seq<System>, n: nat) {
    exists k | 0 <= k <= n :: k < |run| && SomeoneStranded(run[k])
  }

  lemma StepSettles(s: System, e: Settling, t: System)
    requires Calm(s) && Settles(s, e, t)
    ensures Calm(t) || SomeoneStranded(t)
    ensures Shaped(s) && Shaped(t) && |t.devices| == |s.devices|
    ensures Total(Nodes(t)) + (if e.Apply? || e.Arrive? || (e.Emit? && t != s) then 1 else 0) <= Total(Nodes(s))
  {
    hide Calm, Settles, Total, Shaped;
    CalmShape(s);
    match e
    case Emit => EmitSettles(s, t);
    case Apply(k, after, ok, kind) => ApplySettles(s, k, after, ok, kind, t);
    case Arrive(k) => ArriveSettles(s, k, t);
    case Wait(i, after) => WaitSettles(s, i, after, t);
  }

  /** Unless someone is stranded on the way, no settling run has more steps than the weight it started with. */
  lemma {:induction false} StepsAreBounded(run: seq<System>, events: seq<Settling>, n: nat)
    requires IsSettling(run, events) && n <= |events| && Calm(run[0])
    ensures Shaped(run[0])
    ensures Strands(run, n) ||
            (Calm(run[n]) && Shaped(run[n]) && Steps(run, events, n) + Total(Nodes(run[n])) <= Total(Nodes(run[0])))
  {
    hide Calm, Settles, Total, Shaped, SomeoneStranded;
    CalmShape(run[0]);
    if n > 0 {
      StepsAreBounded(run, events, n - 1);
      if !Strands(run, n - 1) {
        StepSettles(run[n - 1], events[n - 1], run[n]);
      }
    }
  }

  /** A participant for which nothing more can be done: absent, cancelled, stopped, faulted or past its guard. */
  predicate Resolved(pc: ParticipantCoordinator) {
    var phase := Phase(pc.control);
    || phase in {Empty, Cancelled, ParticipantPhase.Aborted, ParticipantPhase.Expired, ParticipantPhase.Faulted}
    || PostGuard(phase)
  }

  lemma CalmDecision(x: Context, n: Node)
    requires NodeInv(x, n) && x.intent == AbortIntent && n.slot == Free && CalmNode(n)
    ensures n.pc.control.pending.None?
    ensures Decide(n.pc, AbortIntent, false).Ok?
    ensures Decide(n.pc, AbortIntent, false) == Ok(None) ==> Resolved(n.pc)
  {
    ViewPhase(n);
  }

  lemma TerminalIsResolved(c: Coordinator, i: nat)
    requires c.intent == AbortIntent && TerminalPhase(GlobalPhaseOf(c)) && i < |c.participants|
    ensures Resolved(c.participants[i])
  {
    var ps := c.participants;
    if All(ps, ParticipantPhase.Complete) {
      assert Phase(ps[i].control) == ParticipantPhase.Complete;
    } else if c.faultCleanup && AllCleaned(ps) {
      assert TerminalAfterFaultCleanup(ps[i]);
    } else if AllSafe(ps) {
      assert SafeAfterAbort(ps[i]);
    } else {
      assert Stopped(ps[i]) || Completed(ps[i]);
    }
  }

  lemma BusyIsPending(x: Context, n: Node)
    requires NodeInv(x, n) && n.slot != Free
    ensures n.pc.control.pending.Some?
  {
  }

  /** A calm abort is never refused, and it falls silent only when everyone with nothing in flight is resolved. */
  lemma SilenceMeansResolved(s: System)
    requires Calm(s)
    ensures NextRequest(s.c).1.Ok?
    ensures NextRequest(s.c).1 == Ok(None) ==>
              forall i | 0 <= i < |s.c.participants| :: s.c.participants[i].control.pending.Some? || Resolved(s.c.participants[i])
  {
    hide NodeInv, Decide, Resolved, ContextOf;
    var ps := s.c.participants;
    forall i | 0 <= i < |ps|
      ensures ps[i].control.pending.Some? || Decide(ps[i], AbortIntent, false).Ok?
      ensures ps[i].control.pending.None? && Decide(ps[i], AbortIntent, false) == Ok(None) ==> Resolved(ps[i])
    {
      CalmIdle(s, i);
    }
    if TerminalPhase(GlobalPhaseOf(s.c)) {
      forall i | 0 <= i < |ps|
        ensures Resolved(ps[i])
      {
        TerminalIsResolved(s.c, i);
      }
    } else {
      var scanned := Scan(ps, s.c.intent, InitialRound(s.c), 0);
    }
  }

  lemma CalmIdle(s: System, i: nat)
    requires Calm(s) && i < |s.c.participants|
    ensures s.c.participants[i].control.pending.None? ==>
              var decision := Decide(s.c.participants[i], AbortIntent, false);
              decision.Ok? && (decision == Ok(None) ==> Resolved(s.c.participants[i]))
  {
    hide NodeInv, Decide, Resolved, Inv;
    CalmShape(s);
    CalmAt(s, i);
    InvAt(s, i);
    if s.slots[i] == Free {
      CalmDecision(ContextOf(s), NodeAt(s, i));
    } else {
      BusyIsPending(ContextOf(s), NodeAt(s, i));
    }
  }

  /**
   * From any calm aborting state, whatever is still in flight and in whatever order sends, applications, arrivals and
   * device moves follow: a device refuses its install on the way, or at most eight steps per participant remain, and
   * once nothing is in flight or left to ask, everyone is stopped, cancelled, faulted or past the guard.
   */
  lemma AbortDrains(run: seq<System>, events: seq<Settling>)
    requires IsSettling(run, events) && Calm(run[0])
    ensures Strands(run, |events|) ||
            (&& Steps(run, events, |events|) <= 8 * |run[0].devices|
             && var last := run[|events|];
                && NextRequest(last.c).1.Ok?
                && (NextRequest(last.c).1 == Ok(None) && !AnyPending(last.c.participants) ==>
                      forall i | 0 <= i < |last.c.participants| :: Resolved(last.c.participants[i])))
  {
    hide Calm, NextRequest, Resolved, Settles, Total, Shaped, Strands;
    StepsAreBounded(run, events, |events|);
    TotalIsBounded(Nodes(run[0])) by {
      CalmShape(run[0]);
      ShapedLengths(run[0]);
    }
    CalmShape(run[0]);
    ShapedLengths(run[0]);
    if !Strands(run, |events|) {
      SilenceMeansResolved(run[|events|]);
    }
  }

  // ---- Without an install in flight nothing is stranded -----------------------------------

  ghost predicate NoInstall(s: System) {
    forall k | 0 <= k < |s.slots| :: !InstallInFlight(s, k)
  }

  lemma NoInstallIsSent(s: System, e: Settling, t: System)
    requires Calm(s) && NoInstall(s) && Settles(s, e, t)
    ensures NoInstall(t)
  {
    hide Inv, CalmNode, Handles, Ticks, AcceptAt, Advance;
    CalmShape(s);
    forall k | 0 <= k < |t.slots|
      ensures !InstallInFlight(t, k)
    {
      assert !InstallInFlight(s, k);
      if e.Emit? && InstallInFlight(t, k) {
        NoInstallWhileAborting(s, Next, t, k);
      }
    }
  }

  lemma {:induction false} QuietStepsAreBounded(run: seq<System>, events: seq<Settling>, n: nat)
    requires IsSettling(run, events) && n <= |events| && Calm(run[0]) && NoInstall(run[0])
    ensures Calm(run[n]) && NoInstall(run[n]) && Shaped(run[0]) && Shaped(run[n])
    ensures Steps(run, events, n) + Total(Nodes(run[n])) <= Total(Nodes(run[0]))
  {
    hide Calm, Settles, Total, Shaped, SomeoneStranded, NoInstall;
    CalmShape(run[0]);
    if n > 0 {
      QuietStepsAreBounded(run, events, n - 1);
      StepSettles(run[n - 1], events[n - 1], run[n]);
      NoInstallIsSent(run[n - 1], events[n - 1], run[n]);
      QuietStaysCalm(run[n - 1], events[n - 1], run[n]);
    }
  }

  lemma QuietStaysCalm(s: System, e: Settling, t: System)
    requires Calm(s) && NoInstall(s) && Settles(s, e, t)
    ensures Calm(t)
  {
    hide Calm, Total, SomeoneStranded, Step;
    CalmShape(s);
    match e
    case Emit => EmitSettles(s, t);
    case Apply(k, after, ok, kind) =>
      ApplySettles(s, k, after, ok, kind, t);
      AppliedExists(s, k, after, ok, kind, t);
      assert !InstallInFlight(s, k);
    case Arrive(k) => ArriveSettles(s, k, t);
    case Wait(i, after) => WaitSettles(s, i, after, t);
  }

  lemma AppliedExists(s: System, k: nat, after: Device, ok: bool, kind: ReplyKind, t: System)
    requires Shaped(s) && Step(s, Handle(k, after, ok, kind), t)
    ensures k < |s.slots|
  {
  }

  /** The settling run took a bounded number of steps, and where it is silent everyone is resolved. */
  ghost predicate SettledDown(run: seq<System>, events: seq<Settling>)
    requires |run| == |events| + 1
  {
    var last := run[|events|];
    && Steps(run, events, |events|) <= 8 * |run[0].devices|
    && NextRequest(last.c).1.Ok?
    && (NextRequest(last.c).1 == Ok(None) && !AnyPending(last.c.participants) ==>
          forall i | 0 <= i < |last.c.participants| :: Resolved(last.c.participants[i]))
  }

  /** From a calm aborting state with no install on its way, every settling run drains. */
  lemma QuietAbortDrains(run: seq<System>, events: seq<Settling>)
    requires IsSettling(run, events) && Calm(run[0]) && NoInstall(run[0])
    ensures SettledDown(run, events)
  {
    hide Calm, NextRequest, Resolved, Settles, Total, Shaped, NoInstall;
    QuietStepsAreBounded(run, events, |events|);
    ShapedLengths(run[0]);
    TotalIsBounded(Nodes(run[0]));
    SilenceMeansResolved(run[|events|]);
  }

  lemma ShapedLengths(s: System)
    requires Shaped(s)
    ensures |s.c.participants| == |s.devices| == |s.slots| == |s.seen|
  {
  }
}
