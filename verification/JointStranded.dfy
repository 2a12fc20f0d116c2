/** A commit bound by the coordinator that its device never installed: such a stop ends as a fault or not at all. */
module JointStranded {
  import opened Wrappers
  import opened ParticipantSchedule
  import opened CoordinatorModel
  import opened CoordinatorRuns
  import opened DeviceModel
  import opened JointSystem
  import opened JointProofs
  import opened JointRequests
  import opened JointTheorems
  import opened JointAbort

  ghost predicate Stranded(s: System, i: nat) {
    && Inv(s) && s.c.intent == AbortIntent && i < |s.devices| == |s.c.participants|
    && StrandedNode(NodeAt(s, i))
  }

  /**
   * No report of its schedule can match the bound commit again, so it is never shown stopped or complete. It counts
   * as cleaned up exactly when an actor fault was reported beside the still prepared schedule.
   */
  lemma StrandedPhase(x: Context, n: Node)
    requires NodeInv(x, n) && StrandedNode(n)
    ensures Phase(n.pc.control) in {Installing, Cancelled, ParticipantPhase.Faulted}
    ensures TerminalAfterFaultCleanup(n.pc) <==> SeenFault(n.seen)
    ensures SeenFault(n.seen) ==> n.seen.value.stage == AtPrepared && n.seen.value.actorFault && n.device.actorFault
    ensures !SafeAfterAbort(n.pc) || SeenFault(n.seen)
    ensures !Stopped(n.pc) && !Completed(n.pc)
  {
    ViewPhase(n);
  }

  /** With someone stranded, the one way to end is Faulted, and it takes exactly this. */
  lemma StrandedEndsExactly(s: System, i: nat)
    requires Stranded(s, i)
    ensures TerminalPhase(GlobalPhaseOf(s.c)) <==> GlobalPhaseOf(s.c) == GFaulted
    ensures GlobalPhaseOf(s.c) == GFaulted <==>
              forall j | 0 <= j < |s.devices| ::
                j < |s.c.participants| == |s.slots| == |s.seen| &&
                if StrandedNode(NodeAt(s, j)) then SeenFault(s.seen[j]) else TerminalAfterFaultCleanup(s.c.participants[j])
    ensures GlobalPhaseOf(s.c) !in {GComplete, GAborted, GSplitAfterAbort, GCancelled}
  {
    hide NodeInv, Phase, AnyUnreported, StrandedNode;
    var ps := s.c.participants;
    InvIsShaped(s);
    forall j | 0 <= j < |s.devices|
      ensures StrandedNode(NodeAt(s, j)) ==> (TerminalAfterFaultCleanup(ps[j]) <==> SeenFault(s.seen[j]))
    {
      InvAt(s, j);
      if StrandedNode(NodeAt(s, j)) {
        StrandedPhase(ContextOf(s), NodeAt(s, j));
      }
    }
    InvAt(s, i);
    StrandedPhase(ContextOf(s), NodeAt(s, i));
    FaultShownMeansCleanup(ContextOf(s), NodeAt(s, i));
    assert !Completed(ps[i]) && !Stopped(ps[i]);
    if s.c.faultCleanup {
      CleanupEndsFaulted(s);
    } else {
      assert !SafeAfterAbort(ps[i]);
    }
  }

  lemma FaultShownMeansCleanup(x: Context, n: Node)
    requires NodeInv(x, n)
    ensures SeenFault(n.seen) ==> x.faultCleanup
  {
  }

  lemma BegunKeepsCommit(x: Context, n: Node, m: Node)
    requires NodeBegun(x, n, m)
    ensures n.pc.control.commit.Some? ==> m.pc.control.commit == n.pc.control.commit || m.slot.operation.JobCommit?
  {
  }

  lemma CoordinateKeepsStranded(s: System, e: Event, t: System, i: nat)
    requires Stranded(s, i) && Step(s, Coordinate(e), t) && Inv(t)
    ensures StrandedNode(NodeAt(t, i))
  {
    if t.slots[i].Sent? && t.slots[i].operation.JobCommit? {
      NoInstallWhileAborting(s, e, t, i);
    }
    PhaseFixesIntent(s.c);
    match e
    case Next => NextBegins(s, t, i); BegunKeepsCommit(ContextOf(s), NodeAt(s, i), NodeAt(t, i));
    case StatusRound => StatusRoundBegins(s, t, i); BegunKeepsCommit(ContextOf(s), NodeAt(s, i), NodeAt(t, i));
    case Renew(renewals) => RenewalBegins(s, renewals, t, i); BegunKeepsCommit(ContextOf(s), NodeAt(s, i), NodeAt(t, i));
    case _ =>
  }

  lemma HandledStaysStranded(n: Node, after: Device, ok: bool, kind: ReplyKind)
    requires StrandedNode(n) && n.slot.Sent? && Handles(n.device, n.slot.operation, after)
    ensures StrandedNode(n.(device := after, slot := Answered(ok, kind, after)))
  {
  }

  lemma DeliveredStaysStranded(x: Context, n: Node)
    requires NodeInv(x, n) && StrandedNode(n) && n.slot.Answered?
    ensures StrandedNode(Delivered(n))
  {
    AcceptedControl(n.pc.control, n.slot.ok, n.slot.kind, n.slot.snapshot);
  }

  lemma DroppedStaysStranded(n: Node)
    requires StrandedNode(n)
    ensures StrandedNode(n.(pc := n.pc.(control := AbandonPending(n.pc.control).0), slot := Free))
  {
  }

  lemma StepKeepsStranded(s: System, m: Move, t: System, i: nat)
    requires Stranded(s, i) && Step(s, m, t)
    ensures Stranded(t, i)
  {
    hide GlobalPhaseOf, Phase, AnyUnreported, NodeInv, Handles, StrandedNode, Delivered, AcceptResponse, AbandonPending, Inv;
    InvIsShaped(s);
    StepKeepsInv(s, m, t);
    AbortPersists(s, m, t);
    InvIsShaped(t);
    match m
    case Coordinate(e) => CoordinateKeepsStranded(s, e, t, i);
    case Handle(j, after, ok, kind) =>
      if j == i {
        HandledStaysStranded(NodeAt(s, i), after, ok, kind);
        assert NodeAt(t, i) == NodeAt(s, i).(device := after, slot := Answered(ok, kind, after));
      } else {
        assert NodeAt(t, i) == NodeAt(s, i);
      }
    case Deliver(j) =>
      DeliverChanges(s, j, t);
      InvAt(s, j);
      if j == i {
        DeliveredStaysStranded(ContextOf(s), NodeAt(s, i));
      }
    case Drop(j) =>
      if j == i {
        DroppedStaysStranded(NodeAt(s, i));
        assert NodeAt(t, i) == NodeAt(s, i).(pc := NodeAt(s, i).pc.(control := AbandonPending(NodeAt(s, i).pc.control).0), slot := Free);
      } else {
        assert NodeAt(t, i) == NodeAt(s, i);
      }
    case Tick(j, after) =>
      InvAt(s, j);
      TickedStaysStranded(ContextOf(s), NodeAt(s, j), after);
      assert j != i ==> NodeAt(t, i) == NodeAt(s, i);
      assert j == i ==> NodeAt(t, i) == NodeAt(s, i).(device := after);
  }

  lemma TickedStaysStranded(x: Context, n: Node, after: Device)
    requires NodeInv(x, n) && Ticks(n.device, after)
    ensures StrandedNode(n) ==> StrandedNode(n.(device := after))
  {
    TickLeads(n.device, after);
  }

  /**
   * In every continuation, of any length and with any answers, the stranded participant stays stranded: the job never
   * ends Aborted, SplitAfterAbort, Cancelled or Complete, and it ends Faulted only once the retained report of that
   * participant shows an actor fault of its device.
   */
  lemma {:induction false} StrandedEndsFaultedOrNever(run: seq<System>, moves: seq<Move>, i: nat)
    requires |run| == |moves| + 1
    requires forall k | 0 <= k < |moves| :: Shaped(run[k]) && Step(run[k], moves[k], run[k + 1])
    requires Stranded(run[0], i)
    ensures Stranded(run[|moves|], i)
    ensures TerminalPhase(GlobalPhaseOf(run[|moves|].c)) ==>
              && GlobalPhaseOf(run[|moves|].c) == GFaulted
              && i < |run[|moves|].seen| == |run[|moves|].devices|
              && SeenFault(run[|moves|].seen[i]) && run[|moves|].devices[i].actorFault
    decreases |moves|
  {
    hide Stranded, Step;
    var n := |moves|;
    if n > 0 {
      StrandedEndsFaultedOrNever(run[..n], moves[..n - 1], i);
      StepKeepsStranded(run[n - 1], moves[n - 1], run[n], i);
    }
    StrandedNeedsItsFault(run[n], i);
  }

  lemma StrandedNeedsItsFault(s: System, i: nat)
    requires Stranded(s, i)
    ensures TerminalPhase(GlobalPhaseOf(s.c)) ==>
              && GlobalPhaseOf(s.c) == GFaulted
              && i < |s.seen| == |s.devices|
              && SeenFault(s.seen[i]) && s.devices[i].actorFault
  {
    hide NodeInv, Phase, GlobalPhaseOf, TerminalAfterFaultCleanup;
    StrandedEndsExactly(s, i);
    InvIsShaped(s);
    InvAt(s, i);
    StrandedPhase(ContextOf(s), NodeAt(s, i));
  }

  /** What an operator can check before stopping: nothing in flight or ambiguous, and a participant shown Installing. */
  lemma InstallingMeansStranded(s: System, i: nat)
    requires Inv(s) && i < |s.devices| && s.slots[i] == Free
    requires !s.c.participants[i].control.reconciliationRequired
    requires s.c.intent in {InstallIntent, ConfirmIntent}
    ensures Unheld(NodeAt(s, i)) <==> Phase(s.c.participants[i].control) == Installing
    ensures !SeenFault(s.seen[i])
  {
    InvAt(s, i);
    ViewPhase(NodeAt(s, i));
  }

  lemma AbortStarts(s: System)
    requires Inv(s) && s.c.intent in {InstallIntent, ConfirmIntent} && BeginAbortAll(s.c).1.Ok?
    ensures var t := s.(c := BeginAbortAll(s.c).0); Inv(t) && t.c.intent == AbortIntent && t.c.participants == s.c.participants
  {
    IntentKeepsInv(s, s.(c := BeginAbortAll(s.c).0));
  }

  /** After a stop accepted with nothing in flight or ambiguous, the participants shown Installing are the stranded ones. */
  lemma QuietStopStrandsInstalling(s: System)
    requires Inv(s) && s.c.intent in {InstallIntent, ConfirmIntent} && BeginAbortAll(s.c).1.Ok?
    requires forall i | 0 <= i < |s.devices| ::
               s.slots[i] == Free && i < |s.c.participants| && !s.c.participants[i].control.reconciliationRequired
    ensures var t := s.(c := BeginAbortAll(s.c).0);
            && ((forall i | 0 <= i < |s.c.participants| :: Phase(s.c.participants[i].control) != Installing) <==> Calm(t))
            && (forall i | 0 <= i < |s.c.participants| ::
                  Phase(s.c.participants[i].control) == Installing <==> Stranded(t, i))
            && (!Calm(t) ==> !TerminalPhase(GlobalPhaseOf(t.c)))
  {
    hide NodeInv, Phase, GlobalPhaseOf;
    var t := s.(c := BeginAbortAll(s.c).0);
    AbortStarts(s);
    forall i | 0 <= i < |s.devices|
      ensures Unheld(NodeAt(t, i)) <==> Phase(s.c.participants[i].control) == Installing
      ensures !SeenFault(t.seen[i])
    {
      InstallingMeansStranded(s, i);
    }
    if !Calm(t) {
      var i :| 0 <= i < |t.devices| && !CalmNode(NodeAt(t, i));
      assert Stranded(t, i);
      StrandedNeedsItsFault(t, i);
    }
  }
}
