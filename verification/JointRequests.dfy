/** The coordinator's own steps keep the joint invariant, and so does every run. */
module JointRequests {
  import opened Wrappers
  import opened ParticipantSchedule
  import opened CoordinatorModel
  import opened CoordinatorRuns
  import opened StartTiming
  import opened DeviceModel
  import opened JointSystem
  import opened JointProofs
  import Ordering

  /** One participant either stays as it is or begins one legal request. */
  ghost predicate NodeBegun(x: Context, n: Node, m: Node) {
    || m == n
    || (&& n.slot == Free && m.slot.Sent?
        && Begins(x, n.pc, m.pc.control, m.slot.operation)
        && m == n.(pc := n.pc.(control := m.pc.control), slot := m.slot))
  }

  lemma BeginKeepsReport(x: Context, n: Node, m: Node)
    requires NodeBegun(x, n, m)
    ensures m.pc.control.report == n.pc.control.report
    ensures m.pc.deviceId == n.pc.deviceId && m.device == n.device && m.seen == n.seen && m.pc.planned == n.pc.planned
  {
  }

  lemma ContextUnmoved(s: System, t: System)
    requires Shaped(s) && |t.devices| == |t.slots| == |t.seen| == |t.c.participants| == |s.devices|
    requires SameGlobals(s.c, t.c)
    requires forall i | 0 <= i < |s.devices| :: NodeBegun(ContextOf(s), NodeAt(s, i), NodeAt(t, i))
    ensures ContextOf(t) == ContextOf(s) && t.devices == s.devices && t.seen == s.seen && Shaped(t)
  {
    forall i | 0 <= i < |s.devices|
      ensures t.devices[i] == s.devices[i] && t.seen[i] == s.seen[i]
      ensures t.c.participants[i].control.report == s.c.participants[i].control.report
      ensures t.c.participants[i].deviceId == s.c.participants[i].deviceId
    {
      BeginKeepsReport(ContextOf(s), NodeAt(s, i), NodeAt(t, i));
    }
    assert t.devices == s.devices && t.seen == s.seen;
    assert AnyUnreported(t.c.participants) == AnyUnreported(s.c.participants);
  }

  lemma BegunKeepsInv(s: System, t: System)
    requires Inv(s) && |t.devices| == |t.slots| == |t.seen| == |t.c.participants| == |s.devices|
    requires SameGlobals(s.c, t.c)
    requires forall i | 0 <= i < |s.devices| :: NodeBegun(ContextOf(s), NodeAt(s, i), NodeAt(t, i))
    ensures Inv(t)
  {
    ContextUnmoved(s, t);
    forall i | 0 <= i < |t.devices|
      ensures NodeInv(ContextOf(t), NodeAt(t, i))
    {
      assert NodeInv(ContextOf(s), NodeAt(s, i));
      if NodeAt(t, i) != NodeAt(s, i) {
        NodeAfterBegin(ContextOf(s), NodeAt(s, i), NodeAt(t, i).pc.control, NodeAt(t, i).slot.operation);
      }
    }
  }

  lemma IdleSlotIsFree(x: Context, n: Node)
    requires NodeInv(x, n) && n.pc.control.pending.None?
    ensures n.slot == Free
  {
  }

  /** Asking for the next request changes nothing, or sends one decided request to one idle participant. */
  lemma NextChanges(s: System, t: System) returns (sends: bool, k: nat, q: Participant, operation: ScheduleOperation)
    requires Shaped(s) && Step(s, Coordinate(Next), t)
    ensures |t.slots| == |s.slots|
    ensures !sends ==> t.c == s.c && t.slots == s.slots
    ensures sends ==>
              && k < |s.slots|
              && s.c.participants[k].control.pending.None?
              && Decide(s.c.participants[k], s.c.intent, InitialRound(s.c)) == Ok(Some((q, operation)))
              && t.c == SetControl(s.c, k, q)
              && t.slots == s.slots[k := Sent(operation)]
  {
    var (after, result) := NextRequest(s.c);
    sends := result.Ok? && result.value.Some?;
    if sends {
      var found := Scan(s.c.participants, s.c.intent, InitialRound(s.c), 0).value.value;
      k, q, operation := found.0, found.1, found.2;
      OneRequestSlot(s, k, operation, t);
    } else {
      SilentSlots(s, Next, t);
      k, q, operation := 0, s.c.participants[0].control, JobStatus;
    }
  }

  lemma OneRequestSlot(s: System, k: nat, operation: ScheduleOperation, t: System)
    requires Shaped(s) && k < |s.slots| == |t.slots|
    requires forall i | 0 <= i < |s.slots| ::
               SlotFollows([Request(s.c.participants[k].deviceId, operation)], s.c.participants[i].deviceId, s.slots[i], t.slots[i])
    ensures t.slots == s.slots[k := Sent(operation)]
  {
    var sent := [Request(s.c.participants[k].deviceId, operation)];
    forall i | 0 <= i < |s.slots|
      ensures t.slots[i] == s.slots[k := Sent(operation)][i]
    {
      assert SlotFollows(sent, s.c.participants[i].deviceId, s.slots[i], t.slots[i]);
      assert sent[0].deviceId == s.c.participants[k].deviceId;
    }
  }

  lemma NextBegins(s: System, t: System, i: nat)
    requires Inv(s) && Step(s, Coordinate(Next), t) && i < |s.devices|
    ensures |t.c.participants| == |s.devices|
    ensures NodeBegun(ContextOf(s), NodeAt(s, i), NodeAt(t, i))
  {
    var sends, k, q, operation := NextChanges(s, t);
    if sends && i == k {
      DecidedBegins(s.c, ContextOf(s), k);
      IdleSlotIsFree(ContextOf(s), NodeAt(s, k));
    }
  }

  lemma StatusRoundBegins(s: System, t: System, i: nat)
    requires Inv(s) && Step(s, Coordinate(StatusRound), t) && i < |s.devices|
    ensures |t.c.participants| == |s.devices|
    ensures NodeBegun(ContextOf(s), NodeAt(s, i), NodeAt(t, i))
  {
    var sent := Advance(s.c, StatusRound).1;
    if AnyPending(s.c.participants) {
      assert sent == [];
      assert t.slots[i] == s.slots[i];
    } else {
      IdleSlotIsFree(ContextOf(s), NodeAt(s, i));
      assert sent[i] == Request(s.c.participants[i].deviceId, JobStatus);
      assert t.slots[i] == Sent(JobStatus);
    }
  }

  lemma RenewalsMatch(c: Coordinator, renewals: seq<LeaseRenewal>, i: nat)
    requires BeginLeaseRenewal(c, renewals).1.Ok? && i < |c.participants|
    ensures var (after, result) := BeginLeaseRenewal(c, renewals);
            var ordered := Ordering.Sort(RenewalKey, renewals);
            && c.participants[i].control.pending.None?
            && |result.value| == |c.participants| == |ordered| == |after.participants|
            && ordered[i].deviceId == c.participants[i].deviceId
            && var begun := BeginLeaseRenew(c.participants[i].control, ordered[i].leaseExpiry);
               && begun.Ok?
               && after.participants[i] == c.participants[i].(control := begun.value.0)
               && result.value[i] == Request(c.participants[i].deviceId, begun.value.1)
               && begun.value.1.JobLeaseRenew? && begun.value.1.leaseExpiry == ordered[i].leaseExpiry
  {
    hide GlobalPhaseOf, StageRenewals, Ordering.Sort, Ordering.Insert, Phase;
    assert c.participants[i].control.pending.None?;
  }

  lemma RenewalRequests(c: Coordinator, renewals: seq<LeaseRenewal>)
    requires BeginLeaseRenewal(c, renewals).1.Ok?
    ensures var sent := BeginLeaseRenewal(c, renewals).1.value;
            && |sent| == |c.participants|
            && forall i | 0 <= i < |sent| :: sent[i].deviceId == c.participants[i].deviceId
  {
    forall i | 0 <= i < |c.participants|
      ensures |BeginLeaseRenewal(c, renewals).1.value| == |c.participants|
      ensures BeginLeaseRenewal(c, renewals).1.value[i].deviceId == c.participants[i].deviceId
    {
      RenewalsMatch(c, renewals, i);
    }
  }

  /** A granted renewal round sends every participant its own renewal. */
  lemma RenewalChanges(s: System, renewals: seq<LeaseRenewal>, t: System, i: nat) returns (lease: nat)
    requires Shaped(s) && Step(s, Coordinate(Renew(renewals)), t) && i < |s.devices|
    requires BeginLeaseRenewal(s.c, renewals).1.Ok?
    ensures |t.c.participants| == |s.devices| && s.c.participants[i].control.pending.None?
    ensures var begun := BeginLeaseRenew(s.c.participants[i].control, lease);
            && begun.Ok?
            && t.c.participants[i] == s.c.participants[i].(control := begun.value.0)
            && t.slots[i] == Sent(begun.value.1)
            && begun.value.1.JobLeaseRenew? && begun.value.1.leaseExpiry == lease
  {
    hide BeginLeaseRenewal, BeginLeaseRenew, Ordering.Sort;
    RenewalRequests(s.c, renewals);
    RenewalsMatch(s.c, renewals, i);
    lease := Ordering.Sort(RenewalKey, renewals)[i].leaseExpiry;
    var (after, result) := BeginLeaseRenewal(s.c, renewals);
    RequestSlot(s.c.participants, result.value, i, s.slots[i], t.slots[i]);
  }

  lemma RenewedNodeBegins(x: Context, n: Node, m: Node, lease: nat)
    requires NodeInv(x, n) && BeginLeaseRenew(n.pc.control, lease).Ok?
    requires var begun := BeginLeaseRenew(n.pc.control, lease).value;
             begun.1.JobLeaseRenew? && begun.1.leaseExpiry == lease
             && m == n.(pc := n.pc.(control := begun.0), slot := Sent(begun.1))
    ensures NodeBegun(x, n, m)
  {
    IdleSlotIsFree(x, n);
  }

  lemma RenewalBegins(s: System, renewals: seq<LeaseRenewal>, t: System, i: nat)
    requires Inv(s) && Step(s, Coordinate(Renew(renewals)), t) && i < |s.devices|
    ensures |t.c.participants| == |s.devices|
    ensures NodeBegun(ContextOf(s), NodeAt(s, i), NodeAt(t, i))
  {
    hide BeginLeaseRenewal, NodeInv;
    if BeginLeaseRenewal(s.c, renewals).1.Err? {
      RefusedRenewalIsSilent(s, renewals, t);
    } else {
      var lease := RenewalChanges(s, renewals, t, i);
      RenewedNodeBegins(ContextOf(s), NodeAt(s, i), NodeAt(t, i), lease);
    }
  }

  lemma RefusedRenewalIsSilent(s: System, renewals: seq<LeaseRenewal>, t: System)
    requires Shaped(s) && Step(s, Coordinate(Renew(renewals)), t)
    requires BeginLeaseRenewal(s.c, renewals).1.Err?
    ensures t == s
  {
    SilentSlots(s, Renew(renewals), t);
  }

  /** With distinct device identities, the request at position `i` of a full round is the one sent to `i`. */
  lemma RequestSlot(ps: seq<ParticipantCoordinator>, sent: seq<Request>, i: nat, before: Slot, after: Slot)
    requires |sent| == |ps| && i < |ps|
    requires forall j, k | 0 <= j < k < |ps| :: ps[j].deviceId < ps[k].deviceId
    requires forall k | 0 <= k < |ps| :: sent[k].deviceId == ps[k].deviceId
    requires SlotFollows(sent, ps[i].deviceId, before, after)
    ensures after == Sent(sent[i].operation)
  {
    assert sent[i].deviceId == ps[i].deviceId;
    var k :| 0 <= k < |sent| && sent[k].deviceId == ps[i].deviceId && after == Sent(sent[k].operation);
    assert k == i;
  }

  // ---- Changes of intent ------------------------------------------------------------------

  lemma SilentSlots(s: System, e: Event, t: System)
    requires Shaped(s) && Step(s, Coordinate(e), t) && Advance(s.c, e).1 == []
    ensures t.slots == s.slots
  {
    assert forall i | 0 <= i < |s.slots| :: t.slots[i] == s.slots[i];
  }

  lemma InstalledViewIsInstalled(x: Context, n: Node)
    requires NodeInv(x, n) && Phase(n.pc.control) == ParticipantPhase.Installed
    ensures n.device.installed.Some?
  {
    ViewPhase(n);
  }

  /** All participants shown installed means all devices hold their commits. */
  lemma InstalledPhaseIsTrue(s: System)
    requires Inv(s) && GlobalPhaseOf(s.c) == GInstalled
    ensures AllInstalled(s)
  {
    forall i | 0 <= i < |s.devices|
      ensures s.devices[i].installed.Some?
    {
      assert NodeInv(ContextOf(s), NodeAt(s, i));
      PhaseFixesIntent(s.c);
      assert Phase(s.c.participants[i].control) == ParticipantPhase.Installed;
      InstalledViewIsInstalled(ContextOf(s), NodeAt(s, i));
    }
  }

  /** A new intent or epoch leaves every node standing when each node survives the new context. */
  lemma IntentKeepsInv(s: System, t: System)
    requires Inv(s) && t.devices == s.devices && t.slots == s.slots && t.seen == s.seen
    requires t.c == s.c.(intent := t.c.intent)
    requires EpochMatchesIntent(t.c) && t.c.intent != PrepareIntent
    requires s.c.intent in {AbortIntent, CancelIntent} ==> t.c.intent in {AbortIntent, CancelIntent}
    requires t.c.intent == ConfirmIntent ==> AllInstalled(s)
    ensures Inv(t)
  {
    assert AllInstalled(t) == AllInstalled(s);
    forall i | 0 <= i < |t.devices|
      ensures NodeInv(ContextOf(t), NodeAt(t, i))
    {
      assert NodeInv(ContextOf(s), NodeAt(s, i));
      NodeKeptLater(ContextOf(s), ContextOf(t), NodeAt(s, i));
    }
  }

  lemma BindKeepsInv(s: System, nowUi: u64, targetUi: u64, inputs: seq<StartInput>, encodes: Commit -> bool, t: System)
    requires Inv(s) && Step(s, Coordinate(Bind(nowUi, targetUi, inputs, encodes)), t)
    ensures Inv(t)
  {
    SilentSlots(s, Bind(nowUi, targetUi, inputs, encodes), t);
    BindStartIsAtomic(s.c, nowUi, targetUi, inputs, encodes);
    var (after, result) := BindStart(s.c, nowUi, targetUi, inputs, encodes);
    if result.Err? {
      assert t == s;
    } else {
      BoundKeepsInv(s, targetUi, t);
    }
  }

  lemma BoundKeepsInv(s: System, targetUi: u64, t: System)
    requires Inv(s) && t.devices == s.devices && t.slots == s.slots && t.seen == s.seen
    requires s.c.target.None? && s.c.intent == PrepareIntent && GlobalPhaseOf(s.c) == GReady
    requires t.c == s.c.(participants := t.c.participants, target := Some(targetUi), intent := InstallIntent)
    requires |t.c.participants| == |s.c.participants|
    requires forall i | 0 <= i < |s.c.participants| ::
               t.c.participants[i].planned.Some?
               && t.c.participants[i] == s.c.participants[i].(planned := t.c.participants[i].planned)
    ensures Inv(t)
  {
    assert AllInstalled(t) == AllInstalled(s);
    var x := ContextOf(s);
    var y := x.(bound := true, intent := InstallIntent, initial := false);
    assert y == ContextOf(t);
    forall i | 0 <= i < |t.devices|
      ensures NodeInv(y, NodeAt(t, i))
    {
      assert NodeInv(x, NodeAt(s, i));
      NodeAfterBind(x, y, NodeAt(s, i), t.c.participants[i].planned.value);
    }
  }

  lemma CoordinateKeepsInv(s: System, e: Event, t: System)
    requires Inv(s) && Step(s, Coordinate(e), t)
    ensures Inv(t)
  {
    hide NodeInv, NodeBegun, NextRequest, BeginLeaseRenewal, CoordinatorModel.BeginStatusRound;
    match e
    case Next =>
      RequestsKeepGlobals(s.c, [], 0);
      forall i | 0 <= i < |s.devices|
        ensures |t.c.participants| == |s.devices| && NodeBegun(ContextOf(s), NodeAt(s, i), NodeAt(t, i))
      {
        NextBegins(s, t, i);
      }
      assert |s.devices| > 0;
      NextBegins(s, t, 0);
      BegunKeepsInv(s, t);
    case StatusRound =>
      RequestsKeepGlobals(s.c, [], 0);
      StatusRoundBegins(s, t, 0);
      forall i | 0 <= i < |s.devices|
        ensures NodeBegun(ContextOf(s), NodeAt(s, i), NodeAt(t, i))
      {
        StatusRoundBegins(s, t, i);
      }
      BegunKeepsInv(s, t);
    case Renew(renewals) =>
      RequestsKeepGlobals(s.c, renewals, 0);
      RenewalBegins(s, renewals, t, 0);
      forall i | 0 <= i < |s.devices|
        ensures NodeBegun(ContextOf(s), NodeAt(s, i), NodeAt(t, i))
      {
        RenewalBegins(s, renewals, t, i);
      }
      BegunKeepsInv(s, t);
    case Bind(now, target, inputs, encodes) => BindKeepsInv(s, now, target, inputs, encodes, t);
    case OpenConfirmation(now, inputs) =>
      SilentSlots(s, e, t);
      PhaseFixesIntent(s.c);
      if BeginConfirmation(s.c, now, inputs).1.Ok? {
        InstalledPhaseIsTrue(s);
        IntentKeepsInv(s, t);
      } else {
        assert t == s;
      }
    case StartAbort =>
      SilentSlots(s, e, t);
      if BeginAbortAll(s.c).1.Ok? {
        IntentKeepsInv(s, t);
      } else {
        assert t == s;
      }
    case StartCancel =>
      SilentSlots(s, e, t);
      if BeginCancelAll(s.c).1.Ok? {
        IntentKeepsInv(s, t);
      } else {
        assert t == s;
      }
  }

  lemma StepKeepsInv(s: System, m: Move, t: System)
    requires Inv(s) && Step(s, m, t)
    ensures Inv(t)
  {
    match m
    case Coordinate(e) => CoordinateKeepsInv(s, e, t);
    case Handle(i, after, ok, kind) => HandleKeepsInv(s, i, after, ok, kind, t);
    case Deliver(i) => DeliverKeepsInv(s, i, t);
    case Drop(i) => DropKeepsInv(s, i, t);
    case Tick(i, after) => TickKeepsInv(s, i, after, t);
  }

  /** The invariant holds in every state of every run. */
  lemma {:induction false} RunsKeepInv(run: seq<System>, moves: seq<Move>, k: nat)
    requires IsJointRun(run, moves) && k < |run|
    ensures Inv(run[k])
    decreases k
  {
    hide Inv, Step;
    if k == 0 {
      InitialInv(run[0]);
    } else {
      RunsKeepInv(run, moves, k - 1);
      StepKeepsInv(run[k - 1], moves[k - 1], run[k]);
    }
  }
}
