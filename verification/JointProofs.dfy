/** The invariant of the joint system is inductive, so it holds along every run. */
module JointProofs {
  import opened Wrappers
  import opened ParticipantSchedule
  import opened CoordinatorModel
  import opened CoordinatorRuns
  import opened StartTiming
  import opened DeviceModel
  import opened JointSystem
  import Ordering

  // ---- A reply arrives, or is given up ----------------------------------------------------

  lemma OwnReportIsNotForeign(d: Device, descriptor: Descriptor, token: nat)
    ensures !ReplaceableForeignTerminal(descriptor, ReportOf(d, descriptor, token))
  {
  }

  /** What accepting a truthful reply does to the machine. */
  lemma AcceptedControl(p: Participant, ok: bool, kind: ReplyKind, snapshot: Device)
    requires p.pending.Some?
    ensures var q := AcceptResponse(p, Response(ok, BodyOf(kind, snapshot, p))).0;
            var report := ReportOf(snapshot, p.descriptor, p.preparedToken);
            if kind == WithReport && Retains(p, report) then
              q == p.(pending := None, report := Some(report), reconciliationRequired := false)
            else
              q == p.(pending := None,
                      reconciliationRequired := p.reconciliationRequired || Mutates(p.pending.value))
  {
    OwnReportIsNotForeign(snapshot, p.descriptor, p.preparedToken);
  }

  function Delivered(n: Node): Node
    requires n.slot.Answered?
  {
    var p := n.pc.control;
    Node(n.pc.(control := AcceptResponse(p, Response(n.slot.ok, BodyOf(n.slot.kind, n.slot.snapshot, p))).0),
         n.device, Free, SeenAfter(p, n.seen, n.slot.kind, n.slot.snapshot))
  }

  lemma NodeAfterDeliver(x: Context, y: Context, n: Node)
    requires NodeInv(x, n) && n.slot.Answered? && Later(x, y)
    requires SeenFault(Delivered(n).seen) ==> y.faultCleanup
    ensures NodeInv(y, Delivered(n))
  {
    var p := n.pc.control;
    AcceptedControl(p, n.slot.ok, n.slot.kind, n.slot.snapshot);
  }

  lemma NodeAfterDrop(x: Context, n: Node)
    requires NodeInv(x, n)
    ensures NodeInv(x, n.(pc := n.pc.(control := AbandonPending(n.pc.control).0), slot := Free))
  {
  }

  // ---- Steps of the whole system ----------------------------------------------------------

  lemma InitialInv(s: System)
    requires Initial(s)
    ensures Inv(s)
  {
  }

  lemma SameInstalled(s: System, t: System)
    requires |s.devices| == |t.devices|
    requires forall j | 0 <= j < |s.devices| :: s.devices[j].installed.Some? ==> t.devices[j].installed.Some?
    ensures AllInstalled(s) ==> AllInstalled(t)
    ensures (forall j | 0 <= j < |s.devices| :: t.devices[j].installed.Some? ==> s.devices[j].installed.Some?) ==>
              AllInstalled(s) == AllInstalled(t)
  {
  }

  lemma TickKeepsInv(s: System, i: nat, after: Device, t: System)
    requires Inv(s) && Step(s, Tick(i, after), t)
    ensures Inv(t)
  {
    assert NodeInv(ContextOf(s), NodeAt(s, i));
    TickLeads(s.devices[i], after);
    hide *;
    SameInstalled(s, t);
    assert ContextOf(t) == ContextOf(s);
    forall j | 0 <= j < |t.devices|
      ensures NodeInv(ContextOf(t), NodeAt(t, j))
    {
      assert NodeInv(ContextOf(s), NodeAt(s, j));
      if j == i {
        NodeAfterTick(ContextOf(s), NodeAt(s, i), after);
        assert NodeAt(t, i) == NodeAt(s, i).(device := after);
      } else {
        assert NodeAt(t, j) == NodeAt(s, j);
      }
    }
  }

  lemma NodeIsValid(x: Context, n: Node)
    requires NodeInv(x, n)
    ensures ValidDevice(n.device)
  {
  }

  lemma LeadsKeepsInstalled(d: Device, e: Device)
    requires Leads(d, e)
    ensures d.installed.Some? ==> e.installed.Some?
  {
  }

  lemma HandleKeepsInv(s: System, i: nat, after: Device, ok: bool, kind: ReplyKind, t: System)
    requires Inv(s) && Step(s, Handle(i, after, ok, kind), t)
    ensures Inv(t)
  {
    hide NodeInv, Handles, AnyUnreported, Leads, WellFormed;
    assert NodeInv(ContextOf(s), NodeAt(s, i));
    NodeIsValid(ContextOf(s), NodeAt(s, i));
    HandleLeads(s.devices[i], s.slots[i].operation, after);
    LeadsKeepsInstalled(s.devices[i], after);
    var x, y := ContextOf(s), ContextOf(t);
    SameInstalled(s, t);
    forall j | 0 <= j < |t.devices|
      ensures NodeInv(y, NodeAt(t, j))
    {
      assert NodeInv(x, NodeAt(s, j));
      if j == i {
        NodeAfterHandle(x, y, NodeAt(s, i), after, ok, kind);
        assert NodeAt(t, i) == NodeAt(s, i).(device := after, slot := Answered(ok, kind, after));
      } else {
        NodeKeptLater(x, y, NodeAt(s, j));
        assert NodeAt(t, j) == NodeAt(s, j);
      }
    }
  }

  lemma DropKeepsInv(s: System, i: nat, t: System)
    requires Inv(s) && Step(s, Drop(i), t)
    ensures Inv(t)
  {
    hide NodeInv, ViewInv, CommitInv;
    var q := AbandonPending(s.c.participants[i].control).0;
    assert q.report == s.c.participants[i].control.report;
    assert AnyUnreported(t.c.participants) <==> AnyUnreported(s.c.participants) by {
      assert forall j | 0 <= j < |t.c.participants| ::
        t.c.participants[j].control.report == s.c.participants[j].control.report;
    }
    assert ContextOf(t) == ContextOf(s);
    forall j | 0 <= j < |t.devices|
      ensures NodeInv(ContextOf(t), NodeAt(t, j))
    {
      assert NodeInv(ContextOf(s), NodeAt(s, j));
      if j == i {
        NodeAfterDrop(ContextOf(s), NodeAt(s, i));
      } else {
        assert NodeAt(t, j) == NodeAt(s, j);
      }
    }
  }

  lemma DeliveredPhase(x: Context, n: Node)
    requires NodeInv(x, n) && n.slot.Answered?
    ensures var m := Delivered(n);
            (Phase(m.pc.control) == ParticipantPhase.Faulted) == SeenFault(m.seen)
            && (m.pc.control.report.None? <==> m.seen.None?)
            && (n.seen.Some? ==> m.seen.Some?)
            && (m.seen.Some? ==> m.seen == n.seen || m.seen == Some(n.slot.snapshot))
  {
    AcceptedControl(n.pc.control, n.slot.ok, n.slot.kind, n.slot.snapshot);
    var m := Delivered(n);
    if m.seen.Some? {
      PhaseOfTruthfulReport(m.seen.value, m.pc.control.descriptor, m.pc.control.preparedToken, m.pc.control.commit.Some?);
    }
  }

  /** Delivery changes one machine, then decides whether a fault was observed. */
  lemma DeliverChanges(s: System, i: nat, t: System)
    requires Shaped(s) && Step(s, Deliver(i), t)
    ensures t.c.participants == s.c.participants[i := Delivered(NodeAt(s, i)).pc]
    ensures var after := s.c.(participants := t.c.participants);
            t.c == if !InitialRound(s.c) || !AnyUnreported(t.c.participants) then ActivateFaultCleanup(after) else after
    ensures NodeAt(t, i) == Delivered(NodeAt(s, i))
    ensures forall j | 0 <= j < |t.devices| && j != i :: NodeAt(t, j) == NodeAt(s, j)
  {
  }

  lemma ReportsStay(s: System, i: nat, t: System)
    requires Shaped(s) && Shaped(t) && |s.devices| == |t.devices| && i < |s.devices|
    requires forall j | 0 <= j < |t.devices| && j != i :: NodeAt(t, j) == NodeAt(s, j)
    requires s.c.participants[i].control.report.Some? ==> t.c.participants[i].control.report.Some?
    ensures AnyUnreported(t.c.participants) ==> AnyUnreported(s.c.participants)
  {
    if AnyUnreported(t.c.participants) {
      var j :| 0 <= j < |t.c.participants| && t.c.participants[j].control.report.None?;
      assert NodeAt(s, j).pc.control.report.None?;
    }
  }

  lemma SeenIsReported(x: Context, n: Node)
    requires NodeInv(x, n)
    ensures n.pc.control.report.None? <==> n.seen.None?
  {
  }

  /** Whenever a delivered reply shows a fault, cleanup becomes active in the same step. */
  lemma DeliverActivates(s: System, i: nat, t: System)
    requires Shaped(s) && Step(s, Deliver(i), t) && Shaped(t)
    requires NodeInv(ContextOf(s), NodeAt(s, i))
    ensures SeenFault(t.seen[i]) ==> t.c.faultCleanup
    ensures Later(ContextOf(s), ContextOf(t))
  {
    hide NodeInv, AcceptResponse, Phase, WellFormed, Leads;
    var n := NodeAt(s, i);
    DeliverChanges(s, i, t);
    DeliveredPhase(ContextOf(s), n);
    SeenIsReported(ContextOf(s), n);
    ReportsStay(s, i, t);
    SameInstalled(s, t);
    if SeenFault(t.seen[i]) {
      assert Phase(t.c.participants[i].control) == ParticipantPhase.Faulted;
      if InitialRound(s.c) && AnyUnreported(t.c.participants) {
        BlankIsNotFaulted(ContextOf(s), n);
      }
    }
  }

  lemma BlankIsNotFaulted(x: Context, n: Node)
    requires NodeInv(x, n) && n.slot.Answered? && x.initial
    ensures !SeenFault(Delivered(n).seen)
  {
    DeliveredPhase(x, n);
  }

  lemma DeliverKeepsInv(s: System, i: nat, t: System)
    requires Inv(s) && Step(s, Deliver(i), t)
    ensures Inv(t)
  {
    hide NodeInv, AcceptResponse, Phase, AnyUnreported, Leads;
    var x, y := ContextOf(s), ContextOf(t);
    assert NodeInv(x, NodeAt(s, i));
    DeliverChanges(s, i, t);
    DeliverActivates(s, i, t);
    forall j | 0 <= j < |t.devices|
      ensures NodeInv(y, NodeAt(t, j))
    {
      assert NodeInv(x, NodeAt(s, j));
      if j == i {
        NodeAfterDeliver(x, y, NodeAt(s, i));
      } else {
        NodeKeptLater(x, y, NodeAt(s, j));
      }
    }
    DeliverKeepsDead(s, i, t);
  }

  lemma DeliveredStaysDead(x: Context, n: Node)
    requires NodeInv(x, n) && n.slot.Answered?
    ensures Dead(n.seen) ==> Dead(Delivered(n).seen)
  {
    DeliveredPhase(x, n);
  }

  lemma FaultedViewIsDead(x: Context, n: Node)
    requires NodeInv(x, n) && n.slot.Answered? && Phase(Delivered(n).pc.control) == ParticipantPhase.Faulted
    ensures Dead(Delivered(n).seen)
  {
    DeliveredPhase(x, n);
  }

  lemma ShownFaultIsDead(x: Context, n: Node)
    requires NodeInv(x, n) && Phase(n.pc.control) == ParticipantPhase.Faulted
    ensures Dead(n.seen)
  {
    ViewPhase(n);
  }

  /** Cleanup is only ever active beside a participant that will never be shown complete. */
  lemma DeliverKeepsDead(s: System, i: nat, t: System)
    requires Inv(s) && Step(s, Deliver(i), t)
    ensures t.c.faultCleanup ==> exists j | 0 <= j < |t.seen| :: Dead(t.seen[j])
  {
    hide NodeInv, AcceptResponse, Phase, Leads, Dead;
    var x := ContextOf(s);
    DeliverChanges(s, i, t);
    assert NodeInv(x, NodeAt(s, i));
    DeliveredStaysDead(x, NodeAt(s, i));
    assert t.seen[i] == Delivered(NodeAt(s, i)).seen;
    if s.c.faultCleanup {
      var j :| 0 <= j < |s.seen| && Dead(s.seen[j]);
      assert j != i ==> NodeAt(t, j) == NodeAt(s, j);
      assert Dead(t.seen[j]);
    } else if t.c.faultCleanup {
      var j :| 0 <= j < |t.c.participants| && Phase(t.c.participants[j].control) == ParticipantPhase.Faulted;
      if j == i {
        FaultedViewIsDead(x, NodeAt(s, i));
      } else {
        assert NodeAt(t, j) == NodeAt(s, j);
        assert NodeInv(x, NodeAt(s, j));
        ShownFaultIsDead(x, NodeAt(s, j));
      }
      assert Dead(t.seen[j]);
    }
  }
}
