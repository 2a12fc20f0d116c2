/** What every run of coordinator, devices and lossy channel guarantees. */
module JointTheorems {
  import opened Wrappers
  import opened ParticipantSchedule
  import opened CoordinatorModel
  import opened CoordinatorRuns
  import opened DeviceModel
  import opened JointSystem
  import opened JointProofs
  import opened JointRequests

  // ---- All-or-nothing start ---------------------------------------------------------------

  lemma StartedMeansInstalled(s: System, i: nat, j: nat)
    requires Inv(s) && i < |s.devices| && j < |s.devices|
    requires s.devices[i].stage in STARTED
    ensures s.devices[j].installed.Some?
    ensures s.c.participants[j].planned == s.devices[j].installed
  {
    assert NodeInv(ContextOf(s), NodeAt(s, i));
    assert NodeInv(ContextOf(s), NodeAt(s, j));
  }

  /** If any device is confirmed, priming, running or complete, every device has installed its own exact planned commit. */
  lemma AllOrNothingStart(run: seq<System>, moves: seq<Move>, k: nat, i: nat)
    requires IsJointRun(run, moves) && k < |run| && i < |run[k].devices|
    requires run[k].devices[i].stage in STARTED
    ensures forall j | 0 <= j < |run[k].devices| ::
              && run[k].devices[j].installed.Some?
              && j < |run[k].c.participants|
              && run[k].c.participants[j].planned == run[k].devices[j].installed
              && run[k].c.participants[j].control.commit == run[k].devices[j].installed
  {
    RunsKeepInv(run, moves, k);
    forall j | 0 <= j < |run[k].devices|
      ensures run[k].devices[j].installed.Some? && j < |run[k].c.participants|
      ensures run[k].c.participants[j].planned == run[k].devices[j].installed
      ensures run[k].c.participants[j].control.commit == run[k].devices[j].installed
    {
      StartedMeansInstalled(run[k], i, j);
      assert NodeInv(ContextOf(run[k]), NodeAt(run[k], j));
    }
  }

  // ---- Faults are never laundered ---------------------------------------------------------

  predicate CleanupPhase(phase: GlobalPhase) {
    phase in {GFaulted, GAborting, GIrrevocable, GCancelling}
  }

  lemma SafeIsClean(ps: seq<ParticipantCoordinator>)
    ensures AllSafe(ps) ==> AllCleaned(ps)
  {
    forall i | 0 <= i < |ps| && SafeAfterAbort(ps[i])
      ensures TerminalAfterFaultCleanup(ps[i])
    {
    }
  }

  lemma StoppedOrCompletedIsClean(x: Context, n: Node)
    requires NodeInv(x, n) && (Stopped(n.pc) || Completed(n.pc))
    ensures TerminalAfterFaultCleanup(n.pc)
  {
    ViewPhase(n);
  }

  lemma DeadIsNotComplete(x: Context, n: Node)
    requires NodeInv(x, n) && Dead(n.seen)
    ensures Phase(n.pc.control) != ParticipantPhase.Complete
  {
    ViewPhase(n);
  }

  lemma UncommittedUnlessBound(x: Context, n: Node)
    requires NodeInv(x, n) && !x.bound
    ensures n.pc.control.commit.None?
  {
  }

  /** While fault cleanup is active the only terminal phase is Faulted. */
  lemma CleanupEndsFaulted(s: System)
    requires Inv(s) && s.c.faultCleanup
    ensures CleanupPhase(GlobalPhaseOf(s.c))
  {
    var ps := s.c.participants;
    var d :| 0 <= d < |s.seen| && Dead(s.seen[d]);
    DeadIsNotComplete(ContextOf(s), NodeAt(s, d));
    assert !All(ps, ParticipantPhase.Complete);
    if s.c.intent == AbortIntent {
      SafeIsClean(ps);
      if SplitIsTerminal(ps) {
        forall i | 0 <= i < |ps|
          ensures TerminalAfterFaultCleanup(ps[i])
        {
          StoppedOrCompletedIsClean(ContextOf(s), NodeAt(s, i));
        }
      }
    } else {
      if AllAbsentOrCancelled(ps) {
        forall i | 0 <= i < |ps|
          ensures TerminalAfterFaultCleanup(ps[i])
        {
          UncommittedUnlessBound(ContextOf(s), NodeAt(s, i));
        }
      }
    }
  }

  lemma StepKeepsCleanup(s: System, m: Move, t: System)
    requires Inv(s) && Step(s, m, t) && s.c.faultCleanup
    ensures t.c.faultCleanup && t.c.intent == s.c.intent && t.c.target == s.c.target
  {
    hide NodeInv, BeginLeaseRenewal, NextRequest, CoordinatorModel.BeginStatusRound, AcceptResponse, Phase;
    match m
    case Coordinate(e) =>
      PhaseFixesIntent(s.c);
      match e {
        case Next => RequestsKeepGlobals(s.c, [], 0);
        case StatusRound => RequestsKeepGlobals(s.c, [], 0);
        case Renew(renewals) => RequestsKeepGlobals(s.c, renewals, 0);
        case _ =>
      }
    case Handle(_, _, _, _) =>
    case Deliver(i) => DeliverChanges(s, i, t);
    case Drop(_) =>
    case Tick(_, _) =>
  }

  /** Once a fault was observed, cleanup, intent and epoch never change, and no success or clean stop is ever reported. */
  lemma {:induction false} FaultsAreNeverLaundered(run: seq<System>, moves: seq<Move>, k: nat, l: nat)
    requires IsJointRun(run, moves) && k <= l < |run| && run[k].c.faultCleanup
    ensures run[l].c.faultCleanup
    ensures run[l].c.intent == run[k].c.intent && run[l].c.intent in {AbortIntent, CancelIntent}
    ensures CleanupPhase(GlobalPhaseOf(run[l].c))
    decreases l
  {
    hide Step;
    RunsKeepInv(run, moves, l);
    CleanupEndsFaulted(run[l]) by {
      if k < l {
        FaultsAreNeverLaundered(run, moves, k, l - 1);
        RunsKeepInv(run, moves, l - 1);
        StepKeepsCleanup(run[l - 1], moves[l - 1], run[l]);
      }
    }
    if k < l {
      FaultsAreNeverLaundered(run, moves, k, l - 1);
      RunsKeepInv(run, moves, l - 1);
      StepKeepsCleanup(run[l - 1], moves[l - 1], run[l]);
    }
  }

  // ---- Lease safety -----------------------------------------------------------------------

  lemma ReportedLeaseIsHeld(x: Context, n: Node)
    requires NodeInv(x, n) && ReportedLease(n.pc).Some?
    ensures n.device.installed.Some? && n.pc.control.authorizedLease.Some?
    ensures ReportedLease(n.pc).value <= n.device.lease <= n.pc.control.authorizedLease.value
  {
  }

  /** Reported lease <= device lease <= browser-authorized lease, in every state of every run. */
  lemma LeaseSafety(run: seq<System>, moves: seq<Move>, k: nat, i: nat)
    requires IsJointRun(run, moves) && k < |run| && i < |run[k].devices| == |run[k].c.participants|
    ensures run[k].devices[i].installed.Some? ==>
              && run[k].c.participants[i].control.authorizedLease.Some?
              && run[k].devices[i].lease <= run[k].c.participants[i].control.authorizedLease.value
    ensures ReportedLease(run[k].c.participants[i]).Some? ==>
              && run[k].devices[i].installed.Some?
              && ReportedLease(run[k].c.participants[i]).value <= run[k].devices[i].lease
  {
    RunsKeepInv(run, moves, k);
    var n := NodeAt(run[k], i);
    assert NodeInv(ContextOf(run[k]), n);
    if ReportedLease(n.pc).Some? {
      ReportedLeaseIsHeld(ContextOf(run[k]), n);
    }
  }

  ghost predicate LeaseGrows(a: ParticipantCoordinator, b: ParticipantCoordinator) {
    a.control.authorizedLease.Some? ==>
      b.control.authorizedLease.Some? && a.control.authorizedLease.value <= b.control.authorizedLease.value
  }

  lemma BegunLeaseGrows(x: Context, n: Node, m: Node)
    requires NodeInv(x, n) && NodeBegun(x, n, m) && (x.intent == ConfirmIntent ==> x.allInstalled)
    ensures LeaseGrows(n.pc, m.pc)
  {
    if m != n {
      NodeAfterBegin(x, n, m.pc.control, m.slot.operation);
    }
  }

  lemma CoordinateKeepsLeases(s: System, e: Event, t: System, i: nat)
    requires Inv(s) && Step(s, Coordinate(e), t) && i < |s.devices|
    ensures |t.c.participants| == |s.devices| && LeaseGrows(s.c.participants[i], t.c.participants[i])
  {
    hide NodeInv, NodeBegun, BeginLeaseRenewal, NextRequest, CoordinatorModel.BeginStatusRound, Phase;
    match e
    case Next => NextBegins(s, t, i); BegunLeaseGrows(ContextOf(s), NodeAt(s, i), NodeAt(t, i));
    case StatusRound => StatusRoundBegins(s, t, i); BegunLeaseGrows(ContextOf(s), NodeAt(s, i), NodeAt(t, i));
    case Renew(renewals) => RenewalBegins(s, renewals, t, i); BegunLeaseGrows(ContextOf(s), NodeAt(s, i), NodeAt(t, i));
    case _ =>
  }

  lemma DeliverKeepsLeases(s: System, i: nat, t: System, j: nat)
    requires Inv(s) && Step(s, Deliver(i), t) && j < |s.devices|
    ensures |t.c.participants| == |s.devices| && LeaseGrows(s.c.participants[j], t.c.participants[j])
  {
    DeliverChanges(s, i, t);
    assert NodeInv(ContextOf(s), NodeAt(s, i));
    AcceptedControl(s.c.participants[i].control, s.slots[i].ok, s.slots[i].kind, s.slots[i].snapshot);
  }

  lemma StepKeepsLeases(s: System, m: Move, t: System, j: nat)
    requires Inv(s) && Step(s, m, t) && j < |s.devices|
    ensures |t.c.participants| == |s.devices| && LeaseGrows(s.c.participants[j], t.c.participants[j])
  {
    match m
    case Coordinate(e) => CoordinateKeepsLeases(s, e, t, j);
    case Deliver(i) => DeliverKeepsLeases(s, i, t, j);
    case _ =>
  }

  /** The lease a participant is authorized for never falls. */
  lemma {:induction false} AuthorizedLeaseNeverFalls(run: seq<System>, moves: seq<Move>, k: nat, l: nat, i: nat)
    requires IsJointRun(run, moves) && k <= l < |run| && i < |run[k].c.participants|
    ensures |run[l].c.participants| == |run[k].c.participants|
    ensures LeaseGrows(run[k].c.participants[i], run[l].c.participants[i])
    decreases l
  {
    hide Step, Inv;
    if k < l {
      AuthorizedLeaseNeverFalls(run, moves, k, l - 1, i);
      RunsKeepInv(run, moves, l - 1);
      StepKeepsLeases(run[l - 1], moves[l - 1], run[l], i) by {
        InvShape(run[l - 1]);
      }
      InvShape(run[l - 1]);
    }
  }

  lemma InvShape(s: System)
    requires Inv(s)
    ensures |s.devices| == |s.c.participants|
  {
  }

  /** A renewal round opens for every participant or changes nothing; no request takes authority back. */
  lemma RenewalRoundIsAtomic(c: Coordinator, renewals: seq<LeaseRenewal>)
    ensures var (after, result) := BeginLeaseRenewal(c, renewals);
            && (result.Err? ==> after == c)
            && (result.Ok? ==>
                  && |result.value| == |c.participants| == |after.participants|
                  && forall i | 0 <= i < |c.participants| ::
                       && ReportedOrAuthorized(c.participants[i], result.value[i])
                       && after.participants[i].control.authorizedLease == Some(result.value[i].operation.leaseExpiry)
                       && after.participants[i].control.pending == Some(RenewAction))
  {
    var (after, result) := BeginLeaseRenewal(c, renewals);
    if result.Ok? {
      RenewalRequests(c, renewals);
      forall i | 0 <= i < |c.participants|
        ensures |after.participants| == |c.participants|
        ensures ReportedOrAuthorized(c.participants[i], result.value[i])
        ensures after.participants[i].control.authorizedLease == Some(result.value[i].operation.leaseExpiry)
        ensures after.participants[i].control.pending == Some(RenewAction)
      {
        RenewalsMatch(c, renewals, i);
      }
      assert |after.participants| == |c.participants| by {
        if c.participants != [] {
          RenewalsMatch(c, renewals, 0);
        }
      }
    }
  }

  /** The request exceeds what the device reported and repeats an authorized expiry only while it is unapplied. */
  ghost predicate ReportedOrAuthorized(pc: ParticipantCoordinator, request: Request) {
    && request.deviceId == pc.deviceId
    && request.operation.JobLeaseRenew?
    && pc.control.report.Some? && pc.control.report.value.schedule.Some?
    && pc.control.report.value.schedule.value.leaseExpiry < request.operation.leaseExpiry
    && (pc.control.authorizedLease.Some? ==>
          && pc.control.authorizedLease.value <= request.operation.leaseExpiry
          && (request.operation.leaseExpiry == pc.control.authorizedLease.value ==>
                pc.control.report.value.schedule.value.leaseExpiry < pc.control.authorizedLease.value))
  }
}
