/** The coordinator as the program keeps it: one object whose methods update its fields in place. */
module DistributedCoordinator {
  import opened Wrappers
  import opened ParticipantSchedule
  import opened CoordinatorModel
  import opened StartTiming
  import Ordering

  class DistributedScheduleCoordinator {
    var participants: seq<ParticipantCoordinator>
    const globalJob: nat
    const participantSet: nat
    const timebaseHz: u64
    const durationTicks: u64
    const policy: NetworkPolicy
    var target: Option<u64>
    var intent: Intent
    var faultCleanup: bool

    /** The whole state as one value. */
    function Model(): Coordinator
      reads this
    {
      Coordinator(participants, globalJob, participantSet, timebaseHz, durationTicks, policy, target, intent, faultCleanup)
    }

    /** Construction from already validated, device-sorted participants. */
    constructor (ps: seq<ParticipantCoordinator>, globalJob: nat, participantSet: nat,
                 timebaseHz: u64, durationTicks: u64, policy: NetworkPolicy)
      requires ps != [] && forall i, j | 0 <= i < j < |ps| :: ps[i].deviceId < ps[j].deviceId
      requires forall i | 0 <= i < |ps| :: ps[i].planned == None && ps[i].control.Fresh()
      ensures CoordinatorModel.Fresh(Model()) && participants == ps && Model().policy == policy
      ensures Model().timebaseHz == timebaseHz && Model().durationTicks == durationTicks
    {
      this.participants := ps;
      this.globalJob, this.participantSet := globalJob, participantSet;
      this.timebaseHz, this.durationTicks, this.policy := timebaseHz, durationTicks, policy;
      this.target, this.intent, this.faultCleanup := None, PrepareIntent, false;
    }

    method SplitAfterAbortIsTerminal() returns (split: bool)
      ensures split == SplitIsTerminal(participants)
    {
      var stopped, completed := false, false;
      for i := 0 to |participants|
        invariant forall j | 0 <= j < i :: Stopped(participants[j]) || Completed(participants[j])
        invariant stopped <==> exists j | 0 <= j < i :: Stopped(participants[j])
        invariant completed <==> exists j | 0 <= j < i :: Completed(participants[j])
      {
        if Stopped(participants[i]) {
          stopped := true;
        } else if Completed(participants[i]) {
          completed := true;
        } else {
          return false;
        }
      }
      return stopped && completed;
    }

    /** Maps one epoch into every commit, then binds all of them at once. */
    method BindStart(nowUi: u64, targetUi: u64, inputs: seq<StartInput>, encodes: Commit -> bool)
      returns (result: Result<(), DistributedError>)
      modifies this
      ensures (Model(), result) == StartTiming.BindStart(old(Model()), nowUi, targetUi, inputs, encodes)
    {
      if GlobalPhaseOf(Model()) != GReady || target.Some? {
        return Err(BadState);
      }
      if |inputs| != |participants| {
        return Err(ParticipantSet);
      }
      var order := Ordering.Sort(InputKey, inputs);
      Ordering.SortSorts(InputKey, inputs);
      assert |order| == |multiset(order)| == |multiset(inputs)| == |inputs|;
      var planned := CollectCommits(nowUi, targetUi, order, encodes);
      if planned.Err? {
        return Err(planned.error);
      }
      participants := Planned(participants, planned.value);
      target := Some(targetUi);
      intent := InstallIntent;
      return Ok(());
    }

    /** The commits in device order, before anything is bound. */
    method CollectCommits(nowUi: u64, targetUi: u64, order: seq<StartInput>, encodes: Commit -> bool)
      returns (result: Result<seq<Commit>, DistributedError>)
      requires |order| == |participants|
      ensures result == PlanCommits(Model(), order, nowUi, targetUi, encodes, 0)
    {
      hide PlanCommit;
      var commits: seq<Commit> := [];
      PrependedEmpty(PlanCommits(Model(), order, nowUi, targetUi, encodes, 0));
      for i := 0 to |participants|
        invariant |commits| == i
        invariant PlanCommits(Model(), order, nowUi, targetUi, encodes, 0)
                  == Prepended(commits, PlanCommits(Model(), order, nowUi, targetUi, encodes, i))
      {
        var planned := PlanCommit(Model(), participants[i], order[i], nowUi, targetUi, encodes);
        if planned.Err? {
          return Err(planned.error);
        }
        PrependedAppends(commits, planned.value, PlanCommits(Model(), order, nowUi, targetUi, encodes, i + 1));
        commits := commits + [planned.value];
      }
      assert commits + [] == commits;
      return Ok(commits);
    }

    method DeadlineWindow(nowUi: u64, inputs: seq<StartInput>) returns (result: Result<DeadlineWindow, DistributedError>)
      ensures result == DeadlineWindowOf(Model(), nowUi, inputs)
    {
      if target.None? || |inputs| != |participants| {
        return Err(BadState);
      }
      var order := Ordering.Sort(InputKey, inputs);
      Ordering.SortSorts(InputKey, inputs);
      assert |order| == |multiset(order)| == |multiset(inputs)| == |inputs|;
      var confirmationOpen := true;
      for i := 0 to |participants|
        invariant WindowFrom(participants, order, nowUi, 0, true)
                  == WindowFrom(participants, order, nowUi, i, confirmationOpen)
      {
        var checked := CheckDeadline(participants[i], order[i], nowUi);
        match checked {
          case Err(error) => return Err(error);
          case Ok(window) =>
            if window == NoReturn {
              return Ok(NoReturn);
            }
            if window == AbortOnly {
              confirmationOpen := false;
            }
        }
      }
      return Ok(if confirmationOpen then ConfirmationOpen else AbortOnly);
    }

    method BeginConfirmation(nowUi: u64, inputs: seq<StartInput>) returns (result: Result<(), DistributedError>)
      modifies this`intent
      ensures (Model(), result) == StartTiming.BeginConfirmation(old(Model()), nowUi, inputs)
    {
      if GlobalPhaseOf(Model()) != GInstalled {
        return Err(BadState);
      }
      var window := DeadlineWindow(nowUi, inputs);
      match window {
        case Err(error) => return Err(error);
        case Ok(AbortOnly) => return Err(ConfirmationClosed);
        case Ok(NoReturn) => return Err(PointOfNoReturn);
        case Ok(ConfirmationOpen) =>
          intent := ConfirmIntent;
          return Ok(());
      }
    }

    method BeginAbort() returns (result: Result<(), DistributedError>)
      modifies this`intent
      ensures (Model(), result) == BeginAbortAll(old(Model()))
    {
      if target.None? {
        return Err(BadState);
      }
      if GlobalPhaseOf(Model()) in {GIrrevocable, GComplete, GAborted, GSplitAfterAbort} {
        return Err(PointOfNoReturn);
      }
      intent := AbortIntent;
      return Ok(());
    }

    method BeginCancel() returns (result: Result<(), DistributedError>)
      modifies this`intent
      ensures (Model(), result) == BeginCancelAll(old(Model()))
    {
      if target.Some? || GlobalPhaseOf(Model()) in {GCancelled, GComplete} {
        return Err(BadState);
      }
      intent := CancelIntent;
      return Ok(());
    }

    method BeginStatusRound() returns (result: Result<seq<Request>, DistributedError>)
      modifies this`participants
      ensures (Model(), result) == CoordinatorModel.BeginStatusRound(old(Model()))
    {
      if AnyPending(participants) {
        return Err(ParticipantState);
      }
      var requests: seq<Request> := [];
      ghost var before := participants;
      for i := 0 to |participants|
        invariant |participants| == |before| && |requests| == i
        invariant forall j | 0 <= j < i :: participants[j] == StatusBegun(before[j])
        invariant forall j | i <= j < |before| :: participants[j] == before[j]
        invariant forall j | 0 <= j < i :: requests[j] == Request(before[j].deviceId, JobStatus)
      {
        var begun := BeginStatus(participants[i].control);
        assert before[i].control.pending.None?;
        requests := requests + [Request(participants[i].deviceId, begun.value.1)];
        participants := participants[i := participants[i].(control := begun.value.0)];
      }
      assert requests == StatusRequests(before);
      assert participants == CoordinatorModel.BeginStatusRound(old(Model())).0.participants;
      return Ok(requests);
    }

    /** Stages every renewal on a copy and publishes the copy only when all were admitted. */
    method BeginLeaseRenewal(renewals: seq<LeaseRenewal>) returns (result: Result<seq<Request>, DistributedError>)
      modifies this`participants
      ensures Model() == CoordinatorModel.BeginLeaseRenewal(old(Model()), renewals).0
      ensures result == CoordinatorModel.BeginLeaseRenewal(old(Model()), renewals).1
    {
      if policy != NetworkAttended || GlobalPhaseOf(Model()) !in {GConfirmed, GIrrevocable}
         || |renewals| != |participants| || AnyPending(participants) {
        return Err(BadState);
      }
      var ordered := Ordering.Sort(RenewalKey, renewals);
      Ordering.SortSorts(RenewalKey, renewals);
      assert |ordered| == |multiset(ordered)| == |multiset(renewals)| == |renewals|;
      if exists i | 0 <= i < |participants| :: participants[i].deviceId != ordered[i].deviceId {
        return Err(ParticipantSet);
      }
      var staged := StageOnCopy(ordered);
      if staged.Err? {
        return Err(staged.error);
      }
      participants := staged.value.0;
      return Ok(staged.value.1);
    }

    method StageOnCopy(ordered: seq<LeaseRenewal>)
      returns (result: Result<(seq<ParticipantCoordinator>, seq<Request>), DistributedError>)
      requires |ordered| == |participants|
      ensures result == StageRenewals(participants, ordered)
    {
      var staged: seq<ParticipantCoordinator>, requests: seq<Request> := [], [];
      AfterStagedEmpty(StageRenewals(participants, ordered));
      assert participants[0..] == participants && ordered[0..] == ordered;
      for i := 0 to |participants|
        invariant |staged| == |requests| == i
        invariant StageRenewals(participants, ordered)
                  == AfterStaged(staged, requests, StageRenewals(participants[i..], ordered[i..]))
      {
        var begun := BeginLeaseRenew(participants[i].control, ordered[i].leaseExpiry);
        assert participants[i] == participants[i..][0] && ordered[i] == ordered[i..][0];
        assert participants[i..][1..] == participants[i+1..] && ordered[i..][1..] == ordered[i+1..];
        if begun.Err? {
          return Err(Schedule(begun.error));
        }
        var pc := participants[i].(control := begun.value.0);
        var request := Request(participants[i].deviceId, begun.value.1);
        AfterStagedAppends(staged, requests, pc, request, StageRenewals(participants[i+1..], ordered[i+1..]));
        staged, requests := staged + [pc], requests + [request];
      }
      assert staged + [] == staged && requests + [] == requests;
      return Ok((staged, requests));
    }

    /** Walks the participants in device order and emits the first operation one of them owes. */
    method NextRequest() returns (result: Result<Option<Request>, DistributedError>)
      modifies this`participants
      ensures (Model(), result) == CoordinatorModel.NextRequest(old(Model()))
    {
      if TerminalPhase(GlobalPhaseOf(Model())) {
        return Ok(None);
      }
      var initialRound := intent == PrepareIntent && AnyUnreported(participants);
      for i := 0 to |participants|
        invariant participants == old(participants) && Model() == old(Model())
        invariant Scan(participants, intent, initialRound, 0) == Scan(participants, intent, initialRound, i)
      {
        if participants[i].control.pending.Some? {
          continue;
        }
        var decision := Decide(participants[i], intent, initialRound);
        match decision {
          case Err(error) => return Err(error);
          case Ok(None) =>
          case Ok(Some(step)) =>
            var request := Request(participants[i].deviceId, step.1);
            participants := participants[i := participants[i].(control := step.0)];
            return Ok(Some(request));
        }
      }
      return Ok(None);
    }

    method AcceptResponse(deviceId: nat, response: Response) returns (result: Result<GlobalPhase, DistributedError>)
      modifies this
      ensures (Model(), result) == Accept(old(Model()), deviceId, response)
    {
      var passiveInitialRound := intent == PrepareIntent && AnyUnreported(participants);
      var found := IndexOf(participants, deviceId);
      if found.None? {
        return Err(ParticipantSet);
      }
      var k := found.value;
      var (q, accepted) := ParticipantSchedule.AcceptResponse(participants[k].control, response);
      participants := participants[k := participants[k].(control := q)];
      if !passiveInitialRound || !AnyUnreported(participants) {
        ActivateFaultCleanupIfObserved();
      }
      if accepted.Err? {
        return Err(Schedule(accepted.error));
      }
      return Ok(GlobalPhaseOf(Model()));
    }

    method ActivateFaultCleanupIfObserved()
      modifies this`faultCleanup, this`intent
      ensures Model() == ActivateFaultCleanup(old(Model()))
    {
      if !AnyFaulted(participants) {
        return;
      }
      faultCleanup := true;
      intent := if target.Some? then AbortIntent else CancelIntent;
    }

    method AbandonPending(deviceId: nat) returns (result: Result<bool, DistributedError>)
      modifies this`participants
      ensures (Model(), result) == Abandon(old(Model()), deviceId)
    {
      var found := IndexOf(participants, deviceId);
      if found.None? {
        return Err(ParticipantSet);
      }
      var k := found.value;
      var (q, abandoned) := ParticipantSchedule.AbandonPending(participants[k].control);
      participants := participants[k := participants[k].(control := q)];
      return Ok(abandoned);
    }

    method CollectEvidence(order: seq<StartInput>) returns (result: Result<seq<StartEvidence>, DistributedError>)
      requires |order| == |participants| && target.Some?
      ensures result == ReplayAll(participants, order, target.value, 0)
    {
      hide ReplayOne;
      var reconciled: seq<StartEvidence> := [];
      PrependedEmpty(ReplayAll(participants, order, target.value, 0));
      for i := 0 to |participants|
        invariant |reconciled| == i
        invariant ReplayAll(participants, order, target.value, 0)
                  == Prepended(reconciled, ReplayAll(participants, order, target.value, i))
      {
        var one := ReplayOne(participants[i], order[i], target.value);
        if one.Err? {
          return Err(one.error);
        }
        PrependedAppends(reconciled, one.value, ReplayAll(participants, order, target.value, i + 1));
        reconciled := reconciled + [one.value];
      }
      assert reconciled + [] == reconciled;
      return Ok(reconciled);
    }

    /** Read-only replay of the observed start edges. */
    method ReconcileStartObservations(inputs: seq<StartInput>) returns (result: Result<StartReplay, DistributedError>)
      ensures result == ReconcileStart(Model(), inputs)
    {
      hide Summary, Ordering.Insert, Ordering.Sort, Ordering.SortedBy;
      if target.None? {
        return Err(BadState);
      }
      if |inputs| != |participants| || participants == [] {
        return Err(ParticipantSet);
      }
      var order := Ordering.Sort(InputKey, inputs);
      Ordering.SortSorts(InputKey, inputs);
      assert |order| == |multiset(order)| == |multiset(inputs)| == |inputs|;
      var collected := CollectEvidence(order);
      if collected.Err? {
        return Err(collected.error);
      }
      var reconciled := collected.value;
      assert ReplayOne(participants[0], order[0], target.value) == Ok(reconciled[0]);
      return Ok(Summary(target.value, reconciled));
    }
  }

  /** What a loop returns when it already holds `done` and the rest of the scan returns `rest`. */
  ghost function Prepended<T>(done: seq<T>, rest: Result<seq<T>, DistributedError>): Result<seq<T>, DistributedError> {
    match rest
    case Err(error) => Err(error)
    case Ok(later) => Ok(done + later)
  }

  lemma PrependedEmpty<T>(rest: Result<seq<T>, DistributedError>)
    ensures Prepended([], rest) == rest
  {
    if rest.Ok? {
      assert [] + rest.value == rest.value;
    }
  }

  lemma PrependedAppends<T>(done: seq<T>, x: T, rest: Result<seq<T>, DistributedError>)
    ensures Prepended(done, Prepended([x], rest)) == Prepended(done + [x], rest)
  {
    if rest.Ok? {
      assert done + ([x] + rest.value) == done + [x] + rest.value;
    }
  }

  ghost function AfterStaged(
    done: seq<ParticipantCoordinator>, requests: seq<Request>,
    rest: Result<(seq<ParticipantCoordinator>, seq<Request>), DistributedError>)
    : Result<(seq<ParticipantCoordinator>, seq<Request>), DistributedError>
  {
    match rest
    case Err(error) => Err(error)
    case Ok(later) => Ok((done + later.0, requests + later.1))
  }

  lemma AfterStagedEmpty(rest: Result<(seq<ParticipantCoordinator>, seq<Request>), DistributedError>)
    ensures AfterStaged([], [], rest) == rest
  {
    if rest.Ok? {
      assert [] + rest.value.0 == rest.value.0 && [] + rest.value.1 == rest.value.1;
    }
  }

  lemma AfterStagedAppends(
    done: seq<ParticipantCoordinator>, requests: seq<Request>, pc: ParticipantCoordinator, request: Request,
    rest: Result<(seq<ParticipantCoordinator>, seq<Request>), DistributedError>)
    ensures AfterStaged(done, requests, AfterStaged([pc], [request], rest))
            == AfterStaged(done + [pc], requests + [request], rest)
  {
    if rest.Ok? {
      assert done + ([pc] + rest.value.0) == done + [pc] + rest.value.0;
      assert requests + ([request] + rest.value.1) == requests + [request] + rest.value.1;
    }
  }
}
