/** Exactly what the coordinator asks next, of whom, and what it takes for it to have nothing to ask. */
module CoordinatorDuties {
  import opened Wrappers
  import opened ParticipantSchedule
  import opened ParticipantExactness
  import opened CoordinatorModel
  import opened CoordinatorPhases
  import Ordering

  // ---- One participant --------------------------------------------------------------------

  /** When each operation is due: status to settle a doubt or learn something, the others along the intent. */
  predicate Owes(pc: ParticipantCoordinator, intent: Intent, initialRound: bool, operation: ScheduleOperation) {
    var (p, settled) := (pc.control, !pc.control.reconciliationRequired);
    match operation
    case JobStatus =>
      || p.reconciliationRequired
      || (if initialRound then p.report.None? else intent == PrepareIntent && Phase(p) == Preparing)
    case JobPrepare(descriptor) =>
      settled && !initialRound && intent == PrepareIntent && Phase(p) == Empty
      && p.commit.None? && descriptor == p.descriptor
    case JobCommit(commit) =>
      settled && !initialRound && intent == InstallIntent && Phase(p) in {Ready, Installing}
      && pc.planned == Some(commit) && CommitNames(p, commit) && (p.commit.None? || p.commit == Some(commit))
    case JobConfirm(commit) =>
      settled && !initialRound && intent == ConfirmIntent && Phase(p) == ParticipantPhase.Installed
      && p.commit == Some(commit)
    case JobLeaseRenew(_, _) => false
    case JobAbort(commit) =>
      settled && !initialRound && intent == AbortIntent && p.commit == Some(commit)
      && Phase(p) in {Installing, ParticipantPhase.Installed, ParticipantPhase.Confirmed}
    case JobCancel(prepareId) =>
      settled && !initialRound && intent in {AbortIntent, CancelIntent} && p.commit.None?
      && Phase(p) in {Preparing, Ready, ParticipantPhase.Faulted} && prepareId == p.descriptor.prepareId
  }

  /** Where a participant has to be for the intent to ask nothing more of it. */
  function Settled(intent: Intent, bound: bool): set<ParticipantPhase> {
    match intent
    case PrepareIntent => {Ready}
    case InstallIntent => {ParticipantPhase.Installed}
    case ConfirmIntent => {ParticipantPhase.Confirmed} + PASSED
    case AbortIntent =>
      if bound then {ParticipantPhase.Aborted, ParticipantPhase.Expired, ParticipantPhase.Faulted} + PASSED
      else {Empty, Cancelled}
    case CancelIntent => {Empty, Cancelled}
  }

  predicate Content(pc: ParticipantCoordinator, intent: Intent, initialRound: bool) {
    && !pc.control.reconciliationRequired
    && if initialRound then pc.control.report.Some? else Phase(pc.control) in Settled(intent, pc.control.commit.Some?)
  }

  lemma DutyIsExact(
    pc: ParticipantCoordinator, intent: Intent, initialRound: bool, q: Participant, operation: ScheduleOperation)
    requires pc.control.pending.None?
    ensures Decide(pc, intent, initialRound) == Ok(Some((q, operation))) <==>
              Owes(pc, intent, initialRound, operation) && q == Sending(pc.control, operation)
    ensures Decide(pc, intent, initialRound) == Ok(None) <==> Content(pc, intent, initialRound)
  {
    hide Phase;
  }

  // ---- The whole set ----------------------------------------------------------------------

  ghost predicate Waits(c: Coordinator, k: nat) {
    k < |c.participants|
    && (c.participants[k].control.pending.Some? || Content(c.participants[k], c.intent, !AllReported(c) && c.intent == PrepareIntent))
  }

  /** Participant `k` owes `operation`, and everyone before it awaits an answer or is content. */
  ghost predicate FirstOwing(c: Coordinator, k: nat, operation: ScheduleOperation) {
    && k < |c.participants| && c.participants[k].control.pending.None?
    && Owes(c.participants[k], c.intent, !AllReported(c) && c.intent == PrepareIntent, operation)
    && forall j | 0 <= j < k :: Waits(c, j)
  }

  ghost predicate Asks(c: Coordinator, d: Coordinator, request: Request) {
    exists k: nat ::
      && FirstOwing(c, k, request.operation) && request.deviceId == c.participants[k].deviceId
      && d == SetControl(c, k, Sending(c.participants[k].control, request.operation))
  }

  ghost predicate JobEnded(c: Coordinator) {
    GlobalPhaseOf(c) in {GAborted, GSplitAfterAbort, GCancelled, GComplete, GFaulted}
  }

  lemma RoundIsInitial(c: Coordinator)
    ensures InitialRound(c) <==> !AllReported(c) && c.intent == PrepareIntent
  {
  }

  lemma AskedIsOwed(c: Coordinator, d: Coordinator, request: Request)
    requires NextRequest(c) == (d, Ok(Some(request)))
    ensures !JobEnded(c) && Asks(c, d, request)
  {
    hide GlobalPhaseOf, InitialRound, Decide, Owes, Content, AllReported;
    RoundIsInitial(c);
    var found := Scan(c.participants, c.intent, InitialRound(c), 0).value.value;
    DutyIsExact(c.participants[found.0], c.intent, InitialRound(c), found.1, found.2);
    forall j | 0 <= j < found.0
      ensures Waits(c, j)
    {
      if c.participants[j].control.pending.None? {
        DutyIsExact(c.participants[j], c.intent, InitialRound(c), found.1, found.2);
      }
    }
    assert FirstOwing(c, found.0, request.operation);
  }

  lemma WaitingIsSilent(c: Coordinator, from: nat, k: nat)
    requires from <= k <= |c.participants| && forall j | from <= j < k :: Waits(c, j)
    ensures Scan(c.participants, c.intent, InitialRound(c), from) == Scan(c.participants, c.intent, InitialRound(c), k)
    decreases k - from
  {
    hide InitialRound, Decide, Content, AllReported;
    if from < k {
      RoundIsInitial(c);
      if c.participants[from].control.pending.None? {
        assert Waits(c, from);
        DutyIsExact(c.participants[from], c.intent, InitialRound(c), c.participants[from].control, JobStatus);
      }
      WaitingIsSilent(c, from + 1, k);
    }
  }

  lemma OwedIsAsked(c: Coordinator, d: Coordinator, request: Request)
    requires !JobEnded(c) && Asks(c, d, request)
    ensures NextRequest(c) == (d, Ok(Some(request)))
  {
    hide GlobalPhaseOf, InitialRound, Decide, Owes, Waits, AllReported, Sending;
    RoundIsInitial(c);
    var k: nat :|
      && FirstOwing(c, k, request.operation) && request.deviceId == c.participants[k].deviceId
      && d == SetControl(c, k, Sending(c.participants[k].control, request.operation));
    WaitingIsSilent(c, 0, k);
    DutyIsExact(c.participants[k], c.intent, InitialRound(c), Sending(c.participants[k].control, request.operation),
                request.operation);
  }

  /**
   * A request is emitted exactly when the job is open and this is what the first participant that neither awaits an
   * answer nor is content owes; only that participant changes. There is nothing to ask exactly when the job ended or
   * everyone awaits an answer or is content.
   */
  lemma NextRequestIsExact(c: Coordinator, d: Coordinator, request: Request)
    ensures NextRequest(c) == (d, Ok(Some(request))) <==> !JobEnded(c) && Asks(c, d, request)
    ensures NextRequest(c).1 == Ok(None) <==> JobEnded(c) || forall k | 0 <= k < |c.participants| :: Waits(c, k)
    ensures NextRequest(c).1 == Ok(None) || NextRequest(c).1.Err? ==> NextRequest(c).0 == c
  {
    hide GlobalPhaseOf, Asks, Waits, InitialRound, Decide;
    if NextRequest(c) == (d, Ok(Some(request))) {
      AskedIsOwed(c, d, request);
    }
    if !JobEnded(c) && Asks(c, d, request) {
      OwedIsAsked(c, d, request);
    }
    SilenceIsWaiting(c);
  }

  lemma SilenceIsWaiting(c: Coordinator)
    ensures NextRequest(c).1 == Ok(None) <==> JobEnded(c) || forall k | 0 <= k < |c.participants| :: Waits(c, k)
  {
    hide GlobalPhaseOf, InitialRound, Decide, Content, AllReported;
    if !JobEnded(c) {
      RoundIsInitial(c);
      if NextRequest(c).1 == Ok(None) {
        forall k | 0 <= k < |c.participants|
          ensures Waits(c, k)
        {
          if c.participants[k].control.pending.None? {
            DutyIsExact(c.participants[k], c.intent, InitialRound(c), c.participants[k].control, JobStatus);
          }
        }
      }
      if forall k | 0 <= k < |c.participants| :: Waits(c, k) {
        WaitingIsSilent(c, 0, |c.participants|);
      }
    }
  }

  /**
   * Going forward, silence with nothing awaited means the work of the intent is done: everyone prepared is Ready,
   * everyone bound is Installed, everyone confirmed is Confirmed or past the guard.
   */
  lemma SilenceMeansDone(c: Coordinator)
    requires c.participants != [] && NextRequest(c).1 == Ok(None) && !JobEnded(c)
    requires c.intent in {PrepareIntent, InstallIntent, ConfirmIntent}
    requires forall k | 0 <= k < |c.participants| :: c.participants[k].control.pending.None?
    ensures c.intent == PrepareIntent ==> GlobalPhaseOf(c) == GReady
    ensures c.intent == InstallIntent ==> GlobalPhaseOf(c) == GInstalled
    ensures c.intent == ConfirmIntent ==> GlobalPhaseOf(c) in {GConfirmed, GIrrevocable}
  {
    hide GlobalPhaseOf, Decide, Phase, NextRequest, InitialRound;
    SilenceIsWaiting(c);
    if c.intent == PrepareIntent {
      WaitingHaveReported(c);
    }
    match c.intent
    case PrepareIntent =>
      AllContent(c, {Ready});
      PreparePhases(c);
    case InstallIntent =>
      AllContent(c, {ParticipantPhase.Installed});
      InstallPhases(c);
    case ConfirmIntent =>
      AllContent(c, {ParticipantPhase.Confirmed} + PASSED);
      ConfirmPhases(c);
      if GlobalPhaseOf(c) in {GFaulted, GConfirming} {
        NobodyElse(c);
      }
    case AbortIntent =>
    case CancelIntent =>
  }

  lemma WaitingHaveReported(c: Coordinator)
    requires forall k | 0 <= k < |c.participants| :: Waits(c, k) && c.participants[k].control.pending.None?
    requires c.intent == PrepareIntent
    ensures AllReported(c)
  {
    hide Phase;
    forall i | 0 <= i < |c.participants|
      ensures c.participants[i].control.report.Some?
    {
      assert Waits(c, i);
      ReportedPhase(c.participants[i].control);
    }
  }

  lemma AllContent(c: Coordinator, phases: set<ParticipantPhase>)
    requires forall k | 0 <= k < |c.participants| :: Waits(c, k) && c.participants[k].control.pending.None?
    requires c.intent == PrepareIntent ==> AllReported(c)
    requires phases == Settled(c.intent, true) == Settled(c.intent, false)
    ensures Everybody(c, phases)
  {
    hide Phase, AllReported;
    forall i | 0 <= i < |c.participants|
      ensures Phase(c.participants[i].control) in phases
    {
      assert Waits(c, i);
    }
  }

  lemma NobodyElse(c: Coordinator)
    requires Everybody(c, {ParticipantPhase.Confirmed} + PASSED)
    ensures !Somebody(c, FAILED) || Somebody(c, PASSED)
    ensures Everybody(c, {ParticipantPhase.Confirmed}) || Somebody(c, PASSED)
  {
    hide Phase;
    if !Everybody(c, {ParticipantPhase.Confirmed}) {
      var i :| 0 <= i < |c.participants| && Phase(c.participants[i].control) !in {ParticipantPhase.Confirmed};
      assert Phase(c.participants[i].control) in PASSED;
    }
  }

  // ---- Answers and rounds -----------------------------------------------------------------

  lemma FoundByIdentity(c: Coordinator, k: nat)
    requires WellFormed(c) && k < |c.participants|
    ensures IndexOf(c.participants, c.participants[k].deviceId) == Some(k)
  {
  }

  /**
   * An answer changes the machine it is for and, when somebody is then shown faulted and everyone has reported, turns
   * the job to cleanup: by abort once an epoch is bound, by cancellation before.
   */
  lemma AnswerIsExact(c: Coordinator, k: nat, response: Response)
    requires WellFormed(c) && k < |c.participants|
    ensures var (d, result) := Accept(c, c.participants[k].deviceId, response);
            var (q, outcome) := AcceptResponse(c.participants[k].control, response);
            var heard := SetControl(c, k, q);
            && d == (if Somebody(heard, {ParticipantPhase.Faulted}) && (c.intent == PrepareIntent ==> AllReported(heard))
                     then heard.(faultCleanup := true, intent := if c.target.Some? then AbortIntent else CancelIntent)
                     else heard)
            && result == (match outcome case Err(error) => Err(Schedule(error)) case Ok(_) => Ok(GlobalPhaseOf(d)))
  {
    hide GlobalPhaseOf, Phase, AcceptResponse, WellFormed;
    FoundByIdentity(c, k);
    var (q, outcome) := AcceptResponse(c.participants[k].control, response);
    var heard := SetControl(c, k, q);
    FaultedByOne(heard);
    ReportsStay(c, k, response);
    assert AnyUnreported(heard.participants) <==> !AllReported(heard);
    assert AnyUnreported(c.participants) <==> !AllReported(c);
  }

  lemma FaultedByOne(c: Coordinator)
    ensures AnyFaulted(c.participants) <==> Somebody(c, {ParticipantPhase.Faulted})
  {
    hide Phase;
  }

  /** A report once retained is never lost, so a round that was complete stays complete. */
  lemma ReportsStay(c: Coordinator, k: nat, response: Response)
    requires k < |c.participants|
    ensures AllReported(c) ==> AllReported(SetControl(c, k, AcceptResponse(c.participants[k].control, response).0))
  {
    hide Phase, ValidReport, ReportAdvances, ReplaceableForeignTerminal;
  }

  /** A foreign answer or loss is refused and changes nothing. */
  lemma StrangersAreRefused(c: Coordinator, deviceId: nat, response: Response)
    requires forall i | 0 <= i < |c.participants| :: c.participants[i].deviceId != deviceId
    ensures Accept(c, deviceId, response) == (c, Err(ParticipantSet))
    ensures Abandon(c, deviceId) == (c, Err(ParticipantSet))
  {
  }

  /** A status round is begun exactly when nobody awaits an answer, and then asks everyone; nothing else changes. */
  lemma StatusRoundIsExact(c: Coordinator)
    ensures BeginStatusRound(c).1.Ok? <==>
              forall i | 0 <= i < |c.participants| :: c.participants[i].control.pending.None?
    ensures BeginStatusRound(c).1.Err? ==> BeginStatusRound(c) == (c, Err(ParticipantState))
    ensures BeginStatusRound(c).1.Ok? ==>
              var (d, requests) := (BeginStatusRound(c).0, BeginStatusRound(c).1.value);
              && d == c.(participants := d.participants) && |d.participants| == |requests| == |c.participants|
              && forall i | 0 <= i < |c.participants| ::
                   && requests[i] == Request(c.participants[i].deviceId, JobStatus)
                   && d.participants[i] ==
                        c.participants[i].(control := Sending(c.participants[i].control, JobStatus))
  {
  }

  /** A loss clears the one machine it names, and tells whether anything was awaited. */
  lemma LossIsForOne(c: Coordinator, k: nat)
    requires WellFormed(c) && k < |c.participants|
    ensures Abandon(c, c.participants[k].deviceId) ==
              (SetControl(c, k, AbandonPending(c.participants[k].control).0),
               Ok(c.participants[k].control.pending.Some?))
  {
    FoundByIdentity(c, k);
  }

  // ---- Lease rounds -----------------------------------------------------------------------

  /** Every participant sends the renewal of its own commit to the lease listed for it, and awaits the answer. */
  ghost predicate Renews(c: Coordinator, ordered: seq<LeaseRenewal>, d: Coordinator, requests: seq<Request>) {
    && |ordered| == |requests| == |d.participants| == |c.participants|
    && d == c.(participants := d.participants)
    && forall i | 0 <= i < |ordered| :: RenewsAt(c, ordered, d, requests, i)
  }

  ghost predicate RenewsAt(c: Coordinator, ordered: seq<LeaseRenewal>, d: Coordinator, requests: seq<Request>, i: nat)
    requires |ordered| == |requests| == |d.participants| == |c.participants| && i < |ordered|
  {
    var pc := c.participants[i];
    && ordered[i].deviceId == pc.deviceId && pc.control.commit.Some?
    && var operation := JobLeaseRenew(pc.control.commit.value, ordered[i].leaseExpiry);
       && Admits(pc.control, operation)
       && requests[i] == Request(pc.deviceId, operation)
       && d.participants[i] == pc.(control := Sending(pc.control, operation))
  }

  ghost predicate GrantsRound(c: Coordinator, renewals: seq<LeaseRenewal>, d: Coordinator, requests: seq<Request>) {
    exists ordered :: multiset(ordered) == multiset(renewals) && Renews(c, ordered, d, requests)
  }

  lemma RenewalIsExact(p: Participant, lease: nat)
    ensures BeginLeaseRenew(p, lease).Ok? <==>
              p.commit.Some? && Admits(p, JobLeaseRenew(p.commit.value, lease))
    ensures BeginLeaseRenew(p, lease).Ok? ==>
              BeginLeaseRenew(p, lease) ==
                Ok((Sending(p, JobLeaseRenew(p.commit.value, lease)), JobLeaseRenew(p.commit.value, lease)))
  {
    hide Phase;
  }

  lemma GrantedIsRound(c: Coordinator, renewals: seq<LeaseRenewal>, d: Coordinator, requests: seq<Request>)
    requires BeginLeaseRenewal(c, renewals) == (d, Ok(requests))
    ensures GrantsRound(c, renewals, d, requests)
  {
    hide GlobalPhaseOf, Admits, BeginLeaseRenew, Sending;
    var ordered := Ordering.Sort(RenewalKey, renewals);
    Ordering.SortSorts(RenewalKey, renewals);
    forall i | 0 <= i < |c.participants|
      ensures |requests| == |d.participants| == |ordered| == |c.participants|
      ensures RenewsAt(c, ordered, d, requests, i)
    {
      assert c.participants[i].deviceId == ordered[i].deviceId;
      RenewalIsExact(c.participants[i].control, ordered[i].leaseExpiry);
    }
    assert Renews(c, ordered, d, requests);
  }

  lemma RenewsBegins(c: Coordinator, ordered: seq<LeaseRenewal>, d: Coordinator, requests: seq<Request>, i: nat)
    requires Renews(c, ordered, d, requests) && i < |ordered|
    ensures ordered[i].deviceId == c.participants[i].deviceId && c.participants[i].control.pending.None?
    ensures var begun := BeginLeaseRenew(c.participants[i].control, ordered[i].leaseExpiry);
            && begun.Ok? && d.participants[i] == c.participants[i].(control := begun.value.0)
            && requests[i] == Request(c.participants[i].deviceId, begun.value.1)
  {
    hide Admits, BeginLeaseRenew, Sending;
    assert RenewsAt(c, ordered, d, requests, i);
    RenewalIsExact(c.participants[i].control, ordered[i].leaseExpiry);
    AdmittedIsIdle(c.participants[i].control, requests[i].operation);
  }

  lemma StagedRound(c: Coordinator, ordered: seq<LeaseRenewal>, d: Coordinator, requests: seq<Request>)
    requires Renews(c, ordered, d, requests)
    ensures StageRenewals(c.participants, ordered) == Ok((d.participants, requests))
  {
    hide Renews, BeginLeaseRenew, StageRenewals;
    assert |ordered| == |requests| == |d.participants| == |c.participants| by {
      RenewsAll(c, ordered, d, requests);
    }
    forall i | 0 <= i < |ordered|
      ensures BeginLeaseRenew(c.participants[i].control, ordered[i].leaseExpiry).Ok?
    {
      RenewsBegins(c, ordered, d, requests, i);
    }
    var staged := StageRenewals(c.participants, ordered).value;
    forall i | 0 <= i < |ordered|
      ensures staged.0[i] == d.participants[i] && staged.1[i] == requests[i]
    {
      RenewsBegins(c, ordered, d, requests, i);
    }
    assert staged.0 == d.participants && staged.1 == requests;
  }

  lemma RenewsAll(c: Coordinator, ordered: seq<LeaseRenewal>, d: Coordinator, requests: seq<Request>)
    requires Renews(c, ordered, d, requests)
    ensures |ordered| == |requests| == |d.participants| == |c.participants|
    ensures d == c.(participants := d.participants)
  {
  }

  lemma RoundIsSorted(c: Coordinator, renewals: seq<LeaseRenewal>, ordered: seq<LeaseRenewal>)
    requires WellFormed(c) && multiset(ordered) == multiset(renewals) && |ordered| == |c.participants|
    requires forall i | 0 <= i < |ordered| :: ordered[i].deviceId == c.participants[i].deviceId
    ensures Ordering.Sort(RenewalKey, renewals) == ordered && |renewals| == |ordered|
  {
    assert forall i, j | 0 <= i < j < |ordered| :: RenewalKey(ordered[i]) < RenewalKey(ordered[j]);
    Ordering.SortKeepsStrict(RenewalKey, ordered);
    Ordering.SortIgnoresOrder(RenewalKey, ordered, renewals);
    Ordering.SameLength(ordered, renewals);
  }

  lemma RoundIsGranted(c: Coordinator, renewals: seq<LeaseRenewal>, d: Coordinator, requests: seq<Request>)
    requires WellFormed(c) && c.policy == NetworkAttended && GlobalPhaseOf(c) in {GConfirmed, GIrrevocable}
    requires GrantsRound(c, renewals, d, requests)
    ensures BeginLeaseRenewal(c, renewals) == (d, Ok(requests))
  {
    hide GlobalPhaseOf, Renews, StageRenewals, WellFormed;
    var ordered: seq<LeaseRenewal> :| multiset(ordered) == multiset(renewals) && Renews(c, ordered, d, requests);
    RenewsAll(c, ordered, d, requests);
    forall i | 0 <= i < |ordered|
      ensures ordered[i].deviceId == c.participants[i].deviceId && c.participants[i].control.pending.None?
    {
      RenewsBegins(c, ordered, d, requests, i);
    }
    RoundIsSorted(c, renewals, ordered);
    StagedRound(c, ordered, d, requests);
  }

  lemma AdmittedIsIdle(p: Participant, operation: ScheduleOperation)
    requires Admits(p, operation)
    ensures p.pending.None?
  {
  }

  /**
   * A lease round of an attended job is granted exactly when everyone is confirmed or someone runs, and the renewals
   * can be dealt out so that each participant may send its own; then everyone sends, and nothing else changes.
   */
  lemma LeaseRoundIsExact(c: Coordinator, renewals: seq<LeaseRenewal>, d: Coordinator, requests: seq<Request>)
    requires WellFormed(c)
    ensures BeginLeaseRenewal(c, renewals) == (d, Ok(requests)) <==>
              && c.policy == NetworkAttended && GlobalPhaseOf(c) in {GConfirmed, GIrrevocable}
              && GrantsRound(c, renewals, d, requests)
    ensures BeginLeaseRenewal(c, renewals).1.Err? ==> BeginLeaseRenewal(c, renewals).0 == c
  {
    hide GlobalPhaseOf, GrantsRound, WellFormed, StageRenewals;
    if BeginLeaseRenewal(c, renewals) == (d, Ok(requests)) {
      GrantedIsRound(c, renewals, d, requests);
    }
    if c.policy == NetworkAttended && GlobalPhaseOf(c) in {GConfirmed, GIrrevocable}
       && GrantsRound(c, renewals, d, requests) {
      RoundIsGranted(c, renewals, d, requests);
    }
  }
}
