/** Every run of the coordinator alone, against arbitrary replies: what it may ask, and in which order. */
module CoordinatorRuns {
  import opened Wrappers
  import opened ParticipantSchedule
  import opened CoordinatorModel
  import opened StartTiming
  import Ordering

  datatype Event =
    | Next
    | Reply(deviceId: nat, response: Response)
    | Lose(deviceId: nat)
    | Bind(nowUi: u64, targetUi: u64, inputs: seq<StartInput>, encodes: Commit -> bool)
    | OpenConfirmation(nowUi: u64, inputs: seq<StartInput>)
    | StartAbort
    | StartCancel
    | StatusRound
    | Renew(renewals: seq<LeaseRenewal>)

  /** The coordinator after one event, and the requests it handed out. */
  function Advance(c: Coordinator, e: Event): (Coordinator, seq<Request>) {
    match e
    case Next =>
      var (after, r) := NextRequest(c);
      (after, if r.Ok? && r.value.Some? then [r.value.value] else [])
    case Reply(device, response) => (Accept(c, device, response).0, [])
    case Lose(device) => (Abandon(c, device).0, [])
    case Bind(now, target, inputs, encodes) => (BindStart(c, now, target, inputs, encodes).0, [])
    case OpenConfirmation(now, inputs) => (BeginConfirmation(c, now, inputs).0, [])
    case StartAbort => (BeginAbortAll(c).0, [])
    case StartCancel => (BeginCancelAll(c).0, [])
    case StatusRound =>
      var (after, r) := BeginStatusRound(c);
      (after, if r.Ok? then r.value else [])
    case Renew(renewals) =>
      var (after, r) := BeginLeaseRenewal(c, renewals);
      (after, if r.Ok? then r.value else [])
  }

  /** `run[k + 1]` and `sent[k]` are what event `k` makes of `run[k]`. */
  ghost predicate IsRun(run: seq<Coordinator>, events: seq<Event>, sent: seq<seq<Request>>) {
    && |run| == |events| + 1 == |sent| + 1
    && (forall k | 0 <= k < |events| :: run[k + 1] == Advance(run[k], events[k]).0)
    && (forall k | 0 <= k < |events| :: sent[k] == Advance(run[k], events[k]).1)
  }

  // ---- The intent only moves forward ------------------------------------------------------

  function IntentRank(intent: Intent): nat {
    match intent
    case PrepareIntent => 0
    case InstallIntent => 1
    case ConfirmIntent => 2
    case AbortIntent => 3
    case CancelIntent => 3
  }

  /** The stage of the protocol a mutating request belongs to; status and renewal belong to none. */
  function OperationRank(operation: ScheduleOperation): Option<nat> {
    match operation
    case JobPrepare(_) => Some(0)
    case JobCommit(_) => Some(1)
    case JobConfirm(_) => Some(2)
    case JobAbort(_) => Some(3)
    case JobCancel(_) => Some(3)
    case JobStatus => None
    case JobLeaseRenew(_, _) => None
  }

  lemma PhaseFixesIntent(c: Coordinator)
    ensures GlobalPhaseOf(c) == GReady ==> c.intent == PrepareIntent
    ensures GlobalPhaseOf(c) == GInstalled ==> c.intent == InstallIntent
    ensures GlobalPhaseOf(c) == GConfirmed ==> c.intent == ConfirmIntent
  {
  }

  /** The epoch is bound exactly in the intents that may carry commits. */
  ghost predicate EpochMatchesIntent(c: Coordinator) {
    c.target.Some? <==> c.intent in {InstallIntent, ConfirmIntent, AbortIntent}
  }

  ghost predicate MovesForward(c: Coordinator, after: Coordinator) {
    && EpochMatchesIntent(after)
    && IntentRank(c.intent) <= IntentRank(after.intent)
    && (c.target.Some? ==> after.target == c.target)
    && (c.target.None? && after.target.Some? ==> GlobalPhaseOf(c) == GReady)
    && (c.intent != ConfirmIntent && after.intent == ConfirmIntent ==> GlobalPhaseOf(c) == GInstalled)
    && (c.faultCleanup ==> after.faultCleanup)
  }

  /** Everything but the participant machines is untouched. */
  ghost predicate SameGlobals(c: Coordinator, after: Coordinator) {
    after == c.(participants := after.participants)
  }

  lemma RequestsKeepGlobals(c: Coordinator, renewals: seq<LeaseRenewal>, deviceId: nat)
    ensures SameGlobals(c, NextRequest(c).0)
    ensures SameGlobals(c, BeginStatusRound(c).0)
    ensures SameGlobals(c, BeginLeaseRenewal(c, renewals).0)
    ensures SameGlobals(c, Abandon(c, deviceId).0)
  {
  }

  lemma AcceptMovesForward(c: Coordinator, deviceId: nat, response: Response)
    requires EpochMatchesIntent(c)
    ensures MovesForward(c, Accept(c, deviceId, response).0)
    ensures Accept(c, deviceId, response).0.intent == ConfirmIntent ==> c.intent == ConfirmIntent
  {
  }

  lemma BindMovesForward(c: Coordinator, nowUi: u64, targetUi: u64, inputs: seq<StartInput>, encodes: Commit -> bool)
    requires EpochMatchesIntent(c)
    ensures MovesForward(c, BindStart(c, nowUi, targetUi, inputs, encodes).0)
  {
    PhaseFixesIntent(c);
  }

  lemma ConfirmationMovesForward(c: Coordinator, nowUi: u64, inputs: seq<StartInput>)
    requires EpochMatchesIntent(c)
    ensures MovesForward(c, BeginConfirmation(c, nowUi, inputs).0)
  {
    PhaseFixesIntent(c);
  }

  lemma AdvanceMovesForward(c: Coordinator, e: Event)
    requires EpochMatchesIntent(c)
    ensures MovesForward(c, Advance(c, e).0)
  {
    match e
    case Next => RequestsKeepGlobals(c, [], 0);
    case Reply(device, response) => AcceptMovesForward(c, device, response);
    case Lose(device) => RequestsKeepGlobals(c, [], device);
    case Bind(now, target, inputs, encodes) => BindMovesForward(c, now, target, inputs, encodes);
    case OpenConfirmation(now, inputs) => ConfirmationMovesForward(c, now, inputs);
    case StartAbort =>
    case StartCancel =>
    case StatusRound => RequestsKeepGlobals(c, [], 0);
    case Renew(renewals) => RequestsKeepGlobals(c, renewals, 0);
  }

  lemma DecidedOperationFitsIntent(pc: ParticipantCoordinator, intent: Intent, initialRound: bool)
    requires Decide(pc, intent, initialRound).Ok? && Decide(pc, intent, initialRound).value.Some?
    ensures var operation := Decide(pc, intent, initialRound).value.value.1;
            && (OperationRank(operation).Some? ==> OperationRank(operation).value == IntentRank(intent))
            && (operation.JobCommit? ==> pc.planned == Some(operation.commit))
            && (operation.JobConfirm? || operation.JobAbort? ==> pc.control.commit == Some(operation.commit))
  {
  }

  lemma DecidedIsPending(pc: ParticipantCoordinator, intent: Intent, initialRound: bool)
    requires Decide(pc, intent, initialRound).Ok? && Decide(pc, intent, initialRound).value.Some?
    ensures Decide(pc, intent, initialRound).value.value.0.pending.Some?
  {
  }

  lemma NextFitsIntent(c: Coordinator)
    requires NextRequest(c).1.Ok? && NextRequest(c).1.value.Some?
    ensures var operation := NextRequest(c).1.value.value.operation;
            OperationRank(operation).Some? ==> OperationRank(operation).value == IntentRank(c.intent)
  {
    var found := Scan(c.participants, c.intent, InitialRound(c), 0).value.value;
    DecidedOperationFitsIntent(c.participants[found.0], c.intent, InitialRound(c));
  }

  lemma RenewalsOnlyRenew(c: Coordinator, renewals: seq<LeaseRenewal>, k: nat)
    requires BeginLeaseRenewal(c, renewals).1.Ok? && k < |BeginLeaseRenewal(c, renewals).1.value|
    ensures BeginLeaseRenewal(c, renewals).1.value[k].operation.JobLeaseRenew?
  {
    var ordered := Ordering.Sort(RenewalKey, renewals);
    var staged := StageRenewals(c.participants, ordered).value;
    assert staged.1[k].operation == BeginLeaseRenew(c.participants[k].control, ordered[k].leaseExpiry).value.1;
  }

  lemma SentOperationFitsIntent(c: Coordinator, e: Event, k: nat)
    requires k < |Advance(c, e).1|
    ensures var operation := Advance(c, e).1[k].operation;
            OperationRank(operation).Some? ==> OperationRank(operation).value == IntentRank(c.intent)
  {
    hide NextRequest, BeginLeaseRenewal, GlobalPhaseOf, Accept, Abandon, BindStart, BeginConfirmation, IntentRank;
    match e
    case Next => NextFitsIntent(c);
    case StatusRound => assert Advance(c, e).1[k].operation == JobStatus;
    case Renew(renewals) => RenewalsOnlyRenew(c, renewals, k);
    case _ =>
  }

  /** Along any run the intent rank never falls and the epoch stays tied to the intent. */
  lemma {:induction false} IntentNeverReturns(
    run: seq<Coordinator>, events: seq<Event>, sent: seq<seq<Request>>, i: nat, j: nat)
    requires IsRun(run, events, sent) && Fresh(run[0]) && i <= j < |run|
    ensures EpochMatchesIntent(run[j])
    ensures IntentRank(run[i].intent) <= IntentRank(run[j].intent)
    ensures run[i].faultCleanup ==> run[j].faultCleanup
    decreases j
  {
    if j > 0 {
      IntentNeverReturns(run, events, sent, if i < j then i else j - 1, j - 1);
      AdvanceMovesForward(run[j - 1], events[j - 1]);
    }
  }

  /** No JobCommit follows a JobConfirm; after an abort or cancel no prepare, commit or confirm is sent. */
  lemma RequestGrammar(
    run: seq<Coordinator>, events: seq<Event>, sent: seq<seq<Request>>, i: nat, k: nat, j: nat, l: nat)
    requires IsRun(run, events, sent) && Fresh(run[0])
    requires i <= j < |sent| && k < |sent[i]| && l < |sent[j]|
    ensures sent[i][k].operation.JobConfirm? ==>
              !sent[j][l].operation.JobCommit? && !sent[j][l].operation.JobPrepare?
    ensures sent[i][k].operation.JobAbort? || sent[i][k].operation.JobCancel? ==>
              !sent[j][l].operation.JobPrepare? && !sent[j][l].operation.JobCommit? && !sent[j][l].operation.JobConfirm?
    ensures sent[i][k].operation.JobCommit? ==> !sent[j][l].operation.JobPrepare?
  {
    hide Advance, Fresh, EpochMatchesIntent;
    IntentNeverReturns(run, events, sent, i, j);
    SentOperationFitsIntent(run[i], events[i], k);
    SentOperationFitsIntent(run[j], events[j], l);
  }

  lemma {:induction false} BoundEpochFollowsReady(
    run: seq<Coordinator>, events: seq<Event>, sent: seq<seq<Request>>, j: nat)
    returns (r: nat)
    requires IsRun(run, events, sent) && Fresh(run[0]) && j < |run|
    requires run[j].target.Some?
    ensures r < j && GlobalPhaseOf(run[r]) == GReady
    decreases j
  {
    IntentNeverReturns(run, events, sent, 0, j - 1);
    AdvanceMovesForward(run[j - 1], events[j - 1]);
    if run[j - 1].target.Some? {
      r := BoundEpochFollowsReady(run, events, sent, j - 1);
    } else {
      r := j - 1;
    }
  }

  lemma {:induction false} ConfirmIntentFollowsInstalled(
    run: seq<Coordinator>, events: seq<Event>, sent: seq<seq<Request>>, j: nat)
    returns (r: nat)
    requires IsRun(run, events, sent) && Fresh(run[0]) && j < |run|
    requires run[j].intent == ConfirmIntent
    ensures r < j && GlobalPhaseOf(run[r]) == GInstalled
    decreases j
  {
    IntentNeverReturns(run, events, sent, 0, j - 1);
    AdvanceMovesForward(run[j - 1], events[j - 1]);
    if run[j - 1].intent == ConfirmIntent {
      r := ConfirmIntentFollowsInstalled(run, events, sent, j - 1);
    } else {
      r := j - 1;
    }
  }

  /** Every JobCommit is preceded by an all-ready state, and every JobConfirm by an all-installed one. */
  lemma CommitFollowsReadyConfirmFollowsInstalled(
    run: seq<Coordinator>, events: seq<Event>, sent: seq<seq<Request>>, j: nat, l: nat)
    requires IsRun(run, events, sent) && Fresh(run[0]) && j < |sent| && l < |sent[j]|
    ensures sent[j][l].operation.JobCommit? ==> exists r | 0 <= r < j :: GlobalPhaseOf(run[r]) == GReady
    ensures sent[j][l].operation.JobConfirm? ==> exists r | 0 <= r < j :: GlobalPhaseOf(run[r]) == GInstalled
  {
    hide Advance, Fresh, GlobalPhaseOf;
    SentOperationFitsIntent(run[j], events[j], l);
    IntentNeverReturns(run, events, sent, 0, j);
    if sent[j][l].operation.JobCommit? {
      var r := BoundEpochFollowsReady(run, events, sent, j);
    }
    if sent[j][l].operation.JobConfirm? {
      var r := ConfirmIntentFollowsInstalled(run, events, sent, j);
    }
  }
}
