/** A stranded participant shown Cancelled: the coordinator refuses, and who is still asked before it does. */
module JointBlocked {
  import opened Wrappers
  import opened ParticipantSchedule
  import opened CoordinatorModel
  import opened CoordinatorRuns
  import opened DeviceModel
  import opened JointSystem
  import opened JointProofs
  import opened JointRequests
  import opened JointAbort
  import opened JointStranded

  /** Bound, cancelled by its device before it installed, nothing in flight and nothing in doubt. */
  ghost predicate Blocking(s: System, i: nat) {
    && Stranded(s, i) && Shaped(s)
    && s.slots[i] == Free && !s.c.participants[i].control.reconciliationRequired
    && Phase(s.c.participants[i].control) == Cancelled
  }

  lemma BlockingIsRefused(s: System, i: nat)
    requires Blocking(s, i)
    ensures s.c.participants[i].control.pending.None?
    ensures Decide(s.c.participants[i], AbortIntent, false) == Err(ParticipantState)
    ensures !TerminalPhase(GlobalPhaseOf(s.c)) && !InitialRound(s.c)
  {
    hide GlobalPhaseOf;
    InvAt(s, i);
    ViewPhase(NodeAt(s, i));
    StrandedNeedsItsFault(s, i);
  }

  /** The scan never gets past a refusal. */
  lemma {:induction false} ScanEndsBefore(ps: seq<ParticipantCoordinator>, intent: Intent, initial: bool, from: nat, i: nat)
    requires from <= i < |ps| && ps[i].control.pending.None? && Decide(ps[i], intent, initial).Err?
    ensures var found := Scan(ps, intent, initial, from);
            found.Err? || (found.value.Some? && found.value.value.0 < i)
    ensures (forall j | from <= j < i :: ps[j].control.pending.Some? || Decide(ps[j], intent, initial) == Ok(None)) ==>
              Scan(ps, intent, initial, from) == Err(Decide(ps[i], intent, initial).error)
    decreases i - from
  {
    hide Decide;
    if from < i && (ps[from].control.pending.Some? || Decide(ps[from], intent, initial) == Ok(None)) {
      ScanEndsBefore(ps, intent, initial, from + 1, i);
    }
  }

  /**
   * The coordinator is refused exactly when nobody before the first refusing participant has anything to send, and
   * whatever it does hand out goes to someone before it.
   */
  lemma CancelledBlocksTheRest(s: System, i: nat)
    requires Blocking(s, i)
    requires forall j | 0 <= j < i ::
               s.c.participants[j].control.pending.Some? || Decide(s.c.participants[j], AbortIntent, false).Ok?
    ensures NextRequest(s.c).1 == Err(ParticipantState) <==>
              forall j | 0 <= j < i ::
                s.c.participants[j].control.pending.Some? || Decide(s.c.participants[j], AbortIntent, false) == Ok(None)
    ensures NextRequest(s.c).1 != Err(ParticipantState) ==>
              exists k | 0 <= k < i ::
                && NextRequest(s.c).1.Ok? && NextRequest(s.c).1.value.Some?
                && NextRequest(s.c).1.value.value.deviceId == s.c.participants[k].deviceId
  {
    hide Decide, Phase, GlobalPhaseOf, NodeInv, StrandedNode, InitialRound;
    BlockingIsRefused(s, i);
    var ps := s.c.participants;
    ScanEndsBefore(ps, s.c.intent, InitialRound(s.c), 0, i);
    var found := Scan(ps, s.c.intent, InitialRound(s.c), 0);
    if found.Err? {
      var k :| 0 <= k < |ps| && ps[k].control.pending.None? && Decide(ps[k], AbortIntent, false) == Err(found.error);
      ScanErrsFirst(ps, s.c.intent, InitialRound(s.c), 0, i);
    } else {
      var k := found.value.value.0;
      assert ps[k].control.pending.None? && Decide(ps[k], AbortIntent, false).value.Some?;
    }
  }

  /** When everyone before `i` can be decided, a refusal means that none of them had anything to send. */
  lemma {:induction false} ScanErrsFirst(ps: seq<ParticipantCoordinator>, intent: Intent, initial: bool, from: nat, i: nat)
    requires from <= i < |ps| && Scan(ps, intent, initial, from).Err?
    requires ps[i].control.pending.None? && Decide(ps[i], intent, initial).Err?
    requires forall j | from <= j < i :: ps[j].control.pending.Some? || Decide(ps[j], intent, initial).Ok?
    ensures Scan(ps, intent, initial, from).error == Decide(ps[i], intent, initial).error
    ensures forall j | from <= j < i :: ps[j].control.pending.Some? || Decide(ps[j], intent, initial) == Ok(None)
    decreases i - from
  {
    hide Decide;
    if from < i {
      ScanErrsFirst(ps, intent, initial, from + 1, i);
    }
  }

  lemma BlockingSends(s: System, i: nat, t: System)
    requires Blocking(s, i) && Settles(s, Emit, t)
    ensures |t.slots| == |s.slots| && |t.c.participants| == |s.c.participants|
    ensures forall j | i <= j < |s.slots| :: t.slots[j] == s.slots[j] && t.c.participants[j] == s.c.participants[j]
  {
    hide Decide, Phase, GlobalPhaseOf, NodeInv, StrandedNode, InitialRound;
    BlockingIsRefused(s, i);
    ScanEndsBefore(s.c.participants, s.c.intent, InitialRound(s.c), 0, i);
    var sends, k, q, operation := NextChanges(s, t);
    if sends {
      DecidedIsPending(s.c.participants[k], s.c.intent, InitialRound(s.c));
      SentIsScanned(s, k, q, operation, t);
    }
  }

  lemma SentIsScanned(s: System, k: nat, q: Participant, operation: ScheduleOperation, t: System)
    requires Shaped(s) && Settles(s, Emit, t) && k < |s.slots|
    requires s.c.participants[k].control.pending.None? && q.pending.Some?
    requires t.c == SetControl(s.c, k, q)
    ensures Scan(s.c.participants, s.c.intent, InitialRound(s.c), 0).Ok?
    ensures Scan(s.c.participants, s.c.intent, InitialRound(s.c), 0).value.Some?
    ensures Scan(s.c.participants, s.c.intent, InitialRound(s.c), 0).value.value.0 == k
  {
    hide Decide, GlobalPhaseOf, InitialRound;
    assert t.c.participants[k] != s.c.participants[k];
  }

  lemma BlockingStays(s: System, e: Settling, t: System, i: nat)
    requires Blocking(s, i) && Settles(s, e, t)
    ensures Blocking(t, i) && |t.slots| == |s.slots|
    ensures forall j | i <= j < |s.slots| && s.slots[j] == Free :: t.slots[j] == Free
  {
    hide Phase, GlobalPhaseOf, NodeInv, StrandedNode, Inv, Handles, Ticks;
    var m := MoveOf(e);
    assert Step(s, m, t);
    StepKeepsStranded(s, m, t, i);
    StrandedIsShaped(t, i);
    match e
    case Emit => BlockingSends(s, i, t);
    case Apply(k, after, ok, kind) =>
    case Arrive(k) => DeliverChanges(s, k, t);
    case Wait(k, after) =>
  }

  function MoveOf(e: Settling): Move {
    match e
    case Emit => Coordinate(Next)
    case Apply(k, after, ok, kind) => Handle(k, after, ok, kind)
    case Arrive(k) => Deliver(k)
    case Wait(k, after) => Tick(k, after)
  }

  lemma StrandedIsShaped(s: System, i: nat)
    requires Stranded(s, i)
    ensures Shaped(s)
  {
  }

  /** However the job goes on settling, nobody from the blocking participant on is ever asked anything. */
  lemma {:induction false} OnlyEarlierAreAsked(run: seq<System>, events: seq<Settling>, i: nat, n: nat)
    requires IsSettling(run, events) && n <= |events| && Blocking(run[0], i)
    ensures Blocking(run[n], i) && |run[n].slots| == |run[0].slots|
    ensures forall j | i <= j < |run[0].slots| && run[0].slots[j] == Free :: run[n].slots[j] == Free
  {
    hide Blocking, Settles, Shaped;
    if n > 0 {
      OnlyEarlierAreAsked(run, events, i, n - 1);
      BlockingStays(run[n - 1], events[n - 1], run[n], i);
    }
  }
}
