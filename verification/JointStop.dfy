/** Exactly when an accepted stop drains: never with a participant shown Installing, which is then asked forever. */
module JointStop {
  import opened Wrappers
  import opened ParticipantSchedule
  import opened CoordinatorModel
  import opened CoordinatorRuns
  import opened DeviceModel
  import opened JointSystem
  import opened JointProofs
  import opened JointRequests
  import opened JointTheorems
  import opened JointAbort
  import opened JointStranded

  // ---- Which participant the scan reaches -------------------------------------------------

  lemma {:induction false} ScanStopsBy(ps: seq<ParticipantCoordinator>, intent: Intent, initial: bool, from: nat, i: nat)
    requires from <= i < |ps| && ps[i].control.pending.None?
    requires Decide(ps[i], intent, initial).Ok? && Decide(ps[i], intent, initial).value.Some?
    requires forall j | from <= j < i :: ps[j].control.pending.Some? || Decide(ps[j], intent, initial).Ok?
    ensures var found := Scan(ps, intent, initial, from);
            && found.Ok? && found.value.Some? && found.value.value.0 <= i
    decreases i - from
  {
    hide Decide;
    if from < i && (ps[from].control.pending.Some? || Decide(ps[from], intent, initial) == Ok(None)) {
      ScanStopsBy(ps, intent, initial, from + 1, i);
    }
  }

  lemma {:induction false} ScanStopsAt(
    ps: seq<ParticipantCoordinator>, intent: Intent, initial: bool, from: nat, i: nat, q: Participant, operation: ScheduleOperation)
    requires from <= i < |ps| && ps[i].control.pending.None?
    requires Decide(ps[i], intent, initial) == Ok(Some((q, operation)))
    requires forall j | from <= j < i :: ps[j].control.pending.Some? || Decide(ps[j], intent, initial) == Ok(None)
    ensures Scan(ps, intent, initial, from) == Ok(Some((i, q, operation)))
    decreases i - from
  {
    hide Decide;
    if from < i {
      ScanStopsAt(ps, intent, initial, from + 1, i, q, operation);
    }
  }

  /** A request the coordinator hands out becomes a request in flight. */
  lemma EmitExists(s: System, k: nat, q: Participant, operation: ScheduleOperation) returns (t: System)
    requires Shaped(s) && !TerminalPhase(GlobalPhaseOf(s.c)) && k < |s.slots|
    requires Scan(s.c.participants, s.c.intent, InitialRound(s.c), 0) == Ok(Some((k, q, operation)))
    ensures Settles(s, Emit, t) && t != s
    ensures t == s.(c := SetControl(s.c, k, q), slots := s.slots[k := Sent(operation)])
  {
    hide GlobalPhaseOf, Decide, Scan, InitialRound;
    t := s.(c := SetControl(s.c, k, q), slots := s.slots[k := Sent(operation)]);
    var sent := [Request(s.c.participants[k].deviceId, operation)];
    assert Advance(s.c, Next) == (t.c, sent);
    assert sent[0].deviceId == s.c.participants[k].deviceId;
    forall i | 0 <= i < |s.slots|
      ensures SlotFollows(sent, s.c.participants[i].deviceId, s.slots[i], t.slots[i])
    {
      if i < k {
        assert s.c.participants[i].deviceId < s.c.participants[k].deviceId;
      } else if k < i {
        assert s.c.participants[k].deviceId < s.c.participants[i].deviceId;
      }
    }
    ScannedIsIdle(s.c.participants, s.c.intent, InitialRound(s.c), k, q, operation);
  }

  lemma ScannedIsIdle(ps: seq<ParticipantCoordinator>, intent: Intent, initial: bool, k: nat, q: Participant, operation: ScheduleOperation)
    requires Scan(ps, intent, initial, 0) == Ok(Some((k, q, operation)))
    ensures k < |ps| && ps[k].control.pending.None? && q != ps[k].control && q.pending.Some?
  {
  }

  // ---- Settling runs with many steps ------------------------------------------------------

  ghost predicate Takes(s: System, n: nat, t: System) {
    exists run, events :: TakenBy(s, n, t, run, events)
  }

  ghost predicate TakenBy(s: System, n: nat, t: System, run: seq<System>, events: seq<Settling>) {
    && IsSettling(run, events)
    && run[0] == s && run[|events|] == t && Steps(run, events, |events|) >= n
  }

  lemma TakesNone(s: System)
    ensures Takes(s, 0, s)
  {
    assert TakenBy(s, 0, s, [s], []);
  }

  lemma {:induction false} StepsOfPrefix(run: seq<System>, events: seq<Settling>, longer: seq<System>, more: seq<Settling>, n: nat)
    requires |run| == |events| + 1 && |longer| == |more| + 1 && n <= |events| <= |more|
    requires forall k | 0 <= k < |run| :: longer[k] == run[k]
    requires forall k | 0 <= k < |events| :: more[k] == events[k]
    ensures Steps(longer, more, n) == Steps(run, events, n)
  {
    if n > 0 {
      StepsOfPrefix(run, events, longer, more, n - 1);
    }
  }

  lemma TakesMore(s: System, n: nat, u: System, e: Settling, t: System)
    requires Takes(s, n, u) && Shaped(u) && Settles(u, e, t)
    requires e.Apply? || e.Arrive? || (e.Emit? && t != u)
    ensures Takes(s, n + 1, t)
  {
    hide Shaped, Settles;
    var run, events :| TakenBy(s, n, u, run, events);
    var longer, more := run + [t], events + [e];
    forall k | 0 <= k < |more|
      ensures Shaped(longer[k]) && Settles(longer[k], more[k], longer[k + 1])
    {
      if k < |events| {
        assert longer[k] == run[k] && longer[k + 1] == run[k + 1] && more[k] == events[k];
      }
    }
    StepsOfPrefix(run, events, longer, more, |events|);
    assert more[|more| - 1] == e && longer[|more|] == t && longer[|more| - 1] == u;
    assert TakenBy(s, n + 1, t, longer, more);
  }

  // ---- A stranded participant is asked forever --------------------------------------------

  /** Nothing the device can report of its schedule will be retained. */
  predicate Unreportable(d: Device) {
    d.installed.None? && d.stage in {AtAborted, AtFaulted}
  }

  lemma UnreportableIsRefused(p: Participant, d: Device)
    requires p.commit.Some? && Unreportable(d)
    ensures !Retains(p, ReportOf(d, p.descriptor, p.preparedToken))
  {
  }

  /** Stranded and in doubt beside such a device, and nobody before it has anything to send. */
  ghost predicate Looping(s: System, i: nat) {
    && Stranded(s, i) && Shaped(s)
    && s.slots[i] == Free && s.c.participants[i].control.reconciliationRequired
    && Unreportable(s.devices[i]) && !SeenFault(s.seen[i])
    && forall j | 0 <= j < i ::
         s.c.participants[j].control.pending.Some? || Decide(s.c.participants[j], AbortIntent, false) == Ok(None)
  }

  /** The participant's own request is applied, and its reply arrives to no effect. */
  lemma AnswersInVain(s: System, i: nat, operation: ScheduleOperation, after: Device) returns (v: System, t: System)
    requires Stranded(s, i) && Shaped(s) && s.slots[i] == Sent(operation) && !operation.JobCommit?
    requires Handles(s.devices[i], operation, after) && Unreportable(after) && Answering(operation, after, WithReport)
    ensures Settles(s, Apply(i, after, true, WithReport), v) && Shaped(v) && Settles(v, Arrive(i), t)
    ensures Stranded(t, i) && Shaped(t) && t.slots[i] == Free && t.devices[i] == after && t.seen[i] == s.seen[i]
    ensures |t.devices| == |s.devices|
    ensures var p := s.c.participants[i].control;
            t.c.participants == s.c.participants[i := s.c.participants[i].(control :=
              p.(pending := None, reconciliationRequired := p.reconciliationRequired || !operation.JobStatus?))]
  {
    hide NodeInv, Handles, GlobalPhaseOf, Phase, StrandedNode, ReportOf;
    v := s.(devices := s.devices[i := after], slots := s.slots[i := Answered(true, WithReport, after)]);
    assert Step(s, Handle(i, after, true, WithReport), v);
    StepKeepsInv(s, Handle(i, after, true, WithReport), v);
    StepKeepsStranded(s, Handle(i, after, true, WithReport), v, i);
    InvIsShaped(v);
    var p := v.c.participants[i].control;
    t := v.(c := AcceptAt(v.c, i, Response(true, BodyOf(WithReport, after, p))).0,
            slots := v.slots[i := Free],
            seen := v.seen[i := SeenAfter(p, v.seen[i], WithReport, after)]);
    assert Step(v, Deliver(i), t);
    StepKeepsStranded(v, Deliver(i), t, i);
    InvIsShaped(t);
    DeliverChanges(v, i, t);
    InvAt(v, i);
    InvAt(s, i);
    SentIsPending(ContextOf(s), NodeAt(s, i), operation);
    StrandedIsBound(NodeAt(s, i));
    RefusedInVain(NodeAt(v, i), operation);
  }

  lemma SentIsPending(x: Context, n: Node, operation: ScheduleOperation)
    requires NodeInv(x, n) && n.slot == Sent(operation)
    ensures n.pc.control.pending == Some(ActionOf(operation))
  {
  }

  lemma StrandedIsBound(n: Node)
    requires StrandedNode(n)
    ensures n.pc.control.commit.Some?
  {
  }

  lemma RefusedInVain(n: Node, operation: ScheduleOperation)
    requires n.slot.Answered? && n.slot.kind == WithReport && Unreportable(n.slot.snapshot)
    requires n.pc.control.commit.Some? && n.pc.control.pending == Some(ActionOf(operation))
    ensures var p := n.pc.control;
            && Delivered(n).seen == n.seen
            && Delivered(n).pc == n.pc.(control :=
                 p.(pending := None, reconciliationRequired := p.reconciliationRequired || !operation.JobStatus?))
  {
    UnreportableIsRefused(n.pc.control, n.slot.snapshot);
    AcceptedControl(n.pc.control, n.slot.ok, WithReport, n.slot.snapshot);
    hide ReportOf, Retains, AcceptResponse;
  }

  /** One full turn: a status is asked, answered truthfully, refused, and everything is as before. */
  lemma LoopTurns(s: System, i: nat) returns (u: System, v: System, t: System)
    requires Looping(s, i)
    ensures Shaped(s) && i < |s.devices| && Settles(s, Emit, u) && u != s && Shaped(u)
    ensures Settles(u, Apply(i, s.devices[i], true, WithReport), v) && Shaped(v) && Settles(v, Arrive(i), t)
    ensures Looping(t, i) && |t.devices| == |s.devices|
  {
    hide NodeInv, GlobalPhaseOf, Phase, StrandedNode, NextAbortOperation, Unreportable, Handles, Step;
    StrandedNeedsItsFault(s, i);
    var p := s.c.participants[i].control;
    var q := p.(pending := Some(StatusAction));
    FreeIsIdle(s, i);
    DoubtAsksStatus(s.c.participants[i], InitialRound(s.c));
    AbortRound(s.c);
    ScanStopsAt(s.c.participants, s.c.intent, InitialRound(s.c), 0, i, q, JobStatus);
    u := EmitExists(s, i, q, JobStatus);
    EmittedStaysStranded(s, i, q, JobStatus, u);
    StatusChangesNothing(s.devices[i]);
    v, t := AnswersInVain(u, i, JobStatus, s.devices[i]);
    assert t.c.participants[i].control == p.(pending := None);
    forall j | 0 <= j < i
      ensures t.c.participants[j].control.pending.Some? || Decide(t.c.participants[j], AbortIntent, false) == Ok(None)
    {
      assert t.c.participants[j] == s.c.participants[j];
    }
  }

  lemma StatusChangesNothing(d: Device)
    ensures Handles(d, JobStatus, d) && Answering(JobStatus, d, WithReport)
  {
  }

  lemma FreeIsIdle(s: System, i: nat)
    requires Inv(s) && i < |s.devices| == |s.c.participants| == |s.slots| && s.slots[i] == Free
    ensures s.c.participants[i].control.pending.None?
  {
    InvAt(s, i);
  }

  lemma DoubtAsksStatus(pc: ParticipantCoordinator, initial: bool)
    requires pc.control.reconciliationRequired && pc.control.pending.None?
    ensures Decide(pc, AbortIntent, initial) == Ok(Some((pc.control.(pending := Some(StatusAction)), JobStatus)))
  {
  }

  lemma AbortRound(c: Coordinator)
    requires c.intent == AbortIntent
    ensures !InitialRound(c)
  {
  }

  lemma EmittedStaysStranded(s: System, i: nat, q: Participant, operation: ScheduleOperation, t: System)
    requires Stranded(s, i) && Shaped(s) && Settles(s, Emit, t)
    requires t == s.(c := SetControl(s.c, i, q), slots := s.slots[i := Sent(operation)])
    ensures Stranded(t, i) && Shaped(t)
  {
    hide StrandedNode, Inv;
    StepKeepsStranded(s, Coordinate(Next), t, i);
    InvIsShaped(t);
  }

  lemma {:induction false} LoopsForever(s: System, start: System, n: nat, i: nat, turns: nat) returns (t: System)
    requires Looping(s, i) && Takes(start, n, s)
    ensures Takes(start, n + 3 * turns, t)
    decreases turns
  {
    hide Looping, Takes, Shaped, Settles;
    if turns == 0 {
      t := s;
    } else {
      var u, v, w := LoopTurns(s, i);
      TakesMore(start, n, s, Emit, u);
      TakesMore(start, n + 1, u, Apply(i, s.devices[i], true, WithReport), v);
      TakesMore(start, n + 2, v, Arrive(i), w);
      t := LoopsForever(w, start, n + 3, i, turns - 1);
    }
  }

  // ---- How the loop is entered ------------------------------------------------------------

  /** Shown Installing with nothing in flight or in doubt, and nobody before it is stranded. */
  ghost predicate Approaching(s: System, i: nat) {
    && Stranded(s, i) && Shaped(s)
    && s.slots[i] == Free && !s.c.participants[i].control.reconciliationRequired
    && Phase(s.c.participants[i].control) == Installing
    && !SeenFault(s.seen[i]) && s.devices[i].stage != AtCancelled
    && forall j | 0 <= j < i :: CalmNode(NodeAt(s, j))
  }

  function IdleBelow(ps: seq<ParticipantCoordinator>, i: nat): nat
    requires i <= |ps|
  {
    if i == 0 then 0 else IdleBelow(ps, i - 1) + if ps[i - 1].control.pending.None? then 1 else 0
  }

  lemma {:induction false} FewerIdle(ps: seq<ParticipantCoordinator>, i: nat, k: nat, pc: ParticipantCoordinator)
    requires i <= |ps| && k < |ps| && ps[k].control.pending.None? && pc.control.pending.Some?
    ensures IdleBelow(ps[k := pc], i) + (if k < i then 1 else 0) == IdleBelow(ps, i)
  {
    if i > 0 {
      FewerIdle(ps, i - 1, k, pc);
    }
  }

  lemma InstallingAborts(pc: ParticipantCoordinator, initial: bool)
    requires Phase(pc.control) == Installing && pc.control.commit.Some? && pc.control.pending.None?
    requires !pc.control.reconciliationRequired && !initial
    ensures Decide(pc, AbortIntent, initial)
         == Ok(Some((pc.control.(pending := Some(AbortAction)), JobAbort(pc.control.commit.value))))
  {
    hide Phase;
  }

  /** A device that was last seen prepared and never installed may refuse the abort for good. */
  lemma RefusesForGood(x: Context, n: Node) returns (after: Device)
    requires NodeInv(x, n) && StrandedNode(n) && Phase(n.pc.control) == Installing && n.device.stage != AtCancelled
    ensures Handles(n.device, JobAbort(n.pc.control.commit.value), after) && Unreportable(after)
    ensures Answering(JobAbort(n.pc.control.commit.value), after, WithReport)
  {
    ViewPhase(n);
    after := if n.device.stage == AtPrepared then n.device.(stage := AtAborted) else n.device;
  }

  lemma CalmDecides(s: System, i: nat)
    requires Approaching(s, i)
    ensures forall j | 0 <= j < i ::
              s.c.participants[j].control.pending.Some? || Decide(s.c.participants[j], AbortIntent, false).Ok?
  {
    hide NodeInv, Decide, CalmNode, Phase, Resolved;
    forall j | 0 <= j < i
      ensures s.c.participants[j].control.pending.Some? || Decide(s.c.participants[j], AbortIntent, false).Ok?
    {
      InvAt(s, j);
      if s.slots[j] == Free {
        CalmDecision(ContextOf(s), NodeAt(s, j));
      } else {
        BusyIsPending(ContextOf(s), NodeAt(s, j));
      }
    }
  }

  /** The next request goes to someone before the stranded participant, or to it. */
  lemma ApproachEmits(s: System, i: nat) returns (k: nat, q: Participant, operation: ScheduleOperation, t: System)
    requires Approaching(s, i)
    ensures Settles(s, Emit, t) && t != s && k <= i < |s.slots|
    ensures t == s.(c := SetControl(s.c, k, q), slots := s.slots[k := Sent(operation)])
    ensures s.c.participants[k].control.pending.None? && q.pending.Some?
    ensures Decide(s.c.participants[k], AbortIntent, false) == Ok(Some((q, operation)))
    ensures forall j | 0 <= j < k ::
              s.c.participants[j].control.pending.Some? || Decide(s.c.participants[j], AbortIntent, false) == Ok(None)
  {
    hide NodeInv, Decide, CalmNode, Phase, GlobalPhaseOf, StrandedNode;
    StrandedNeedsItsFault(s, i);
    CalmDecides(s, i);
    FreeIsIdle(s, i);
    StrandedIsBound(NodeAt(s, i));
    AbortRound(s.c);
    InstallingAborts(s.c.participants[i], InitialRound(s.c));
    ScanStopsBy(s.c.participants, s.c.intent, InitialRound(s.c), 0, i);
    var found := Scan(s.c.participants, s.c.intent, InitialRound(s.c), 0).value.value;
    k, q, operation := found.0, found.1, found.2;
    t := EmitExists(s, k, q, operation);
    ScannedIsIdle(s.c.participants, s.c.intent, InitialRound(s.c), k, q, operation);
  }

  lemma StillApproaching(s: System, i: nat, k: nat, q: Participant, operation: ScheduleOperation, t: System)
    requires Approaching(s, i) && k < i && Settles(s, Emit, t)
    requires t == s.(c := SetControl(s.c, k, q), slots := s.slots[k := Sent(operation)])
    requires s.c.participants[k].control.pending.None?
    requires Decide(s.c.participants[k], AbortIntent, false) == Ok(Some((q, operation)))
    ensures Approaching(t, i)
  {
    hide NodeInv, Decide, CalmNode, Phase, StrandedNode, Weight, Inv;
    InvIsShaped(s);
    StepKeepsStranded(s, Coordinate(Next), t, i);
    InvAt(s, k);
    IdleSlotIsFree(ContextOf(s), NodeAt(s, k));
    EmittedWeight(ContextOf(s), NodeAt(s, k), q, operation);
    InvIsShaped(t);
    assert NodeAt(t, k) == NodeAt(s, k).(pc := NodeAt(s, k).pc.(control := q), slot := Sent(operation));
    forall j | 0 <= j < i
      ensures CalmNode(NodeAt(t, j))
    {
      assert j != k ==> NodeAt(t, j) == NodeAt(s, j);
    }
  }

  lemma {:induction false} Approaches(start: System, n: nat, s: System, i: nat) returns (m: nat, t: System)
    requires Approaching(s, i) && Takes(start, n, s)
    ensures Looping(t, i) && Takes(start, m, t) && |t.devices| == |s.devices|
    decreases if i <= |s.c.participants| then IdleBelow(s.c.participants, i) else 0
  {
    hide Takes, Settles, Decide, Phase, Shaped, StrandedNode, Inv, CalmNode;
    var k, q, operation, u := ApproachEmits(s, i);
    ApproachIsShaped(s, i);
    TakesMore(start, n, s, Emit, u);
    if k < i {
      StillApproaching(s, i, k, q, operation, u);
      FewerIdle(s.c.participants, i, k, s.c.participants[k].(control := q));
      m, t := Approaches(start, n + 1, u, i);
    } else {
      var after, v, w := AbortsInVain(s, i, q, operation, u);
      TakesMore(start, n + 1, u, Apply(i, after, true, WithReport), v);
      TakesMore(start, n + 2, v, Arrive(i), w);
      m, t := n + 3, w;
    }
  }

  lemma ApproachIsShaped(s: System, i: nat)
    requires Approaching(s, i)
    ensures Shaped(s) && i < |s.devices| == |s.c.participants| == |s.slots|
  {
  }

  /** The stranded participant's abort is refused for good, which puts it in doubt. */
  lemma AbortsInVain(s: System, i: nat, q: Participant, operation: ScheduleOperation, u: System)
    returns (after: Device, v: System, w: System)
    requires Approaching(s, i) && Settles(s, Emit, u)
    requires u == s.(c := SetControl(s.c, i, q), slots := s.slots[i := Sent(operation)])
    requires Decide(s.c.participants[i], AbortIntent, false) == Ok(Some((q, operation)))
    requires s.c.participants[i].control.pending.None?
    requires forall j | 0 <= j < i ::
               s.c.participants[j].control.pending.Some? || Decide(s.c.participants[j], AbortIntent, false) == Ok(None)
    ensures Shaped(u) && Settles(u, Apply(i, after, true, WithReport), v) && Shaped(v) && Settles(v, Arrive(i), w)
    ensures Looping(w, i) && |w.devices| == |s.devices|
  {
    hide NodeInv, Decide, Phase, StrandedNode, Inv, CalmNode, Handles, Step;
    InvAt(s, i);
    StrandedIsBound(NodeAt(s, i));
    InstallingAborts(s.c.participants[i], false);
    EmittedStaysStranded(s, i, q, operation, u);
    after := RefusesForGood(ContextOf(s), NodeAt(s, i));
    v, w := AnswersInVain(u, i, operation, after);
    forall j | 0 <= j < i
      ensures w.c.participants[j].control.pending.Some? || Decide(w.c.participants[j], AbortIntent, false) == Ok(None)
    {
      assert w.c.participants[j] == s.c.participants[j];
    }
  }

  // ---- The exact condition ----------------------------------------------------------------

  /** Nothing in flight, nothing in doubt, and the stop is accepted. */
  ghost predicate QuietStop(s: System) {
    && Inv(s) && s.c.intent in {InstallIntent, ConfirmIntent} && BeginAbortAll(s.c).1.Ok?
    && forall i | 0 <= i < |s.devices| ::
         s.slots[i] == Free && i < |s.c.participants| && !s.c.participants[i].control.reconciliationRequired
  }

  lemma QuietStopIsQuiet(s: System)
    requires QuietStop(s)
    ensures NoInstall(s.(c := BeginAbortAll(s.c).0))
  {
  }

  lemma StopStrandsInstalling(s: System)
    requires QuietStop(s)
    ensures var t := s.(c := BeginAbortAll(s.c).0);
            && ((forall i | 0 <= i < |s.c.participants| :: Phase(s.c.participants[i].control) != Installing) <==> Calm(t))
            && (forall i | 0 <= i < |s.c.participants| ::
                  Phase(s.c.participants[i].control) == Installing <==> Stranded(t, i))
            && (!Calm(t) ==> !TerminalPhase(GlobalPhaseOf(t.c)))
  {
    hide Phase, GlobalPhaseOf, Inv, Calm, Stranded, BeginAbortAll;
    QuietStopStrandsInstalling(s);
  }

  lemma NotCancelledBeforeStop(s: System, i: nat)
    requires QuietStop(s) && i < |s.devices|
    ensures s.devices[i].stage != AtCancelled
  {
    InvAt(s, i);
  }

  /** The first participant shown Installing. */
  lemma {:induction false} FirstInstalling(ps: seq<ParticipantCoordinator>, i: nat) returns (first: nat)
    requires i < |ps| && Phase(ps[i].control) == Installing
    ensures first < |ps| && Phase(ps[first].control) == Installing
    ensures forall j | 0 <= j < first :: Phase(ps[j].control) != Installing
    decreases i
  {
    if j :| 0 <= j < i && Phase(ps[j].control) == Installing {
      first := FirstInstalling(ps, j);
    } else {
      first := i;
    }
  }

  /** With someone shown Installing there are settling runs of any length, so no bound holds. */
  lemma InstallingLoops(s: System, i: nat) returns (run: seq<System>, events: seq<Settling>)
    requires QuietStop(s) && i < |s.c.participants| && Phase(s.c.participants[i].control) == Installing
    ensures IsSettling(run, events) && run[0] == s.(c := BeginAbortAll(s.c).0) && !SettledDown(run, events)
  {
    hide NodeInv, Phase, GlobalPhaseOf, Settles, Inv, NextRequest, Resolved;
    var t := s.(c := BeginAbortAll(s.c).0);
    var first := FirstInstalling(s.c.participants, i);
    StartsApproaching(s, first);
    TakesNone(t);
    var m, u := Approaches(t, 0, t, first);
    var w := LoopsForever(u, t, m, first, 8 * |t.devices| + 1);
    run, events :| TakenBy(t, m + 3 * (8 * |t.devices| + 1), w, run, events);
  }

  lemma StartsApproaching(s: System, first: nat)
    requires QuietStop(s) && first < |s.c.participants| && Phase(s.c.participants[first].control) == Installing
    requires forall j | 0 <= j < first :: Phase(s.c.participants[j].control) != Installing
    ensures Approaching(s.(c := BeginAbortAll(s.c).0), first)
  {
    hide NodeInv, Phase, GlobalPhaseOf;
    var t := s.(c := BeginAbortAll(s.c).0);
    AbortStarts(s);
    QuietStopStrandsInstalling(s);
    InvIsShaped(t);
    InstallingMeansStranded(s, first);
    NotCancelledBeforeStop(s, first);
    forall j | 0 <= j < first
      ensures CalmNode(NodeAt(t, j))
    {
      InstallingMeansStranded(s, j);
    }
  }

  lemma InstallingNeedNotSettle(s: System, i: nat)
    requires QuietStop(s) && i < |s.c.participants| && Phase(s.c.participants[i].control) == Installing
    ensures !(forall run, events | IsSettling(run, events) && run[0] == s.(c := BeginAbortAll(s.c).0) ::
                SettledDown(run, events))
  {
    hide QuietStop, Phase, BeginAbortAll, IsSettling, SettledDown;
    var run, events := InstallingLoops(s, i);
  }

  /**
   * A stop accepted with nothing in flight and nothing in doubt drains in every settling run if and only if no
   * participant is shown Installing. Otherwise the job has not ended, those shown Installing are exactly the stranded
   * ones, and it ends Faulted or never (StrandedEndsFaultedOrNever).
   */
  lemma StopSettlesExactlyWhenNoneInstalling(s: System)
    requires QuietStop(s)
    ensures var t := s.(c := BeginAbortAll(s.c).0);
            && ((forall i | 0 <= i < |s.c.participants| :: Phase(s.c.participants[i].control) != Installing)
                <==> (forall run, events | IsSettling(run, events) && run[0] == t :: SettledDown(run, events)))
            && (forall i | 0 <= i < |s.c.participants| ::
                  Phase(s.c.participants[i].control) == Installing <==> Stranded(t, i))
            && ((exists i | 0 <= i < |s.c.participants| :: Phase(s.c.participants[i].control) == Installing) ==>
                  !TerminalPhase(GlobalPhaseOf(t.c)))
  {
    hide NodeInv, Phase, GlobalPhaseOf, Settles, Inv, SettledDown, Calm, NoInstall, Stranded, QuietStop;
    var t := s.(c := BeginAbortAll(s.c).0);
    StopStrandsInstalling(s);
    QuietStopIsQuiet(s);
    if i: nat :| i < |s.c.participants| && Phase(s.c.participants[i].control) == Installing {
      InstallingNeedNotSettle(s, i);
    } else {
      forall run, events | IsSettling(run, events) && run[0] == t
        ensures SettledDown(run, events)
      {
        QuietAbortDrains(run, events);
      }
    }
  }
}
