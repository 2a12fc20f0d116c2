/** Concrete serial runs of one attended job on two devices, from a fresh coordinator: four ways a live job is lost. */
module LiveJobWitness {
  import opened Wrappers
  import opened ParticipantSchedule
  import opened CoordinatorModel
  import opened StartTiming
  import opened DeviceModel
  import opened JobFixture
  import opened LiveJobModel
  import opened LiveJobRuns
  import Ordering

  const INPUTS := [Input(5), Input(6)]

  /** A device that holds the bound commit, and the machine that has just seen it. */
  function Held(stage: Stage): Device { Device(stage, Some(BOUND), 1_300, None, false) }

  function Shown(stage: Stage): Participant {
    IDLE.(commit := Some(BOUND), authorizedLease := Some(1_300), report := Some(ReportOf(Held(stage), DESCRIPTOR, 9)))
  }

  const BLANK := IDLE.(report := Some(DEFAULT_REPORT))
  const READY := IDLE.(report := Some(ReportOf(PREPARED_DEVICE, DESCRIPTOR, 9)))

  function Duo(a: Participant, b: Participant, bound: bool, intent: Intent): Coordinator {
    var planned := if bound then Some(BOUND) else None;
    Coordinator([ParticipantCoordinator(5, a, planned), ParticipantCoordinator(6, b, planned)],
                11, 12, 1_000, 1_000, NetworkAttended, if bound then Some(TARGET) else None, intent, false)
  }

  function Live(c: Coordinator): Job { Job(c, [], false, 0, false, None) }

  const START := Serial(Live(Duo(IDLE, IDLE, false, PrepareIntent)), None)

  lemma StartIsFresh()
    ensures CoordinatorModel.Fresh(START.job.c) && Tracked(START.job.c, [])
  {
    var c := START.job.c;
    forall i | 0 <= i < |c.participants|
      ensures Awaits(c, i) <==> Named([], c.participants[i].deviceId)
    {
      assert c.participants[i].control == IDLE;
    }
  }

  // ---- One request and its answer ---------------------------------------------------------

  function Answered(report: StatusReport): Response { Response(true, ReportBody(report)) }

  /** What participant `k` of the two is asked, when the other has nothing before it. */
  ghost predicate Asks(c: Coordinator, k: nat, q: Participant, operation: ScheduleOperation) {
    && k < |c.participants| == 2
    && c.participants[0].control.pending.None? && c.participants[k].control.pending.None?
    && (k == 1 ==> Decide(c.participants[0], c.intent, InitialRound(c)) == Ok(None))
    && Decide(c.participants[k], c.intent, InitialRound(c)) == Ok(Some((q, operation)))
  }

  lemma AskedNext(c: Coordinator, k: nat, q: Participant, operation: ScheduleOperation)
    requires Asks(c, k, q, operation) && !TerminalPhase(GlobalPhaseOf(c))
    ensures NextRequest(c) == (SetControl(c, k, q), Ok(Some(Request(c.participants[k].deviceId, operation))))
  {
    hide GlobalPhaseOf, Decide, InitialRound;
    if k == 1 {
      assert Scan(c.participants, c.intent, InitialRound(c), 1) == Ok(Some((1, q, operation)));
    }
    assert Scan(c.participants, c.intent, InitialRound(c), 0) == Ok(Some((k, q, operation)));
  }

  lemma AnsweredBy(c: Coordinator, k: nat, response: Response, r: Participant)
    requires |c.participants| == 2 && k < 2 && c.participants[0].deviceId == 5 && c.participants[1].deviceId == 6
    requires AcceptResponse(c.participants[k].control, response).0 == r
    requires Phase(r) != ParticipantPhase.Faulted
    requires Phase(c.participants[1 - k].control) != ParticipantPhase.Faulted
    ensures Accept(c, c.participants[k].deviceId, response).0 == SetControl(c, k, r)
  {
    hide AcceptResponse, Phase, GlobalPhaseOf;
    assert IndexOf(c.participants, 5) == Some(0);
    assert IndexOf(c.participants[1..], 6) == Some(0);
    assert IndexOf(c.participants, 6) == Some(1);
    assert !AnyFaulted(SetControl(c, k, r).participants);
  }

  lemma Exchanges(j: Job, k: nat, q: Participant, operation: ScheduleOperation, response: Response, r: Participant)
    requires Reaches(START, Serial(j, None))
    requires j.queue == [] && !j.sweepRequired && j.terminalOverride.None?
    requires |j.c.participants| == 2 && j.c.participants[0].deviceId == 5 && j.c.participants[1].deviceId == 6
    requires Asks(j.c, k, q, operation) && !TerminalPhase(GlobalPhaseOf(j.c))
    requires AcceptResponse(q, response).0 == r && Phase(r) != ParticipantPhase.Faulted
    requires Phase(j.c.participants[1 - k].control) != ParticipantPhase.Faulted
    ensures Reaches(START, Serial(j.(c := SetControl(j.c, k, r)), None))
  {
    hide Reaches, Asks, NextRequest, Accept, AcceptResponse, Phase, GlobalPhaseOf;
    AsksIndex(j.c, k, q, operation);
    AskedNext(j.c, k, q, operation);
    var device := j.c.participants[k].deviceId;
    var asked := Serial(j.(c := SetControl(j.c, k, q)), Some(Request(device, operation)));
    assert After(Serial(j, None), Ask) == asked;
    ReachesNext(START, Serial(j, None), Ask);
    AnsweredBy(asked.job.c, k, response, r);
    assert SetControl(SetControl(j.c, k, q), k, r) == SetControl(j.c, k, r);
    ReachesNext(START, asked, Answer(response));
  }

  lemma AsksIndex(c: Coordinator, k: nat, q: Participant, operation: ScheduleOperation)
    requires Asks(c, k, q, operation)
    ensures k < |c.participants| == 2
  {
  }

  // ---- What the two machines are asked and answer -----------------------------------------

  lemma AcceptsReport(q: Participant, report: StatusReport)
    requires q.pending.Some? && ValidReport(q, report) && (q.report.Some? ==> ReportAdvances(q.report.value, report))
    requires !ReplaceableForeignTerminal(q.descriptor, report)
    ensures AcceptResponse(q, Answered(report)).0
         == q.(pending := None, report := Some(report), reconciliationRequired := false)
  {
  }

  lemma ShownPhase(stage: Stage)
    requires stage !in BEFORE_COMMIT
    ensures Phase(Shown(stage)) == PhaseAtStage(stage, true) || stage == AtFaulted
  {
    PhaseOfTruthfulReport(Held(stage), DESCRIPTOR, 9, true);
  }

  lemma ReadyPhase()
    ensures Phase(READY) == Ready && Phase(BLANK) == Empty && Phase(IDLE) == Empty
  {
    PhaseOfTruthfulReport(PREPARED_DEVICE, DESCRIPTOR, 9, false);
  }

  /** Any request to a machine that has seen one held stage may be answered with a later one. */
  lemma ShowsLater(q: Participant, before: Stage, after: Stage)
    requires before !in BEFORE_COMMIT && after !in BEFORE_COMMIT && Reach(before, after)
    requires q == Shown(before).(pending := q.pending) && q.pending.Some?
    ensures AcceptResponse(q, Answered(ReportOf(Held(after), DESCRIPTOR, 9))).0 == Shown(after)
  {
    TruthfulReportsAdvance(Held(before), Held(after), DESCRIPTOR, 9);
    HeldReport(q, after);
    hide ReportOf, ValidReport, ReportAdvances, ReplaceableForeignTerminal;
    AcceptsReport(q, ReportOf(Held(after), DESCRIPTOR, 9));
  }

  lemma HeldReport(q: Participant, after: Stage)
    requires after !in BEFORE_COMMIT && CommitNames(q, BOUND) && q.commit == Some(BOUND) && q.authorizedLease == Some(1_300)
    requires q.descriptor == DESCRIPTOR
    ensures ValidReport(q, ReportOf(Held(after), DESCRIPTOR, 9))
    ensures !ReplaceableForeignTerminal(DESCRIPTOR, ReportOf(Held(after), DESCRIPTOR, 9))
  {
  }

  lemma InstallIsShown()
    ensures AcceptResponse(Shown(AtInstalled).(report := READY.report, pending := Some(InstallAction)),
                           Answered(ReportOf(Held(AtInstalled), DESCRIPTOR, 9))).0 == Shown(AtInstalled)
  {
    var q := Shown(AtInstalled).(report := READY.report, pending := Some(InstallAction));
    TruthfulReportsAdvance(PREPARED_DEVICE, Held(AtInstalled), DESCRIPTOR, 9);
    HeldReport(q, AtInstalled);
    hide ReportOf, ValidReport, ReportAdvances, ReplaceableForeignTerminal;
    AcceptsReport(q, ReportOf(Held(AtInstalled), DESCRIPTOR, 9));
  }

  lemma PreparationIsShown()
    ensures AcceptResponse(BLANK.(pending := Some(PrepareAction)), Answered(ReportOf(PREPARED_DEVICE, DESCRIPTOR, 9))).0 == READY
    ensures AcceptResponse(IDLE.(pending := Some(StatusAction)), Answered(DEFAULT_REPORT)).0 == BLANK
  {
    AcceptsReport(BLANK.(pending := Some(PrepareAction)), ReportOf(PREPARED_DEVICE, DESCRIPTOR, 9));
    AcceptsReport(IDLE.(pending := Some(StatusAction)), DEFAULT_REPORT);
  }

  // ---- Global phases of the two -----------------------------------------------------------

  lemma TwoPhases(a: Participant, b: Participant, bound: bool, intent: Intent)
    ensures var g := GlobalPhaseOf(Duo(a, b, bound, intent));
            var (p, q) := (Phase(a), Phase(b));
            && (intent == PrepareIntent && {p, q} <= {Empty, Preparing, Ready} ==>
                  g == if p == q == Ready && a.report.Some? && b.report.Some? then GReady else GPreparing)
            && (intent == InstallIntent && {p, q} <= {Ready, Installing, ParticipantPhase.Installed} ==>
                  g == if p == q == ParticipantPhase.Installed then GInstalled else GInstalling)
            && (intent == ConfirmIntent && {p, q} <= {ParticipantPhase.Installed, ParticipantPhase.Confirmed} ==>
                  g == if p == q == ParticipantPhase.Confirmed then GConfirmed else GConfirming)
            && (intent == ConfirmIntent && p in {ParticipantPhase.Complete, ParticipantPhase.Confirmed} && q == ParticipantPhase.Running ==> g == GIrrevocable)
            && (intent == AbortIntent && {p, q} <= {ParticipantPhase.Confirmed, ParticipantPhase.Running} ==>
                  g == if p == q == ParticipantPhase.Confirmed then GAborting else GIrrevocable)
  {
    hide Phase;
    var ps := Duo(a, b, bound, intent).participants;
    assert ps[0].control == a && ps[1].control == b;
  }

  lemma StartRound(a: Participant, b: Participant, bound: bool, intent: Intent)
    ensures InitialRound(Duo(a, b, bound, intent)) <==> intent == PrepareIntent && (a.report.None? || b.report.None?)
  {
    var ps := Duo(a, b, bound, intent).participants;
    assert ps[0].control == a && ps[1].control == b;
  }

  /** `base` with the two machines, the epoch and the intent given; nothing queued, no sweep due, nothing faulted. */
  function With(base: Job, a: Participant, b: Participant, bound: bool, intent: Intent): Job {
    base.(c := Duo(a, b, bound, intent), queue := [], sweepRequired := false, terminalOverride := None)
  }

  ghost predicate At(base: Job, a: Participant, b: Participant, bound: bool, intent: Intent) {
    Reaches(START, Serial(With(base, a, b, bound, intent), None))
  }

  const NEW := START.job

  lemma Moves(
    base: Job, a: Participant, b: Participant, bound: bool, intent: Intent,
    k: nat, q: Participant, operation: ScheduleOperation, report: StatusReport, r: Participant)
    requires At(base, a, b, bound, intent) && !TerminalPhase(GlobalPhaseOf(Duo(a, b, bound, intent)))
    requires Asks(Duo(a, b, bound, intent), k, q, operation)
    requires AcceptResponse(q, Answered(report)).0 == r && Phase(r) != ParticipantPhase.Faulted
    requires Phase(if k == 0 then b else a) != ParticipantPhase.Faulted
    ensures k <= 1
    ensures At(base, if k == 0 then r else a, if k == 0 then b else r, bound, intent)
  {
    hide Reaches, AcceptResponse, Phase, GlobalPhaseOf, Asks;
    var c := Duo(a, b, bound, intent);
    AsksIndex(c, k, q, operation);
    assert c.participants[1 - k].control == if k == 0 then b else a;
    Exchanges(With(base, a, b, bound, intent), k, q, operation, Answered(report), r);
    assert SetControl(c, k, r) == Duo(if k == 0 then r else a, if k == 0 then b else r, bound, intent);
  }

  lemma FirstStatuses()
    ensures At(NEW, BLANK, BLANK, false, PrepareIntent)
  {
    ReadyPhase();
    PreparationIsShown();
    StartRound(IDLE, IDLE, false, PrepareIntent);
    StartRound(BLANK, IDLE, false, PrepareIntent);
    TwoPhases(IDLE, IDLE, false, PrepareIntent);
    TwoPhases(BLANK, IDLE, false, PrepareIntent);
    ReachesItself(START);
    hide Reaches, AcceptResponse, Phase, GlobalPhaseOf, InitialRound;
    var q := IDLE.(pending := Some(StatusAction));
    assert START == Serial(With(NEW, IDLE, IDLE, false, PrepareIntent), None);
    Moves(NEW, IDLE, IDLE, false, PrepareIntent, 0, q, JobStatus, DEFAULT_REPORT, BLANK);
    Moves(NEW, BLANK, IDLE, false, PrepareIntent, 1, q, JobStatus, DEFAULT_REPORT, BLANK);
  }

  lemma Preparations()
    ensures At(NEW, READY, READY, false, PrepareIntent)
    ensures GlobalPhaseOf(Duo(READY, READY, false, PrepareIntent)) == GReady
  {
    FirstStatuses();
    ReadyPhase();
    PreparationIsShown();
    StartRound(BLANK, BLANK, false, PrepareIntent);
    StartRound(READY, BLANK, false, PrepareIntent);
    TwoPhases(BLANK, BLANK, false, PrepareIntent);
    TwoPhases(READY, BLANK, false, PrepareIntent);
    TwoPhases(READY, READY, false, PrepareIntent);
    hide At, AcceptResponse, Phase, GlobalPhaseOf, InitialRound, ReportOf;
    var q := BLANK.(pending := Some(PrepareAction));
    var report := ReportOf(PREPARED_DEVICE, DESCRIPTOR, 9);
    Moves(NEW, BLANK, BLANK, false, PrepareIntent, 0, q, JobPrepare(DESCRIPTOR), report, READY);
    Moves(NEW, READY, BLANK, false, PrepareIntent, 1, q, JobPrepare(DESCRIPTOR), report, READY);
  }

  lemma Everything(commit: Commit) returns (encodes: Commit -> bool)
    ensures encodes(commit)
  {
    encodes := c => true;
  }

  /** Both clocks map the epoch, and both commits are planned. */
  lemma Starts(encodes: Commit -> bool)
    requires encodes(BOUND)
    ensures GlobalPhaseOf(Duo(READY, READY, false, PrepareIntent)) == GReady ==>
              BindStart(Duo(READY, READY, false, PrepareIntent), 0, TARGET, INPUTS, encodes)
              == (Duo(READY, READY, true, InstallIntent), Ok(()))
  {
    hide GlobalPhaseOf, ReportOf;
    var c := Duo(READY, READY, false, PrepareIntent);
    SortedInputs();
    forall i | 0 <= i < 2
      ensures PlanCommit(c, c.participants[i], INPUTS[i], 0, TARGET, encodes) == Ok(BOUND)
    {
      PlansEach(c, c.participants[i], INPUTS[i], encodes);
    }
    PlansBoth(c, encodes);
    assert Planned(c.participants, [BOUND, BOUND]) == Duo(READY, READY, true, InstallIntent).participants;
  }

  lemma SortedInputs()
    ensures Ordering.Sort(InputKey, INPUTS) == INPUTS
  {
    Ordering.SortKeepsStrict(InputKey, INPUTS);
  }

  lemma PlansEach(c: Coordinator, pc: ParticipantCoordinator, input: StartInput, encodes: Commit -> bool)
    requires c == Duo(READY, READY, false, PrepareIntent) && pc.control == READY && encodes(BOUND)
    requires input == Input(pc.deviceId)
    ensures PlanCommit(c, pc, input, 0, TARGET, encodes) == Ok(BOUND)
  {
    hide ReportOf;
    assert CeilProductRatio(1_000, 100, 1_000) == Some(100);
  }

  lemma PlansBoth(c: Coordinator, encodes: Commit -> bool)
    requires |c.participants| == 2
    requires forall i | 0 <= i < 2 :: PlanCommit(c, c.participants[i], INPUTS[i], 0, TARGET, encodes) == Ok(BOUND)
    ensures PlanCommits(c, INPUTS, 0, TARGET, encodes, 0) == Ok([BOUND, BOUND])
  {
    hide PlanCommit;
    assert PlanCommits(c, INPUTS, 0, TARGET, encodes, 2) == Ok([]);
    assert PlanCommits(c, INPUTS, 0, TARGET, encodes, 1) == Ok([BOUND]) by {
      assert [BOUND] + [] == [BOUND];
    }
    assert [BOUND] + [BOUND] == [BOUND, BOUND];
  }

  lemma Started()
    ensures At(NEW, READY, READY, true, InstallIntent)
  {
    Preparations();
    var encodes := Everything(BOUND);
    Starts(encodes);
    hide Reaches, GlobalPhaseOf, BindStart, ReportOf;
    var s := Serial(With(NEW, READY, READY, false, PrepareIntent), None);
    ReachesNext(START, s, Start(0, TARGET, INPUTS, encodes));
    assert After(s, Start(0, TARGET, INPUTS, encodes)) == Serial(With(NEW, READY, READY, true, InstallIntent), None);
  }

  lemma StillOpen(a: Participant, b: Participant, bound: bool, intent: Intent)
    requires intent == InstallIntent ==> {Phase(a), Phase(b)} <= {Ready, Installing, ParticipantPhase.Installed}
    requires intent == ConfirmIntent ==> {Phase(a), Phase(b)} <= {ParticipantPhase.Installed, ParticipantPhase.Confirmed}
    requires intent == AbortIntent ==> {Phase(a), Phase(b)} <= {ParticipantPhase.Confirmed, ParticipantPhase.Running}
    requires intent in {InstallIntent, ConfirmIntent, AbortIntent}
    ensures !TerminalPhase(GlobalPhaseOf(Duo(a, b, bound, intent)))
  {
    hide Phase, GlobalPhaseOf;
    TwoPhases(a, b, bound, intent);
  }

  lemma AsksToInstall(a: Participant, k: nat)
    requires (k == 0 && a == READY) || (k == 1 && a == Shown(AtInstalled))
    ensures Asks(Duo(a, READY, true, InstallIntent), k,
                 Shown(AtInstalled).(report := READY.report, pending := Some(InstallAction)), JobCommit(BOUND))
    ensures !TerminalPhase(GlobalPhaseOf(Duo(a, READY, true, InstallIntent)))
    ensures Phase(a) != ParticipantPhase.Faulted && Phase(READY) != ParticipantPhase.Faulted
  {
    ReadyPhase();
    ShownPhase(AtInstalled);
    StartRound(a, READY, true, InstallIntent);
    StillOpen(a, READY, true, InstallIntent);
    hide Phase, GlobalPhaseOf, InitialRound, ReportOf;
  }

  lemma Installations()
    ensures At(NEW, Shown(AtInstalled), Shown(AtInstalled), true, InstallIntent)
    ensures GlobalPhaseOf(Duo(Shown(AtInstalled), Shown(AtInstalled), true, InstallIntent)) == GInstalled
  {
    hide At, AcceptResponse, Phase, GlobalPhaseOf, Asks, ReportOf, Shown;
    Started();
    ShownPhase(AtInstalled);
    InstallIsShown();
    AsksToInstall(READY, 0);
    AsksToInstall(Shown(AtInstalled), 1);
    TwoPhases(Shown(AtInstalled), Shown(AtInstalled), true, InstallIntent);
    var q := Shown(AtInstalled).(report := READY.report, pending := Some(InstallAction));
    var report := ReportOf(Held(AtInstalled), DESCRIPTOR, 9);
    Moves(NEW, READY, READY, true, InstallIntent, 0, q, JobCommit(BOUND), report, Shown(AtInstalled));
    Moves(NEW, Shown(AtInstalled), READY, true, InstallIntent, 1, q, JobCommit(BOUND), report, Shown(AtInstalled));
  }

  lemma WindowIsOpen()
    ensures DeadlineWindowOf(Duo(Shown(AtInstalled), Shown(AtInstalled), true, InstallIntent), 0, INPUTS) == Ok(ConfirmationOpen)
  {
    hide ReportOf;
    SortedInputs();
    var c := Duo(Shown(AtInstalled), Shown(AtInstalled), true, InstallIntent);
    assert WindowFrom(c.participants, INPUTS, 0, 2, true) == Ok(ConfirmationOpen);
    assert WindowFrom(c.participants, INPUTS, 0, 1, true) == Ok(ConfirmationOpen);
  }

  lemma Opened()
    ensures At(NEW, Shown(AtInstalled), Shown(AtInstalled), true, ConfirmIntent)
  {
    Installations();
    WindowIsOpen();
    hide Reaches, GlobalPhaseOf, DeadlineWindowOf, ReportOf;
    var s := Serial(With(NEW, Shown(AtInstalled), Shown(AtInstalled), true, InstallIntent), None);
    ReachesNext(START, s, OpenConfirmation(0, INPUTS));
    assert After(s, OpenConfirmation(0, INPUTS))
        == Serial(With(NEW, Shown(AtInstalled), Shown(AtInstalled), true, ConfirmIntent), None);
  }

  /** What one participant shown at a held stage is to do. */
  lemma NextAt(deviceId: nat, stage: Stage)
    requires stage in {AtInstalled, AtConfirmed, AtRunning}
    ensures var pc := ParticipantCoordinator(deviceId, Shown(stage), Some(BOUND));
            && pc.control.pending.None? && Phase(Shown(stage)) != ParticipantPhase.Faulted
            && (stage == AtInstalled ==>
                  Decide(pc, ConfirmIntent, false)
                  == Ok(Some((Shown(stage).(pending := Some(ConfirmAction)), JobConfirm(BOUND)))))
            && (stage != AtInstalled ==> Decide(pc, ConfirmIntent, false) == Ok(None))
            && (stage == AtConfirmed ==>
                  Decide(pc, AbortIntent, false)
                  == Ok(Some((Shown(stage).(pending := Some(AbortAction)), JobAbort(BOUND)))))
            && (stage == AtRunning ==> Decide(pc, AbortIntent, false) == Ok(None))
  {
    ShownPhase(stage);
    hide Phase, ReportOf;
  }

  lemma AsksToConfirm(a: Participant, k: nat)
    requires (k == 0 && a == Shown(AtInstalled)) || (k == 1 && a == Shown(AtConfirmed))
    ensures Asks(Duo(a, Shown(AtInstalled), true, ConfirmIntent), k,
                 Shown(AtInstalled).(pending := Some(ConfirmAction)), JobConfirm(BOUND))
    ensures !TerminalPhase(GlobalPhaseOf(Duo(a, Shown(AtInstalled), true, ConfirmIntent)))
    ensures Phase(a) != ParticipantPhase.Faulted && Phase(Shown(AtInstalled)) != ParticipantPhase.Faulted
  {
    hide Phase, GlobalPhaseOf, InitialRound, ReportOf, Decide, Shown;
    ShownPhase(AtInstalled);
    ShownPhase(AtConfirmed);
    StartRound(a, Shown(AtInstalled), true, ConfirmIntent);
    StillOpen(a, Shown(AtInstalled), true, ConfirmIntent);
    NextAt(5, if k == 0 then AtInstalled else AtConfirmed);
    NextAt(6, AtInstalled);
  }

  /** A fresh coordinator, every request answered: both participants confirmed. */
  lemma Confirmations()
    ensures At(NEW, Shown(AtConfirmed), Shown(AtConfirmed), true, ConfirmIntent)
    ensures GlobalPhaseOf(Duo(Shown(AtConfirmed), Shown(AtConfirmed), true, ConfirmIntent)) == GConfirmed
  {
    hide At, AcceptResponse, Phase, GlobalPhaseOf, Asks, ReportOf, Shown;
    var q := Shown(AtInstalled).(pending := Some(ConfirmAction));
    ShowsLater(q, AtInstalled, AtConfirmed);
    Opened();
    ShownPhase(AtConfirmed);
    AsksToConfirm(Shown(AtInstalled), 0);
    AsksToConfirm(Shown(AtConfirmed), 1);
    TwoPhases(Shown(AtConfirmed), Shown(AtConfirmed), true, ConfirmIntent);
    var report := ReportOf(Held(AtConfirmed), DESCRIPTOR, 9);
    Moves(NEW, Shown(AtInstalled), Shown(AtInstalled), true, ConfirmIntent, 0, q, JobConfirm(BOUND), report, Shown(AtConfirmed));
    Moves(NEW, Shown(AtConfirmed), Shown(AtInstalled), true, ConfirmIntent, 1, q, JobConfirm(BOUND), report, Shown(AtConfirmed));
  }

  // ---- A missed confirmation --------------------------------------------------------------

  lemma RejectionKeepsTheReport(q: Participant, report: StatusReport)
    ensures AcceptResponse(q, Response(false, ReportBody(report))).0 == AcceptResponse(q, Answered(report)).0
  {
    hide ValidReport, ReportAdvances, ReplaceableForeignTerminal, Phase;
  }

  lemma ConfirmedBesideExpired(a: Participant, b: Participant)
    requires Phase(a) == ParticipantPhase.Confirmed && Phase(b) == ParticipantPhase.Expired
    ensures GlobalPhaseOf(Duo(a, b, true, ConfirmIntent)) == GFaulted
  {
    hide Phase;
    var ps := Duo(a, b, true, ConfirmIntent).participants;
    assert ps[0].control == a && ps[1].control == b;
    assert TerminalFailure(Phase(ps[1].control));
  }

  lemma ConfirmedAndExpired()
    ensures GlobalPhaseOf(Duo(Shown(AtConfirmed), Shown(AtExpired), true, ConfirmIntent)) == GFaulted
    ensures Phase(Shown(AtConfirmed)) == ParticipantPhase.Confirmed && Phase(Shown(AtExpired)) == ParticipantPhase.Expired
  {
    hide GlobalPhaseOf, Phase, Shown;
    ShownPhase(AtConfirmed);
    ShownPhase(AtExpired);
    ConfirmedBesideExpired(Shown(AtConfirmed), Shown(AtExpired));
  }

  /**
   * From a fresh coordinator: the first participant is confirmed, the second answers its confirmation too late and is
   * shown Expired. The job is Faulted, asks nothing more and refuses a stop, while the first is about to start.
   */
  lemma ExpiredPeerEndsTheConfirmation() returns (j: Job)
    ensures Reaches(START, Serial(j, None)) && j.terminalOverride.None? && !j.stopRequested
    ensures |j.c.participants| == 2 && Phase(j.c.participants[0].control) == ParticipantPhase.Confirmed
    ensures Phase(j.c.participants[1].control) == ParticipantPhase.Expired
    ensures JobPhaseOf(j) == JobFaulted && NextOperation(j) == (j, Ok(None)) && RequestStop(j) == (j, Err(NotLegal))
  {
    hide AcceptResponse, Phase, GlobalPhaseOf, Asks, ReportOf, Shown, Reaches;
    var q := Shown(AtInstalled).(pending := Some(ConfirmAction));
    ShowsLater(q, AtInstalled, AtConfirmed);
    ShowsLater(q, AtInstalled, AtExpired);
    RejectionKeepsTheReport(q, ReportOf(Held(AtExpired), DESCRIPTOR, 9));
    Opened();
    AsksToConfirm(Shown(AtInstalled), 0);
    AsksToConfirm(Shown(AtConfirmed), 1);
    ConfirmedAndExpired();
    Moves(NEW, Shown(AtInstalled), Shown(AtInstalled), true, ConfirmIntent, 0, q, JobConfirm(BOUND),
          ReportOf(Held(AtConfirmed), DESCRIPTOR, 9), Shown(AtConfirmed));
    var before := With(NEW, Shown(AtConfirmed), Shown(AtInstalled), true, ConfirmIntent);
    Exchanges(before, 1, q, JobConfirm(BOUND), Response(false, ReportBody(ReportOf(Held(AtExpired), DESCRIPTOR, 9))),
              Shown(AtExpired));
    j := With(NEW, Shown(AtConfirmed), Shown(AtExpired), true, ConfirmIntent);
    assert before.(c := SetControl(before.c, 1, Shown(AtExpired))) == j;
  }

  // ---- A status round of the two ----------------------------------------------------------

  function Asked(p: Participant): Participant { p.(pending := Some(StatusAction)) }

  const ROUND := [Request(5, JobStatus), Request(6, JobStatus)]

  /** A round has been opened and its first request handed out. */
  function FirstAsked(base: Job, a: Participant, b: Participant, intent: Intent): Serial {
    Serial(With(base, Asked(a), Asked(b), true, intent).(queue := [ROUND[1]]), Some(ROUND[0]))
  }

  function FirstAnswered(base: Job, r: Participant, b: Participant, intent: Intent): Serial {
    Serial(With(base, r, Asked(b), true, intent).(queue := [ROUND[1]]), None)
  }

  lemma OpensRound(base: Job, a: Participant, b: Participant, intent: Intent)
    requires a.pending.None? && b.pending.None?
    ensures var s := Serial(With(base, a, b, true, intent), None);
            After(After(s, Round), Ask) == FirstAsked(base, a, b, intent)
  {
    var c := Duo(a, b, true, intent);
    var d := CoordinatorModel.BeginStatusRound(c).0;
    assert !AnyPending(c.participants);
    assert d.participants == Duo(Asked(a), Asked(b), true, intent).participants;
    assert StatusRequests(c.participants) == ROUND;
    hide CoordinatorModel.BeginStatusRound, NextRequest;
    StatusRoundEffect(c);
    assert ROUND[1..] == [ROUND[1]];
  }

  lemma AnswersFirst(base: Job, a: Participant, b: Participant, intent: Intent, report: StatusReport, r: Participant)
    requires AcceptResponse(Asked(a), Answered(report)).0 == r
    requires Phase(r) != ParticipantPhase.Faulted && Phase(b) != ParticipantPhase.Faulted
    ensures After(FirstAsked(base, a, b, intent), Answer(Answered(report))) == FirstAnswered(base, r, b, intent)
  {
    hide AcceptResponse, Accept;
    assert Phase(Asked(b)) == Phase(b);
    hide Phase;
    var c := Duo(Asked(a), Asked(b), true, intent);
    assert c.participants[1].control == Asked(b);
    AnsweredBy(c, 0, Answered(report), r);
    assert SetControl(c, 0, r) == Duo(r, Asked(b), true, intent);
  }

  lemma AnswersSecond(base: Job, a: Participant, b: Participant, intent: Intent, report: StatusReport, r: Participant)
    requires AcceptResponse(Asked(b), Answered(report)).0 == r
    requires Phase(r) != ParticipantPhase.Faulted && Phase(a) != ParticipantPhase.Faulted
    ensures After(FirstAnswered(base, a, b, intent), Ask).outstanding.Some?
    ensures After(After(FirstAnswered(base, a, b, intent), Ask), Answer(Answered(report)))
         == Serial(With(base, a, r, true, intent), None)
  {
    hide AcceptResponse, Accept, Phase, NextRequest, CoordinatorModel.BeginStatusRound;
    var c := Duo(a, Asked(b), true, intent);
    assert c.participants[0].control == a;
    AnsweredBy(c, 1, Answered(report), r);
    assert SetControl(c, 1, r) == Duo(a, r, true, intent);
    assert After(FirstAnswered(base, a, b, intent), Ask) == Serial(With(base, a, Asked(b), true, intent), Some(ROUND[1]));
  }

  /** From Confirmed: the first participant reports completion, the second is still running. */
  lemma OneCompletes()
    ensures At(NEW, Shown(AtComplete), Shown(AtRunning), true, ConfirmIntent)
    ensures GlobalPhaseOf(Duo(Shown(AtComplete), Shown(AtRunning), true, ConfirmIntent)) == GIrrevocable
  {
    hide AcceptResponse, Phase, GlobalPhaseOf, ReportOf, Reaches, After;
    Confirmations();
    var c := Shown(AtConfirmed);
    ShownPhase(AtConfirmed);
    ShownPhase(AtComplete);
    ShownPhase(AtRunning);
    ShowsLater(Asked(c), AtConfirmed, AtComplete);
    ShowsLater(Asked(c), AtConfirmed, AtRunning);
    OpensRound(NEW, c, c, ConfirmIntent);
    AnswersFirst(NEW, c, c, ConfirmIntent, ReportOf(Held(AtComplete), DESCRIPTOR, 9), Shown(AtComplete));
    AnswersSecond(NEW, Shown(AtComplete), c, ConfirmIntent, ReportOf(Held(AtRunning), DESCRIPTOR, 9), Shown(AtRunning));
    FourMoves(Serial(With(NEW, c, c, true, ConfirmIntent), None), c,
              ReportOf(Held(AtComplete), DESCRIPTOR, 9), ReportOf(Held(AtRunning), DESCRIPTOR, 9));
    TwoPhases(Shown(AtComplete), Shown(AtRunning), true, ConfirmIntent);
  }

  lemma FourMoves(s: Serial, c: Participant, first: StatusReport, second: StatusReport)
    requires Reaches(START, s) && s == Serial(With(NEW, c, c, true, ConfirmIntent), None)
    requires After(After(s, Round), Ask) == FirstAsked(NEW, c, c, ConfirmIntent)
    requires After(FirstAsked(NEW, c, c, ConfirmIntent), Answer(Answered(first))).outstanding.None?
    ensures var t := After(FirstAsked(NEW, c, c, ConfirmIntent), Answer(Answered(first)));
            Reaches(START, t) &&
            (Admissible(After(t, Ask), Answer(Answered(second))) ==> Reaches(START, After(After(t, Ask), Answer(Answered(second)))))
  {
    hide Reaches, NextOperation, JobAccept, JobBeginStatusRound;
    ReachesNext(START, s, Round);
    ReachesNext(START, After(s, Round), Ask);
    ReachesNext(START, FirstAsked(NEW, c, c, ConfirmIntent), Answer(Answered(first)));
    var t := After(FirstAsked(NEW, c, c, ConfirmIntent), Answer(Answered(first)));
    ReachesNext(START, t, Ask);
    if Admissible(After(t, Ask), Answer(Answered(second))) {
      ReachesNext(START, After(t, Ask), Answer(Answered(second)));
    }
  }

  /**
   * The stop in the middle of a round, from a fresh coordinator: confirmed, a status round opened and its first request
   * answered, then a stop that is accepted. The second participant is stranded while Confirmed, so it is never told to
   * abort and the job never becomes terminal by itself (StopAfterFirstAnswerStrandsTheRest).
   */
  lemma StopAfterFirstAnswerIsReachable() returns (s: Serial, t: Serial)
    ensures Reaches(START, s) && CoordinatorModel.Fresh(START.job.c)
    ensures s.outstanding.None? && s.job.terminalOverride.None? && Tracked(s.job.c, []) && s.job.queue == []
    ensures s.job.c.target.Some? && GlobalPhaseOf(s.job.c) == GConfirmed && |s.job.c.participants| == 2
    ensures t == After(After(s, Round), Ask) && t.outstanding.Some?
    ensures var u := After(t, Answer(Answered(ReportOf(Held(AtConfirmed), DESCRIPTOR, 9))));
            && u.outstanding.None? && RequestStop(u.job).1 == Ok(())
            && Stuck(After(u, Stop), 1) && Aborting(After(u, Stop).job.c)
            && Phase(After(u, Stop).job.c.participants[1].control) == ParticipantPhase.Confirmed
            && Unsettled(ParticipantPhase.Confirmed)
  {
    hide AcceptResponse, Phase, GlobalPhaseOf, ReportOf, Reaches, After, Tracked, Stuck, WellFormed;
    var c := Shown(AtConfirmed);
    StartIsFresh();
    Confirmations();
    ShownPhase(AtConfirmed);
    ShowsLater(Asked(c), AtConfirmed, AtConfirmed);
    OpensRound(NEW, c, c, ConfirmIntent);
    AnswersFirst(NEW, c, c, ConfirmIntent, ReportOf(Held(AtConfirmed), DESCRIPTOR, 9), c);
    s := Serial(With(NEW, c, c, true, ConfirmIntent), None);
    t := FirstAsked(NEW, c, c, ConfirmIntent);
    NothingAwaited(c);
    RoundAndAsk(s);
    FirstAnswer(t, s.job.c, Answered(ReportOf(Held(AtConfirmed), DESCRIPTOR, 9)));
    StopIsAccepted(c);
    StopsTheRest(FirstAnswered(NEW, c, c, ConfirmIntent), s.job.c, 1);
    assert s.job.c.participants[1].control == c;
  }

  lemma NothingAwaited(p: Participant)
    requires p.pending.None?
    ensures Tracked(Duo(p, p, true, ConfirmIntent), [])
  {
    var c := Duo(p, p, true, ConfirmIntent);
    forall i | 0 <= i < |c.participants|
      ensures Awaits(c, i) <==> Named([], c.participants[i].deviceId)
    {
      assert c.participants[i].control == p;
    }
  }

  lemma StopIsAccepted(p: Participant)
    requires p == Shown(AtConfirmed)
    ensures RequestStop(FirstAnswered(NEW, p, p, ConfirmIntent).job).1 == Ok(())
  {
    ShownPhase(AtConfirmed);
    assert Phase(Asked(p)) == Phase(p);
    TwoPhases(p, Asked(p), true, ConfirmIntent);
    hide Phase, GlobalPhaseOf, ReportOf;
  }

  // ---- A stop that misses the guard -------------------------------------------------------

  const STOPPED := NEW.(stopRequested := true)

  lemma StopsConfirmed()
    ensures At(STOPPED, Shown(AtConfirmed), Shown(AtConfirmed), true, AbortIntent)
  {
    Confirmations();
    hide GlobalPhaseOf, ReportOf, Reaches, Phase;
    var s := Serial(With(NEW, Shown(AtConfirmed), Shown(AtConfirmed), true, ConfirmIntent), None);
    assert JobPhaseOf(s.job) == JobConfirmed;
    ReachesNext(START, s, Stop);
    assert After(s, Stop) == Serial(With(STOPPED, Shown(AtConfirmed), Shown(AtConfirmed), true, AbortIntent), None);
  }

  lemma AsksToAbort(a: Participant, k: nat)
    requires (k == 0 && a == Shown(AtConfirmed)) || (k == 1 && a == Shown(AtRunning))
    ensures Asks(Duo(a, Shown(AtConfirmed), true, AbortIntent), k,
                 Shown(AtConfirmed).(pending := Some(AbortAction)), JobAbort(BOUND))
    ensures !TerminalPhase(GlobalPhaseOf(Duo(a, Shown(AtConfirmed), true, AbortIntent)))
    ensures Phase(a) != ParticipantPhase.Faulted && Phase(Shown(AtConfirmed)) != ParticipantPhase.Faulted
  {
    hide Phase, GlobalPhaseOf, InitialRound, ReportOf, Decide, Shown;
    ShownPhase(AtConfirmed);
    ShownPhase(AtRunning);
    StartRound(a, Shown(AtConfirmed), true, AbortIntent);
    StillOpen(a, Shown(AtConfirmed), true, AbortIntent);
    NextAt(5, if k == 0 then AtConfirmed else AtRunning);
    NextAt(6, AtConfirmed);
  }

  /** The stop was accepted while confirmed, but both devices answer the abort already running. */
  lemma StopMissesTheGuard()
    ensures At(STOPPED, Shown(AtRunning), Shown(AtRunning), true, AbortIntent)
    ensures GlobalPhaseOf(Duo(Shown(AtRunning), Shown(AtRunning), true, AbortIntent)) == GIrrevocable
  {
    hide At, AcceptResponse, Phase, GlobalPhaseOf, Asks, ReportOf, Shown;
    var q := Shown(AtConfirmed).(pending := Some(AbortAction));
    ShowsLater(q, AtConfirmed, AtRunning);
    StopsConfirmed();
    ShownPhase(AtRunning);
    AsksToAbort(Shown(AtConfirmed), 0);
    AsksToAbort(Shown(AtRunning), 1);
    TwoPhases(Shown(AtRunning), Shown(AtRunning), true, AbortIntent);
    var report := ReportOf(Held(AtRunning), DESCRIPTOR, 9);
    Moves(STOPPED, Shown(AtConfirmed), Shown(AtConfirmed), true, AbortIntent, 0, q, JobAbort(BOUND), report, Shown(AtRunning));
    Moves(STOPPED, Shown(AtRunning), Shown(AtConfirmed), true, AbortIntent, 1, q, JobAbort(BOUND), report, Shown(AtRunning));
  }

  /** Nobody has anything to send. */
  lemma NothingToSend(j: Job)
    requires |j.c.participants| == 2 && j.queue == [] && !j.sweepRequired && j.terminalOverride.None?
    requires Decide(j.c.participants[0], j.c.intent, InitialRound(j.c)) == Ok(None)
    requires Decide(j.c.participants[1], j.c.intent, InitialRound(j.c)) == Ok(None)
    ensures NextOperation(j) == (j, Ok(None))
  {
    hide GlobalPhaseOf, Decide, InitialRound;
    assert Scan(j.c.participants, j.c.intent, InitialRound(j.c), 2) == Ok(None);
    assert Scan(j.c.participants, j.c.intent, InitialRound(j.c), 1) == Ok(None);
    assert Scan(j.c.participants, j.c.intent, InitialRound(j.c), 0) == Ok(None);
  }
}
