/** Concrete runs of one coordinator and one device: a stop that strands its participant, and the fault that ends it. */
module JointWitness {
  import opened Wrappers
  import opened ParticipantSchedule
  import opened CoordinatorModel
  import opened CoordinatorRuns
  import opened StartTiming
  import opened DeviceModel
  import opened JobFixture
  import opened JointSystem
  import opened JointRequests
  import opened JointAbort
  import opened JointStranded
  import Ordering

  const STARTING_DEVICE := BLANK_DEVICE.(stage := AtStarting)
  const INPUT := Input(5)

  function One(
    control: Participant, planned: Option<Commit>, intent: Intent, device: Device, slot: Slot, seen: Option<Device>): System
  {
    System(
      Coordinator([ParticipantCoordinator(5, control, planned)], 11, 12, 1_000, 1_000, NetworkAttended,
                  if planned.Some? then Some(TARGET) else None, intent, false),
      [device], [slot], [seen])
  }

  function Seen(control: Participant, d: Device): Participant {
    control.(pending := None, report := Some(ReportOf(d, DESCRIPTOR, 9)), reconciliationRequired := false)
  }

  /** The one participant is asked for what its state decides. */
  lemma Asks(
    control: Participant, planned: Option<Commit>, intent: Intent, device: Device, seen: Option<Device>,
    q: Participant, operation: ScheduleOperation)
    requires control.pending.None?
    requires var s := One(control, planned, intent, device, Free, seen);
             && !TerminalPhase(GlobalPhaseOf(s.c))
             && Decide(s.c.participants[0], intent, InitialRound(s.c)) == Ok(Some((q, operation)))
    ensures var s := One(control, planned, intent, device, Free, seen);
            Shaped(s) && Step(s, Coordinate(Next), One(q, planned, intent, device, Sent(operation), seen))
  {
    hide GlobalPhaseOf, Decide, InitialRound;
    var s := One(control, planned, intent, device, Free, seen);
    var t := One(q, planned, intent, device, Sent(operation), seen);
    assert Scan(s.c.participants, intent, InitialRound(s.c), 0) == Ok(Some((0, q, operation)));
    assert t.c.participants == s.c.participants[0 := s.c.participants[0].(control := q)];
    var sent := Advance(s.c, Next).1;
    assert sent == [Request(5, operation)];
    assert sent[0].deviceId == 5;
  }

  /** The device applies the request and its report arrives. */
  lemma Answers(
    control: Participant, planned: Option<Commit>, intent: Intent, device: Device, seen: Option<Device>,
    operation: ScheduleOperation, after: Device)
    requires Handles(device, operation, after) && control.pending.Some? && control.descriptor == DESCRIPTOR
    requires control.preparedToken == 9
    requires Retains(control, ReportOf(after, DESCRIPTOR, 9)) && ValidDevice(after) && !ShowsFault(after)
    requires !ReplaceableForeignTerminal(DESCRIPTOR, ReportOf(after, DESCRIPTOR, 9))
    ensures var s := One(control, planned, intent, device, Sent(operation), seen);
            var r := One(control, planned, intent, after, Answered(true, WithReport, after), seen);
            && Shaped(s) && Step(s, Handle(0, after, true, WithReport), r)
            && Shaped(r) && Step(r, Deliver(0), One(Seen(control, after), planned, intent, after, Free, Some(after)))
  {
    hide Handles, Retains, ReportOf, Phase, ReplaceableForeignTerminal;
    SeenPhase(control, after);
    AcceptsTheReport(control, after);
    Arrives(control, planned, intent, seen, after);
    hide AcceptResponse, AcceptAt, AnyFaulted, Seen;
  }

  /** A retained report that shows no fault changes the one machine and nothing else. */
  lemma Arrives(control: Participant, planned: Option<Commit>, intent: Intent, seen: Option<Device>, after: Device)
    requires control.descriptor == DESCRIPTOR && control.preparedToken == 9
    requires Retains(control, ReportOf(after, DESCRIPTOR, 9)) && Phase(Seen(control, after)) != ParticipantPhase.Faulted
    requires AcceptResponse(control, Response(true, ReportBody(ReportOf(after, DESCRIPTOR, 9)))).0 == Seen(control, after)
    ensures Step(One(control, planned, intent, after, Answered(true, WithReport, after), seen), Deliver(0),
                 One(Seen(control, after), planned, intent, after, Free, Some(after)))
  {
    hide AcceptResponse, ReportOf, Phase, Retains, Seen;
    var r := One(control, planned, intent, after, Answered(true, WithReport, after), seen);
    var t := One(Seen(control, after), planned, intent, after, Free, Some(after));
    assert t.c == SetControl(r.c, 0, Seen(control, after));
    assert !AnyFaulted(t.c.participants);
    assert t.slots == r.slots[0 := Free] && t.seen == r.seen[0 := Some(after)];
  }

  lemma AcceptsTheReport(control: Participant, after: Device)
    requires control.pending.Some? && control.descriptor == DESCRIPTOR && control.preparedToken == 9
    requires Retains(control, ReportOf(after, DESCRIPTOR, 9))
    requires !ReplaceableForeignTerminal(DESCRIPTOR, ReportOf(after, DESCRIPTOR, 9))
    ensures AcceptResponse(control, Response(true, ReportBody(ReportOf(after, DESCRIPTOR, 9)))).0 == Seen(control, after)
  {
    hide ReportOf, ValidReport, ReportAdvances, ReplaceableForeignTerminal;
  }

  ghost predicate Reachable(s: System) {
    exists run, moves :: LeadsTo(run, moves, s)
  }

  ghost predicate LeadsTo(run: seq<System>, moves: seq<Move>, s: System) {
    IsJointRun(run, moves) && run[|moves|] == s
  }

  lemma ReachesNext(s: System, m: Move, t: System)
    requires Reachable(s) && Shaped(s) && Step(s, m, t)
    ensures Reachable(t)
  {
    hide Shaped, Step, Initial;
    var run, moves :| LeadsTo(run, moves, s);
    var longer, more := run + [t], moves + [m];
    forall k | 0 <= k < |more|
      ensures Shaped(longer[k]) && Step(longer[k], more[k], longer[k + 1])
    {
      if k < |moves| {
        assert longer[k] == run[k] && longer[k + 1] == run[k + 1] && more[k] == moves[k];
      }
    }
    assert LeadsTo(longer, more, t);
  }

  /** The request is what the state decides, the device may answer so, and its report will be retained. */
  ghost predicate Exchangeable(
    control: Participant, planned: Option<Commit>, intent: Intent, device: Device, seen: Option<Device>,
    q: Participant, operation: ScheduleOperation, after: Device)
  {
    var s := One(control, planned, intent, device, Free, seen);
    && control.pending.None?
    && !TerminalPhase(GlobalPhaseOf(s.c))
    && Decide(s.c.participants[0], intent, InitialRound(s.c)) == Ok(Some((q, operation)))
    && Handles(device, operation, after) && q.pending.Some? && q.descriptor == DESCRIPTOR && q.preparedToken == 9
    && Retains(q, ReportOf(after, DESCRIPTOR, 9)) && ValidDevice(after) && !ShowsFault(after)
    && !ReplaceableForeignTerminal(DESCRIPTOR, ReportOf(after, DESCRIPTOR, 9))
  }

  /** One request asked, applied and answered. */
  lemma Exchanges(
    control: Participant, planned: Option<Commit>, intent: Intent, device: Device, seen: Option<Device>,
    q: Participant, operation: ScheduleOperation, after: Device)
    requires Reachable(One(control, planned, intent, device, Free, seen))
    requires Exchangeable(control, planned, intent, device, seen, q, operation, after)
    ensures Reachable(One(Seen(q, after), planned, intent, after, Free, Some(after)))
  {
    hide GlobalPhaseOf, Decide, InitialRound, Handles, Retains, ReportOf, Step, Reachable, Seen, Shaped;
    Asks(control, planned, intent, device, seen, q, operation);
    var s := One(control, planned, intent, device, Free, seen);
    var a := One(q, planned, intent, device, Sent(operation), seen);
    ReachesNext(s, Coordinate(Next), a);
    Answers(q, planned, intent, device, seen, operation, after);
    var r := One(q, planned, intent, after, Answered(true, WithReport, after), seen);
    ReachesNext(a, Handle(0, after, true, WithReport), r);
    ReachesNext(r, Deliver(0), One(Seen(q, after), planned, intent, after, Free, Some(after)));
  }

  lemma StillOpen(
    control: Participant, planned: Option<Commit>, intent: Intent, device: Device, slot: Slot, seen: Option<Device>)
    requires Phase(control) in {Empty, Preparing, Ready, Installing} && intent in {PrepareIntent, InstallIntent}
    ensures !TerminalPhase(GlobalPhaseOf(One(control, planned, intent, device, slot, seen).c))
  {
    hide Phase;
    var ps := One(control, planned, intent, device, slot, seen).c.participants;
    assert Phase(ps[0].control) == Phase(control);
  }

  /** What a status answer shows of a device that holds no commit. */
  lemma SeenPhase(control: Participant, d: Device)
    requires ValidDevice(d)
    ensures Phase(Seen(control, d)) == PhaseAt(d, control.commit.Some?)
  {
    PhaseOfTruthfulReport(d, DESCRIPTOR, 9, control.commit.Some?);
  }

  const BLANK := Seen(IDLE, BLANK_DEVICE)
  const BEGUN := Seen(IDLE, STARTING_DEVICE)
  const READY := Seen(IDLE, PREPARED_DEVICE)

  /** Status, prepare, and a status once the device has prepared: the job is ready. */
  lemma ReadyIsReachable()
    ensures Reachable(One(READY, None, PrepareIntent, PREPARED_DEVICE, Free, Some(PREPARED_DEVICE)))
  {
    hide Reachable, Step, Shaped, Exchangeable, ReportOf;
    StartingIsReachable();
    PreparesItself();
    ReachesNext(One(BEGUN, None, PrepareIntent, STARTING_DEVICE, Free, Some(STARTING_DEVICE)), Tick(0, PREPARED_DEVICE),
                One(BEGUN, None, PrepareIntent, PREPARED_DEVICE, Free, Some(STARTING_DEVICE)));
    PreparedAnswers();
    Exchanges(BEGUN, None, PrepareIntent, PREPARED_DEVICE, Some(STARTING_DEVICE),
              BEGUN.(pending := Some(StatusAction)), JobStatus, PREPARED_DEVICE);
    assert Seen(BEGUN.(pending := Some(StatusAction)), PREPARED_DEVICE) == READY;
  }

  /** The report of a device that never held a commit is retained on top of an earlier one. */
  lemma UncommittedReportIsRetained(q: Participant, a: Device, d: Device)
    requires q.descriptor == DESCRIPTOR && q.preparedToken == 9 && q.report == Some(ReportOf(a, DESCRIPTOR, 9))
    requires ValidDevice(a) && ValidDevice(d) && Leads(a, d) && d.stage in {AtBlank, AtStarting, AtPrepared}
    ensures Retains(q, ReportOf(d, DESCRIPTOR, 9)) && !ReplaceableForeignTerminal(DESCRIPTOR, ReportOf(d, DESCRIPTOR, 9))
  {
    TruthfulReportsAdvance(a, d, DESCRIPTOR, 9);
    hide ReportAdvances;
  }

  lemma PreparedAnswers()
    ensures Exchangeable(BEGUN, None, PrepareIntent, PREPARED_DEVICE, Some(STARTING_DEVICE),
                         BEGUN.(pending := Some(StatusAction)), JobStatus, PREPARED_DEVICE)
  {
    hide GlobalPhaseOf, Phase, ReportOf, Retains, ReplaceableForeignTerminal;
    SeenPhase(IDLE, STARTING_DEVICE);
    StillOpen(BEGUN, None, PrepareIntent, PREPARED_DEVICE, Free, Some(STARTING_DEVICE));
    UncommittedReportIsRetained(BEGUN.(pending := Some(StatusAction)), STARTING_DEVICE, PREPARED_DEVICE);
  }

  lemma PreparesItself()
    ensures var s := One(BEGUN, None, PrepareIntent, STARTING_DEVICE, Free, Some(STARTING_DEVICE));
            Shaped(s) && Step(s, Tick(0, PREPARED_DEVICE),
                              One(BEGUN, None, PrepareIntent, PREPARED_DEVICE, Free, Some(STARTING_DEVICE)))
  {
    hide ReportOf, GlobalPhaseOf;
  }

  lemma BlankIsReachable()
    ensures Reachable(One(BLANK, None, PrepareIntent, BLANK_DEVICE, Free, Some(BLANK_DEVICE)))
  {
    var start := One(IDLE, None, PrepareIntent, BLANK_DEVICE, Free, None);
    StartIsReachable();
    hide Reachable, Exchangeable, ReportOf;
    BlankAnswers();
    Exchanges(IDLE, None, PrepareIntent, BLANK_DEVICE, None, IDLE.(pending := Some(StatusAction)), JobStatus, BLANK_DEVICE);
    assert Seen(IDLE.(pending := Some(StatusAction)), BLANK_DEVICE) == BLANK;
  }

  lemma StartIsReachable()
    ensures Reachable(One(IDLE, None, PrepareIntent, BLANK_DEVICE, Free, None))
  {
    hide Step;
    var start := One(IDLE, None, PrepareIntent, BLANK_DEVICE, Free, None);
    assert LeadsTo([start], [], start);
  }

  lemma BlankAnswers()
    ensures Exchangeable(IDLE, None, PrepareIntent, BLANK_DEVICE, None,
                         IDLE.(pending := Some(StatusAction)), JobStatus, BLANK_DEVICE)
  {
    StillOpen(IDLE, None, PrepareIntent, BLANK_DEVICE, Free, None);
    hide GlobalPhaseOf;
  }

  lemma StartingIsReachable()
    ensures Reachable(One(BEGUN, None, PrepareIntent, STARTING_DEVICE, Free, Some(STARTING_DEVICE)))
  {
    hide Reachable, Exchangeable, ReportOf;
    BlankIsReachable();
    StartingAnswers();
    Exchanges(BLANK, None, PrepareIntent, BLANK_DEVICE, Some(BLANK_DEVICE),
              BLANK.(pending := Some(PrepareAction)), JobPrepare(DESCRIPTOR), STARTING_DEVICE);
    assert Seen(BLANK.(pending := Some(PrepareAction)), STARTING_DEVICE) == BEGUN;
  }

  lemma StartingAnswers()
    ensures Exchangeable(BLANK, None, PrepareIntent, BLANK_DEVICE, Some(BLANK_DEVICE),
                         BLANK.(pending := Some(PrepareAction)), JobPrepare(DESCRIPTOR), STARTING_DEVICE)
  {
    hide GlobalPhaseOf, Phase, ReportOf, Retains, ReplaceableForeignTerminal;
    SeenPhase(IDLE, BLANK_DEVICE);
    StillOpen(BLANK, None, PrepareIntent, BLANK_DEVICE, Free, Some(BLANK_DEVICE));
    UncommittedReportIsRetained(BLANK.(pending := Some(PrepareAction)), BLANK_DEVICE, STARTING_DEVICE);
  }

  const INSTALLING := READY.(commit := Some(BOUND), authorizedLease := Some(1_300))

  lemma AlwaysTrue(commit: Commit) returns (encodes: Commit -> bool)
    ensures encodes(commit)
  {
    encodes := c => true;
  }

  /** The epoch is bound from the one clock. */
  lemma Binds(encodes: Commit -> bool)
    requires encodes(BOUND)
    ensures var s := One(READY, None, PrepareIntent, PREPARED_DEVICE, Free, Some(PREPARED_DEVICE));
            var t := One(READY, Some(BOUND), InstallIntent, PREPARED_DEVICE, Free, Some(PREPARED_DEVICE));
            Shaped(s) && Step(s, Coordinate(Bind(0, TARGET, [INPUT], encodes)), t)
  {
    var s := One(READY, None, PrepareIntent, PREPARED_DEVICE, Free, Some(PREPARED_DEVICE));
    var t := One(READY, Some(BOUND), InstallIntent, PREPARED_DEVICE, Free, Some(PREPARED_DEVICE));
    IsReady();
    hide GlobalPhaseOf, Phase, ReportOf, PlanCommit;
    assert Ordering.Sort(InputKey, [INPUT]) == [INPUT];
    PlansBound(s.c, encodes);
    PlansOne(s.c, encodes);
    assert t.c.participants == Planned(s.c.participants, [BOUND]);
  }

  lemma PlansBound(c: Coordinator, encodes: Commit -> bool)
    requires c == One(READY, None, PrepareIntent, PREPARED_DEVICE, Free, Some(PREPARED_DEVICE)).c && encodes(BOUND)
    ensures PlanCommit(c, c.participants[0], INPUT, 0, TARGET, encodes) == Ok(BOUND)
  {
    hide ReportOf, Phase;
    assert CeilProductRatio(1_000, 100, 1_000) == Some(100);
  }

  lemma PlansOne(c: Coordinator, encodes: Commit -> bool)
    requires |c.participants| == 1
    requires PlanCommit(c, c.participants[0], INPUT, 0, TARGET, encodes) == Ok(BOUND)
    ensures PlanCommits(c, [INPUT], 0, TARGET, encodes, 0) == Ok([BOUND])
  {
    hide PlanCommit;
    assert PlanCommits(c, [INPUT], 0, TARGET, encodes, 1) == Ok([]);
    assert [BOUND] + [] == [BOUND];
  }

  lemma IsReady()
    ensures GlobalPhaseOf(One(READY, None, PrepareIntent, PREPARED_DEVICE, Free, Some(PREPARED_DEVICE)).c) == GReady
  {
    SeenPhase(IDLE, PREPARED_DEVICE);
    hide Phase;
    var ps := One(READY, None, PrepareIntent, PREPARED_DEVICE, Free, Some(PREPARED_DEVICE)).c.participants;
    assert Phase(ps[0].control) == Ready;
    assert ps[0].control.report.Some?;
  }

  /** The one participant is ready, so the commit is what comes next. */
  lemma AsksToInstall()
    ensures var s := One(READY, Some(BOUND), InstallIntent, PREPARED_DEVICE, Free, Some(PREPARED_DEVICE));
            var t := One(INSTALLING.(pending := Some(InstallAction)), Some(BOUND), InstallIntent, PREPARED_DEVICE,
                         Sent(JobCommit(BOUND)), Some(PREPARED_DEVICE));
            Shaped(s) && Step(s, Coordinate(Next), t)
  {
    SeenPhase(IDLE, PREPARED_DEVICE);
    StillOpen(READY, Some(BOUND), InstallIntent, PREPARED_DEVICE, Free, Some(PREPARED_DEVICE));
    hide GlobalPhaseOf, Phase, Step, Shaped;
    Asks(READY, Some(BOUND), InstallIntent, PREPARED_DEVICE, Some(PREPARED_DEVICE),
         INSTALLING.(pending := Some(InstallAction)), JobCommit(BOUND));
  }

  /** The commit is emitted and lost before the device sees it. */
  lemma LostInstallIsReachable()
    ensures Reachable(One(INSTALLING.(reconciliationRequired := true), Some(BOUND), InstallIntent,
                          PREPARED_DEVICE, Free, Some(PREPARED_DEVICE)))
  {
    ReadyIsReachable();
    var encodes := AlwaysTrue(BOUND);
    Binds(encodes);
    AsksToInstall();
    LosesInstall();
    hide Reachable, Step, Shaped, ReportOf;
    var r := One(READY, None, PrepareIntent, PREPARED_DEVICE, Free, Some(PREPARED_DEVICE));
    var s := One(READY, Some(BOUND), InstallIntent, PREPARED_DEVICE, Free, Some(PREPARED_DEVICE));
    var t := One(INSTALLING.(pending := Some(InstallAction)), Some(BOUND), InstallIntent, PREPARED_DEVICE,
                 Sent(JobCommit(BOUND)), Some(PREPARED_DEVICE));
    ReachesNext(r, Coordinate(Bind(0, TARGET, [INPUT], encodes)), s);
    ReachesNext(s, Coordinate(Next), t);
    ReachesNext(t, Drop(0), One(INSTALLING.(reconciliationRequired := true), Some(BOUND), InstallIntent,
                                PREPARED_DEVICE, Free, Some(PREPARED_DEVICE)));
  }

  lemma LosesInstall()
    ensures var t := One(INSTALLING.(pending := Some(InstallAction)), Some(BOUND), InstallIntent, PREPARED_DEVICE,
                         Sent(JobCommit(BOUND)), Some(PREPARED_DEVICE));
            var u := One(INSTALLING.(reconciliationRequired := true), Some(BOUND), InstallIntent, PREPARED_DEVICE,
                         Free, Some(PREPARED_DEVICE));
            Shaped(t) && Step(t, Drop(0), u)
  {
    var t := One(INSTALLING.(pending := Some(InstallAction)), Some(BOUND), InstallIntent, PREPARED_DEVICE,
                 Sent(JobCommit(BOUND)), Some(PREPARED_DEVICE));
    var u := One(INSTALLING.(reconciliationRequired := true), Some(BOUND), InstallIntent, PREPARED_DEVICE,
                 Free, Some(PREPARED_DEVICE));
    assert u.c == SetControl(t.c, 0, AbandonPending(t.c.participants[0].control).0);
    assert u.slots == t.slots[0 := Free];
  }

  /** A later status shows the device still merely prepared. */
  lemma InstallingIsReachable()
    ensures Reachable(One(INSTALLING, Some(BOUND), InstallIntent, PREPARED_DEVICE, Free, Some(PREPARED_DEVICE)))
  {
    hide Reachable, Exchangeable, ReportOf;
    LostInstallIsReachable();
    StillPreparedAnswers();
    var lost := INSTALLING.(reconciliationRequired := true);
    var q := lost.(pending := Some(StatusAction));
    Exchanges(lost, Some(BOUND), InstallIntent, PREPARED_DEVICE, Some(PREPARED_DEVICE), q, JobStatus, PREPARED_DEVICE);
    assert Seen(q, PREPARED_DEVICE) == INSTALLING;
  }

  lemma StillPreparedAnswers()
    ensures var lost := INSTALLING.(reconciliationRequired := true);
            Exchangeable(lost, Some(BOUND), InstallIntent, PREPARED_DEVICE, Some(PREPARED_DEVICE),
                         lost.(pending := Some(StatusAction)), JobStatus, PREPARED_DEVICE)
  {
    var lost := INSTALLING.(reconciliationRequired := true);
    SeenPhase(INSTALLING, PREPARED_DEVICE);
    assert Seen(INSTALLING, PREPARED_DEVICE) == INSTALLING;
    assert Phase(lost) == Phase(INSTALLING);
    StillOpen(lost, Some(BOUND), InstallIntent, PREPARED_DEVICE, Free, Some(PREPARED_DEVICE));
    UncommittedReportIsRetained(lost.(pending := Some(StatusAction)), PREPARED_DEVICE, PREPARED_DEVICE);
    hide GlobalPhaseOf, Phase, ReportOf, Retains, ReplaceableForeignTerminal;
  }

  const STOPPING := One(INSTALLING, Some(BOUND), AbortIntent, PREPARED_DEVICE, Free, Some(PREPARED_DEVICE))

  lemma StopIsReachable()
    ensures Reachable(STOPPING)
  {
    InstallingIsReachable();
    StopsInstalling();
    hide Step, Shaped, Reachable, ReportOf;
    ReachesNext(One(INSTALLING, Some(BOUND), InstallIntent, PREPARED_DEVICE, Free, Some(PREPARED_DEVICE)),
                Coordinate(StartAbort), STOPPING);
  }

  /**
   * A reachable stop that has stranded its participant: nothing is in flight, nothing is ambiguous and the stop was
   * accepted, but the job ends Faulted or never (StrandedEndsFaultedOrNever).
   */
  lemma StrandedStopIsReachable() returns (s: System)
    ensures Reachable(s) && Stranded(s, 0) && !TerminalPhase(GlobalPhaseOf(s.c))
    ensures s.slots == [Free] && !s.c.participants[0].control.reconciliationRequired
  {
    s := STOPPING;
    StopIsReachable();
    ReachableKeepsInv(s);
    hide Inv, Reachable, GlobalPhaseOf;
    assert !s.devices[0].actorFault;
    StrandedNeedsItsFault(s, 0);
  }

  // ---- The fault that ends it -------------------------------------------------------------

  const FAULTY_DEVICE := PREPARED_DEVICE.(actorFault := true)
  const ABORTING := INSTALLING.(pending := Some(AbortAction))
  const ENDED := INSTALLING.(report := Some(ReportOf(FAULTY_DEVICE, DESCRIPTOR, 9)))

  /** Still prepared, its actor faults. */
  lemma ActorFaults()
    ensures Shaped(STOPPING) && Step(STOPPING, Tick(0, FAULTY_DEVICE), STOPPING.(devices := [FAULTY_DEVICE]))
    ensures Shaped(STOPPING.(devices := [FAULTY_DEVICE]))
  {
    hide ReportOf, GlobalPhaseOf;
    assert STOPPING.(devices := [FAULTY_DEVICE]) == STOPPING.(devices := STOPPING.devices[0 := FAULTY_DEVICE]);
  }

  /** The abort is asked for. */
  lemma AbortIsAsked()
    ensures Step(STOPPING.(devices := [FAULTY_DEVICE]), Coordinate(Next),
                 One(ABORTING, Some(BOUND), AbortIntent, FAULTY_DEVICE, Sent(JobAbort(BOUND)), Some(PREPARED_DEVICE)))
  {
    hide Shaped, Step, Reachable;
    SeenPhase(INSTALLING, PREPARED_DEVICE);
    assert Seen(INSTALLING, PREPARED_DEVICE) == INSTALLING;
    hide GlobalPhaseOf, Phase, ReportOf, Seen;
    assert STOPPING.(devices := [FAULTY_DEVICE])
        == One(INSTALLING, Some(BOUND), AbortIntent, FAULTY_DEVICE, Free, Some(PREPARED_DEVICE));
    StopIsOpen();
    Asks(INSTALLING, Some(BOUND), AbortIntent, FAULTY_DEVICE, Some(PREPARED_DEVICE), ABORTING, JobAbort(BOUND));
  }

  lemma StopIsOpen()
    ensures !TerminalPhase(GlobalPhaseOf(STOPPING.c))
  {
    SeenPhase(INSTALLING, PREPARED_DEVICE);
    assert Seen(INSTALLING, PREPARED_DEVICE) == INSTALLING;
    hide Phase;
    assert Phase(STOPPING.c.participants[0].control) == Installing;
    assert !SafeAfterAbort(STOPPING.c.participants[0]) && !Stopped(STOPPING.c.participants[0]);
  }

  function Refused(): System {
    One(ABORTING, Some(BOUND), AbortIntent, FAULTY_DEVICE, Answered(false, WithReport, FAULTY_DEVICE), Some(PREPARED_DEVICE))
  }

  function Faulted(): System {
    var t := One(ENDED, Some(BOUND), AbortIntent, FAULTY_DEVICE, Free, Some(FAULTY_DEVICE));
    t.(c := t.c.(faultCleanup := true))
  }

  lemma RefusalIsRetained()
    ensures AcceptResponse(ABORTING, Response(false, ReportBody(ReportOf(FAULTY_DEVICE, DESCRIPTOR, 9)))).0 == ENDED
    ensures Phase(ENDED) == ParticipantPhase.Faulted
  {
    PhaseOfTruthfulReport(FAULTY_DEVICE, DESCRIPTOR, 9, true);
    UncommittedReportIsRetained(ABORTING, PREPARED_DEVICE, FAULTY_DEVICE);
    hide ReportOf, ValidReport, ReportAdvances, ReplaceableForeignTerminal;
  }

  lemma RefusalArrives()
    ensures Shaped(Refused()) && Step(Refused(), Deliver(0), Faulted())
    ensures GlobalPhaseOf(Faulted().c) == GFaulted
  {
    RefusalIsRetained();
    UncommittedReportIsRetained(ABORTING, PREPARED_DEVICE, FAULTY_DEVICE);
    hide AcceptResponse, Phase, ReportOf, Retains;
    var t := Faulted();
    assert t.c.participants == Refused().c.participants[0 := t.c.participants[0]];
    assert Phase(t.c.participants[0].control) == ParticipantPhase.Faulted;
    assert AnyFaulted(t.c.participants);
  }

  /** The stranded stop does end when the fault is reported: both sides of the exact condition occur. */
  lemma StrandedStopCanEndFaulted() returns (s: System)
    ensures Reachable(s) && Stranded(s, 0) && GlobalPhaseOf(s.c) == GFaulted && SeenFault(s.seen[0])
  {
    hide Inv, Reachable, GlobalPhaseOf, Step, Shaped, ReportOf;
    StopIsReachable();
    ActorFaults();
    AbortIsAsked();
    RefusalIsGiven();
    RefusalArrives();
    s := Faulted();
    ReachesFaulted(One(ABORTING, Some(BOUND), AbortIntent, FAULTY_DEVICE, Sent(JobAbort(BOUND)), Some(PREPARED_DEVICE)));
    ReachableKeepsInv(s);
  }

  lemma RefusalIsGiven()
    ensures var asked := One(ABORTING, Some(BOUND), AbortIntent, FAULTY_DEVICE, Sent(JobAbort(BOUND)), Some(PREPARED_DEVICE));
            Shaped(asked) && Step(asked, Handle(0, FAULTY_DEVICE, false, WithReport), Refused())
  {
    hide ReportOf, GlobalPhaseOf;
  }

  lemma ReachesFaulted(asked: System)
    requires Reachable(STOPPING)
    requires Shaped(STOPPING) && Step(STOPPING, Tick(0, FAULTY_DEVICE), STOPPING.(devices := [FAULTY_DEVICE]))
    requires Shaped(STOPPING.(devices := [FAULTY_DEVICE]))
             && Step(STOPPING.(devices := [FAULTY_DEVICE]), Coordinate(Next), asked)
    requires Shaped(asked) && Step(asked, Handle(0, FAULTY_DEVICE, false, WithReport), Refused())
    requires Shaped(Refused()) && Step(Refused(), Deliver(0), Faulted())
    ensures Reachable(Faulted())
  {
    hide Step, Shaped, Reachable, ReportOf;
    ReachesNext(STOPPING, Tick(0, FAULTY_DEVICE), STOPPING.(devices := [FAULTY_DEVICE]));
    ReachesNext(STOPPING.(devices := [FAULTY_DEVICE]), Coordinate(Next), asked);
    ReachesNext(asked, Handle(0, FAULTY_DEVICE, false, WithReport), Refused());
    ReachesNext(Refused(), Deliver(0), Faulted());
  }

  lemma StopsInstalling()
    ensures var before := One(INSTALLING, Some(BOUND), InstallIntent, PREPARED_DEVICE, Free, Some(PREPARED_DEVICE));
            var s := One(INSTALLING, Some(BOUND), AbortIntent, PREPARED_DEVICE, Free, Some(PREPARED_DEVICE));
            Shaped(before) && Step(before, Coordinate(StartAbort), s)
  {
    IsInstalling();
    hide GlobalPhaseOf, Phase;
  }

  lemma IsInstalling()
    ensures GlobalPhaseOf(One(INSTALLING, Some(BOUND), InstallIntent, PREPARED_DEVICE, Free, Some(PREPARED_DEVICE)).c)
            == GInstalling
  {
    var before := One(INSTALLING, Some(BOUND), InstallIntent, PREPARED_DEVICE, Free, Some(PREPARED_DEVICE));
    assert Seen(INSTALLING, PREPARED_DEVICE) == INSTALLING;
    SeenPhase(INSTALLING, PREPARED_DEVICE);
    hide Phase;
    assert Phase(before.c.participants[0].control) == Installing;
  }

  lemma ReachableKeepsInv(s: System)
    requires Reachable(s)
    ensures Inv(s)
  {
    var run, moves :| LeadsTo(run, moves, s);
    RunsKeepInv(run, moves, |moves|);
  }
}
