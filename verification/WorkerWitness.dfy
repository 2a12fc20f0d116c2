/** Concrete jobs, each reached from a fresh coordinator, that the worker faults when a lease round falls due. */
module WorkerWitness {
  import opened Wrappers
  import opened ParticipantSchedule
  import opened CoordinatorModel
  import opened StartTiming
  import opened DeviceModel
  import opened LiveJobModel
  import opened WorkerModel
  import opened WorkerTiming
  import opened WorkerJobRuns
  import Jobs = LiveJobRuns
  import Live = LiveJobWitness
  import Fixture = JobFixture

  /** A device clock a second short of the reported lease. */
  const READING := LeaseClock(
    true, Some(100), (now: u64) => Some(Reading(true, 1_200)), (target: u64) => Some(Reading(true, 2_000)))

  const NOW := Surroundings(Some(0), None, (c: Commit) => true, (i: nat) => READING)

  lemma LeaseOf(stage: Stage, deviceId: nat)
    requires stage in {AtComplete, AtRunning}
    ensures var pc := ParticipantCoordinator(deviceId, Live.Shown(stage), Some(Fixture.BOUND));
            && ReportedLease(pc) == Some(1_300) && pc.control.authorizedLease == Some(1_300)
            && pc.control.pending.None?
            && Decide(pc, ConfirmIntent, false) == Ok(None) && Decide(pc, AbortIntent, false) == Ok(None)
            && (Renewable(pc) <==> stage == AtRunning)
  {
    Live.ShownPhase(stage);
    hide Phase;
  }

  lemma LeaseIsDue(nowUi: u64, targetUi: u64)
    ensures AttendedLeaseTarget(READING, 1_300, 1_300, nowUi, targetUi) == Ok(Some(LeaseTarget(2_000, true)))
  {
  }

  lemma TargetsOfTwo(ps: seq<ParticipantCoordinator>, clocks: seq<LeaseClock>, nowUi: u64, targetUi: u64)
    requires |ps| == |clocks| == 2 && clocks[0] == clocks[1] == READING
    requires forall i | 0 <= i < 2 :: ReportedLease(ps[i]) == Some(1_300) && ps[i].control.authorizedLease == Some(1_300)
    ensures TargetsFrom(ps, clocks, nowUi, targetUi, 0).Ok? && TargetsFrom(ps, clocks, nowUi, targetUi, 0).value.Some?
    ensures TargetsFrom(ps, clocks, nowUi, targetUi, 0).value.value.due
  {
    hide ReportedLease, AttendedLeaseTarget;
    LeaseIsDue(nowUi, targetUi);
    assert TargetsFrom(ps, clocks, nowUi, targetUi, 2) == Ok(Some(LeaseTargets([], false)));
    assert TargetsFrom(ps, clocks, nowUi, targetUi, 1).Ok? && TargetsFrom(ps, clocks, nowUi, targetUi, 1).value.Some?;
  }

  lemma RoundIsDueFor(base: Job, a: Stage, intent: Intent)
    requires a in {AtComplete, AtRunning} && intent in {ConfirmIntent, AbortIntent}
    requires GlobalPhaseOf(Live.Duo(Live.Shown(a), Live.Shown(AtRunning), true, intent)) == GIrrevocable
    ensures var j := Live.With(base, Live.Shown(a), Live.Shown(AtRunning), true, intent);
            && RoundIsDue(j, j, NOW) && WellFormed(j.c) && !AnyPending(j.c.participants)
            && (Renewable(j.c.participants[0]) <==> a == AtRunning) && Renewable(j.c.participants[1])
  {
    hide GlobalPhaseOf, Decide, Renewable, ReportedLease, TargetsFrom, AttendedLeaseTarget, Live.Shown;
    var j := Live.With(base, Live.Shown(a), Live.Shown(AtRunning), true, intent);
    LeaseOf(a, 5);
    LeaseOf(AtRunning, 6);
    Live.StartRound(Live.Shown(a), Live.Shown(AtRunning), true, intent);
    Live.NothingToSend(j);
    var clocks := ClocksOf(j, NOW);
    TargetsOfTwo(j.c.participants, clocks, 0, 9_000_000_000);
  }

  /** One participant has completed, the other still runs: the due round faults the job. */
  lemma CompletedPeerFaultsTheJob() returns (j: Job)
    ensures Jobs.Reaches(Live.START, Jobs.Serial(j, None))
    ensures !j.stopRequested && GlobalPhaseOf(j.c) == GIrrevocable && PrepareNext(j, NOW).next.Err?
  {
    hide GlobalPhaseOf, Renewable, PrepareNext, RoundIsDue, Jobs.Reaches, Live.Shown;
    Live.OneCompletes();
    j := Live.With(Live.NEW, Live.Shown(AtComplete), Live.Shown(AtRunning), true, ConfirmIntent);
    RoundIsDueFor(Live.NEW, AtComplete, ConfirmIntent);
    DueRenewalFaultsExactly(j, j, NOW);
  }

  /** An accepted stop that missed the guard, everyone still running and renewable: the due round faults the job. */
  lemma MissedStopFaultsTheJob() returns (j: Job)
    ensures Jobs.Reaches(Live.START, Jobs.Serial(j, None))
    ensures j.stopRequested && GlobalPhaseOf(j.c) == GIrrevocable && PrepareNext(j, NOW).next.Err?
    ensures forall i | 0 <= i < |j.c.participants| :: Renewable(j.c.participants[i])
  {
    hide GlobalPhaseOf, Renewable, PrepareNext, RoundIsDue, Jobs.Reaches, Live.Shown;
    Live.StopMissesTheGuard();
    j := Live.With(Live.STOPPED, Live.Shown(AtRunning), Live.Shown(AtRunning), true, AbortIntent);
    RoundIsDueFor(Live.STOPPED, AtRunning, AbortIntent);
    DueRenewalFaultsExactly(j, j, NOW);
  }
}
