/** The worker's lease and start arithmetic: which leases it asks for, and when. */
module WorkerTiming {
  import opened Wrappers
  import opened ParticipantSchedule
  import opened CoordinatorModel
  import opened StartTiming
  import opened LiveJobModel
  import Ordering

  const START_LEAD_NS: nat := 5_000_000_000
  const CONFIRMATION_LEAD_SECONDS: nat := 3
  const ABORT_GUARD_LEAD_SECONDS: nat := 1
  const AUTONOMOUS_LEASE_SLACK_SECONDS: nat := 30
  const ATTENDED_INITIAL_LEASE_SECONDS: nat := 3
  const ATTENDED_RENEWAL_HORIZON_NS: nat := 9_000_000_000
  const ATTENDED_RENEWAL_THRESHOLD_SECONDS: nat := 4
  const ATTENDED_RETRY_GUARD_SECONDS: nat := 1

  datatype TimingError =
    | NotGranted | NoLease | Ineligible | NoHeartbeat | ClockRefused | BootChanged | CycleOverflow | DurationTooLong

  function CheckedMul(a: u64, b: nat): Option<u64> {
    if a * b > U64_MAXIMUM then None else Some(a * b)
  }

  function CheckedAdd(a: u64, b: u64): Option<u64> {
    if a + b > U64_MAXIMUM then None else Some(a + b)
  }

  // ---- Start policy of one participant ----------------------------------------------------

  function LeaseCycles(policy: NetworkPolicy, frequencyHz: u64, durationTicks: u64, timebaseHz: u64): Option<u64> {
    match policy
    case NetworkAttended => CheckedMul(frequencyHz, ATTENDED_INITIAL_LEASE_SECONDS)
    case CachedAutonomous =>
      var duration := CeilProductRatio(durationTicks, frequencyHz, timebaseHz);
      var slack := CheckedMul(frequencyHz, AUTONOMOUS_LEASE_SLACK_SECONDS);
      if duration.None? || slack.None? then None else CheckedAdd(duration.value, slack.value)
  }

  /** The policy the worker derives for one eligible participant from its heartbeat frequency. */
  function StartPolicyOf(
    policy: NetworkPolicy, frequencyHz: u64, maximumUncertainty: u64, durationTicks: u64, timebaseHz: u64, commitId: nat)
    : Result<StartPolicy, TimingError>
  {
    var lease := LeaseCycles(policy, frequencyHz, durationTicks, timebaseHz);
    var confirmation := CheckedMul(frequencyHz, CONFIRMATION_LEAD_SECONDS);
    var guard := CheckedMul(frequencyHz, ABORT_GUARD_LEAD_SECONDS);
    if lease.None? then Err(DurationTooLong)
    else if confirmation.None? || guard.None? then Err(CycleOverflow)
    else Ok(StartPolicy(maximumUncertainty, maximumUncertainty, confirmation.value, guard.value, lease.value, commitId))
  }

  /**
   * A policy the worker derives is valid for every running clock with a nonzero uncertainty allowance, and
   * whatever the clock answers its lease is never refused as too short: the autonomous lease covers the job.
   */
  lemma WorkerPolicyPassesTheCoordinator(
    c: Coordinator, pc: ParticipantCoordinator, input: StartInput, nowUi: u64, targetUi: u64, encodes: Commit -> bool)
    requires input.clock.frequencyHz.Some?
    requires StartPolicyOf(c.policy, input.clock.frequencyHz.value, input.timing.maximumUncertainty, c.durationTicks,
                           c.timebaseHz, input.timing.commitId) == Ok(input.timing)
    ensures ValidTiming(input.timing) <==> input.clock.frequencyHz.value != 0 && input.timing.maximumUncertainty != 0
    ensures var planned := PlanCommit(c, pc, input, nowUi, targetUi, encodes);
            !(planned.Err? && planned.error.LeaseTooShort?)
    ensures c.policy == CachedAutonomous ==>
              CeilProductRatio(c.durationTicks, input.clock.frequencyHz.value, c.timebaseHz).Some?
  {
  }

  /** The commit times that follow: guard one second and confirmation three seconds before the start, lease behind it. */
  lemma WorkerCommitTimes(
    c: Coordinator, pc: ParticipantCoordinator, input: StartInput, nowUi: u64, targetUi: u64, encodes: Commit -> bool)
    requires input.clock.frequencyHz.Some?
    requires StartPolicyOf(c.policy, input.clock.frequencyHz.value, input.timing.maximumUncertainty, c.durationTicks,
                           c.timebaseHz, input.timing.commitId) == Ok(input.timing)
    requires PlanCommit(c, pc, input, nowUi, targetUi, encodes).Ok?
    ensures var (commit, hz) := (PlanCommit(c, pc, input, nowUi, targetUi, encodes).value, input.clock.frequencyHz.value);
            && commit.localStart == commit.abortGuard + hz
            && commit.localStart == commit.confirmDeadline + 3 * hz
            && (c.policy == NetworkAttended ==> commit.leaseExpiry == commit.localStart + 3 * hz)
            && (c.policy == CachedAutonomous ==>
                  c.durationTicks * hz <= (commit.leaseExpiry - commit.localStart - 30 * hz) * c.timebaseHz)
  {
    CeilProductRatioIsExact(c.durationTicks, input.clock.frequencyHz.value, c.timebaseHz);
  }

  // ---- Attended lease targets -------------------------------------------------------------

  /** A clock answer, and whether it is about the boot the job was compiled for. */
  datatype Reading = Reading(sameBoot: bool, cycle: u64)

  /**
   * What the worker reads about one participant when it looks at the leases: the latest cycle the device may be at by
   * a browser instant, and the cycle predicted for a later one. `None` is a refusal.
   */
  datatype LeaseClock = LeaseClock(
    eligible: bool, heartbeatHz: Option<u64>, latestAt: u64 -> Option<Reading>, predictedFor: u64 -> Option<Reading>)

  datatype LeaseTarget = LeaseTarget(lease: nat, due: bool)

  /** The lease to ask for next; nothing when the reported lease has already run out. */
  function AttendedLeaseTarget(clock: LeaseClock, reported: nat, authorized: nat, nowUi: u64, targetUi: u64)
    : Result<Option<LeaseTarget>, TimingError>
  {
    var seen, ahead := clock.latestAt(nowUi), clock.predictedFor(targetUi);
    if reported > authorized then Err(NotGranted)
    else if clock.heartbeatHz.None? then Err(NoHeartbeat)
    else if seen.None? then Err(ClockRefused)
    else if !seen.value.sameBoot then Err(BootChanged)
    else
      var latest := seen.value.cycle;
      if latest >= reported then Ok(None)
      else
        var unapplied := reported < authorized;
        var threshold := CheckedMul(clock.heartbeatHz.value, ATTENDED_RENEWAL_THRESHOLD_SECONDS);
        if threshold.None? then Err(CycleOverflow)
        else
          var due := unapplied || reported - latest <= threshold.value;
          if ahead.None? then Err(ClockRefused)
          else if !ahead.value.sameBoot then Err(BootChanged)
          else
            var guard := CheckedMul(clock.heartbeatHz.value, ATTENDED_RETRY_GUARD_SECONDS);
            if guard.None? then Err(CycleOverflow)
            else if unapplied && authorized - latest > guard.value then Ok(Some(LeaseTarget(authorized, due)))
            else if authorized + 1 > U64_MAXIMUM then Err(CycleOverflow)
            else
              var predicted := ahead.value.cycle;
              Ok(Some(LeaseTarget(if predicted > authorized + 1 then predicted else authorized + 1, due)))
  }

  /** A target is always one the participant machine may request: equality only re-sends an unapplied expiry. */
  lemma AttendedTargetIsAdmissible(clock: LeaseClock, reported: nat, authorized: nat, nowUi: u64, targetUi: u64)
    requires AttendedLeaseTarget(clock, reported, authorized, nowUi, targetUi).Ok?
    ensures reported <= authorized && clock.latestAt(nowUi).Some? && clock.heartbeatHz.Some?
    ensures var target := AttendedLeaseTarget(clock, reported, authorized, nowUi, targetUi).value;
            var latest := clock.latestAt(nowUi).value.cycle;
            && (target.None? <==> reported <= latest)
            && (target.Some? ==>
                  && reported < target.value.lease && authorized <= target.value.lease
                  && (target.value.lease == authorized ==>
                        && reported < authorized
                        && latest + clock.heartbeatHz.value < authorized)
                  && (target.value.due <==>
                        reported < authorized || reported <= latest + 4 * clock.heartbeatHz.value))
  {
  }

  /** The device reports a granted lease that has not run out, and its clock answers about this boot, now and ahead. */
  predicate Readable(clock: LeaseClock, reported: nat, authorized: nat, nowUi: u64, targetUi: u64) {
    && reported <= authorized
    && clock.heartbeatHz.Some? && 4 * clock.heartbeatHz.value <= U64_MAXIMUM
    && clock.latestAt(nowUi).Some? && clock.latestAt(nowUi).value.sameBoot && clock.latestAt(nowUi).value.cycle < reported
    && clock.predictedFor(targetUi).Some? && clock.predictedFor(targetUi).value.sameBoot
  }

  /** An unapplied request that is still more than a second away is repeated as it stands. */
  predicate Repeats(clock: LeaseClock, reported: nat, authorized: nat, nowUi: u64)
    requires clock.heartbeatHz.Some? && clock.latestAt(nowUi).Some?
  {
    reported < authorized && clock.latestAt(nowUi).value.cycle + clock.heartbeatHz.value < authorized
  }

  /** Due: unapplied, or at most four seconds from running out. */
  predicate DueNow(clock: LeaseClock, reported: nat, authorized: nat, nowUi: u64)
    requires clock.heartbeatHz.Some? && clock.latestAt(nowUi).Some?
  {
    reported < authorized || reported <= clock.latestAt(nowUi).value.cycle + 4 * clock.heartbeatHz.value
  }

  /** The one lease to ask for: the repeated one, or the least that is both new and reaches the predicted cycle. */
  ghost predicate Wanted(clock: LeaseClock, reported: nat, authorized: nat, nowUi: u64, targetUi: u64, lease: nat) {
    && Readable(clock, reported, authorized, nowUi, targetUi)
    && if Repeats(clock, reported, authorized, nowUi) then lease == authorized
       else
         && authorized < U64_MAXIMUM
         && authorized < lease && clock.predictedFor(targetUi).value.cycle <= lease
         && (lease == authorized + 1 || lease == clock.predictedFor(targetUi).value.cycle)
  }

  /** Whether due or not, the target is exactly the wanted lease; there is none exactly when the lease has run out. */
  lemma AttendedTargetIsExact(
    clock: LeaseClock, reported: nat, authorized: nat, nowUi: u64, targetUi: u64, lease: nat, due: bool)
    ensures AttendedLeaseTarget(clock, reported, authorized, nowUi, targetUi) == Ok(Some(LeaseTarget(lease, due)))
            <==> Wanted(clock, reported, authorized, nowUi, targetUi, lease)
                 && due == DueNow(clock, reported, authorized, nowUi)
    ensures AttendedLeaseTarget(clock, reported, authorized, nowUi, targetUi) == Ok(None)
            <==>
              && reported <= authorized && clock.heartbeatHz.Some? && clock.latestAt(nowUi).Some?
              && clock.latestAt(nowUi).value.sameBoot && reported <= clock.latestAt(nowUi).value.cycle
  {
  }

  // ---- One renewal decision ---------------------------------------------------------------

  datatype LeaseTargets = LeaseTargets(renewals: seq<LeaseRenewal>, due: bool)

  /** Targets for the participants from `from` on; nothing at all when one lease has already run out. */
  function TargetsFrom(ps: seq<ParticipantCoordinator>, clocks: seq<LeaseClock>, nowUi: u64, targetUi: u64, from: nat)
    : (r: Result<Option<LeaseTargets>, TimingError>)
    requires from <= |ps| == |clocks|
    ensures r.Ok? && r.value.Some? ==> |r.value.value.renewals| == |ps| - from
    ensures r.Ok? && r.value.Some? ==>
      forall i | from <= i < |ps| ::
        var renewal := r.value.value.renewals[i - from];
        && renewal.deviceId == ps[i].deviceId
        && ReportedLease(ps[i]).Some? && ps[i].control.authorizedLease.Some?
        && ReportedLease(ps[i]).value < renewal.leaseExpiry && ps[i].control.authorizedLease.value <= renewal.leaseExpiry
    decreases |ps| - from
  {
    if from == |ps| then Ok(Some(LeaseTargets([], false)))
    else if !clocks[from].eligible then Err(Ineligible)
    else if ReportedLease(ps[from]).None? || ps[from].control.authorizedLease.None? then Err(NoLease)
    else
      match AttendedLeaseTarget(
          clocks[from], ReportedLease(ps[from]).value, ps[from].control.authorizedLease.value, nowUi, targetUi)
      case Err(error) => Err(error)
      case Ok(None) => Ok(None)
      case Ok(Some(target)) =>
        match TargetsFrom(ps, clocks, nowUi, targetUi, from + 1)
        case Err(error) => Err(error)
        case Ok(None) => Ok(None)
        case Ok(Some(rest)) =>
          Ok(Some(LeaseTargets([LeaseRenewal(ps[from].deviceId, target.lease)] + rest.renewals, target.due || rest.due)))
  }

  /** The renewals to request now, if the policy, the clocks and the cadence call for any. */
  function RenewalIfDue(j: Job, nowUi: u64, clocks: seq<LeaseClock>): Result<Option<seq<LeaseRenewal>>, TimingError>
    requires |clocks| == |j.c.participants|
  {
    if j.c.policy != NetworkAttended then Ok(None)
    else if nowUi + ATTENDED_RENEWAL_HORIZON_NS > U64_MAXIMUM then Err(CycleOverflow)
    else
      match TargetsFrom(j.c.participants, clocks, nowUi, nowUi + ATTENDED_RENEWAL_HORIZON_NS, 0)
      case Err(error) => Err(error)
      case Ok(None) => Ok(None)
      case Ok(Some(targets)) => if j.renewalRounds == 0 || targets.due then Ok(Some(targets.renewals)) else Ok(None)
  }

  /** `lease` is what participant `pc` is to be asked for. */
  ghost predicate WantedOf(pc: ParticipantCoordinator, clock: LeaseClock, nowUi: u64, targetUi: u64, lease: nat) {
    && clock.eligible && ReportedLease(pc).Some? && pc.control.authorizedLease.Some?
    && Wanted(clock, ReportedLease(pc).value, pc.control.authorizedLease.value, nowUi, targetUi, lease)
  }

  ghost predicate DueOf(pc: ParticipantCoordinator, clock: LeaseClock, nowUi: u64) {
    && ReportedLease(pc).Some? && pc.control.authorizedLease.Some?
    && clock.heartbeatHz.Some? && clock.latestAt(nowUi).Some?
    && DueNow(clock, ReportedLease(pc).value, pc.control.authorizedLease.value, nowUi)
  }

  /** One wanted lease for every participant from `from` on, and due when any of them is. */
  ghost predicate ExactTargets(
    ps: seq<ParticipantCoordinator>, clocks: seq<LeaseClock>, nowUi: u64, targetUi: u64, from: nat, t: LeaseTargets)
    requires from <= |ps| == |clocks|
  {
    && |t.renewals| == |ps| - from
    && (forall i | from <= i < |ps| ::
          && t.renewals[i - from].deviceId == ps[i].deviceId
          && WantedOf(ps[i], clocks[i], nowUi, targetUi, t.renewals[i - from].leaseExpiry))
    && (t.due <==> exists i | from <= i < |ps| :: DueOf(ps[i], clocks[i], nowUi))
  }

  lemma {:induction false} CollectedIsExact(
    ps: seq<ParticipantCoordinator>, clocks: seq<LeaseClock>, nowUi: u64, targetUi: u64, from: nat, t: LeaseTargets)
    requires from <= |ps| == |clocks| && TargetsFrom(ps, clocks, nowUi, targetUi, from) == Ok(Some(t))
    ensures ExactTargets(ps, clocks, nowUi, targetUi, from, t)
    decreases |ps| - from
  {
    hide AttendedLeaseTarget, ReportedLease, Wanted, DueNow, WantedOf, DueOf;
    if from < |ps| {
      var rest := TargetsFrom(ps, clocks, nowUi, targetUi, from + 1).value.value;
      CollectedIsExact(ps, clocks, nowUi, targetUi, from + 1, rest);
      TargetIsWanted(ps[from], clocks[from], nowUi, targetUi);
      forall i | from <= i < |ps|
        ensures t.renewals[i - from].deviceId == ps[i].deviceId
        ensures WantedOf(ps[i], clocks[i], nowUi, targetUi, t.renewals[i - from].leaseExpiry)
      {
        if i > from {
          assert t.renewals[i - from] == rest.renewals[i - (from + 1)];
        }
      }
    }
  }

  lemma {:induction false} ExactIsCollected(
    ps: seq<ParticipantCoordinator>, clocks: seq<LeaseClock>, nowUi: u64, targetUi: u64, from: nat, t: LeaseTargets)
    requires from <= |ps| == |clocks| && ExactTargets(ps, clocks, nowUi, targetUi, from, t)
    ensures TargetsFrom(ps, clocks, nowUi, targetUi, from) == Ok(Some(t))
    decreases |ps| - from
  {
    hide AttendedLeaseTarget, ReportedLease, Wanted, DueNow, DueOf;
    if from < |ps| {
      var rest := LeaseTargets(t.renewals[1..], exists i | from + 1 <= i < |ps| :: DueOf(ps[i], clocks[i], nowUi));
      forall i | from + 1 <= i < |ps|
        ensures rest.renewals[i - (from + 1)].deviceId == ps[i].deviceId
        ensures WantedOf(ps[i], clocks[i], nowUi, targetUi, rest.renewals[i - (from + 1)].leaseExpiry)
      {
        assert rest.renewals[i - (from + 1)] == t.renewals[i - from];
      }
      ExactIsCollected(ps, clocks, nowUi, targetUi, from + 1, rest);
      assert t.renewals[from - from] == t.renewals[0];
      WantedIsTarget(ps[from], clocks[from], nowUi, targetUi, t.renewals[0].leaseExpiry);
      assert t.renewals == [t.renewals[0]] + rest.renewals;
    }
  }

  lemma TargetsAreExact(
    ps: seq<ParticipantCoordinator>, clocks: seq<LeaseClock>, nowUi: u64, targetUi: u64, from: nat, t: LeaseTargets)
    requires from <= |ps| == |clocks|
    ensures TargetsFrom(ps, clocks, nowUi, targetUi, from) == Ok(Some(t)) <==>
              ExactTargets(ps, clocks, nowUi, targetUi, from, t)
  {
    hide TargetsFrom, ExactTargets;
    if TargetsFrom(ps, clocks, nowUi, targetUi, from) == Ok(Some(t)) {
      CollectedIsExact(ps, clocks, nowUi, targetUi, from, t);
    }
    if ExactTargets(ps, clocks, nowUi, targetUi, from, t) {
      ExactIsCollected(ps, clocks, nowUi, targetUi, from, t);
    }
  }

  lemma TargetIsWanted(pc: ParticipantCoordinator, clock: LeaseClock, nowUi: u64, targetUi: u64)
    requires clock.eligible && ReportedLease(pc).Some? && pc.control.authorizedLease.Some?
    ensures var target :=
              AttendedLeaseTarget(clock, ReportedLease(pc).value, pc.control.authorizedLease.value, nowUi, targetUi);
            target.Ok? && target.value.Some? ==>
              && WantedOf(pc, clock, nowUi, targetUi, target.value.value.lease)
              && (target.value.value.due <==> DueOf(pc, clock, nowUi))
  {
    hide ReportedLease;
    var target := AttendedLeaseTarget(clock, ReportedLease(pc).value, pc.control.authorizedLease.value, nowUi, targetUi);
    if target.Ok? && target.value.Some? {
      AttendedTargetIsExact(clock, ReportedLease(pc).value, pc.control.authorizedLease.value, nowUi, targetUi,
                            target.value.value.lease, target.value.value.due);
    }
  }

  lemma WantedIsTarget(pc: ParticipantCoordinator, clock: LeaseClock, nowUi: u64, targetUi: u64, lease: nat)
    requires WantedOf(pc, clock, nowUi, targetUi, lease)
    ensures AttendedLeaseTarget(clock, ReportedLease(pc).value, pc.control.authorizedLease.value, nowUi, targetUi)
         == Ok(Some(LeaseTarget(lease, DueOf(pc, clock, nowUi))))
  {
    hide ReportedLease;
    AttendedTargetIsExact(clock, ReportedLease(pc).value, pc.control.authorizedLease.value, nowUi, targetUi,
                          lease, DueOf(pc, clock, nowUi));
  }

  /**
   * An attended job asks for exactly the wanted lease of every participant, at the nine-second horizon, on its first
   * round and whenever someone is due; and for nothing when the round is neither.
   */
  lemma RenewalIsExact(j: Job, nowUi: u64, clocks: seq<LeaseClock>, rs: seq<LeaseRenewal>)
    requires |clocks| == |j.c.participants| && j.c.policy == NetworkAttended && nowUi + 9_000_000_000 <= U64_MAXIMUM
    ensures RenewalIfDue(j, nowUi, clocks) == Ok(Some(rs)) <==>
              && |rs| == |j.c.participants|
              && (forall i | 0 <= i < |rs| ::
                    && rs[i].deviceId == j.c.participants[i].deviceId
                    && WantedOf(j.c.participants[i], clocks[i], nowUi, nowUi + 9_000_000_000, rs[i].leaseExpiry))
              && (j.renewalRounds == 0 || exists i | 0 <= i < |rs| :: DueOf(j.c.participants[i], clocks[i], nowUi))
  {
    hide TargetsFrom, WantedOf, DueOf;
    var ps, horizon := j.c.participants, nowUi + 9_000_000_000;
    var due := exists i | 0 <= i < |ps| :: DueOf(ps[i], clocks[i], nowUi);
    TargetsAreExact(ps, clocks, nowUi, horizon, 0, LeaseTargets(rs, due));
    assert forall i | 0 <= i < |rs| :: rs[i - 0] == rs[i];
    var targets := TargetsFrom(ps, clocks, nowUi, horizon, 0);
    if targets.Ok? && targets.value.Some? {
      TargetsAreExact(ps, clocks, nowUi, horizon, 0, targets.value.value);
    }
  }

  ghost predicate HasTarget(pc: ParticipantCoordinator, clock: LeaseClock, nowUi: u64, targetUi: u64) {
    exists lease :: WantedOf(pc, clock, nowUi, targetUi, lease)
  }

  ghost predicate RunsOutAt(
    ps: seq<ParticipantCoordinator>, clocks: seq<LeaseClock>, nowUi: u64, targetUi: u64, from: nat, k: nat)
    requires |ps| == |clocks|
  {
    && from <= k < |ps| && RunOut(ps[k], clocks[k], nowUi)
    && forall i | from <= i < k :: HasTarget(ps[i], clocks[i], nowUi, targetUi)
  }

  /** A pass finds no target exactly when it meets a lease that has run out before anything it cannot read. */
  lemma {:induction false} RunOutEndsThePass(
    ps: seq<ParticipantCoordinator>, clocks: seq<LeaseClock>, nowUi: u64, targetUi: u64, from: nat)
    requires from <= |ps| == |clocks|
    ensures TargetsFrom(ps, clocks, nowUi, targetUi, from) == Ok(None) <==>
              exists k :: RunsOutAt(ps, clocks, nowUi, targetUi, from, k)
    decreases |ps| - from
  {
    hide AttendedLeaseTarget, Wanted, ReportedLease, HasTarget, RunOut, WantedOf;
    if from < |ps| {
      RunOutEndsThePass(ps, clocks, nowUi, targetUi, from + 1);
      Eligible(ps[from], clocks[from], nowUi, targetUi);
      var next := from + 1;
      if k: nat :| RunsOutAt(ps, clocks, nowUi, targetUi, next, k) {
        if HasTarget(ps[from], clocks[from], nowUi, targetUi) {
          assert RunsOutAt(ps, clocks, nowUi, targetUi, from, k);
        }
      }
      if RunOut(ps[from], clocks[from], nowUi) {
        assert RunsOutAt(ps, clocks, nowUi, targetUi, from, from);
      }
      if k: nat :| RunsOutAt(ps, clocks, nowUi, targetUi, from, k) {
        if k > from {
          assert RunsOutAt(ps, clocks, nowUi, targetUi, next, k);
        }
      }
    }
  }

  lemma Eligible(pc: ParticipantCoordinator, clock: LeaseClock, nowUi: u64, targetUi: u64)
    ensures RunOut(pc, clock, nowUi) || HasTarget(pc, clock, nowUi, targetUi) ==>
              clock.eligible && ReportedLease(pc).Some? && pc.control.authorizedLease.Some?
    ensures clock.eligible && ReportedLease(pc).Some? && pc.control.authorizedLease.Some? ==>
              var target :=
                AttendedLeaseTarget(clock, ReportedLease(pc).value, pc.control.authorizedLease.value, nowUi, targetUi);
              && (target == Ok(None) <==> RunOut(pc, clock, nowUi))
              && ((target.Ok? && target.value.Some?) <==> HasTarget(pc, clock, nowUi, targetUi))
  {
    hide ReportedLease, AttendedLeaseTarget, Wanted;
    if clock.eligible && ReportedLease(pc).Some? && pc.control.authorizedLease.Some? {
      FirstOfThePass(pc, clock, nowUi, targetUi);
    }
  }

  ghost predicate RunOut(pc: ParticipantCoordinator, clock: LeaseClock, nowUi: u64) {
    && clock.eligible && ReportedLease(pc).Some? && pc.control.authorizedLease.Some?
    && ReportedLease(pc).value <= pc.control.authorizedLease.value
    && clock.heartbeatHz.Some? && clock.latestAt(nowUi).Some? && clock.latestAt(nowUi).value.sameBoot
    && ReportedLease(pc).value <= clock.latestAt(nowUi).value.cycle
  }

  lemma FirstOfThePass(pc: ParticipantCoordinator, clock: LeaseClock, nowUi: u64, targetUi: u64)
    requires clock.eligible && ReportedLease(pc).Some? && pc.control.authorizedLease.Some?
    ensures var target :=
              AttendedLeaseTarget(clock, ReportedLease(pc).value, pc.control.authorizedLease.value, nowUi, targetUi);
            && (target == Ok(None) <==> RunOut(pc, clock, nowUi))
            && ((target.Ok? && target.value.Some?) <==> HasTarget(pc, clock, nowUi, targetUi))
  {
    hide ReportedLease;
    var target := AttendedLeaseTarget(clock, ReportedLease(pc).value, pc.control.authorizedLease.value, nowUi, targetUi);
    AttendedTargetIsExact(clock, ReportedLease(pc).value, pc.control.authorizedLease.value, nowUi, targetUi, 0, false);
    TargetIsWanted(pc, clock, nowUi, targetUi);
    if lease :| WantedOf(pc, clock, nowUi, targetUi, lease) {
      WantedIsTarget(pc, clock, nowUi, targetUi, lease);
    }
  }

  ghost predicate RunsOut(ps: seq<ParticipantCoordinator>, clocks: seq<LeaseClock>, nowUi: u64, targetUi: u64)
    requires |ps| == |clocks|
  {
    exists k :: RunsOutAt(ps, clocks, nowUi, targetUi, 0, k)
  }

  lemma EveryoneHasATarget(ps: seq<ParticipantCoordinator>, clocks: seq<LeaseClock>, nowUi: u64, targetUi: u64)
    requires |ps| == |clocks|
    ensures var targets := TargetsFrom(ps, clocks, nowUi, targetUi, 0);
            (targets.Ok? && targets.value.Some?) <==> forall i | 0 <= i < |ps| :: HasTarget(ps[i], clocks[i], nowUi, targetUi)
  {
    hide TargetsFrom, WantedOf, DueOf;
    var targets := TargetsFrom(ps, clocks, nowUi, targetUi, 0);
    if targets.Ok? && targets.value.Some? {
      TargetsAreExact(ps, clocks, nowUi, targetUi, 0, targets.value.value);
    }
    if forall i | 0 <= i < |ps| :: HasTarget(ps[i], clocks[i], nowUi, targetUi) {
      var renewals := seq(|ps|, i requires 0 <= i < |ps| =>
        var lease :| WantedOf(ps[i], clocks[i], nowUi, targetUi, lease); LeaseRenewal(ps[i].deviceId, lease));
      var due := exists i | 0 <= i < |ps| :: DueOf(ps[i], clocks[i], nowUi);
      assert forall i | 0 <= i < |ps| :: renewals[i - 0] == renewals[i];
      TargetsAreExact(ps, clocks, nowUi, targetUi, 0, LeaseTargets(renewals, due));
    }
  }

  /**
   * No round is asked for exactly when the job is autonomous, or a lease that has run out is met before anyone that
   * cannot be judged, or everyone has a target, nobody is due and this is not the first round.
   */
  lemma NoRenewalExactly(j: Job, nowUi: u64, clocks: seq<LeaseClock>)
    requires |clocks| == |j.c.participants|
    ensures j.c.policy == NetworkAttended && nowUi + 9_000_000_000 > U64_MAXIMUM ==> RenewalIfDue(j, nowUi, clocks).Err?
    ensures RenewalIfDue(j, nowUi, clocks) == Ok(None) <==>
              j.c.policy == CachedAutonomous
              || (nowUi + 9_000_000_000 <= U64_MAXIMUM
                  && (RunsOut(j.c.participants, clocks, nowUi, nowUi + 9_000_000_000)
                      || (j.renewalRounds != 0
                          && forall i | 0 <= i < |clocks| ::
                               HasTarget(j.c.participants[i], clocks[i], nowUi, nowUi + 9_000_000_000)
                               && !DueOf(j.c.participants[i], clocks[i], nowUi))))
  {
    hide DueOf, WantedOf, TargetsFrom, HasTarget, RunsOutAt;
    if j.c.policy == NetworkAttended && nowUi + 9_000_000_000 <= U64_MAXIMUM {
      var (ps, horizon) := (j.c.participants, nowUi + 9_000_000_000);
      var targets := TargetsFrom(ps, clocks, nowUi, horizon, 0);
      RunOutEndsThePass(ps, clocks, nowUi, horizon, 0);
      EveryoneHasATarget(ps, clocks, nowUi, horizon);
      if targets.Ok? && targets.value.Some? {
        TargetsAreExact(ps, clocks, nowUi, horizon, 0, targets.value.value);
      }
    }
  }

  /** What a participant must still be doing for a renewal to be addressed to it. */
  predicate Renewable(pc: ParticipantCoordinator) {
    && !pc.control.reconciliationRequired
    && Phase(pc.control) in {ParticipantPhase.Confirmed, ParticipantPhase.Priming,
                             ParticipantPhase.Primed, ParticipantPhase.Running}
    && pc.control.commit.Some? && pc.control.commit.value.policy == NetworkAttended
  }

  lemma TargetsAreInOrder(c: Coordinator, rs: seq<LeaseRenewal>)
    requires WellFormed(c) && |rs| == |c.participants|
    requires forall i | 0 <= i < |rs| :: rs[i].deviceId == c.participants[i].deviceId
    ensures Ordering.Sort(RenewalKey, rs) == rs
  {
    Ordering.SortKeepsStrict(RenewalKey, rs);
  }

  /** Whether a due round of a live job can be granted. */
  ghost predicate Grantable(j: Job) {
    && j.queue == [] && !j.sweepRequired && !j.stopRequested
    && !AnyPending(j.c.participants)
    && forall i | 0 <= i < |j.c.participants| :: Renewable(j.c.participants[i])
  }

  /**
   * The computed leases are never the obstacle: a due round is granted exactly when nothing is queued, pending or in
   * doubt, no stop was accepted, and every participant is still between its confirmation and its end.
   */
  lemma DueRenewalIsAdmittedExactly(j: Job, nowUi: u64, clocks: seq<LeaseClock>)
    requires WellFormed(j.c) && |clocks| == |j.c.participants|
    requires j.terminalOverride.None? && GlobalPhaseOf(j.c) in {GConfirmed, GIrrevocable}
    requires RenewalIfDue(j, nowUi, clocks).Ok? && RenewalIfDue(j, nowUi, clocks).value.Some?
    ensures JobBeginLeaseRenewal(j, RenewalIfDue(j, nowUi, clocks).value.value).1.Ok? <==> Grantable(j)
  {
    hide BeginLeaseRenewal, GlobalPhaseOf, Renewable, TargetsFrom;
    var rs := RenewalIfDue(j, nowUi, clocks).value.value;
    TargetsFit(j, nowUi, clocks);
    RoundIsGrantedExactly(j.c, rs);
  }

  /** What the collected targets promise about the round they make up. */
  ghost predicate FitTargets(c: Coordinator, rs: seq<LeaseRenewal>) {
    && c.policy == NetworkAttended
    && |rs| == |c.participants|
    && forall i | 0 <= i < |rs| ::
         && rs[i].deviceId == c.participants[i].deviceId
         && ReportedLease(c.participants[i]).Some? && c.participants[i].control.authorizedLease.Some?
         && ReportedLease(c.participants[i]).value < rs[i].leaseExpiry
         && c.participants[i].control.authorizedLease.value <= rs[i].leaseExpiry
  }

  lemma TargetsFit(j: Job, nowUi: u64, clocks: seq<LeaseClock>)
    requires |clocks| == |j.c.participants|
    requires RenewalIfDue(j, nowUi, clocks).Ok? && RenewalIfDue(j, nowUi, clocks).value.Some?
    ensures FitTargets(j.c, RenewalIfDue(j, nowUi, clocks).value.value)
  {
    hide AttendedLeaseTarget, ReportedLease;
    var targets := TargetsFrom(j.c.participants, clocks, nowUi, nowUi + ATTENDED_RENEWAL_HORIZON_NS, 0).value.value;
    assert forall i | 0 <= i < |targets.renewals| :: targets.renewals[i - 0] == targets.renewals[i];
  }

  lemma RoundIsGrantedExactly(c: Coordinator, rs: seq<LeaseRenewal>)
    requires WellFormed(c) && GlobalPhaseOf(c) in {GConfirmed, GIrrevocable} && FitTargets(c, rs)
    ensures BeginLeaseRenewal(c, rs).1.Ok? <==>
              !AnyPending(c.participants) && forall i | 0 <= i < |c.participants| :: Renewable(c.participants[i])
  {
    hide GlobalPhaseOf, Renewable, BeginLeaseRenew, ReportedLease;
    var ps := c.participants;
    TargetsAreInOrder(c, rs);
    if !AnyPending(ps) {
      forall i | 0 <= i < |ps|
        ensures BeginLeaseRenew(ps[i].control, rs[i].leaseExpiry).Ok? <==> Renewable(ps[i])
      {
        assert ps[i].control.pending.None?;
        AdmissibleTarget(ps[i].control, ps[i], rs[i].leaseExpiry);
      }
    }
  }

  lemma AdmissibleTarget(p: Participant, pc: ParticipantCoordinator, lease: nat)
    requires pc.control == p && p.pending.None? && ReportedLease(pc).Some? && p.authorizedLease.Some?
    requires ReportedLease(pc).value < lease && p.authorizedLease.value <= lease
    ensures BeginLeaseRenew(p, lease).Ok? <==> Renewable(pc)
  {
  }
}
