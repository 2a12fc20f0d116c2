/** Mapping one browser epoch into every device's cycle domain, and reading the mapping back. */
module StartTiming {
  import opened Wrappers
  import opened ParticipantSchedule
  import opened CoordinatorModel
  import Ordering

  // ---- Inputs -----------------------------------------------------------------------------

  datatype StartPolicy = StartPolicy(
    maximumUncertainty: u64,
    requiredSync: u64,
    confirmationLead: u64,
    abortGuardLead: u64,
    leaseCycles: u64,
    commitId: nat)

  datatype Prediction = Prediction(
    bootId: nat, nowUi: u64, targetUi: u64, uncertainty: u64, scheduledCycle: u64, nowLatestCycle: u64, probeId: nat)

  datatype Instant = Instant(bootId: nat, uiNs: u64, uncertainty: u64, earliestCycle: u64, latestCycle: u64)

  datatype UiBounds = UiBounds(bootId: nat, earliestUi: u64, midpointUi: u64, latestUi: u64)

  /** The estimator returns ordered endpoints. */
  type UiInterval = b: UiBounds | b.earliestUi <= b.latestUi witness UiBounds(0, 0, 0, 0)

  /** The estimator's answers at the instant of the call; `None` is a refusal by its policy. */
  datatype DeviceClock = DeviceClock(
    bootId: Option<nat>,
    frequencyHz: Option<u64>,
    prediction: Option<Prediction>,
    instant: Option<Instant>,
    startInterval: Option<UiInterval>)

  datatype StartInput = StartInput(deviceId: nat, clock: DeviceClock, timing: StartPolicy)

  function InputKey(input: StartInput): nat { input.deviceId }

  predicate ValidTiming(t: StartPolicy) {
    && t.maximumUncertainty != 0
    && t.requiredSync != 0
    && t.maximumUncertainty <= t.requiredSync
    && t.abortGuardLead < t.confirmationLead
    && t.abortGuardLead != 0
    && t.leaseCycles != 0
  }

  // ---- Exact duration conversion ----------------------------------------------------------

  /** Ceiling of value * multiplier / divisor, with every checked step of the 128-bit computation. */
  function CeilProductRatio(value: u64, multiplier: u64, divisor: u64): (r: Option<u64>) {
    if divisor == 0 then None
    else if value * multiplier > U128_MAXIMUM then None
    else if value * multiplier + (divisor - 1) > U128_MAXIMUM then None
    else
      var rounded := (value * multiplier + (divisor - 1)) / divisor;
      if rounded > U64_MAXIMUM then None else Some(rounded)
  }

  /** `c` device cycles are the least that last as long as `value` ticks. */
  ghost predicate LeastCover(value: nat, multiplier: nat, divisor: nat, c: nat) {
    value * multiplier <= c * divisor && (c > 0 ==> (c - 1) * divisor < value * multiplier)
  }

  lemma ProductFits(a: u64, b: u64)
    ensures a * b + U64_MAXIMUM <= U128_MAXIMUM
  {
    assert a * b <= U64_MAXIMUM * b by {
      assert (U64_MAXIMUM - a) * b >= 0;
    }
    assert U64_MAXIMUM * b <= U64_MAXIMUM * U64_MAXIMUM;
  }

  lemma CeilingIsLeast(n: nat, d: nat)
    requires d > 0
    ensures var c := (n + d - 1) / d; n <= c * d && (c > 0 ==> (c - 1) * d < n)
  {
    var c := (n + d - 1) / d;
    assert n + d - 1 == c * d + (n + d - 1) % d;
    assert (c - 1) * d == c * d - d;
  }

  lemma ProductNonNegative(a: nat, b: nat)
    ensures a * b >= 0
  {
  }

  lemma LeastIsUnique(n: nat, d: nat, a: nat, b: nat)
    requires d > 0
    requires n <= a * d && (a > 0 ==> (a - 1) * d < n)
    requires n <= b * d
    ensures a <= b
  {
    var gap := a - 1 - b;
    assert gap * d == (a - 1) * d - b * d;
    if gap >= 0 {
      ProductNonNegative(gap, d);
      assert false;
    }
  }

  /** The conversion never overflows 128 bits: it fails only on a zero divisor or an oversized result. */
  lemma CeilProductRatioIsExact(value: u64, multiplier: u64, divisor: u64)
    ensures CeilProductRatio(value, multiplier, divisor).Some? ==>
              divisor != 0 && LeastCover(value, multiplier, divisor, CeilProductRatio(value, multiplier, divisor).value)
    ensures CeilProductRatio(value, multiplier, divisor).None? <==>
              divisor == 0 || forall c: nat | c <= U64_MAXIMUM :: c * divisor < value * multiplier
  {
    if divisor != 0 {
      var n := value * multiplier;
      assert n >= 0;
      ProductFits(value, multiplier);
      CeilingIsLeast(n, divisor);
      var least := (n + (divisor - 1)) / divisor;
      assert least >= 0;
      if least > U64_MAXIMUM {
        forall c: nat | c <= U64_MAXIMUM
          ensures c * divisor < n
        {
          if n <= c * divisor {
            LeastIsUnique(n, divisor, least, c);
          }
        }
      } else {
        assert n <= least * divisor;
      }
    }
  }

  // ---- Binding one epoch into every commit ------------------------------------------------

  function PlanCommit(
    c: Coordinator, pc: ParticipantCoordinator, input: StartInput, nowUi: u64, targetUi: u64, encodes: Commit -> bool)
    : Result<Commit, DistributedError>
  {
    var t := input.timing;
    if input.deviceId != pc.deviceId || input.clock.bootId != Some(pc.control.bootId) then Err(ParticipantSet)
    else if !ValidTiming(t) then Err(Timing)
    else if input.clock.prediction.None? then Err(ClockModel)
    else if input.clock.frequencyHz.None? then Err(ClockUnavailable)
    else
      var p := input.clock.prediction.value;
      if p.bootId != pc.control.bootId || p.targetUi != targetUi || p.nowUi != nowUi || p.uncertainty > t.requiredSync then
        Err(ClockIdentity)
      else if p.scheduledCycle < t.confirmationLead || p.scheduledCycle < t.abortGuardLead
           || p.scheduledCycle + t.leaseCycles > U64_MAXIMUM then Err(Timing)
      else
        var start := p.scheduledCycle;
        var confirm := start - t.confirmationLead;
        var abort := start - t.abortGuardLead;
        if confirm <= p.nowLatestCycle || confirm >= abort || abort >= start then Err(Timing)
        else
          var required := CeilProductRatio(c.durationTicks, input.clock.frequencyHz.value, c.timebaseHz);
          if required.None? then Err(Timing)
          else if c.policy == CachedAutonomous && t.leaseCycles < required.value then
            Err(LeaseTooShort(t.leaseCycles, required.value))
          else
            var commit := Commit(
              c.policy, pc.control.descriptor.prepareId, pc.control.bootId, c.globalJob, c.participantSet,
              pc.control.preparedToken, pc.control.descriptor.partition, start, confirm, abort, start + t.leaseCycles,
              p.probeId, p.uncertainty, t.requiredSync, t.commitId);
            if encodes(commit) then Ok(commit) else Err(CommitEncoding)
  }

  /** Commits in device order, or the first refusal. */
  function PlanCommits(
    c: Coordinator, inputs: seq<StartInput>, nowUi: u64, targetUi: u64, encodes: Commit -> bool, from: nat)
    : (r: Result<seq<Commit>, DistributedError>)
    requires from <= |c.participants| == |inputs|
    ensures r.Ok? ==> |r.value| == |inputs| - from
    ensures r.Ok? ==> forall i | from <= i < |inputs| ::
      PlanCommit(c, c.participants[i], inputs[i], nowUi, targetUi, encodes) == Ok(r.value[i - from])
    decreases |inputs| - from
  {
    if from == |inputs| then Ok([])
    else
      match PlanCommit(c, c.participants[from], inputs[from], nowUi, targetUi, encodes)
      case Err(error) => Err(error)
      case Ok(commit) =>
        match PlanCommits(c, inputs, nowUi, targetUi, encodes, from + 1)
        case Err(error) => Err(error)
        case Ok(rest) => Ok([commit] + rest)
  }

  function Planned(ps: seq<ParticipantCoordinator>, commits: seq<Commit>): seq<ParticipantCoordinator>
    requires |ps| == |commits|
  {
    seq(|ps|, i requires 0 <= i < |ps| => ps[i].(planned := Some(commits[i])))
  }

  function BindStart(c: Coordinator, nowUi: u64, targetUi: u64, inputs: seq<StartInput>, encodes: Commit -> bool)
    : (Coordinator, Result<(), DistributedError>)
  {
    var ordered := Ordering.Sort(InputKey, inputs);
    if GlobalPhaseOf(c) != GReady || c.target.Some? then (c, Err(BadState))
    else if |inputs| != |c.participants| || |ordered| != |inputs| then (c, Err(ParticipantSet))
    else
      match PlanCommits(c, ordered, nowUi, targetUi, encodes, 0)
      case Err(error) => (c, Err(error))
      case Ok(commits) =>
        (c.(participants := Planned(c.participants, commits), target := Some(targetUi), intent := InstallIntent), Ok(()))
  }

  /** The device is the participant, and its clock maps this epoch for the participant's boot within the tolerance. */
  ghost predicate Mapped(pc: ParticipantCoordinator, input: StartInput, nowUi: u64, targetUi: u64) {
    && input.deviceId == pc.deviceId
    && input.clock.bootId == Some(pc.control.bootId)
    && input.clock.frequencyHz.Some? && input.clock.prediction.Some?
    && input.clock.prediction.value.bootId == pc.control.bootId
    && input.clock.prediction.value.nowUi == nowUi
    && input.clock.prediction.value.targetUi == targetUi
    && input.clock.prediction.value.uncertainty <= input.timing.requiredSync
  }

  /** Which job, participant, epoch and timing a commit is for. */
  ghost predicate CommitFor(c: Coordinator, pc: ParticipantCoordinator, input: StartInput, commit: Commit)
    requires input.clock.prediction.Some?
  {
    var (prediction, timing) := (input.clock.prediction.value, input.timing);
    && commit.globalJob == c.globalJob
    && commit.participantSet == c.participantSet
    && commit.policy == c.policy
    && commit.prepareId == pc.control.descriptor.prepareId
    && commit.partition == pc.control.descriptor.partition
    && commit.preparedToken == pc.control.preparedToken
    && commit.bootId == pc.control.bootId
    && commit.localStart == prediction.scheduledCycle
    && commit.confirmDeadline + timing.confirmationLead == commit.localStart
    && commit.abortGuard + timing.abortGuardLead == commit.localStart
    && commit.leaseExpiry == commit.localStart + timing.leaseCycles
    && commit.clockProbe == prediction.probeId
    && commit.clockUncertainty == prediction.uncertainty
    && commit.requiredSync == timing.requiredSync
    && commit.commitId == timing.commitId
  }

  /** Every deadline lies ahead, in order; the job's length converts, and an autonomous lease covers it. */
  ghost predicate SoundCommit(c: Coordinator, commit: Commit, input: StartInput) {
    && input.clock.prediction.Some? && input.clock.frequencyHz.Some?
    && ValidTiming(input.timing)
    && input.clock.prediction.value.nowLatestCycle < commit.confirmDeadline
    && commit.confirmDeadline < commit.abortGuard < commit.localStart < commit.leaseExpiry
    && c.timebaseHz != 0
    && c.durationTicks * input.clock.frequencyHz.value <= U64_MAXIMUM * c.timebaseHz
    && (c.policy == CachedAutonomous ==>
          c.durationTicks * input.clock.frequencyHz.value <= (commit.leaseExpiry - commit.localStart) * c.timebaseHz)
  }

  ghost predicate PlannedFor(
    c: Coordinator, pc: ParticipantCoordinator, input: StartInput, nowUi: u64, targetUi: u64, commit: Commit)
  {
    Mapped(pc, input, nowUi, targetUi) && CommitFor(c, pc, input, commit) && SoundCommit(c, commit, input)
  }

  lemma NothingCovers(n: int, d: nat)
    requires forall c: nat | c <= U64_MAXIMUM :: c * d < n
    ensures U64_MAXIMUM * d < n
  {
    var most: nat := U64_MAXIMUM;
    assert most * d < n;
  }

  lemma CoversFrom(n: int, required: nat, lease: nat, d: nat)
    requires d > 0 && n <= required * d && (required > 0 ==> (required - 1) * d < n)
    ensures required <= lease <==> n <= lease * d
  {
    if required <= lease {
      LongerCovers(n, required, lease, d);
    } else if n <= lease * d {
      LeastIsUnique(n, d, required, lease);
    }
  }

  /** The last cycle that fits bounds what can be converted, and the leases that cover are those no shorter than the result. */
  lemma ConvertsExactly(c: Coordinator, hz: u64, lease: u64)
    ensures CeilProductRatio(c.durationTicks, hz, c.timebaseHz).Some? <==>
              c.timebaseHz != 0 && c.durationTicks * hz <= U64_MAXIMUM * c.timebaseHz
    ensures CeilProductRatio(c.durationTicks, hz, c.timebaseHz).Some? ==>
              (CeilProductRatio(c.durationTicks, hz, c.timebaseHz).value <= lease <==>
               c.durationTicks * hz <= lease * c.timebaseHz)
  {
    hide CeilProductRatio;
    var required := CeilProductRatio(c.durationTicks, hz, c.timebaseHz);
    CeilProductRatioIsExact(c.durationTicks, hz, c.timebaseHz);
    if required.Some? {
      CoversFrom(c.durationTicks * hz, required.value, lease, c.timebaseHz);
      CoversFrom(c.durationTicks * hz, required.value, U64_MAXIMUM, c.timebaseHz);
    } else if c.timebaseHz != 0 {
      NothingCovers(c.durationTicks * hz, c.timebaseHz);
    }
  }

  /** A commit is planned exactly when it is the one for this job, participant and epoch, and can be kept. */
  lemma PlanCommitIsExact(
    c: Coordinator, pc: ParticipantCoordinator, input: StartInput, nowUi: u64, targetUi: u64, encodes: Commit -> bool,
    commit: Commit)
    ensures PlanCommit(c, pc, input, nowUi, targetUi, encodes) == Ok(commit) <==>
              PlannedFor(c, pc, input, nowUi, targetUi, commit) && encodes(commit)
  {
    hide CeilProductRatio;
    if input.clock.frequencyHz.Some? {
      ConvertsExactly(c, input.clock.frequencyHz.value, input.timing.leaseCycles);
    }
  }

  lemma LongerCovers(n: int, short: nat, long: nat, d: nat)
    requires n <= short * d && short <= long
    ensures n <= long * d
  {
    ProductNonNegative(long - short, d);
    assert (long - short) * d == long * d - short * d;
  }

  /**
   * Binding changes nothing, or gives every participant the one commit for this job, that participant and the shared
   * epoch, planned from the clock of that very device.
   */
  lemma BindStartIsAtomic(c: Coordinator, nowUi: u64, targetUi: u64, inputs: seq<StartInput>, encodes: Commit -> bool)
    ensures var (after, result) := BindStart(c, nowUi, targetUi, inputs, encodes);
            && (result.Err? ==> after == c)
            && (result.Ok? ==>
                  && after.target == Some(targetUi) && after.intent == InstallIntent
                  && |after.participants| == |c.participants| == |inputs|
                  && forall i | 0 <= i < |c.participants| ::
                       && after.participants[i].planned.Some?
                       && after.participants[i] == c.participants[i].(planned := after.participants[i].planned)
                       && CommitNames(c.participants[i].control, after.participants[i].planned.value)
                       && exists input <- inputs ::
                            PlannedFor(c, c.participants[i], input, nowUi, targetUi, after.participants[i].planned.value))
  {
    hide PlanCommit, PlannedFor;
    var (after, result) := BindStart(c, nowUi, targetUi, inputs, encodes);
    if result.Ok? {
      var ordered := Ordering.Sort(InputKey, inputs);
      forall i | 0 <= i < |c.participants|
        ensures CommitNames(c.participants[i].control, after.participants[i].planned.value)
        ensures exists input <- inputs ::
                  PlannedFor(c, c.participants[i], input, nowUi, targetUi, after.participants[i].planned.value)
      {
        PlanCommitIsExact(c, c.participants[i], ordered[i], nowUi, targetUi, encodes, after.participants[i].planned.value);
        PlannedNames(c, c.participants[i], ordered[i], nowUi, targetUi, after.participants[i].planned.value);
        Ordering.SortMember(InputKey, inputs, i);
      }
    }
  }

  lemma PlannedNames(
    c: Coordinator, pc: ParticipantCoordinator, input: StartInput, nowUi: u64, targetUi: u64, commit: Commit)
    requires PlannedFor(c, pc, input, nowUi, targetUi, commit)
    ensures CommitNames(pc.control, commit) && input.deviceId == pc.deviceId
  {
  }

  // ---- When a start is bound --------------------------------------------------------------

  /** `after` carries, participant by participant, the commit planned from the clock listed for it in `ordered`. */
  ghost predicate BoundFrom(
    c: Coordinator, nowUi: u64, targetUi: u64, ordered: seq<StartInput>, encodes: Commit -> bool, after: Coordinator)
  {
    && |ordered| == |c.participants| == |after.participants|
    && after == c.(participants := after.participants, target := Some(targetUi), intent := InstallIntent)
    && forall i | 0 <= i < |ordered| ::
         && after.participants[i].planned.Some?
         && after.participants[i] == c.participants[i].(planned := after.participants[i].planned)
         && PlannedFor(c, c.participants[i], ordered[i], nowUi, targetUi, after.participants[i].planned.value)
         && encodes(after.participants[i].planned.value)
  }

  ghost predicate Bindable(
    c: Coordinator, nowUi: u64, targetUi: u64, inputs: seq<StartInput>, encodes: Commit -> bool, after: Coordinator)
  {
    exists ordered ::
      multiset(ordered) == multiset(inputs) && BoundFrom(c, nowUi, targetUi, ordered, encodes, after)
  }

  lemma {:induction false} EachPlanned(
    c: Coordinator, inputs: seq<StartInput>, nowUi: u64, targetUi: u64, encodes: Commit -> bool, from: nat,
    commits: seq<Commit>)
    requires from <= |c.participants| == |inputs| == |commits|
    requires forall i | from <= i < |inputs| ::
               PlanCommit(c, c.participants[i], inputs[i], nowUi, targetUi, encodes) == Ok(commits[i])
    ensures PlanCommits(c, inputs, nowUi, targetUi, encodes, from) == Ok(commits[from..])
    decreases |inputs| - from
  {
    hide PlanCommit;
    if from < |inputs| {
      EachPlanned(c, inputs, nowUi, targetUi, encodes, from + 1, commits);
      assert commits[from..] == [commits[from]] + commits[from + 1..];
    }
  }

  /** The start is bound and leaves the coordinator in state `after`. */
  ghost predicate BoundTo(
    c: Coordinator, nowUi: u64, targetUi: u64, inputs: seq<StartInput>, encodes: Commit -> bool, after: Coordinator)
  {
    BindStart(c, nowUi, targetUi, inputs, encodes).1.Ok? && BindStart(c, nowUi, targetUi, inputs, encodes).0 == after
  }

  lemma BoundIsBindable(
    c: Coordinator, nowUi: u64, targetUi: u64, inputs: seq<StartInput>, encodes: Commit -> bool, after: Coordinator)
    requires BoundTo(c, nowUi, targetUi, inputs, encodes, after)
    ensures Bindable(c, nowUi, targetUi, inputs, encodes, after)
  {
    hide GlobalPhaseOf, PlanCommit, PlannedFor;
    var ordered := Ordering.Sort(InputKey, inputs);
    Ordering.SortSorts(InputKey, inputs);
    forall i | 0 <= i < |ordered|
      ensures PlannedFor(c, c.participants[i], ordered[i], nowUi, targetUi, after.participants[i].planned.value)
      ensures encodes(after.participants[i].planned.value)
    {
      PlanCommitIsExact(c, c.participants[i], ordered[i], nowUi, targetUi, encodes, after.participants[i].planned.value);
    }
    assert BoundFrom(c, nowUi, targetUi, ordered, encodes, after);
  }

  lemma BindableIsBound(
    c: Coordinator, nowUi: u64, targetUi: u64, inputs: seq<StartInput>, encodes: Commit -> bool, after: Coordinator)
    requires WellFormed(c) && GlobalPhaseOf(c) == GReady && c.target.None?
    requires Bindable(c, nowUi, targetUi, inputs, encodes, after)
    ensures BoundTo(c, nowUi, targetUi, inputs, encodes, after)
  {
    hide GlobalPhaseOf, PlanCommit, PlannedFor, WellFormed;
    var dealt :| multiset(dealt) == multiset(inputs) && BoundFrom(c, nowUi, targetUi, dealt, encodes, after);
    DealtIsSorted(c, nowUi, targetUi, inputs, encodes, after, dealt);
    var commits := seq(|dealt|, i requires 0 <= i < |dealt| => after.participants[i].planned.value);
    forall i | 0 <= i < |dealt|
      ensures PlanCommit(c, c.participants[i], dealt[i], nowUi, targetUi, encodes) == Ok(commits[i])
    {
      PlanCommitIsExact(c, c.participants[i], dealt[i], nowUi, targetUi, encodes, commits[i]);
    }
    EachPlanned(c, dealt, nowUi, targetUi, encodes, 0, commits);
    assert commits[0..] == commits;
    assert Planned(c.participants, commits) == after.participants;
  }

  lemma DealtIsSorted(
    c: Coordinator, nowUi: u64, targetUi: u64, inputs: seq<StartInput>, encodes: Commit -> bool, after: Coordinator,
    dealt: seq<StartInput>)
    requires WellFormed(c) && multiset(dealt) == multiset(inputs)
    requires BoundFrom(c, nowUi, targetUi, dealt, encodes, after)
    ensures Ordering.Sort(InputKey, inputs) == dealt && |inputs| == |dealt|
  {
    hide PlannedFor;
    forall i | 0 <= i < |dealt|
      ensures dealt[i].deviceId == c.participants[i].deviceId
    {
      PlannedNames(c, c.participants[i], dealt[i], nowUi, targetUi, after.participants[i].planned.value);
    }
    assert forall i, j | 0 <= i < j < |dealt| :: InputKey(dealt[i]) < InputKey(dealt[j]);
    Ordering.SortKeepsStrict(InputKey, dealt);
    Ordering.SortIgnoresOrder(InputKey, dealt, inputs);
    Ordering.SameLength(dealt, inputs);
  }

  /**
   * A start is bound exactly when the job is ready and unbound and the clocks can be dealt out to the participants so
   * that each has a commit of its own; the state afterwards holds those commits, the target and the install intent.
   */
  lemma BindStartIsExact(
    c: Coordinator, nowUi: u64, targetUi: u64, inputs: seq<StartInput>, encodes: Commit -> bool, after: Coordinator)
    requires WellFormed(c)
    ensures BoundTo(c, nowUi, targetUi, inputs, encodes, after) <==>
              GlobalPhaseOf(c) == GReady && c.target.None? && Bindable(c, nowUi, targetUi, inputs, encodes, after)
  {
    hide GlobalPhaseOf, PlanCommits, Bindable, WellFormed;
    if BoundTo(c, nowUi, targetUi, inputs, encodes, after) {
      BoundIsBindable(c, nowUi, targetUi, inputs, encodes, after);
    }
    if GlobalPhaseOf(c) == GReady && c.target.None? && Bindable(c, nowUi, targetUi, inputs, encodes, after) {
      BindableIsBound(c, nowUi, targetUi, inputs, encodes, after);
    }
  }

  /** The order in which the caller lists the participants never matters. */
  lemma BindStartIgnoresOrder(
    c: Coordinator, nowUi: u64, targetUi: u64, a: seq<StartInput>, b: seq<StartInput>, encodes: Commit -> bool)
    requires WellFormed(c) && multiset(a) == multiset(b)
    ensures BindStart(c, nowUi, targetUi, a, encodes).0 == BindStart(c, nowUi, targetUi, b, encodes).0
    ensures BindStart(c, nowUi, targetUi, a, encodes).1.Ok? == BindStart(c, nowUi, targetUi, b, encodes).1.Ok?
    ensures Ordering.DistinctBy(InputKey, a) ==>
              BindStart(c, nowUi, targetUi, a, encodes) == BindStart(c, nowUi, targetUi, b, encodes)
  {
    assert |a| == |multiset(a)| == |multiset(b)| == |b|;
    if BindStart(c, nowUi, targetUi, a, encodes).1.Ok? {
      BoundInputsAreDistinct(c, nowUi, targetUi, a, encodes);
    }
    if BindStart(c, nowUi, targetUi, b, encodes).1.Ok? {
      BoundInputsAreDistinct(c, nowUi, targetUi, b, encodes);
      Ordering.DistinctFromMultiset(InputKey, b, a);
    }
    if Ordering.DistinctBy(InputKey, a) {
      Ordering.SortIgnoresOrder(InputKey, a, b);
    }
  }

  lemma BoundInputsAreDistinct(c: Coordinator, nowUi: u64, targetUi: u64, a: seq<StartInput>, encodes: Commit -> bool)
    requires WellFormed(c) && BindStart(c, nowUi, targetUi, a, encodes).1.Ok?
    ensures Ordering.DistinctBy(InputKey, a)
  {
    var ordered := Ordering.Sort(InputKey, a);
    Ordering.SortSorts(InputKey, a);
    forall i | 0 <= i < |ordered|
      ensures InputKey(ordered[i]) == c.participants[i].deviceId
    {
      assert PlanCommit(c, c.participants[i], ordered[i], nowUi, targetUi, encodes).Ok?;
    }
    Ordering.DistinctFromMultiset(InputKey, ordered, a);
  }

  // ---- Deadlines --------------------------------------------------------------------------

  datatype DeadlineWindow = ConfirmationOpen | AbortOnly | NoReturn

  function CheckDeadline(pc: ParticipantCoordinator, input: StartInput, nowUi: u64): Result<DeadlineWindow, DistributedError> {
    if input.deviceId != pc.deviceId || input.clock.bootId != Some(pc.control.bootId) then Err(ParticipantSet)
    else if !ValidTiming(input.timing) then Err(Timing)
    else if input.clock.instant.None? then Err(ClockModel)
    else
      var e := input.clock.instant.value;
      if e.bootId != pc.control.bootId || e.uiNs != nowUi || e.uncertainty > input.timing.requiredSync then Err(ClockIdentity)
      else if pc.planned.None? then Err(BadState)
      else if e.latestCycle >= pc.planned.value.abortGuard then Ok(NoReturn)
      else if e.latestCycle >= pc.planned.value.confirmDeadline then Ok(AbortOnly)
      else Ok(ConfirmationOpen)
  }

  /** Participants are examined in order; the first one past its guard ends the examination. */
  function WindowFrom(ps: seq<ParticipantCoordinator>, inputs: seq<StartInput>, nowUi: u64, from: nat, open: bool)
    : Result<DeadlineWindow, DistributedError>
    requires from <= |ps| == |inputs|
    decreases |ps| - from
  {
    if from == |ps| then Ok(if open then ConfirmationOpen else AbortOnly)
    else
      match CheckDeadline(ps[from], inputs[from], nowUi)
      case Err(error) => Err(error)
      case Ok(window) =>
        if window == NoReturn then Ok(NoReturn)
        else WindowFrom(ps, inputs, nowUi, from + 1, open && window == ConfirmationOpen)
  }

  function DeadlineWindowOf(c: Coordinator, nowUi: u64, inputs: seq<StartInput>): Result<DeadlineWindow, DistributedError> {
    var ordered := Ordering.Sort(InputKey, inputs);
    if c.target.None? || |inputs| != |c.participants| || |ordered| != |inputs| then Err(BadState)
    else WindowFrom(c.participants, ordered, nowUi, 0, true)
  }

  function Severity(w: DeadlineWindow): nat {
    match w case ConfirmationOpen => 0 case AbortOnly => 1 case NoReturn => 2
  }

  /** `w` is the class of some participant and no participant's class is worse. */
  ghost predicate WorstOf(ps: seq<ParticipantCoordinator>, inputs: seq<StartInput>, nowUi: u64, from: nat, w: DeadlineWindow)
    requires |ps| == |inputs|
  {
    && (forall i | from <= i < |ps| ::
          CheckDeadline(ps[i], inputs[i], nowUi).Ok? && Severity(CheckDeadline(ps[i], inputs[i], nowUi).value) <= Severity(w))
    && (w == ConfirmationOpen || exists i | from <= i < |ps| :: CheckDeadline(ps[i], inputs[i], nowUi) == Ok(w))
  }

  lemma {:induction false} WindowIsWorst(
    ps: seq<ParticipantCoordinator>, inputs: seq<StartInput>, nowUi: u64, from: nat, open: bool)
    requires from <= |ps| == |inputs|
    requires forall i | from <= i < |ps| :: CheckDeadline(ps[i], inputs[i], nowUi).Ok?
    ensures var r := WindowFrom(ps, inputs, nowUi, from, open);
            && r.Ok?
            && (open ==> WorstOf(ps, inputs, nowUi, from, r.value))
            && (!open ==>
                  (&& r.value != ConfirmationOpen
                   && (r.value == AbortOnly || WorstOf(ps, inputs, nowUi, from, r.value))
                   && forall i | from <= i < |ps| ::
                        Severity(CheckDeadline(ps[i], inputs[i], nowUi).value) <= Severity(r.value)))
    decreases |ps| - from
  {
    if from < |ps| {
      var window := CheckDeadline(ps[from], inputs[from], nowUi).value;
      if window != NoReturn {
        WindowIsWorst(ps, inputs, nowUi, from + 1, open && window == ConfirmationOpen);
      }
    }
  }

  /** When every participant can be classified, the window is the worst of their classes. */
  lemma DeadlineWindowIsWorst(c: Coordinator, nowUi: u64, inputs: seq<StartInput>)
    requires c.target.Some? && |inputs| == |c.participants| == |Ordering.Sort(InputKey, inputs)|
    requires forall i | 0 <= i < |inputs| ::
               CheckDeadline(c.participants[i], Ordering.Sort(InputKey, inputs)[i], nowUi).Ok?
    ensures DeadlineWindowOf(c, nowUi, inputs).Ok?
    ensures WorstOf(c.participants, Ordering.Sort(InputKey, inputs), nowUi, 0, DeadlineWindowOf(c, nowUi, inputs).value)
  {
    WindowIsWorst(c.participants, Ordering.Sort(InputKey, inputs), nowUi, 0, true);
  }

  lemma {:induction false} OpenWindowIsOpenForAll(
    ps: seq<ParticipantCoordinator>, inputs: seq<StartInput>, nowUi: u64, from: nat, open: bool)
    requires from <= |ps| == |inputs|
    requires WindowFrom(ps, inputs, nowUi, from, open) == Ok(ConfirmationOpen)
    ensures open && forall i | from <= i < |ps| :: CheckDeadline(ps[i], inputs[i], nowUi) == Ok(ConfirmationOpen)
    decreases |ps| - from
  {
    if from < |ps| {
      var window := CheckDeadline(ps[from], inputs[from], nowUi).value;
      OpenWindowIsOpenForAll(ps, inputs, nowUi, from + 1, open && window == ConfirmationOpen);
    }
  }

  function BeginConfirmation(c: Coordinator, nowUi: u64, inputs: seq<StartInput>): (Coordinator, Result<(), DistributedError>) {
    if GlobalPhaseOf(c) != GInstalled then (c, Err(BadState))
    else
      match DeadlineWindowOf(c, nowUi, inputs)
      case Err(error) => (c, Err(error))
      case Ok(ConfirmationOpen) => (c.(intent := ConfirmIntent), Ok(()))
      case Ok(AbortOnly) => (c, Err(ConfirmationClosed))
      case Ok(NoReturn) => (c, Err(PointOfNoReturn))
  }

  /** The clock interval a device's estimator returned contains that device's true cycle count. */
  ghost predicate TrueWithin(input: StartInput, trueCycle: int) {
    input.clock.instant.Some? ==>
      input.clock.instant.value.earliestCycle <= trueCycle <= input.clock.instant.value.latestCycle
  }

  lemma GrantedConfirmationAt(c: Coordinator, nowUi: u64, inputs: seq<StartInput>, i: nat) returns (input: StartInput)
    requires BeginConfirmation(c, nowUi, inputs).1.Ok? && i < |c.participants|
    ensures Phase(c.participants[i].control) == ParticipantPhase.Installed
    ensures input in inputs && CheckDeadline(c.participants[i], input, nowUi) == Ok(ConfirmationOpen)
  {
    var ordered := Ordering.Sort(InputKey, inputs);
    OpenWindowIsOpenForAll(c.participants, ordered, nowUi, 0, true);
    Ordering.SortMember(InputKey, inputs, i);
    input := ordered[i];
  }

  /** If every interval contains the true cycle, a granted confirmation precedes every true deadline and guard. */
  lemma ConfirmationPrecedesEveryDeadline(c: Coordinator, nowUi: u64, inputs: seq<StartInput>, trueCycle: map<nat, int>)
    requires BeginConfirmation(c, nowUi, inputs).1.Ok?
    requires forall input <- inputs :: input.deviceId in trueCycle && TrueWithin(input, trueCycle[input.deviceId])
    ensures forall i | 0 <= i < |c.participants| ::
              && Phase(c.participants[i].control) == ParticipantPhase.Installed
              && c.participants[i].planned.Some?
              && c.participants[i].deviceId in trueCycle
              && trueCycle[c.participants[i].deviceId] < c.participants[i].planned.value.confirmDeadline
              && trueCycle[c.participants[i].deviceId] < c.participants[i].planned.value.abortGuard
  {
    forall i | 0 <= i < |c.participants|
      ensures Phase(c.participants[i].control) == ParticipantPhase.Installed
      ensures c.participants[i].planned.Some? && c.participants[i].deviceId in trueCycle
      ensures trueCycle[c.participants[i].deviceId] < c.participants[i].planned.value.confirmDeadline
      ensures trueCycle[c.participants[i].deviceId] < c.participants[i].planned.value.abortGuard
    {
      var input := GrantedConfirmationAt(c, nowUi, inputs, i);
    }
  }

  // ---- Replaying the observed start -------------------------------------------------------

  datatype StartEvidence = StartEvidence(
    deviceId: nat, observation: StartObservation, earliestUi: u64, midpointUi: u64, latestUi: u64, targetError: u64)

  datatype StartReplay = StartReplay(
    targetUi: u64, earliestUi: u64, latestUi: u64, edgeSpread: u64, targetError: u64, participants: seq<StartEvidence>)

  function AbsDiff(a: u64, b: u64): u64 { if a < b then b - a else a - b }

  function Max(a: u64, b: u64): u64 { if a < b then b else a }

  function Min(a: u64, b: u64): u64 { if a < b then a else b }

  function ReplayOne(pc: ParticipantCoordinator, input: StartInput, targetUi: u64): Result<StartEvidence, DistributedError> {
    if input.deviceId != pc.deviceId || input.clock.bootId != Some(pc.control.bootId) then Err(ParticipantSet)
    else if pc.planned.None? then Err(BadState)
    else if pc.control.report.None? || pc.control.report.value.schedule.None?
         || pc.control.report.value.schedule.value.startObservation.None? then Err(StartObservationUnavailable)
    else
      var seen := pc.control.report.value.schedule.value.startObservation.value;
      if seen.scheduledCycle != pc.planned.value.localStart then Err(StartObservationIdentity)
      else if input.clock.startInterval.None? then Err(ClockModel)
      else
        var e := input.clock.startInterval.value;
        if e.bootId != pc.control.bootId then Err(StartObservationIdentity)
        else
          Ok(StartEvidence(pc.deviceId, seen, e.earliestUi, e.midpointUi, e.latestUi,
                           Max(AbsDiff(e.earliestUi, targetUi), AbsDiff(e.latestUi, targetUi))))
  }

  function ReplayAll(ps: seq<ParticipantCoordinator>, inputs: seq<StartInput>, targetUi: u64, from: nat)
    : (r: Result<seq<StartEvidence>, DistributedError>)
    requires from <= |ps| == |inputs|
    ensures r.Ok? ==> |r.value| == |ps| - from
    ensures r.Ok? ==> forall i | from <= i < |ps| :: ReplayOne(ps[i], inputs[i], targetUi) == Ok(r.value[i - from])
    decreases |ps| - from
  {
    if from == |ps| then Ok([])
    else
      match ReplayOne(ps[from], inputs[from], targetUi)
      case Err(error) => Err(error)
      case Ok(one) =>
        match ReplayAll(ps, inputs, targetUi, from + 1)
        case Err(error) => Err(error)
        case Ok(rest) => Ok([one] + rest)
  }

  function EarliestOf(es: seq<StartEvidence>): (r: u64)
    requires es != []
    ensures forall e <- es :: r <= e.earliestUi
    ensures exists e <- es :: r == e.earliestUi
  {
    if |es| == 1 then es[0].earliestUi else
      assert es == es[..|es|-1] + [es[|es|-1]];
      Min(EarliestOf(es[..|es|-1]), es[|es|-1].earliestUi)
  }

  function LatestOf(es: seq<StartEvidence>): (r: u64)
    requires es != []
    ensures forall e <- es :: e.latestUi <= r
    ensures exists e <- es :: r == e.latestUi
  {
    if |es| == 1 then es[0].latestUi else
      assert es == es[..|es|-1] + [es[|es|-1]];
      Max(LatestOf(es[..|es|-1]), es[|es|-1].latestUi)
  }

  function WorstErrorOf(es: seq<StartEvidence>): (r: u64)
    requires es != []
    ensures forall e <- es :: e.targetError <= r
    ensures exists e <- es :: r == e.targetError
  {
    if |es| == 1 then es[0].targetError else
      assert es == es[..|es|-1] + [es[|es|-1]];
      Max(WorstErrorOf(es[..|es|-1]), es[|es|-1].targetError)
  }

  function Summary(targetUi: u64, es: seq<StartEvidence>): StartReplay
    requires es != [] && es[0].earliestUi <= es[0].latestUi
  {
    assert es[0] in es;
    var earliest := EarliestOf(es);
    var latest := LatestOf(es);
    StartReplay(targetUi, earliest, latest, latest - earliest, WorstErrorOf(es), es)
  }

  /** Reads the observed start of every participant back into browser time; changes nothing. */
  function ReconcileStart(c: Coordinator, inputs: seq<StartInput>): Result<StartReplay, DistributedError> {
    var ordered := Ordering.Sort(InputKey, inputs);
    if c.target.None? then Err(BadState)
    else if |inputs| != |c.participants| || c.participants == [] || |ordered| != |inputs| then Err(ParticipantSet)
    else
      match ReplayAll(c.participants, ordered, c.target.value, 0)
      case Err(error) => Err(error)
      case Ok(es) =>
        assert ReplayOne(c.participants[0], ordered[0], c.target.value) == Ok(es[0]);
        Ok(Summary(c.target.value, es))
  }

  /** A true start in nanoseconds for every participant, each inside its mapped interval. */
  ghost predicate Starts(es: seq<StartEvidence>, starts: seq<int>) {
    |starts| == |es| && forall i | 0 <= i < |es| :: es[i].earliestUi <= starts[i] <= es[i].latestUi
  }

  lemma ReplayEvidenceAt(c: Coordinator, inputs: seq<StartInput>, i: nat)
    requires ReconcileStart(c, inputs).Ok?
    requires i < |ReconcileStart(c, inputs).value.participants|
    ensures var r := ReconcileStart(c, inputs).value;
            var e := r.participants[i];
            && r.earliestUi <= e.earliestUi && e.latestUi <= r.latestUi
            && e.targetError <= r.targetError
            && e.targetError == Max(AbsDiff(e.earliestUi, r.targetUi), AbsDiff(e.latestUi, r.targetUi))
  {
    var es := ReconcileStart(c, inputs).value.participants;
    var ordered := Ordering.Sort(InputKey, inputs);
    assert es[i] in es;
    assert ReplayOne(c.participants[i], ordered[i], c.target.value) == Ok(es[i]);
  }

  /** The reported spread and target error bound every possible set of true starts. */
  lemma ReplayBoundsEveryStart(c: Coordinator, inputs: seq<StartInput>, starts: seq<int>)
    requires ReconcileStart(c, inputs).Ok?
    requires Starts(ReconcileStart(c, inputs).value.participants, starts)
    ensures var r := ReconcileStart(c, inputs).value;
            && (forall i, j | 0 <= i < |starts| && 0 <= j < |starts| :: starts[i] - starts[j] <= r.edgeSpread)
            && (forall i | 0 <= i < |starts| :: -(r.targetError as int) <= starts[i] - r.targetUi <= r.targetError)
  {
    var r := ReconcileStart(c, inputs).value;
    forall i | 0 <= i < |starts|
      ensures r.earliestUi <= starts[i] <= r.latestUi
      ensures -(r.targetError as int) <= starts[i] - r.targetUi <= r.targetError
    {
      ReplayEvidenceAt(c, inputs, i);
    }
  }

  /** The order in which the caller lists the clocks never changes the replay. */
  lemma ReplayIgnoresOrder(c: Coordinator, a: seq<StartInput>, b: seq<StartInput>)
    requires multiset(a) == multiset(b) && Ordering.DistinctBy(InputKey, a)
    ensures ReconcileStart(c, a) == ReconcileStart(c, b)
  {
    assert |a| == |multiset(a)| == |multiset(b)| == |b|;
    Ordering.SortIgnoresOrder(InputKey, a, b);
  }

  /** Both bounds are attained by interval endpoints, so neither can be tightened. */
  lemma ReplayBoundsAreAttained(c: Coordinator, inputs: seq<StartInput>)
    requires ReconcileStart(c, inputs).Ok?
    ensures var r := ReconcileStart(c, inputs).value;
            && (exists late <- r.participants, early <- r.participants ::
                  && late.latestUi == r.latestUi && early.earliestUi == r.earliestUi
                  && late.latestUi - early.earliestUi == r.edgeSpread)
            && (exists e <- r.participants ::
                  r.targetError == AbsDiff(e.earliestUi, r.targetUi) || r.targetError == AbsDiff(e.latestUi, r.targetUi))
  {
    var r := ReconcileStart(c, inputs).value;
    var es := r.participants;
    var late :| late in es && r.latestUi == late.latestUi;
    var early :| early in es && r.earliestUi == early.earliestUi;
    var e :| e in es && r.targetError == e.targetError;
    var k :| 0 <= k < |es| && es[k] == e;
    ReplayEvidenceAt(c, inputs, k);
    assert late.latestUi == r.latestUi && early.earliestUi == r.earliestUi;
    assert late.latestUi - early.earliestUi == r.edgeSpread;
    assert r.targetError == AbsDiff(e.earliestUi, r.targetUi) || r.targetError == AbsDiff(e.latestUi, r.targetUi);
  }
}
