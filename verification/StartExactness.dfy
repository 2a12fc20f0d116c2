/** Exactly when a confirmation is granted, an aged window closes, and an observed start is accepted as evidence. */
module StartExactness {
  import opened Wrappers
  import opened ParticipantSchedule
  import opened CoordinatorModel
  import opened StartTiming
  import Ordering

  // ---- Refused for a short lease ----------------------------------------------------------

  /** The clock maps the epoch and every cycle of the commit fits and lies ahead, whatever the lease is worth. */
  ghost predicate Timely(pc: ParticipantCoordinator, input: StartInput, nowUi: u64, targetUi: u64) {
    && Mapped(pc, input, nowUi, targetUi) && ValidTiming(input.timing)
    && input.clock.prediction.value.nowLatestCycle + input.timing.confirmationLead < input.clock.prediction.value.scheduledCycle
    && input.clock.prediction.value.scheduledCycle + input.timing.leaseCycles <= U64_MAXIMUM
  }

  /** A lease is called too short exactly when an autonomous job outlasts it, and the error names the least that would do. */
  lemma ShortLeaseIsExact(
    c: Coordinator, pc: ParticipantCoordinator, input: StartInput, nowUi: u64, targetUi: u64, encodes: Commit -> bool,
    supplied: nat, required: nat)
    ensures PlanCommit(c, pc, input, nowUi, targetUi, encodes) == Err(LeaseTooShort(supplied, required)) <==>
              && Timely(pc, input, nowUi, targetUi) && c.policy == CachedAutonomous && c.timebaseHz != 0
              && supplied == input.timing.leaseCycles < required <= U64_MAXIMUM
              && LeastCover(c.durationTicks, input.clock.frequencyHz.value, c.timebaseHz, required)
  {
    hide CeilProductRatio;
    if input.clock.frequencyHz.Some? {
      var hz := input.clock.frequencyHz.value;
      CeilProductRatioIsExact(c.durationTicks, hz, c.timebaseHz);
      var least := CeilProductRatio(c.durationTicks, hz, c.timebaseHz);
      if c.timebaseHz != 0 && required <= U64_MAXIMUM && LeastCover(c.durationTicks, hz, c.timebaseHz, required) {
        assert required * c.timebaseHz >= c.durationTicks * hz;
        LeastIsUnique(c.durationTicks * hz, c.timebaseHz, required, least.value);
        LeastIsUnique(c.durationTicks * hz, c.timebaseHz, least.value, required);
      }
    }
  }

  // ---- Deadlines --------------------------------------------------------------------------

  /** The clock reads this instant for the participant's boot within the tolerance, and a commit is planned. */
  ghost predicate Placed(pc: ParticipantCoordinator, input: StartInput, nowUi: u64) {
    && input.deviceId == pc.deviceId
    && input.clock.bootId == Some(pc.control.bootId)
    && ValidTiming(input.timing)
    && input.clock.instant.Some?
    && input.clock.instant.value.bootId == pc.control.bootId
    && input.clock.instant.value.uiNs == nowUi
    && input.clock.instant.value.uncertainty <= input.timing.requiredSync
    && pc.planned.Some?
  }

  /** A cycle the device may already have reached. */
  ghost predicate MayBeAt(input: StartInput, cycle: nat)
    requires input.clock.instant.Some?
  {
    cycle <= input.clock.instant.value.latestCycle
  }

  ghost predicate MayHavePassed(input: StartInput, limit: u64)
    requires input.clock.instant.Some?
  {
    exists cycle: nat :: MayBeAt(input, cycle) && limit <= cycle
  }

  /** Past the guard: no return. Before both: open. Otherwise only an abort is left. */
  ghost predicate InWindow(pc: ParticipantCoordinator, input: StartInput, nowUi: u64, w: DeadlineWindow) {
    && Placed(pc, input, nowUi)
    && var (guard, deadline) := (pc.planned.value.abortGuard, pc.planned.value.confirmDeadline);
       match w
       case NoReturn => MayHavePassed(input, guard)
       case AbortOnly => !MayHavePassed(input, guard) && MayHavePassed(input, deadline)
       case ConfirmationOpen => !MayHavePassed(input, guard) && !MayHavePassed(input, deadline)
  }

  lemma PassedIsLatest(input: StartInput, limit: u64)
    requires input.clock.instant.Some?
    ensures MayHavePassed(input, limit) <==> limit <= input.clock.instant.value.latestCycle
  {
    if limit <= input.clock.instant.value.latestCycle {
      assert MayBeAt(input, limit);
    }
  }

  lemma DeadlineClassIsExact(pc: ParticipantCoordinator, input: StartInput, nowUi: u64, w: DeadlineWindow)
    ensures CheckDeadline(pc, input, nowUi) == Ok(w) <==> InWindow(pc, input, nowUi, w)
  {
    hide MayHavePassed;
    if input.clock.instant.Some? && pc.planned.Some? {
      PassedIsLatest(input, pc.planned.value.abortGuard);
      PassedIsLatest(input, pc.planned.value.confirmDeadline);
    }
  }

  ghost predicate AllInWindow(
    ps: seq<ParticipantCoordinator>, inputs: seq<StartInput>, nowUi: u64, from: nat, to: nat, ws: set<DeadlineWindow>)
    requires to <= |ps| == |inputs|
  {
    forall i | from <= i < to :: exists w <- ws :: InWindow(ps[i], inputs[i], nowUi, w)
  }

  /** Participant `k` is past its guard and everyone examined before it is not. */
  ghost predicate FirstPast(ps: seq<ParticipantCoordinator>, inputs: seq<StartInput>, nowUi: u64, from: nat, k: nat)
    requires |ps| == |inputs|
  {
    && from <= k < |ps| && InWindow(ps[k], inputs[k], nowUi, NoReturn)
    && AllInWindow(ps, inputs, nowUi, from, k, {ConfirmationOpen, AbortOnly})
  }

  /** Open when everybody is, no return as soon as somebody is met past the guard, abort only in between. */
  lemma {:induction false} WindowIsExact(
    ps: seq<ParticipantCoordinator>, inputs: seq<StartInput>, nowUi: u64, from: nat, open: bool)
    requires from <= |ps| == |inputs|
    ensures WindowFrom(ps, inputs, nowUi, from, open) == Ok(ConfirmationOpen) <==>
              open && AllInWindow(ps, inputs, nowUi, from, |ps|, {ConfirmationOpen})
    ensures WindowFrom(ps, inputs, nowUi, from, open) == Ok(NoReturn) <==>
              exists k :: FirstPast(ps, inputs, nowUi, from, k)
    ensures WindowFrom(ps, inputs, nowUi, from, open).Ok? <==>
              || AllInWindow(ps, inputs, nowUi, from, |ps|, {ConfirmationOpen, AbortOnly})
              || exists k :: FirstPast(ps, inputs, nowUi, from, k)
    decreases |ps| - from
  {
    hide CheckDeadline, InWindow;
    if from < |ps| {
      var checked := CheckDeadline(ps[from], inputs[from], nowUi);
      DeadlineClassIsExact(ps[from], inputs[from], nowUi, ConfirmationOpen);
      DeadlineClassIsExact(ps[from], inputs[from], nowUi, AbortOnly);
      DeadlineClassIsExact(ps[from], inputs[from], nowUi, NoReturn);
      var next := from + 1;
      WindowIsExact(ps, inputs, nowUi, next, open && checked == Ok(ConfirmationOpen));
      if k: nat :| FirstPast(ps, inputs, nowUi, next, k) {
        if checked.Ok? && checked.value != NoReturn {
          assert FirstPast(ps, inputs, nowUi, from, k);
        }
      }
      if k: nat :| FirstPast(ps, inputs, nowUi, from, k) {
        if k > from {
          assert FirstPast(ps, inputs, nowUi, next, k);
        }
      }
      if checked == Ok(NoReturn) {
        assert FirstPast(ps, inputs, nowUi, from, from);
      }
    }
  }

  /** Participant by participant, `ordered` lists the caller's clocks. */
  ghost predicate Deals(c: Coordinator, inputs: seq<StartInput>, ordered: seq<StartInput>) {
    && multiset(ordered) == multiset(inputs) && |ordered| == |c.participants|
    && forall i | 0 <= i < |ordered| :: ordered[i].deviceId == c.participants[i].deviceId
  }

  lemma DealIsSorted(c: Coordinator, inputs: seq<StartInput>, ordered: seq<StartInput>)
    requires WellFormed(c) && Deals(c, inputs, ordered)
    ensures Ordering.Sort(InputKey, inputs) == ordered && |inputs| == |ordered|
  {
    assert forall i, j | 0 <= i < j < |ordered| :: InputKey(ordered[i]) < InputKey(ordered[j]);
    Ordering.SortKeepsStrict(InputKey, ordered);
    Ordering.SortIgnoresOrder(InputKey, ordered, inputs);
    Ordering.SameLength(ordered, inputs);
  }

  ghost predicate EveryoneOpen(c: Coordinator, nowUi: u64, inputs: seq<StartInput>) {
    exists ordered ::
      Deals(c, inputs, ordered) && AllInWindow(c.participants, ordered, nowUi, 0, |c.participants|, {ConfirmationOpen})
  }

  lemma OpenMeansEveryone(c: Coordinator, nowUi: u64, inputs: seq<StartInput>)
    requires WellFormed(c)
    ensures DeadlineWindowOf(c, nowUi, inputs) == Ok(ConfirmationOpen) <==> c.target.Some? && EveryoneOpen(c, nowUi, inputs)
  {
    hide WindowFrom, InWindow, WellFormed;
    var ordered := Ordering.Sort(InputKey, inputs);
    Ordering.SortSorts(InputKey, inputs);
    if c.target.Some? && |inputs| == |c.participants| == |ordered| {
      WindowIsExact(c.participants, ordered, nowUi, 0, true);
      if DeadlineWindowOf(c, nowUi, inputs) == Ok(ConfirmationOpen) {
        forall i | 0 <= i < |ordered|
          ensures ordered[i].deviceId == c.participants[i].deviceId
        {
          WindowNames(c.participants[i], ordered[i], nowUi);
        }
        assert Deals(c, inputs, ordered);
      }
    }
    if c.target.Some? && EveryoneOpen(c, nowUi, inputs) {
      var dealt :|
        Deals(c, inputs, dealt) && AllInWindow(c.participants, dealt, nowUi, 0, |c.participants|, {ConfirmationOpen});
      DealIsSorted(c, inputs, dealt);
    }
  }

  lemma WindowNames(pc: ParticipantCoordinator, input: StartInput, nowUi: u64)
    ensures InWindow(pc, input, nowUi, ConfirmationOpen) ==> input.deviceId == pc.deviceId
  {
  }

  /**
   * A confirmation is granted exactly when everyone is shown Installed, an epoch is bound, and no device may have
   * reached its deadline or its guard; it changes the intent and nothing else, and a refusal changes nothing.
   */
  lemma ConfirmationIsExact(c: Coordinator, nowUi: u64, inputs: seq<StartInput>)
    requires WellFormed(c)
    ensures BeginConfirmation(c, nowUi, inputs).1.Ok? <==>
              GlobalPhaseOf(c) == GInstalled && c.target.Some? && EveryoneOpen(c, nowUi, inputs)
    ensures BeginConfirmation(c, nowUi, inputs).0 ==
            if BeginConfirmation(c, nowUi, inputs).1.Ok? then c.(intent := ConfirmIntent) else c
  {
    hide GlobalPhaseOf, WindowFrom, EveryoneOpen, WellFormed;
    OpenMeansEveryone(c, nowUi, inputs);
  }

  // ---- Observed starts --------------------------------------------------------------------

  /** The clock reads the retained observation of the planned start back into browser time, for the same boot. */
  ghost predicate Observed(pc: ParticipantCoordinator, input: StartInput, targetUi: u64, e: StartEvidence) {
    && input.deviceId == pc.deviceId == e.deviceId
    && input.clock.bootId == Some(pc.control.bootId)
    && pc.planned.Some?
    && pc.control.report.Some? && pc.control.report.value.schedule.Some?
    && pc.control.report.value.schedule.value.startObservation == Some(e.observation)
    && e.observation.scheduledCycle == pc.planned.value.localStart
    && input.clock.startInterval.Some?
    && input.clock.startInterval.value == UiBounds(pc.control.bootId, e.earliestUi, e.midpointUi, e.latestUi)
    && (forall ui: u64 | e.earliestUi <= ui <= e.latestUi :: AbsDiff(ui, targetUi) <= e.targetError)
    && e.targetError in {AbsDiff(e.earliestUi, targetUi), AbsDiff(e.latestUi, targetUi)}
  }

  lemma EvidenceIsExact(pc: ParticipantCoordinator, input: StartInput, targetUi: u64, e: StartEvidence)
    ensures ReplayOne(pc, input, targetUi) == Ok(e) <==> Observed(pc, input, targetUi, e)
  {
    if input.clock.startInterval.Some? && e.earliestUi <= e.latestUi {
      assert e.earliestUi <= e.earliestUi <= e.latestUi && e.earliestUi <= e.latestUi <= e.latestUi;
    }
  }

  ghost predicate AllObserved(
    ps: seq<ParticipantCoordinator>, inputs: seq<StartInput>, targetUi: u64, from: nat, es: seq<StartEvidence>)
    requires from <= |ps| == |inputs|
  {
    && |es| == |ps|
    && forall i | from <= i < |ps| :: Observed(ps[i], inputs[i], targetUi, es[i])
  }

  lemma {:induction false} AllEvidence(
    ps: seq<ParticipantCoordinator>, inputs: seq<StartInput>, targetUi: u64, from: nat, es: seq<StartEvidence>)
    requires from <= |ps| == |inputs| && AllObserved(ps, inputs, targetUi, from, es)
    ensures ReplayAll(ps, inputs, targetUi, from) == Ok(es[from..])
    decreases |ps| - from
  {
    hide ReplayOne, Observed;
    if from < |ps| {
      AllEvidence(ps, inputs, targetUi, from + 1, es);
      EvidenceIsExact(ps[from], inputs[from], targetUi, es[from]);
      assert es[from..] == [es[from]] + es[from + 1..];
    } else {
      assert es[from..] == [];
    }
  }

  ghost predicate ObservedBy(c: Coordinator, inputs: seq<StartInput>, es: seq<StartEvidence>)
    requires c.target.Some?
  {
    exists ordered :: Deals(c, inputs, ordered) && AllObserved(c.participants, ordered, c.target.value, 0, es)
  }

  /** A replay succeeds exactly when every participant's own clock reads its observed start back; it lists them all. */
  lemma ReplayIsExact(c: Coordinator, inputs: seq<StartInput>, es: seq<StartEvidence>)
    requires WellFormed(c)
    ensures ReconcileStart(c, inputs).Ok? && ReconcileStart(c, inputs).value.participants == es <==>
              c.target.Some? && ObservedBy(c, inputs, es)
    ensures ReconcileStart(c, inputs).Ok? ==> Some(ReconcileStart(c, inputs).value.targetUi) == c.target
  {
    hide ReplayOne, Observed;
    var ordered := Ordering.Sort(InputKey, inputs);
    Ordering.SortSorts(InputKey, inputs);
    if ReconcileStart(c, inputs).Ok? && ReconcileStart(c, inputs).value.participants == es {
      forall i | 0 <= i < |c.participants|
        ensures Observed(c.participants[i], ordered[i], c.target.value, es[i])
        ensures ordered[i].deviceId == c.participants[i].deviceId
      {
        assert ReplayOne(c.participants[i], ordered[i], c.target.value) == Ok(es[i - 0]);
        EvidenceIsExact(c.participants[i], ordered[i], c.target.value, es[i]);
        EvidenceNames(c.participants[i], ordered[i], c.target.value, es[i]);
      }
      assert Deals(c, inputs, ordered);
      assert AllObserved(c.participants, ordered, c.target.value, 0, es);
    }
    if c.target.Some? && ObservedBy(c, inputs, es) {
      var dealt :| Deals(c, inputs, dealt) && AllObserved(c.participants, dealt, c.target.value, 0, es);
      DealIsSorted(c, inputs, dealt);
      AllEvidence(c.participants, dealt, c.target.value, 0, es);
      assert es[0..] == es;
    }
  }

  lemma EvidenceNames(pc: ParticipantCoordinator, input: StartInput, targetUi: u64, e: StartEvidence)
    requires Observed(pc, input, targetUi, e)
    ensures input.deviceId == pc.deviceId
  {
  }
}
