/** Exactly when the coordinator is in each global phase, and what a phase means for what is asked next. */
module CoordinatorPhases {
  import opened Wrappers
  import opened ParticipantSchedule
  import opened CoordinatorModel
  import opened LiveJobModel

  const FAILED := {ParticipantPhase.Aborted, Cancelled, ParticipantPhase.Expired, ParticipantPhase.Faulted}
  const PASSED := {ParticipantPhase.Priming, ParticipantPhase.Primed, ParticipantPhase.Running, ParticipantPhase.Complete}

  ghost predicate Somebody(c: Coordinator, phases: set<ParticipantPhase>) {
    exists i | 0 <= i < |c.participants| :: Phase(c.participants[i].control) in phases
  }

  ghost predicate Everybody(c: Coordinator, phases: set<ParticipantPhase>) {
    forall i | 0 <= i < |c.participants| :: Phase(c.participants[i].control) in phases
  }

  ghost predicate AllReported(c: Coordinator) {
    forall i | 0 <= i < |c.participants| :: c.participants[i].control.report.Some?
  }

  /** Everybody's phase is in the one set under a bound commit and in the other without. */
  ghost predicate Ended(c: Coordinator, bound: set<ParticipantPhase>, unbound: set<ParticipantPhase>) {
    forall i | 0 <= i < |c.participants| ::
      Phase(c.participants[i].control) in if c.participants[i].control.commit.Some? then bound else unbound
  }

  ghost predicate Cleaned(c: Coordinator) {
    && c.faultCleanup
    && Ended(c, {ParticipantPhase.Aborted, ParticipantPhase.Expired, ParticipantPhase.Complete, ParticipantPhase.Faulted},
                {Empty, Cancelled, ParticipantPhase.Faulted})
  }

  // ---- The phase of a set of participants -------------------------------------------------

  /** The source's searches over the participants, in terms of sets of phases. */
  lemma Searches(c: Coordinator, phase: ParticipantPhase)
    ensures All(c.participants, phase) <==> Everybody(c, {phase})
    ensures AnyTerminalFailure(c.participants) <==> Somebody(c, FAILED)
    ensures AnyPostGuard(c.participants) <==> Somebody(c, PASSED)
    ensures AnyUnreported(c.participants) <==> !AllReported(c)
    ensures AllAbsentOrCancelled(c.participants) <==> Everybody(c, {Empty, Cancelled})
    ensures c.faultCleanup && AllCleaned(c.participants) <==> Cleaned(c)
  {
    hide Phase;
    if Somebody(c, FAILED) {
      var i :| 0 <= i < |c.participants| && Phase(c.participants[i].control) in FAILED;
      assert TerminalFailure(Phase(c.participants[i].control));
    }
    if Somebody(c, PASSED) {
      var i :| 0 <= i < |c.participants| && Phase(c.participants[i].control) in PASSED;
      assert PostGuard(Phase(c.participants[i].control));
    }
    CleanedByOne(c);
  }

  lemma CleanedByOne(c: Coordinator)
    ensures c.faultCleanup && AllCleaned(c.participants) <==> Cleaned(c)
  {
    hide Phase;
    if Cleaned(c) {
      forall i | 0 <= i < |c.participants|
        ensures TerminalAfterFaultCleanup(c.participants[i])
      {
      }
    }
    if c.faultCleanup && AllCleaned(c.participants) {
      forall i | 0 <= i < |c.participants|
        ensures Phase(c.participants[i].control) in
                  if c.participants[i].control.commit.Some?
                  then {ParticipantPhase.Aborted, ParticipantPhase.Expired, ParticipantPhase.Complete,
                        ParticipantPhase.Faulted}
                  else {Empty, Cancelled, ParticipantPhase.Faulted}
      {
        assert TerminalAfterFaultCleanup(c.participants[i]);
      }
    }
  }

  lemma Apart(c: Coordinator, a: set<ParticipantPhase>, b: set<ParticipantPhase>)
    requires c.participants != [] && a !! b
    ensures !(Everybody(c, a) && Everybody(c, b)) && !(Everybody(c, a) && Somebody(c, b))
  {
    hide Phase;
    var first := Phase(c.participants[0].control);
  }

  lemma ReportedPhase(p: Participant)
    ensures p.report.None? ==> Phase(p) == Empty
  {
  }

  lemma KnownIsReported(c: Coordinator, phases: set<ParticipantPhase>)
    requires Empty !in phases
    ensures Everybody(c, phases) ==> AllReported(c)
  {
    hide Phase;
    forall i | 0 <= i < |c.participants| && Everybody(c, phases)
      ensures c.participants[i].control.report.Some?
    {
      ReportedPhase(c.participants[i].control);
    }
  }

  /**
   * While preparing, nothing is decided before everybody reported; then a participant that failed, or that runs
   * although it was never told to, faults the job.
   */
  lemma PreparePhases(c: Coordinator)
    requires c.participants != [] && c.intent == PrepareIntent
    ensures GlobalPhaseOf(c) == GComplete <==> Everybody(c, {ParticipantPhase.Complete})
    ensures GlobalPhaseOf(c) == GReady <==> Everybody(c, {Ready})
    ensures GlobalPhaseOf(c) == GFaulted <==>
              AllReported(c) && Somebody(c, FAILED + PASSED) && !Everybody(c, {ParticipantPhase.Complete})
    ensures GlobalPhaseOf(c) == GPreparing <==>
              !AllReported(c) || (!Everybody(c, {Ready}) && !Somebody(c, FAILED + PASSED))
  {
    hide Everybody, Somebody, AllReported, Phase, Cleaned;
    Searches(c, ParticipantPhase.Complete);
    Searches(c, Ready);
    Apart(c, {ParticipantPhase.Complete}, {Ready});
    Apart(c, {Ready}, FAILED + PASSED);
    KnownIsReported(c, {ParticipantPhase.Complete});
    KnownIsReported(c, {Ready});
    EitherSet(c, FAILED, PASSED);
    CompleteHasPassed(c);
  }

  lemma EitherSet(c: Coordinator, a: set<ParticipantPhase>, b: set<ParticipantPhase>)
    ensures Somebody(c, a + b) <==> Somebody(c, a) || Somebody(c, b)
  {
    hide Phase;
    if Somebody(c, a) {
      var i :| 0 <= i < |c.participants| && Phase(c.participants[i].control) in a;
      assert Phase(c.participants[i].control) in a + b;
    }
    if Somebody(c, b) {
      var i :| 0 <= i < |c.participants| && Phase(c.participants[i].control) in b;
      assert Phase(c.participants[i].control) in a + b;
    }
  }

  lemma CompleteHasPassed(c: Coordinator)
    requires c.participants != []
    ensures Everybody(c, {ParticipantPhase.Complete}) ==> Somebody(c, PASSED)
  {
    hide Phase;
    if Everybody(c, {ParticipantPhase.Complete}) {
      assert Phase(c.participants[0].control) in PASSED;
    }
  }

  /** While installing, one failure faults the job even though another participant is past its guard. */
  lemma InstallPhases(c: Coordinator)
    requires c.participants != [] && c.intent == InstallIntent
    ensures GlobalPhaseOf(c) == GComplete <==> Everybody(c, {ParticipantPhase.Complete})
    ensures GlobalPhaseOf(c) == GInstalled <==> Everybody(c, {ParticipantPhase.Installed})
    ensures GlobalPhaseOf(c) == GFaulted <==> Somebody(c, FAILED)
    ensures GlobalPhaseOf(c) == GIrrevocable <==>
              Somebody(c, PASSED) && !Somebody(c, FAILED) && !Everybody(c, {ParticipantPhase.Complete})
    ensures GlobalPhaseOf(c) == GInstalling <==>
              !Everybody(c, {ParticipantPhase.Installed}) && !Somebody(c, FAILED) && !Somebody(c, PASSED)
  {
    hide Everybody, Somebody, AllReported, Phase, Cleaned;
    Searches(c, ParticipantPhase.Complete);
    Searches(c, ParticipantPhase.Installed);
    Apart(c, {ParticipantPhase.Complete}, {ParticipantPhase.Installed});
    Apart(c, {ParticipantPhase.Complete}, FAILED);
    Apart(c, {ParticipantPhase.Installed}, FAILED);
    Apart(c, {ParticipantPhase.Installed}, PASSED);
    CompleteHasPassed(c);
  }

  /** While confirming, one participant past its guard makes the job irrevocable even though another failed. */
  lemma ConfirmPhases(c: Coordinator)
    requires c.participants != [] && c.intent == ConfirmIntent
    ensures GlobalPhaseOf(c) == GComplete <==> Everybody(c, {ParticipantPhase.Complete})
    ensures GlobalPhaseOf(c) == GConfirmed <==> Everybody(c, {ParticipantPhase.Confirmed})
    ensures GlobalPhaseOf(c) == GIrrevocable <==> Somebody(c, PASSED) && !Everybody(c, {ParticipantPhase.Complete})
    ensures GlobalPhaseOf(c) == GFaulted <==> Somebody(c, FAILED) && !Somebody(c, PASSED)
    ensures GlobalPhaseOf(c) == GConfirming <==>
              !Everybody(c, {ParticipantPhase.Confirmed}) && !Somebody(c, FAILED) && !Somebody(c, PASSED)
  {
    hide Everybody, Somebody, AllReported, Phase, Cleaned;
    Searches(c, ParticipantPhase.Complete);
    Searches(c, ParticipantPhase.Confirmed);
    Apart(c, {ParticipantPhase.Complete}, {ParticipantPhase.Confirmed});
    Apart(c, {ParticipantPhase.Complete}, FAILED);
    Apart(c, {ParticipantPhase.Confirmed}, FAILED);
    Apart(c, {ParticipantPhase.Confirmed}, PASSED);
    CompleteHasPassed(c);
  }

  ghost predicate Safe(c: Coordinator) {
    Ended(c, {ParticipantPhase.Aborted, ParticipantPhase.Expired, ParticipantPhase.Faulted}, {Empty, Cancelled})
  }

  ghost predicate Split(c: Coordinator) {
    && Everybody(c, {ParticipantPhase.Aborted, ParticipantPhase.Expired, ParticipantPhase.Complete})
    && Somebody(c, {ParticipantPhase.Aborted, ParticipantPhase.Expired})
    && Somebody(c, {ParticipantPhase.Complete})
  }

  lemma AbortSearches(c: Coordinator)
    requires c.participants != []
    ensures AllSafe(c.participants) <==> Safe(c)
    ensures SplitIsTerminal(c.participants) <==> Split(c)
    ensures Safe(c) && c.faultCleanup ==> Cleaned(c)
    ensures !(Safe(c) && Somebody(c, PASSED))
    ensures Split(c) ==> Somebody(c, PASSED)
  {
    hide Phase;
    if Safe(c) {
      forall i | 0 <= i < |c.participants|
        ensures SafeAfterAbort(c.participants[i])
        ensures Phase(c.participants[i].control) !in PASSED
      {
      }
    }
    if AllSafe(c.participants) {
      forall i | 0 <= i < |c.participants|
        ensures Phase(c.participants[i].control) in
                  if c.participants[i].control.commit.Some?
                  then {ParticipantPhase.Aborted, ParticipantPhase.Expired, ParticipantPhase.Faulted} else {Empty, Cancelled}
      {
        assert SafeAfterAbort(c.participants[i]);
      }
    }
    SplitByOne(c);
  }

  lemma SplitByOne(c: Coordinator)
    ensures SplitIsTerminal(c.participants) <==> Split(c)
    ensures Split(c) ==> Somebody(c, PASSED)
  {
    hide Phase;
    if Split(c) {
      var i :|
        0 <= i < |c.participants| && Phase(c.participants[i].control) in {ParticipantPhase.Aborted, ParticipantPhase.Expired};
      var j :| 0 <= j < |c.participants| && Phase(c.participants[j].control) in {ParticipantPhase.Complete};
      assert Stopped(c.participants[i]) && Completed(c.participants[j]);
    }
    if SplitIsTerminal(c.participants) {
      var i :| 0 <= i < |c.participants| && Stopped(c.participants[i]);
      var j :| 0 <= j < |c.participants| && Completed(c.participants[j]);
      assert Phase(c.participants[i].control) in {ParticipantPhase.Aborted, ParticipantPhase.Expired};
      assert Phase(c.participants[j].control) in {ParticipantPhase.Complete};
    }
  }

  /** While aborting, the job stays open until everyone is safe, cleaned up, or stopped beside completed peers. */
  lemma AbortPhases(c: Coordinator)
    requires c.participants != [] && c.intent == AbortIntent
    ensures GlobalPhaseOf(c) == GComplete <==> Everybody(c, {ParticipantPhase.Complete})
    ensures GlobalPhaseOf(c) == GFaulted <==> Cleaned(c) && !Everybody(c, {ParticipantPhase.Complete})
    ensures GlobalPhaseOf(c) == GAborted <==> Safe(c) && !c.faultCleanup
    ensures GlobalPhaseOf(c) == GSplitAfterAbort <==> Split(c) && !Cleaned(c)
    ensures GlobalPhaseOf(c) == GIrrevocable <==>
              Somebody(c, PASSED) && !Everybody(c, {ParticipantPhase.Complete}) && !Cleaned(c) && !Split(c)
    ensures GlobalPhaseOf(c) == GAborting <==> !Somebody(c, PASSED) && !Cleaned(c) && !Safe(c)
  {
    Searches(c, ParticipantPhase.Complete);
    AbortSearches(c);
    CompleteHasPassed(c);
    Apart(c, {ParticipantPhase.Complete}, {ParticipantPhase.Aborted, ParticipantPhase.Expired});
    hide Everybody, Somebody, AllReported, Phase, Ended;
  }

  lemma CancelPhases(c: Coordinator)
    requires c.participants != [] && c.intent == CancelIntent
    ensures GlobalPhaseOf(c) == GComplete <==> Everybody(c, {ParticipantPhase.Complete})
    ensures GlobalPhaseOf(c) == GFaulted <==> Cleaned(c) && !Everybody(c, {ParticipantPhase.Complete})
    ensures GlobalPhaseOf(c) == GCancelled <==> Everybody(c, {Empty, Cancelled}) && !Cleaned(c)
    ensures GlobalPhaseOf(c) == GCancelling <==>
              !Everybody(c, {ParticipantPhase.Complete}) && !Everybody(c, {Empty, Cancelled}) && !Cleaned(c)
  {
    hide Everybody, Somebody, AllReported, Phase, Cleaned;
    Searches(c, ParticipantPhase.Complete);
    Apart(c, {ParticipantPhase.Complete}, {Empty, Cancelled});
  }

  // ---- What a phase means for the job -----------------------------------------------------

  /** The job's phase is the coordinator's, except that completion tells whether a start was bound and a stop asked for. */
  lemma ProjectionIsExact(j: Job)
    requires j.terminalOverride.None?
    ensures JobPhaseOf(j) == JobRetainedComplete <==> GlobalPhaseOf(j.c) == GComplete && j.c.target.None?
    ensures JobPhaseOf(j) == JobCompletedAfterStop <==>
              GlobalPhaseOf(j.c) == GComplete && j.c.target.Some? && j.stopRequested
    ensures JobPhaseOf(j) == JobComplete <==> GlobalPhaseOf(j.c) == GComplete && j.c.target.Some? && !j.stopRequested
    ensures JobPhaseOf(j) == JobPreparing <==> GlobalPhaseOf(j.c) == GPreparing
    ensures JobPhaseOf(j) == JobReady <==> GlobalPhaseOf(j.c) == GReady
    ensures JobPhaseOf(j) == JobInstalling <==> GlobalPhaseOf(j.c) == GInstalling
    ensures JobPhaseOf(j) == JobInstalled <==> GlobalPhaseOf(j.c) == GInstalled
    ensures JobPhaseOf(j) == JobConfirming <==> GlobalPhaseOf(j.c) == GConfirming
    ensures JobPhaseOf(j) == JobConfirmed <==> GlobalPhaseOf(j.c) == GConfirmed
    ensures JobPhaseOf(j) == JobIrrevocable <==> GlobalPhaseOf(j.c) == GIrrevocable
    ensures JobPhaseOf(j) == JobAborting <==> GlobalPhaseOf(j.c) == GAborting
    ensures JobPhaseOf(j) == JobAborted <==> GlobalPhaseOf(j.c) == GAborted
    ensures JobPhaseOf(j) == JobSplitAfterStop <==> GlobalPhaseOf(j.c) == GSplitAfterAbort
    ensures JobPhaseOf(j) == JobCancelling <==> GlobalPhaseOf(j.c) == GCancelling
    ensures JobPhaseOf(j) == JobCancelled <==> GlobalPhaseOf(j.c) == GCancelled
    ensures JobPhaseOf(j) == JobFaulted <==> GlobalPhaseOf(j.c) == GFaulted
    ensures JobTerminal(j) <==>
              GlobalPhaseOf(j.c) in {GAborted, GSplitAfterAbort, GCancelled, GComplete, GFaulted}
  {
    hide GlobalPhaseOf;
  }

  /** A job that ended asks for nothing more, and nothing about it changes. */
  lemma EndedJobIsSilent(j: Job)
    requires GlobalPhaseOf(j.c) in {GAborted, GSplitAfterAbort, GCancelled, GComplete, GFaulted}
    ensures NextRequest(j.c) == (j.c, Ok(None))
    ensures j.queue == [] && !j.sweepRequired ==> NextOperation(j) == (j, Ok(None))
  {
    hide GlobalPhaseOf;
  }

  /** Before the guard of a bound job, one failed participant is enough: the job is Faulted and asks for nothing. */
  lemma OneFailureEndsTheInstall(j: Job)
    requires j.c.participants != [] && j.terminalOverride.None? && j.queue == [] && !j.sweepRequired
    requires j.c.intent == InstallIntent && Somebody(j.c, FAILED)
    ensures JobPhaseOf(j) == JobFaulted && JobTerminal(j)
    ensures NextOperation(j) == (j, Ok(None)) && RequestStop(j) == (j, Err(NotLegal))
  {
    hide GlobalPhaseOf, Somebody;
    InstallPhases(j.c);
    EndedJobIsSilent(j);
  }

  /**
   * While confirming, one failed participant ends the job unless some participant may already be running: the others
   * are asked nothing more, not even to abort, and a stop is refused.
   */
  lemma FailureEndsTheConfirmation(j: Job)
    requires j.c.participants != [] && j.terminalOverride.None? && j.queue == [] && !j.sweepRequired
    requires j.c.intent == ConfirmIntent && Somebody(j.c, FAILED)
    ensures JobPhaseOf(j) == JobFaulted <==> !Somebody(j.c, PASSED)
    ensures JobPhaseOf(j) == JobFaulted ==> NextOperation(j) == (j, Ok(None)) && RequestStop(j) == (j, Err(NotLegal))
  {
    hide GlobalPhaseOf, Somebody;
    ConfirmPhases(j.c);
    if JobPhaseOf(j) == JobFaulted {
      EndedJobIsSilent(j);
    }
  }

  // ---- Stops ------------------------------------------------------------------------------

  /**
   * A stop of a bound job is accepted exactly while it can still matter; accepting it only turns the intent to abort.
   * While installing it is refused only when somebody is past the guard and nobody failed; while confirming, exactly
   * when somebody is past the guard.
   */
  lemma AbortIsAcceptedExactly(c: Coordinator)
    requires c.participants != []
    ensures BeginAbortAll(c).0 == if BeginAbortAll(c).1.Ok? then c.(intent := AbortIntent) else c
    ensures c.target.None? ==> BeginAbortAll(c).1 == Err(BadState)
    ensures c.target.Some? && BeginAbortAll(c).1.Err? ==> BeginAbortAll(c).1.error == PointOfNoReturn
    ensures c.target.Some? && c.intent == PrepareIntent ==>
              (BeginAbortAll(c).1.Ok? <==> !Everybody(c, {ParticipantPhase.Complete}))
    ensures c.target.Some? && c.intent == InstallIntent ==>
              (BeginAbortAll(c).1.Ok? <==> !Somebody(c, PASSED) || Somebody(c, FAILED))
    ensures c.target.Some? && c.intent == ConfirmIntent ==>
              (BeginAbortAll(c).1.Ok? <==> !Somebody(c, PASSED))
    ensures c.target.Some? && c.intent == AbortIntent ==>
              (BeginAbortAll(c).1.Ok? <==>
                 !Everybody(c, {ParticipantPhase.Complete}) &&
                 (Cleaned(c) || (!Somebody(c, PASSED) && !(Safe(c) && !c.faultCleanup))))
  {
    hide GlobalPhaseOf, Somebody, Everybody, Cleaned, Safe, Split;
    CompleteHasPassed(c);
    Apart(c, {ParticipantPhase.Complete}, FAILED);
    SplitHasPassed(c);
    match c.intent
    case PrepareIntent => PreparePhases(c);
    case InstallIntent => InstallPhases(c);
    case ConfirmIntent => ConfirmPhases(c);
    case AbortIntent => AbortPhases(c);
    case CancelIntent =>
  }

  lemma SplitHasPassed(c: Coordinator)
    requires c.participants != []
    ensures Split(c) ==> Somebody(c, PASSED)
  {
    AbortSearches(c);
  }

  /** A cancellation of an unbound job is refused only once it is complete or already cancelled. */
  lemma CancelIsAcceptedExactly(c: Coordinator)
    requires c.participants != []
    ensures BeginCancelAll(c).0 == if BeginCancelAll(c).1.Ok? then c.(intent := CancelIntent) else c
    ensures BeginCancelAll(c).1.Ok? || BeginCancelAll(c).1 == Err(BadState)
    ensures c.target.Some? ==> BeginCancelAll(c).1 == Err(BadState)
    ensures c.intent == PrepareIntent ==>
              (BeginCancelAll(c).1.Ok? <==> c.target.None? && !Everybody(c, {ParticipantPhase.Complete}))
    ensures c.intent == CancelIntent ==>
              (BeginCancelAll(c).1.Ok? <==>
                 && c.target.None? && !Everybody(c, {ParticipantPhase.Complete})
                 && (Cleaned(c) || !Everybody(c, {Empty, Cancelled})))
  {
    hide GlobalPhaseOf, Somebody, Everybody, Cleaned;
    match c.intent
    case PrepareIntent => PreparePhases(c);
    case InstallIntent =>
    case ConfirmIntent =>
    case AbortIntent =>
    case CancelIntent => CancelPhases(c);
  }
}
