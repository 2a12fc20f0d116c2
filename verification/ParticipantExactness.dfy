/** Exactly what one participant's machine shows, sends and retains. */
module ParticipantExactness {
  import opened Wrappers
  import opened ParticipantSchedule
  import opened ParticipantRuns

  // ---- What it shows ----------------------------------------------------------------------

  predicate ActorFault(report: StatusReport) {
    || (report.service.Some? && report.service.value.state == ServiceFaulted)
    || (report.realtime.Some? && report.realtime.value.state == RealtimeFaulted)
  }

  predicate ActorsCancelled(report: StatusReport) {
    && report.service.Some? && report.service.value.state == ServiceCancelled
    && report.realtime.Some? && report.realtime.value.state == RealtimeCancelled
  }

  /** Actors that neither faulted nor were both cancelled leave the schedule to speak. */
  predicate Speaks(p: Participant, state: ScheduleState) {
    && p.report.Some? && !ActorFault(p.report.value) && !ActorsCancelled(p.report.value)
    && p.report.value.schedule.Some? && p.report.value.schedule.value.state == state
  }

  predicate ReadyToRun(report: StatusReport) {
    && report.service.Some? && (report.service.value.state == Prefetching || report.service.value.state == Finished)
    && report.realtime.Some? && report.realtime.value.state == Admitted && report.realtime.value.outstanding
  }

  /** A fault of an actor hides everything, cancelled actors hide the schedule, and only a ready one is Ready or Installing. */
  lemma PhaseIsExact(p: Participant)
    ensures Phase(p) == Empty <==> p.report.None? || p.report == Some(StatusReport(None, None, None))
    ensures Phase(p) == ParticipantPhase.Faulted <==>
              (p.report.Some? && ActorFault(p.report.value)) || Speaks(p, ScheduleState.Faulted)
    ensures Phase(p) == Cancelled <==>
              p.report.Some? && !ActorFault(p.report.value) && ActorsCancelled(p.report.value)
    ensures Phase(p) == Ready <==>
              Speaks(p, ScheduleState.Prepared) && ReadyToRun(p.report.value) && p.commit.None?
    ensures Phase(p) == Installing <==>
              Speaks(p, ScheduleState.Prepared) && ReadyToRun(p.report.value) && p.commit.Some?
    ensures Phase(p) == Preparing <==>
              || (Speaks(p, ScheduleState.Prepared) && !ReadyToRun(p.report.value))
              || (p.report.Some? && !ActorFault(p.report.value) && !ActorsCancelled(p.report.value)
                  && p.report.value.schedule.None? && (p.report.value.service.Some? || p.report.value.realtime.Some?))
    ensures Phase(p) == ParticipantPhase.Installed <==> Speaks(p, ScheduleState.Installed)
    ensures Phase(p) == ParticipantPhase.Confirmed <==> Speaks(p, ScheduleState.Confirmed)
    ensures Phase(p) == ParticipantPhase.Priming <==> Speaks(p, ScheduleState.Priming)
    ensures Phase(p) == ParticipantPhase.Primed <==> Speaks(p, ScheduleState.Primed)
    ensures Phase(p) == ParticipantPhase.Running <==> Speaks(p, ScheduleState.Running)
    ensures Phase(p) == ParticipantPhase.Aborted <==> Speaks(p, ScheduleState.Aborted)
    ensures Phase(p) == ParticipantPhase.Expired <==> Speaks(p, ScheduleState.Expired)
    ensures Phase(p) == ParticipantPhase.Complete <==> Speaks(p, ScheduleState.Complete)
  {
  }

  // ---- What it sends ----------------------------------------------------------------------

  /** When the machine may send `operation`, which always names its own preparation or its own bound commit. */
  predicate Admits(p: Participant, operation: ScheduleOperation) {
    && p.pending.None? && (operation == JobStatus || !p.reconciliationRequired)
    && match operation
       case JobPrepare(descriptor) => descriptor == p.descriptor && p.commit.None? && Phase(p) in {Empty, Preparing}
       case JobStatus => true
       case JobCommit(commit) =>
         && commit.prepareId == p.descriptor.prepareId && commit.partition == p.descriptor.partition
         && commit.bootId == p.bootId && commit.preparedToken == p.preparedToken
         && (p.commit.None? || p.commit == Some(commit)) && Phase(p) in {Ready, Installing}
       case JobConfirm(commit) => p.commit == Some(commit) && Phase(p) == ParticipantPhase.Installed
       case JobLeaseRenew(commit, lease) =>
         && p.commit == Some(commit) && commit.policy == NetworkAttended
         && Phase(p) in {ParticipantPhase.Confirmed, ParticipantPhase.Priming, ParticipantPhase.Primed,
                         ParticipantPhase.Running}
         && p.report.Some? && p.report.value.schedule.Some? && p.report.value.schedule.value.leaseExpiry < lease
         && (p.authorizedLease.Some? ==> p.authorizedLease.value <= lease)
       case JobAbort(commit) =>
         p.commit == Some(commit) && Phase(p) in {Installing, ParticipantPhase.Installed, ParticipantPhase.Confirmed}
       case JobCancel(prepareId) =>
         && prepareId == p.descriptor.prepareId && p.commit.None?
         && Phase(p) in {Preparing, Ready, ParticipantPhase.Faulted}
  }

  /** Sending binds the commit or the lease it carries, awaits the answer, and changes nothing else. */
  function Sending(p: Participant, operation: ScheduleOperation): Participant {
    var awaiting := p.(pending := Some(ActionOf(operation)));
    match operation
    case JobCommit(commit) => awaiting.(commit := Some(commit), authorizedLease := Some(commit.leaseExpiry))
    case JobLeaseRenew(_, lease) => awaiting.(authorizedLease := Some(lease))
    case _ => awaiting
  }

  /** The caller asked for this operation, with this commit or lease. */
  predicate Asked(e: Event, operation: ScheduleOperation)
    requires e.Begin?
  {
    && e.action == ActionOf(operation)
    && (operation.JobCommit? ==> operation.commit == e.commit)
    && (operation.JobLeaseRenew? ==> operation.leaseExpiry == e.lease)
  }

  lemma OperationsAreExact(p: Participant, e: Event, q: Participant, operation: ScheduleOperation)
    requires e.Begin?
    ensures BeginAs(p, e) == Ok((q, operation)) <==>
              Asked(e, operation) && Admits(p, operation) && q == Sending(p, operation)
  {
    hide Phase;
  }

  // ---- What it retains --------------------------------------------------------------------

  function Line(state: ScheduleState): nat {
    match state
    case Prepared => 0
    case Installed => 1
    case Confirmed => 2
    case Priming => 3
    case Primed => 4
    case Running => 5
    case Complete => 6
    case Aborted => 7
    case Expired => 7
    case Faulted => 7
  }

  /** The schedule's own order: forward to completion, expiry before confirmation, abort before priming, fault until the end. */
  predicate Follows(previous: ScheduleState, next: ScheduleState) {
    && Line(previous) < 6
    && match next
       case Expired => Line(previous) <= Line(ScheduleState.Installed)
       case Aborted => Line(previous) <= Line(ScheduleState.Confirmed)
       case Faulted => true
       case _ => Line(previous) < Line(next)
  }

  /** Two reports of one state agree, but a granted lease may have grown and a running start may now be observed. */
  predicate Repeats(previous: ScheduleReport, next: ScheduleReport) {
    && next.state == previous.state && next.policy == previous.policy
    && next.descriptorToken == previous.descriptorToken && next.preparedToken == previous.preparedToken
    && next.localStart == previous.localStart && next.confirmDeadline == previous.confirmDeadline
    && next.abortGuard == previous.abortGuard && next.commitId == previous.commitId
    && (next.leaseExpiry == previous.leaseExpiry
        || (previous.policy == Some(NetworkAttended) && previous.leaseExpiry < next.leaseExpiry))
    && (next.startObservation == previous.startObservation
        || (previous.state == ScheduleState.Running && previous.startObservation.None? && next.startObservation.Some?))
  }

  lemma AdvanceIsExact(previous: ScheduleReport, next: ScheduleReport)
    ensures LaterState(previous.state, next.state) <==> Follows(previous.state, next.state)
    ensures ScheduleAdvances(previous, next) <==>
              || Repeats(previous, next)
              || (Follows(previous.state, next.state)
                  && (previous.policy == Some(NetworkAttended) ==> previous.leaseExpiry <= next.leaseExpiry))
  {
  }

  /** The report is about this preparation and, under a bound commit, about exactly that commit. */
  predicate OwnReport(p: Participant, report: StatusReport) {
    && (report.service.Some? ==>
          report.service.value.prepareId == p.descriptor.prepareId && report.service.value.axisCount == 2
          && report.service.value.totalBlocks == p.descriptor.blockCount)
    && (report.realtime.Some? ==>
          report.realtime.value.prepareId == p.descriptor.prepareId
          && report.realtime.value.totalBlocks == p.descriptor.blockCount)
    && (report.schedule.Some? ==> OwnSchedule(p, report.schedule.value))
  }

  predicate OwnSchedule(p: Participant, s: ScheduleReport) {
    && s.descriptorToken == p.preparedToken
    && (s.state == ScheduleState.Prepared ==> s.preparedToken == Some(p.preparedToken))
    && (s.state != ScheduleState.Prepared && p.commit.Some? ==>
          var commit := p.commit.value;
          && s.preparedToken.None? && s.policy == Some(commit.policy) && s.commitId == commit.commitId
          && s.localStart == commit.localStart && s.confirmDeadline == commit.confirmDeadline
          && s.abortGuard == commit.abortGuard && p.authorizedLease.Some?
          && commit.leaseExpiry <= s.leaseExpiry <= p.authorizedLease.value
          && (commit.policy == CachedAutonomous ==> p.authorizedLease.value == commit.leaseExpiry))
  }

  /** What is left of a schedule once reported may only be repeated, advanced, or cancelled as a whole. */
  predicate Continues(p: Participant, report: StatusReport) {
    p.report.Some? && p.report.value.schedule.Some? ==>
      if report.schedule.None? then ActorsCancelled(report)
      else
        var (previous, next) := (p.report.value.schedule.value, report.schedule.value);
        || Repeats(previous, next)
        || (Follows(previous.state, next.state)
            && (previous.policy == Some(NetworkAttended) ==> previous.leaseExpiry <= next.leaseExpiry))
  }

  /** A machine that has seen nothing yet asked for status, and the device still shows somebody else's ended job. */
  predicate ForeignEnd(p: Participant, report: StatusReport) {
    && p.pending == Some(StatusAction) && p.report.None? && p.commit.None?
    && report.service.Some? && report.realtime.Some? && report.service.value.prepareId != p.descriptor.prepareId
    && (report.schedule.None? ==> ActorsCancelled(report))
    && (report.schedule.Some? ==> Line(report.schedule.value.state) >= 6)
  }

  lemma ReportsAreJudgedExactly(p: Participant, report: StatusReport)
    ensures ValidReport(p, report) <==> OwnReport(p, report)
    ensures p.report.Some? ==> (ReportAdvances(p.report.value, report) <==> Continues(p, report))
    ensures p.pending == Some(StatusAction) && p.report.None? && p.commit.None? ==>
              (ReplaceableForeignTerminal(p.descriptor, report) <==> ForeignEnd(p, report))
  {
    if p.report.Some? && p.report.value.schedule.Some? && report.schedule.Some? {
      AdvanceIsExact(p.report.value.schedule.value, report.schedule.value);
    }
    hide ScheduleAdvances, Repeats, Follows;
  }

  /**
   * An answered request is no longer pending. A report that is the participant's own and continues the last one is
   * retained and settles any doubt, whatever status came with it; a foreign ended job is retained as nothing at all;
   * any other answer leaves the report as it was and a mutation in doubt.
   */
  lemma AnswersAreExact(p: Participant, response: Response)
    requires p.pending.Some?
    ensures var (q, result) := AcceptResponse(p, response);
            var doubted := p.(pending := None,
                              reconciliationRequired := p.reconciliationRequired || p.pending != Some(StatusAction));
            match response.body
            case EmptyBody =>
              q == doubted
              && result == Err(if !response.ok && p.pending != Some(StatusAction) then DeviceStatus else MissingBody)
            case UndecodableBody => q == doubted && result == Err(Status)
            case ReportBody(report) =>
              var settled := p.(pending := None, reconciliationRequired := false);
              if ForeignEnd(p, report) then
                q == settled.(report := Some(StatusReport(None, None, None)))
                && result == if response.ok then Ok(Empty) else Err(DeviceStatus)
              else if OwnReport(p, report) && Continues(p, report) then
                q == settled.(report := Some(report))
                && result == if response.ok then Ok(Phase(q)) else Err(DeviceStatus)
              else q == doubted && result == Err(if OwnReport(p, report) then Regression else Identity)
  {
    hide Phase, ValidReport, ReportAdvances, OwnReport, ReplaceableForeignTerminal;
    if response.body.ReportBody? {
      ReportsAreJudgedExactly(p, response.body.report);
    }
  }

  /** A lost answer is the same doubt without the answer. */
  lemma LossIsExact(p: Participant)
    ensures AbandonPending(p).1 <==> p.pending.Some?
    ensures AbandonPending(p).0 ==
            if p.pending.None? then p
            else p.(pending := None,
                    reconciliationRequired := p.reconciliationRequired || p.pending != Some(StatusAction))
  {
  }
}
