/** What the worker does with a ready job: the operation it launches, the round it opens, and when it gives the job up. */
module WorkerProgress {
  import opened Wrappers
  import opened ParticipantSchedule
  import opened ParticipantExactness
  import opened CoordinatorModel
  import opened CoordinatorPhases
  import opened CoordinatorDuties
  import opened StartTiming
  import opened StartExactness
  import opened LiveJobModel
  import opened WorkerTiming
  import opened WorkerModel
  import WorkerJobRuns
  import Ordering

  // ---- Nothing to send --------------------------------------------------------------------

  /** The job is live and has nothing to send: no queue, no sweep, and nobody who owes an operation. */
  ghost predicate Silent(j: Job) {
    WellFormed(j.c) && j.terminalOverride.None? && NextOperation(j).1 == Ok(None)
  }

  lemma SilentIsAtRest(j: Job)
    requires Silent(j)
    ensures j.queue == [] && !j.sweepRequired && NextOperation(j) == (j, Ok(None))
    ensures NextRequest(j.c) == (j.c, Ok(None))
    ensures JobEnded(j.c) || forall k | 0 <= k < |j.c.participants| :: Waits(j.c, k)
  {
    hide NextRequest, JobEnded, Waits, CoordinatorModel.BeginStatusRound, WellFormed;
    SweepIsNotSilent(j);
    SilenceIsWaiting(j.c);
    NextRequestIsExact(j.c, j.c, Request(0, JobStatus));
  }

  lemma SweepIsNotSilent(j: Job)
    requires Silent(j)
    ensures j.queue == [] && !j.sweepRequired
  {
    hide NextRequest;
    if j.queue == [] && j.sweepRequired {
      StatusRoundIsExact(j.c);
      NonEmpty(j.c);
      assert false;
    }
  }

  lemma NonEmpty(c: Coordinator)
    requires WellFormed(c)
    ensures |c.participants| > 0
  {
  }

  // ---- Confirmation -----------------------------------------------------------------------

  ghost predicate FirstIdle(c: Coordinator, k: nat) {
    && k < |c.participants| && c.participants[k].control.pending.None?
    && forall i | 0 <= i < k :: c.participants[i].control.pending.Some?
  }

  /** The clock runs, the participants' clocks answer, and no device may have reached a deadline. */
  ghost predicate MayConfirm(j: Job, s: Surroundings) {
    && s.nowUi.Some? && s.startInputs.Some? && j.c.target.Some?
    && EveryoneOpen(j.c, s.nowUi.value, s.startInputs.value)
  }

  lemma InstalledMeans(c: Coordinator)
    requires GlobalPhaseOf(c) == GInstalled
    ensures c.intent == InstallIntent && Everybody(c, {ParticipantPhase.Installed})
  {
    hide Phase;
  }

  lemma ConfirmingIsOpen(c: Coordinator)
    requires c.participants != [] && c.intent == ConfirmIntent && Everybody(c, {ParticipantPhase.Installed})
    ensures !JobEnded(c)
  {
    hide GlobalPhaseOf, Everybody, Somebody;
    ConfirmPhases(c);
    Apart(c, {ParticipantPhase.Installed}, FAILED);
    Apart(c, {ParticipantPhase.Installed}, {ParticipantPhase.Complete});
  }

  /** Once the intent is to confirm, an installed set of participants with nothing else to do confirms in order. */
  lemma ConfirmingAsks(c: Coordinator)
    requires c.participants != [] && c.intent == ConfirmIntent && Everybody(c, {ParticipantPhase.Installed})
    requires forall i | 0 <= i < |c.participants| ::
               c.participants[i].control.commit.Some?
               && (c.participants[i].control.pending.Some? || !c.participants[i].control.reconciliationRequired)
    ensures forall k | 0 <= k < |c.participants| && FirstIdle(c, k) ::
              var confirm := JobConfirm(c.participants[k].control.commit.value);
              NextRequest(c) == (SetControl(c, k, Sending(c.participants[k].control, confirm)),
                                 Ok(Some(Request(c.participants[k].deviceId, confirm))))
    ensures NextRequest(c).1.Ok?
  {
    hide GlobalPhaseOf, NextRequest, Sending, JobEnded, Phase, SetControl, FirstIdle, Everybody;
    ConfirmingIsOpen(c);
    forall k | 0 <= k < |c.participants| && FirstIdle(c, k)
      ensures var confirm := JobConfirm(c.participants[k].control.commit.value);
              NextRequest(c) == (SetControl(c, k, Sending(c.participants[k].control, confirm)),
                                 Ok(Some(Request(c.participants[k].deviceId, confirm))))
    {
      FirstIdleIsIdle(c, k);
      ConfirmIsOwed(c, k);
      var confirm := JobConfirm(c.participants[k].control.commit.value);
      NextRequestIsExact(c, SetControl(c, k, Sending(c.participants[k].control, confirm)),
                         Request(c.participants[k].deviceId, confirm));
    }
    if c.participants[0].control.pending.None? {
      HeadIsFirst(c);
    } else {
      IdleOrSilent(c);
    }
  }

  lemma HeadIsFirst(c: Coordinator)
    requires c.participants != [] && c.participants[0].control.pending.None?
    ensures FirstIdle(c, 0)
  {
  }

  lemma ConfirmIsOwed(c: Coordinator, k: nat)
    requires c.intent == ConfirmIntent && Everybody(c, {ParticipantPhase.Installed})
    requires FirstIdle(c, k) && c.participants[k].control.commit.Some?
    requires !c.participants[k].control.reconciliationRequired
    ensures FirstOwing(c, k, JobConfirm(c.participants[k].control.commit.value))
  {
    hide Phase, AllReported;
    assert Phase(c.participants[k].control) in {ParticipantPhase.Installed};
  }

  lemma {:induction false} FirstIdleFrom(c: Coordinator, from: nat) returns (k: nat)
    requires from <= |c.participants| && forall i | 0 <= i < from :: c.participants[i].control.pending.Some?
    requires exists i | from <= i < |c.participants| :: c.participants[i].control.pending.None?
    ensures FirstIdle(c, k)
    decreases |c.participants| - from
  {
    if c.participants[from].control.pending.None? {
      k := from;
    } else {
      k := FirstIdleFrom(c, from + 1);
    }
  }

  lemma IdleOrSilent(c: Coordinator)
    requires c.participants != []
    requires forall k | 0 <= k < |c.participants| && FirstIdle(c, k) :: NextRequest(c).1.Ok?
    ensures NextRequest(c).1.Ok?
  {
    hide NextRequest, JobEnded, FirstIdle, Content;
    if exists i | 0 <= i < |c.participants| :: c.participants[i].control.pending.None? {
      var k := FirstIdleFrom(c, 0);
      FirstIdleIsIdle(c, k);
    } else {
      SilenceIsWaiting(c);
    }
  }

  lemma FirstIdleIsIdle(c: Coordinator, k: nat)
    requires FirstIdle(c, k)
    ensures k < |c.participants| && c.participants[k].control.pending.None?
  {
  }

  lemma ContentIsSettled(c: Coordinator)
    requires !JobEnded(c) && forall k | 0 <= k < |c.participants| :: Waits(c, k)
    ensures forall i | 0 <= i < |c.participants| ::
              c.participants[i].control.pending.Some? || !c.participants[i].control.reconciliationRequired
  {
    hide Phase, JobEnded, AllReported;
    forall i | 0 <= i < |c.participants|
      ensures c.participants[i].control.pending.Some? || !c.participants[i].control.reconciliationRequired
    {
      assert Waits(c, i);
    }
  }

  /**
   * An installed job with nothing to send goes on exactly when it may be confirmed: then the intent turns to
   * confirmation and the first participant that awaits nothing is sent the confirmation of its own commit.
   */
  lemma InstalledJobConfirmsExactly(j: Job, s: Surroundings)
    requires Silent(j) && JobPhaseOf(j) == JobInstalled
    requires forall i | 0 <= i < |j.c.participants| :: j.c.participants[i].control.commit.Some?
    ensures PrepareNext(j, s).next.Ok? <==> MayConfirm(j, s)
    ensures !MayConfirm(j, s) ==> PrepareNext(j, s).job == j
    ensures MayConfirm(j, s) ==> forall k | 0 <= k < |j.c.participants| && FirstIdle(j.c, k) ::
              var confirm := JobConfirm(j.c.participants[k].control.commit.value);
              && PrepareNext(j, s).next == Ok(Some(Request(j.c.participants[k].deviceId, confirm)))
              && PrepareNext(j, s).job ==
                   j.(c := SetControl(j.c.(intent := ConfirmIntent), k, Sending(j.c.participants[k].control, confirm)))
  {
    hide GlobalPhaseOf, NextOperation, BeginRound, Sending, WellFormed, MayConfirm, SetControl;
    SilentIsAtRest(j);
    assert Emit(j) == Preparation(j, Ok(None));
    ConfirmationTurns(j, s);
    if MayConfirm(j, s) {
      ConfirmsFirst(j);
    }
  }

  lemma ConfirmationTurns(j: Job, s: Surroundings)
    requires Silent(j) && JobPhaseOf(j) == JobInstalled
    ensures if MayConfirm(j, s) then BeginRound(j, s) == (j.(c := j.c.(intent := ConfirmIntent)), Ok(true))
            else BeginRound(j, s).1.Err? && BeginRound(j, s).0 == j
  {
    hide GlobalPhaseOf, NextOperation, BeginConfirmation, EveryoneOpen, WellFormed;
    SilentIsAtRest(j);
    ProjectionIsExact(j);
    if s.nowUi.Some? && s.startInputs.Some? {
      ConfirmationIsExact(j.c, s.nowUi.value, s.startInputs.value);
    }
  }

  lemma ConfirmsFirst(j: Job)
    requires Silent(j) && JobPhaseOf(j) == JobInstalled
    requires forall i | 0 <= i < |j.c.participants| :: j.c.participants[i].control.commit.Some?
    ensures var confirming := j.(c := j.c.(intent := ConfirmIntent));
            && Emit(confirming).next.Ok?
            && forall k | 0 <= k < |j.c.participants| && FirstIdle(j.c, k) ::
                 var confirm := JobConfirm(j.c.participants[k].control.commit.value);
                 Emit(confirming) ==
                   Preparation(
                     j.(c := SetControl(j.c.(intent := ConfirmIntent), k, Sending(j.c.participants[k].control, confirm))),
                     Ok(Some(Request(j.c.participants[k].deviceId, confirm))))
  {
    hide GlobalPhaseOf, NextOperation, NextRequest, Sending, Waits, JobEnded, WellFormed, Everybody, FirstIdle;
    SilentIsAtRest(j);
    ProjectionIsExact(j);
    InstalledMeans(j.c);
    InstalledIsOpen(j.c);
    ContentIsSettled(j.c);
    NonEmpty(j.c);
    var confirming := j.c.(intent := ConfirmIntent);
    SamePhases(j.c, confirming);
    ConfirmingAsks(confirming);
    SameIdle(j.c, confirming);
    AsksDirectly(j.(c := confirming));
  }

  lemma InstalledIsOpen(c: Coordinator)
    requires GlobalPhaseOf(c) == GInstalled
    ensures !JobEnded(c)
  {
    hide GlobalPhaseOf;
  }

  lemma SamePhases(c: Coordinator, d: Coordinator)
    requires d.participants == c.participants
    ensures Everybody(c, {ParticipantPhase.Installed}) ==> Everybody(d, {ParticipantPhase.Installed})
  {
    hide Phase;
  }

  lemma SameIdle(c: Coordinator, d: Coordinator)
    requires d.participants == c.participants
    ensures forall k :: FirstIdle(c, k) <==> FirstIdle(d, k)
  {
  }

  /** With no queue and no sweep the job asks what its coordinator asks. */
  lemma AsksDirectly(j: Job)
    requires j.terminalOverride.None? && j.queue == [] && !j.sweepRequired
    ensures NextOperation(j).0 == j.(c := NextRequest(j.c).0)
    ensures NextRequest(j.c).1.Ok? ==> NextOperation(j).1 == Ok(NextRequest(j.c).1.value)
    ensures NextRequest(j.c).1.Err? ==> NextOperation(j).1.Err?
  {
    hide NextRequest;
  }

  // ---- Status and lease rounds ------------------------------------------------------------

  /** The running job's clock can be read, when its policy needs one, and no lease round is to be asked for. */
  predicate NoRoundDue(j: Job, s: Surroundings) {
    j.c.policy == CachedAutonomous
    || (s.nowUi.Some? && RenewalIfDue(j, s.nowUi.value, ClocksOf(j, s)) == Ok(None))
  }

  predicate RoundDue(j: Job, s: Surroundings, rs: seq<LeaseRenewal>) {
    && j.c.policy == NetworkAttended && s.nowUi.Some?
    && RenewalIfDue(j, s.nowUi.value, ClocksOf(j, s)) == Ok(Some(rs))
  }

  /** Everyone has been asked for its status. */
  function StatusAsked(c: Coordinator): Coordinator {
    c.(participants := seq(|c.participants|, i requires 0 <= i < |c.participants| =>
         c.participants[i].(control := c.participants[i].control.(pending := Some(StatusAction)))))
  }

  lemma CadenceOfRunning(j: Job, s: Surroundings)
    requires Silent(j) && JobPhaseOf(j) in {JobConfirmed, JobIrrevocable}
    ensures var (begun, result) := BeginCadence(j, s);
            PrepareNext(j, s) ==
              if result.Err? then Preparation(begun, Err(result.error))
              else if !result.value then Preparation(begun, Ok(None)) else Emit(begun)
  {
    hide NextOperation, BeginCadence, JobPhaseOf, WellFormed;
    SilentIsAtRest(j);
    assert Emit(j) == Preparation(j, Ok(None));
    assert BeginRound(j, s) == BeginCadence(j, s);
  }

  /**
   * When no lease round is due, a running job with nothing to send opens a status round of every participant and asks
   * the first at once; the round is refused, and the job given up, exactly when somebody still awaits an answer.
   */
  lemma RunningJobAsksEveryone(j: Job, s: Surroundings)
    requires Silent(j) && JobPhaseOf(j) in {JobConfirmed, JobIrrevocable} && NoRoundDue(j, s)
    ensures PrepareNext(j, s).next.Ok? <==> forall i | 0 <= i < |j.c.participants| :: j.c.participants[i].control.pending.None?
    ensures PrepareNext(j, s).next.Ok? ==>
              && |j.c.participants| > 0
              && PrepareNext(j, s).next.value == Some(Request(j.c.participants[0].deviceId, JobStatus))
              && var after := PrepareNext(j, s).job;
                 && after == j.(c := StatusAsked(j.c), queue := after.queue)
                 && |after.queue| == |j.c.participants| - 1
                 && forall i | 0 <= i < |after.queue| ::
                      after.queue[i] == Request(j.c.participants[i + 1].deviceId, JobStatus)
  {
    hide JobPhaseOf, WellFormed, RenewalIfDue, PrepareNext, NextOperation, CoordinatorModel.BeginStatusRound;
    CadenceOfRunning(j, s);
    SilentIsAtRest(j);
    NonEmpty(j.c);
    StatusRoundIsExact(j.c);
    var (d, round) := CoordinatorModel.BeginStatusRound(j.c);
    if round.Ok? {
      assert d.participants == StatusAsked(j.c).participants;
      var begun := j.(c := d, queue := round.value);
      assert BeginCadence(j, s) == (begun, Ok(true));
      AsksTheQueue(begun);
    }
  }

  lemma AsksTheQueue(j: Job)
    requires j.terminalOverride.None? && j.queue != []
    ensures Emit(j) == Preparation(j.(queue := j.queue[1..]), Ok(Some(j.queue[0])))
  {
  }

  /** One round more, saturating at the width of the counter. */
  function NextRound(rounds: u32): u32 {
    if rounds == 4_294_967_295 then rounds else rounds + 1
  }

  /**
   * When a round is due and can be granted, every participant is bound to its wanted lease in one step; the first
   * renewal is asked at once and the others wait in the queue in device order.
   */
  lemma DueRoundIsLaunched(j: Job, s: Surroundings, rs: seq<LeaseRenewal>)
    requires Silent(j) && JobPhaseOf(j) in {JobConfirmed, JobIrrevocable} && RoundDue(j, s, rs) && Grantable(j)
    ensures |j.c.participants| > 0
    ensures exists d, requests ::
              && Renews(j.c, rs, d, requests) && |requests| > 0
              && PrepareNext(j, s) ==
                   Preparation(j.(c := d, queue := requests[1..], renewalRounds := NextRound(j.renewalRounds)),
                               Ok(Some(requests[0])))
  {
    hide RenewalIfDue, PrepareNext, NextOperation, BeginLeaseRenewal, GlobalPhaseOf, Renewable, Renews,
      TargetsFrom, WellFormed;
    CadenceOfRunning(j, s);
    SilentIsAtRest(j);
    NonEmpty(j.c);
    ProjectionIsExact(j);
    DueRenewalIsAdmittedExactly(j, s.nowUi.value, ClocksOf(j, s));
    TargetsFit(j, s.nowUi.value, ClocksOf(j, s));
    TargetsAreInOrder(j.c, rs);
    var (d, round) := BeginLeaseRenewal(j.c, rs);
    assert round.Ok?;
    DealtInOrder(j.c, rs, d, round.value);
    RenewsAll(j.c, rs, d, round.value);
    var begun := j.(c := d, queue := round.value, renewalRounds := NextRound(j.renewalRounds));
    assert BeginCadence(j, s) == (begun, Ok(true));
    AsksTheQueue(begun);
  }

  lemma DealtInOrder(c: Coordinator, rs: seq<LeaseRenewal>, d: Coordinator, requests: seq<Request>)
    requires WellFormed(c) && |rs| == |c.participants| && Ordering.Sort(RenewalKey, rs) == rs
    requires BeginLeaseRenewal(c, rs) == (d, Ok(requests))
    ensures Renews(c, rs, d, requests)
  {
    hide GlobalPhaseOf, BeginLeaseRenewal, RenewsAt, WellFormed;
    GrantedIsRound(c, rs, d, requests);
    var ordered: seq<LeaseRenewal> :| multiset(ordered) == multiset(rs) && Renews(c, ordered, d, requests);
    forall i | 0 <= i < |ordered|
      ensures ordered[i].deviceId == c.participants[i].deviceId
    {
      RenewsBegins(c, ordered, d, requests, i);
    }
    RoundIsSorted(c, rs, ordered);
  }

  /** A running job whose clock or leases cannot be judged is given up as it stands. */
  lemma UnjudgedRoundFails(j: Job, s: Surroundings)
    requires Silent(j) && JobPhaseOf(j) in {JobConfirmed, JobIrrevocable} && j.c.policy == NetworkAttended
    requires s.nowUi.None? || RenewalIfDue(j, s.nowUi.value, ClocksOf(j, s)).Err?
    ensures PrepareNext(j, s).next.Err? && PrepareNext(j, s).job == j
  {
    hide JobPhaseOf, WellFormed, RenewalIfDue, PrepareNext, NextOperation;
    CadenceOfRunning(j, s);
  }

  /** In every other phase a job with nothing to send waits. */
  lemma OtherPhasesWait(j: Job, s: Surroundings)
    requires Silent(j) && JobPhaseOf(j) !in {JobInstalled, JobConfirmed, JobIrrevocable}
    ensures PrepareNext(j, s) == Preparation(j, Ok(None))
  {
    hide JobPhaseOf, NextOperation, WellFormed;
    SilentIsAtRest(j);
    assert Emit(j) == Preparation(j, Ok(None));
  }

  /** A job that has something to send sends that, and begins nothing. */
  lemma SendingComesFirst(j: Job, s: Surroundings)
    requires NextOperation(j).1 != Ok(None)
    ensures PrepareNext(j, s) == Emit(j)
  {
    hide NextOperation;
  }

  // ---- Launching --------------------------------------------------------------------------

  predicate ReadyEntry(r: Runtime, b: Binding) {
    && b.connectionId in r.devices && r.devices[b.connectionId].IdleDevice?
    && r.devices[b.connectionId].state.session && r.devices[b.connectionId].state.clockQualified
  }

  predicate SameDevice(r: Runtime, b: Binding)
    requires ReadyEntry(r, b)
  {
    var state := r.devices[b.connectionId].state;
    state.connectionId == b.connectionId && state.generation == b.generation && state.identity == Some(b.identity)
  }

  predicate ReadyAndSame(r: Runtime, b: Binding) {
    ReadyEntry(r, b) && SameDevice(r, b)
  }

  /** The first binding, in order, that is not ready as compiled decides: changed, or merely not ready. */
  ghost predicate ChangedFirst(r: Runtime, bindings: seq<Binding>, k: nat) {
    && k < |bindings| && ReadyEntry(r, bindings[k]) && !SameDevice(r, bindings[k])
    && forall i | 0 <= i < k :: ReadyAndSame(r, bindings[i])
  }

  lemma {:induction false} ReadinessIsExact(r: Runtime, bindings: seq<Binding>)
    ensures ReadinessOf(r, bindings) == AllReady <==> forall b <- bindings :: ReadyAndSame(r, b)
    ensures ReadinessOf(r, bindings) == Mismatched <==> exists k :: ChangedFirst(r, bindings, k)
  {
    hide ReadyEntry, SameDevice;
    if bindings != [] {
      var rest := bindings[1..];
      ReadinessIsExact(r, rest);
      ReadinessByHead(r, bindings);
      assert forall b <- bindings :: b == bindings[0] || b in rest;
      assert bindings[0] in bindings && forall b <- rest :: b in bindings;
      if k: nat :| ChangedFirst(r, rest, k) {
        if ReadyAndSame(r, bindings[0]) {
          ChangedLater(r, bindings, k);
        }
      }
      if k: nat :| ChangedFirst(r, bindings, k) {
        if k > 0 {
          ChangedEarlier(r, bindings, k);
        }
      }
      if ReadyEntry(r, bindings[0]) && !SameDevice(r, bindings[0]) {
        assert ChangedFirst(r, bindings, 0);
      }
    }
  }

  lemma ReadinessByHead(r: Runtime, bindings: seq<Binding>)
    requires bindings != []
    ensures ReadinessOf(r, bindings) ==
              if !ReadyEntry(r, bindings[0]) then NotReady
              else if !SameDevice(r, bindings[0]) then Mismatched
              else ReadinessOf(r, bindings[1..])
  {
  }

  lemma ChangedLater(r: Runtime, bindings: seq<Binding>, k: nat)
    requires bindings != [] && ReadyAndSame(r, bindings[0]) && ChangedFirst(r, bindings[1..], k)
    ensures ChangedFirst(r, bindings, k + 1)
  {
    hide ReadyEntry, SameDevice;
    forall i | 0 <= i < k + 1
      ensures ReadyAndSame(r, bindings[i])
    {
      if i > 0 {
        assert bindings[i] == bindings[1..][i - 1];
      }
    }
  }

  lemma ChangedEarlier(r: Runtime, bindings: seq<Binding>, k: nat)
    requires ChangedFirst(r, bindings, k) && k > 0
    ensures ReadyAndSame(r, bindings[0]) && ChangedFirst(r, bindings[1..], k - 1)
  {
    hide ReadyEntry, SameDevice;
    forall i | 0 <= i < k - 1
      ensures ReadyAndSame(r, bindings[1..][i])
    {
      assert bindings[1..][i] == bindings[i + 1];
    }
  }

  /** The prepared job is put back faulted, and nothing else changes. */
  predicate GivenUp(r: Runtime, t: Runtime, retained: RetainedJob, left: Job) {
    t == r.(job := Some(IdleJob(retained.(job := left.(terminalOverride := Some(JobFaulted), queue := [])))))
  }

  /** The job and the one device it addresses are both handed to the operation. */
  predicate HandedOver(r: Runtime, t: Runtime, retained: RetainedJob, prepared: Preparation, task: JobTask) {
    && prepared.next == Ok(Some(task.request))
    && task.binding in retained.bindings && task.binding.deviceId == task.request.deviceId
    && task.binding.connectionId in r.devices && r.devices[task.binding.connectionId] == IdleDevice(task.state)
    && task.retained == retained.(job := prepared.job)
    && t == r.(job := Some(BusyJob(retained.jobId, retained.bindings)),
               devices := r.devices[task.binding.connectionId := BusyDevice(task.state.generation, task.state)])
  }

  /**
   * An idle, unfinished job whose bound devices are all ready as compiled launches what it prepares on the bound
   * device; a preparation that fails gives the job up; with nothing prepared the job just goes back.
   */
  lemma ReadyJobIsTakenExactly(r: Runtime, s: Surroundings, retained: RetainedJob)
    requires r.job == Some(IdleJob(retained)) && !JobTerminal(retained.job)
    requires forall b <- retained.bindings :: ReadyAndSame(r, b)
    ensures var ((t, launched), prepared) := (TakeLiveJobTask(r, s), PrepareNext(retained.job, s));
            match prepared.next
            case Err(error) => launched == Err(error) && GivenUp(r, t, retained, prepared.job)
            case Ok(None) => launched == Ok(None) && t == r.(job := Some(IdleJob(retained.(job := prepared.job))))
            case Ok(Some(request)) =>
              if exists b <- retained.bindings :: b.deviceId == request.deviceId then
                launched.Ok? && launched.value.Some? && HandedOver(r, t, retained, prepared, launched.value.value)
              else launched == Err(UnknownParticipant) && GivenUp(r, t, retained, prepared.job)
  {
    hide PrepareNext, JobTerminal, ReadinessOf;
    ReadinessIsExact(r, retained.bindings);
    var prepared := PrepareNext(retained.job, s);
    if prepared.next.Ok? && prepared.next.value.Some? {
      LaunchIsHandedOver(r, retained, prepared);
    }
  }

  lemma LaunchIsHandedOver(r: Runtime, retained: RetainedJob, prepared: Preparation)
    requires prepared.next.Ok? && prepared.next.value.Some?
    requires forall b <- retained.bindings :: ReadyAndSame(r, b)
    ensures var request := prepared.next.value.value;
            var (t, launched) := LaunchRequest(r, retained.(job := prepared.job), request);
            if exists b <- retained.bindings :: b.deviceId == request.deviceId then
              launched.Ok? && launched.value.Some? && HandedOver(r, t, retained, prepared, launched.value.value)
            else launched == Err(UnknownParticipant) && GivenUp(r, t, retained, prepared.job)
  {
    var binding := BindingFor(retained.bindings, prepared.next.value.value.deviceId);
    if binding.Some? {
      assert ReadyAndSame(r, binding.value);
    }
  }

  /** Until every bound device is ready nothing happens, and a device that changed gives the job up. */
  lemma UnreadyJobIsTakenExactly(r: Runtime, s: Surroundings, retained: RetainedJob)
    requires r.job == Some(IdleJob(retained)) && !JobTerminal(retained.job)
    requires exists b <- retained.bindings :: !ReadyAndSame(r, b)
    ensures (exists k :: ChangedFirst(r, retained.bindings, k)) ==>
              TakeLiveJobTask(r, s).1 == Err(IdentityChanged)
              && GivenUp(r, TakeLiveJobTask(r, s).0, retained, retained.job)
    ensures (!exists k :: ChangedFirst(r, retained.bindings, k)) ==> TakeLiveJobTask(r, s) == (r, Ok(None))
  {
    hide PrepareNext, JobTerminal, ReadinessOf, ReadyAndSame, ChangedFirst;
    ReadinessIsExact(r, retained.bindings);
  }

  /** No job, a job already out on an operation, or a finished job: the turn does nothing. */
  lemma IdleTurnDoesNothing(r: Runtime, s: Surroundings)
    requires r.job.None? || r.job.value.BusyJob? || JobTerminal(r.job.value.retained.job)
    ensures TakeLiveJobTask(r, s) == (r, Ok(None))
  {
  }

  /** An installed job with nothing to send or await, whose devices are ready and whose window is open. */
  ghost predicate ReadyToConfirm(r: Runtime, s: Surroundings, retained: RetainedJob) {
    var c := retained.job.c;
    && r.job == Some(IdleJob(retained)) && (forall b <- retained.bindings :: ReadyAndSame(r, b))
    && Silent(retained.job) && JobPhaseOf(retained.job) == JobInstalled && MayConfirm(retained.job, s)
    && (forall i | 0 <= i < |c.participants| ::
          c.participants[i].control.commit.Some? && c.participants[i].control.pending.None?)
    && |c.participants| > 0 && exists b <- retained.bindings :: b.deviceId == c.participants[0].deviceId
  }

  /** The operation is the confirmation of the first participant's own commit, and the rest of the set is as it was. */
  predicate ConfirmsOwn(task: JobTask, c: Coordinator)
    requires |c.participants| > 0 && c.participants[0].control.commit.Some?
  {
    && task.request == Request(c.participants[0].deviceId, JobConfirm(c.participants[0].control.commit.value))
    && task.retained.job.c.intent == ConfirmIntent
    && |task.retained.job.c.participants| == |c.participants|
    && task.retained.job.c.participants[1..] == c.participants[1..]
  }

  /** The worker confirms: such a job leaves with the confirmation of its own commit for its first participant. */
  lemma OpenWindowIsConfirmed(r: Runtime, s: Surroundings, retained: RetainedJob)
    requires ReadyToConfirm(r, s, retained)
    ensures var launched := TakeLiveJobTask(r, s).1;
            launched.Ok? && launched.value.Some? && ConfirmsOwn(launched.value.value, retained.job.c)
  {
    hide PrepareNext, Silent, MayConfirm, ReadyAndSame, Sending, TakeLiveJobTask;
    SilentIsLive(retained.job);
    ProjectionIsExact(retained.job);
    InstalledJobConfirmsExactly(retained.job, s);
    HeadIsFirst(retained.job.c);
    ReadyJobIsTakenExactly(r, s, retained);
  }

  lemma SilentIsLive(j: Job)
    requires Silent(j)
    ensures j.terminalOverride.None?
  {
  }
}
