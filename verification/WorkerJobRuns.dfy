/** The worker drives its retained job serially: every interleaving projects onto one serial run of the job. */
module WorkerJobRuns {
  import opened Wrappers
  import opened ParticipantSchedule
  import opened CoordinatorModel
  import opened StartTiming
  import opened LiveJobModel
  import opened WorkerModel
  import opened WorkerTiming
  import opened WorkerRuns
  import Jobs = LiveJobRuns

  /** The retained job and its outstanding operation, wherever they are held at the moment. */
  ghost predicate Shows(w: World, s: Jobs.Serial) {
    || (&& w.r.job.Some? && w.r.job.value.IdleJob?
        && s == Jobs.Serial(w.r.job.value.retained.job, None))
    || (&& w.r.job.Some? && w.r.job.value.BusyJob?
        && exists k :: Carries(w, k, s))
  }

  ghost predicate Carries(w: World, k: nat, s: Jobs.Serial) {
    && k in w.tasks && w.tasks[k].OperationTask?
    && s == Jobs.Serial(w.tasks[k].operation.retained.job, Some(w.tasks[k].operation.request))
  }

  function Idle(j: Job): Jobs.Serial { Jobs.Serial(j, None) }

  function AsSerial(p: Preparation): Jobs.Serial {
    Jobs.Serial(p.job, if p.next.Ok? then p.next.value else None)
  }

  lemma EmitIsAsk(s: Jobs.Serial, j: Job)
    requires Jobs.QuietlyReaches(s, Idle(j))
    ensures Jobs.QuietlyReaches(s, AsSerial(Emit(j)))
  {
    hide Jobs.QuietlyReaches, NextOperation;
    Jobs.QuietlyNext(s, Idle(j), Jobs.Ask);
  }

  lemma CadenceIsRound(s: Jobs.Serial, j: Job, r: Surroundings)
    requires Jobs.QuietlyReaches(s, Idle(j))
    ensures Jobs.QuietlyReaches(s, Idle(BeginCadence(j, r).0))
  {
    hide Jobs.QuietlyReaches, JobBeginStatusRound, JobBeginLeaseRenewal, RenewalIfDue;
    var begun := BeginCadence(j, r).0;
    if begun != j {
      var m := Jobs.Round;
      if j.c.policy == NetworkAttended {
        var due := RenewalIfDue(j, r.nowUi.value, ClocksOf(j, r)).value;
        m := if due.Some? then Jobs.Renew(due.value) else Jobs.Round;
      }
      Jobs.QuietlyNext(s, Idle(j), m);
    }
  }

  lemma RoundIsSerial(s: Jobs.Serial, j: Job, r: Surroundings)
    requires Jobs.QuietlyReaches(s, Idle(j))
    ensures Jobs.QuietlyReaches(s, Idle(BeginRound(j, r).0))
  {
    hide Jobs.QuietlyReaches, JobBeginConfirmation, BeginCadence, JobPhaseOf;
    CadenceIsRound(s, j, r);
    var begun := BeginRound(j, r).0;
    if JobPhaseOf(j) == JobInstalled && r.nowUi.Some? && r.startInputs.Some? {
      Jobs.QuietlyNext(s, Idle(j), Jobs.OpenConfirmation(r.nowUi.value, r.startInputs.value));
    }
  }

  lemma PrepareIsSerial(j: Job, r: Surroundings)
    ensures Jobs.QuietlyReaches(Idle(j), AsSerial(PrepareNext(j, r)))
  {
    hide Jobs.QuietlyReaches, Emit, BeginRound;
    Jobs.QuietlyItself(Idle(j));
    EmitIsAsk(Idle(j), j);
    var first := Emit(j);
    if first.next.Ok? && first.next.value.None? {
      RoundIsSerial(Idle(j), first.job, r);
      EmitIsAsk(Idle(j), BeginRound(first.job, r).0);
    }
  }

  lemma FaultReaches(s: Jobs.Serial, t: Jobs.Serial, j: Job)
    requires Jobs.QuietlyReaches(s, t) && j == LiveJobModel.MarkFault(t.job)
    ensures Jobs.QuietlyReaches(s, Idle(j))
  {
    hide Jobs.QuietlyReaches;
    Jobs.QuietlyNext(s, t, Jobs.Fault);
  }

  /** What a launch leaves behind: the job in its entry, or the job and its request in a task. */
  ghost predicate LaunchShows(launch: Launch, t: Jobs.Serial) {
    if launch.1.Ok? && launch.1.value.Some?
    then t == Jobs.Serial(launch.1.value.value.retained.job, Some(launch.1.value.value.request))
    else launch.0.job.Some? && launch.0.job.value.IdleJob? && t == Idle(launch.0.job.value.retained.job)
  }

  lemma {:induction false} ReadyMeansIdleAndMatching(r: Runtime, bindings: seq<Binding>, b: Binding)
    requires ReadinessOf(r, bindings) == AllReady && b in bindings
    ensures b.connectionId in r.devices && r.devices[b.connectionId].IdleDevice? && Matches(r.devices[b.connectionId].state, b)
  {
    if b != bindings[0] {
      ReadyMeansIdleAndMatching(r, bindings[1..], b);
    }
  }

  /** With every bound device ready the prepared request is never given back. */
  lemma LaunchRequestIsSerial(s: Jobs.Serial, r: Runtime, retained: RetainedJob, request: Request) returns (t: Jobs.Serial)
    requires Jobs.QuietlyReaches(s, Jobs.Serial(retained.job, Some(request)))
    requires ReadinessOf(r, retained.bindings) == AllReady
    ensures Jobs.QuietlyReaches(s, t) && LaunchShows(LaunchRequest(r, retained, request), t)
  {
    hide Jobs.QuietlyReaches, LiveJobModel.MarkFault, ReadinessOf;
    FaultReaches(s, Jobs.Serial(retained.job, Some(request)), LiveJobModel.MarkFault(retained.job));
    var binding := BindingFor(retained.bindings, request.deviceId);
    if binding.Some? {
      ReadyMeansIdleAndMatching(r, retained.bindings, binding.value);
    }
    t := if binding.Some? then Jobs.Serial(retained.job, Some(request)) else Idle(LiveJobModel.MarkFault(retained.job));
  }

  lemma TakeIsSerial(r: Runtime, x: Surroundings) returns (t: Jobs.Serial)
    requires r.job.Some? && r.job.value.IdleJob?
    ensures Jobs.QuietlyReaches(Idle(r.job.value.retained.job), t) && LaunchShows(TakeLiveJobTask(r, x), t)
  {
    hide Jobs.QuietlyReaches, PrepareNext, ReadinessOf, JobTerminal, LaunchRequest, LiveJobModel.MarkFault;
    var retained := r.job.value.retained;
    var s := Idle(retained.job);
    Jobs.QuietlyItself(s);
    FaultReaches(s, s, LiveJobModel.MarkFault(retained.job));
    var prepared := PrepareNext(retained.job, x);
    PrepareIsSerial(retained.job, x);
    FaultReaches(s, AsSerial(prepared), LiveJobModel.MarkFault(prepared.job));
    t := s;
    if JobTerminal(retained.job) || ReadinessOf(r, retained.bindings) == NotReady {
    } else if ReadinessOf(r, retained.bindings) == Mismatched {
      t := Idle(LiveJobModel.MarkFault(retained.job));
    } else if prepared.next.Ok? && prepared.next.value.Some? {
      t := LaunchRequestIsSerial(s, r, retained.(job := prepared.job), prepared.next.value.value);
    } else if prepared.next.Ok? {
      t := Idle(prepared.job);
    } else {
      t := Idle(LiveJobModel.MarkFault(prepared.job));
    }
  }

  lemma StartIsSerial(r: Runtime, x: Surroundings) returns (t: Jobs.Serial)
    requires r.job.Some? && r.job.value.IdleJob?
    ensures Jobs.QuietlyReaches(Idle(r.job.value.retained.job), t)
    ensures var after := BeginPendingJobStart(r, x).0;
            after.job.Some? && after.job.value.IdleJob? && t == Idle(after.job.value.retained.job)
  {
    hide Jobs.QuietlyReaches, LiveJobModel.BeginStart, LiveJobModel.MarkFault, JobPhaseOf, AllIdle;
    var j := r.job.value.retained.job;
    var s := Idle(j);
    Jobs.QuietlyItself(s);
    if x.nowUi.Some? && x.startInputs.Some? && x.nowUi.value + START_LEAD_NS <= U64_MAXIMUM {
      Jobs.QuietlyNext(s, s, Jobs.Start(x.nowUi.value, x.nowUi.value + START_LEAD_NS, x.startInputs.value, x.encodes));
    }
    var bound := BindFrom(j, x).0;
    assert Jobs.QuietlyReaches(s, Idle(bound));
    FaultReaches(s, Idle(bound), LiveJobModel.MarkFault(bound));
    t := Idle(BeginPendingJobStart(r, x).0.job.value.retained.job);
  }

  lemma PerformedIsSerial(o: JobTask, answer: Option<Response>)
    ensures Jobs.Reaches(Jobs.Serial(o.retained.job, Some(o.request)), Idle(Performed(o, answer).job))
  {
    hide Jobs.Reaches, JobAccept, JobAbandon;
    var s := Jobs.Serial(o.retained.job, Some(o.request));
    Jobs.ReachesItself(s);
    Jobs.ReachesNext(s, s, if answer.Some? then Jobs.Answer(answer.value) else Jobs.Lose);
  }

  lemma StopIsSerial(r: Runtime, jobId: nat)
    requires r.job.Some? && r.job.value.IdleJob?
    ensures var after := StopJob(r, jobId).0;
            && after.job.Some? && after.job.value.IdleJob?
            && Jobs.Reaches(Idle(r.job.value.retained.job), Idle(after.job.value.retained.job))
  {
    hide Jobs.Reaches, RequestStop;
    var s := Idle(r.job.value.retained.job);
    Jobs.ReachesItself(s);
    Jobs.ReachesNext(s, s, Jobs.Stop);
  }

  /** The job survives the event unless it is cleared, and then it has only moved along a serial run. */
  ghost predicate Follows(s: Jobs.Serial, t: World) {
    t.r.job.Some? ==> exists u :: Shows(t, u) && Jobs.Reaches(s, u)
  }

  lemma FollowsBy(s: Jobs.Serial, t: World, u: Jobs.Serial)
    requires Shows(t, u) && Jobs.Reaches(s, u)
    ensures Follows(s, t)
  {
  }

  /** A handler that touches neither the job nor its operation's task. */
  lemma UntouchedFollows(w: World, s: Jobs.Serial, t: World)
    requires Shows(w, s) && t.r.job == w.r.job
    requires forall k | k in w.tasks && w.tasks[k].OperationTask? :: k in t.tasks && t.tasks[k] == w.tasks[k]
    ensures Follows(s, t)
  {
    hide Jobs.Reaches;
    Jobs.ReachesItself(s);
    if w.r.job.value.BusyJob? {
      var k :| Carries(w, k, s);
      assert Carries(t, k, s);
    }
    FollowsBy(s, t, s);
  }

  lemma LaunchFollows(w: World, s: Jobs.Serial, x: Surroundings)
    requires Owned(w) && Shows(w, s)
    ensures Follows(s, After(w, LaunchOperation(x)))
  {
    hide Jobs.Reaches, TakeLiveJobTask, DevicesOwned, JobOwned;
    var t := After(w, LaunchOperation(x));
    TakeShape(w.r, x);
    var launch := TakeLiveJobTask(w.r, x);
    if w.r.job.value.IdleJob? {
      var u := TakeIsSerial(w.r, x);
      Jobs.QuietReachIsReach(s, u);
      if launch.1.Ok? && launch.1.value.Some? {
        assert Carries(t, w.nextTask, u);
      }
      FollowsBy(s, t, u);
    } else {
      UntouchedFollows(w, s, t);
    }
  }

  lemma FinishOperationFollows(w: World, s: Jobs.Serial, task: nat, answer: Option<Response>, returned: DeviceState)
    requires Owned(w) && Shows(w, s) && Allowed(w, FinishOperation(task, answer, returned))
    ensures Follows(s, After(w, FinishOperation(task, answer, returned)))
  {
    hide Jobs.Reaches, Performed, DevicesOwned;
    var o := w.tasks[task].operation;
    OperationIsCurrent(w, task);
    var k :| Carries(w, k, s);
    assert k == task;
    PerformedIsSerial(o, answer);
    FollowsBy(s, After(w, FinishOperation(task, answer, returned)), Idle(Performed(o, answer).job));
  }

  lemma StopFollows(w: World, s: Jobs.Serial, jobId: nat)
    requires Shows(w, s)
    ensures Follows(s, w.(r := StopJob(w.r, jobId).0))
  {
    hide Jobs.Reaches, RequestStop;
    var t := w.(r := StopJob(w.r, jobId).0);
    if w.r.job.value.IdleJob? {
      StopIsSerial(w.r, jobId);
      FollowsBy(s, t, Idle(t.r.job.value.retained.job));
    } else {
      UntouchedFollows(w, s, t);
    }
  }

  lemma StartFollows(w: World, s: Jobs.Serial, x: Surroundings)
    requires Shows(w, s)
    ensures Follows(s, w.(r := BeginPendingJobStart(w.r, x).0))
  {
    hide Jobs.Reaches, BeginPendingJobStart;
    var t := w.(r := BeginPendingJobStart(w.r, x).0);
    if w.r.job.value.IdleJob? {
      var u := StartIsSerial(w.r, x);
      Jobs.QuietReachIsReach(s, u);
      FollowsBy(s, t, u);
    } else {
      assert t.r.job == w.r.job by { BusyWaits(w.r, x); }
      UntouchedFollows(w, s, t);
    }
  }

  lemma BusyWaits(r: Runtime, x: Surroundings)
    requires r.job.Some? && r.job.value.BusyJob?
    ensures BeginPendingJobStart(r, x).0 == r
  {
  }

  lemma EventFollows(w: World, s: Jobs.Serial, e: Event)
    requires Owned(w) && Shows(w, s) && Allowed(w, e)
    ensures Follows(s, After(w, e))
  {
    hide Owned, Follows, Shows, TakeLiveJobTask, BeginPendingJobStart, StopJob, Performed, LiveJobModel.MarkFault;
    match e
    case LaunchOperation(x) => LaunchFollows(w, s, x);
    case FinishOperation(task, answer, returned) => FinishOperationFollows(w, s, task, answer, returned);
    case StopCachedJob(jobId) => StopFollows(w, s, jobId);
    case BeginStart(x) => StartFollows(w, s, x);
    case ClearCachedJob(jobId) => ClearFollows(w, s, jobId);
    case StageCachedJob(retained, authorized) =>
      ShownIsRetained(w, s);
      UntouchedFollows(w, s, After(w, e));
    case LaunchDevice(c) =>
      FreshTask(w);
      UntouchedFollows(w, s, After(w, e));
    case _ => UntouchedFollows(w, s, After(w, e));
  }

  lemma ShownIsRetained(w: World, s: Jobs.Serial)
    requires Shows(w, s)
    ensures w.r.job.Some?
  {
  }

  lemma FreshTask(w: World)
    requires Owned(w)
    ensures w.nextTask !in w.tasks
  {
  }

  lemma ClearFollows(w: World, s: Jobs.Serial, jobId: nat)
    requires Shows(w, s)
    ensures Follows(s, w.(r := ClearJob(w.r, jobId).0))
  {
    hide Jobs.Reaches, JobTerminal;
    if ClearJob(w.r, jobId).0.job.Some? {
      UntouchedFollows(w, s, w.(r := ClearJob(w.r, jobId).0));
    }
  }

  /** Over every interleaving, a job retained from `from` to `to` has moved along one serial run of its own. */
  lemma {:induction false} WorkerDrivesJobSerially(
    run: seq<World>, events: seq<Event>, from: nat, to: nat, s: Jobs.Serial)
    requires IsWorkerRun(run, events) && from <= to <= |events| && Shows(run[from], s)
    requires forall k | from <= k <= to :: run[k].r.job.Some?
    ensures exists t :: Shows(run[to], t) && Jobs.Reaches(s, t)
  {
    hide After, Allowed, Shows, Jobs.Reaches;
    if from == to {
      Jobs.ReachesItself(s);
    } else {
      WorkerDrivesJobSerially(run, events, from, to - 1, s);
      var t :| Shows(run[to - 1], t) && Jobs.Reaches(s, t);
      RunsKeepOwned(run, events, to - 1);
      assert run[to] == After(run[to - 1], events[to - 1]);
      EventFollows(run[to - 1], t, events[to - 1]);
      var u :| Shows(run[to], u) && Jobs.Reaches(t, u);
      Jobs.ReachesTransitively(s, t, u);
    }
  }

  /** The worker found nothing to send, and a lease round is due. */
  ghost predicate RoundIsDue(j: Job, idle: Job, x: Surroundings) {
    && NextOperation(j) == (idle, Ok(None))
    && idle.terminalOverride.None? && JobPhaseOf(idle) in {JobConfirmed, JobIrrevocable}
    && x.nowUi.Some?
    && RenewalIfDue(idle, x.nowUi.value, ClocksOf(idle, x)).Ok?
    && RenewalIfDue(idle, x.nowUi.value, ClocksOf(idle, x)).value.Some?
  }

  /**
   * A due round faults the whole job exactly when a stop was accepted, or a participant awaits an answer nobody can
   * bring, or some participant is past the phases that can be renewed (complete, say) while the others still run.
   */
  lemma DueRenewalFaultsExactly(j: Job, idle: Job, x: Surroundings)
    requires WellFormed(idle.c) && RoundIsDue(j, idle, x)
    ensures PrepareNext(j, x).next.Err? <==>
              || idle.stopRequested
              || AnyPending(idle.c.participants)
              || exists i | 0 <= i < |idle.c.participants| :: !Renewable(idle.c.participants[i])
  {
    hide GlobalPhaseOf, Renewable, RenewalIfDue, AnyPending, JobBeginLeaseRenewal;
    SilentJobIsIdle(j, idle);
    LivePhase(idle);
    DueRenewalIsAdmittedExactly(idle, x.nowUi.value, ClocksOf(idle, x));
    DueMeansAttended(idle, x.nowUi.value, ClocksOf(idle, x));
    DueIsBegun(j, idle, x);
    var renewals := RenewalIfDue(idle, x.nowUi.value, ClocksOf(idle, x)).value.value;
    if JobBeginLeaseRenewal(idle, renewals).1.Ok? {
      RenewalThenAsk(idle, renewals);
    }
  }

  /** A preparation that fails takes the retained job with it. */
  lemma FailedPreparationFaultsTheJob(r: Runtime, x: Surroundings)
    requires r.job.Some? && r.job.value.IdleJob? && !JobTerminal(r.job.value.retained.job)
    requires ReadinessOf(r, r.job.value.retained.bindings) == AllReady
    requires PrepareNext(r.job.value.retained.job, x).next.Err?
    ensures var (t, launched) := TakeLiveJobTask(r, x);
            && launched.Err? && t.job.Some? && t.job.value.IdleJob?
            && JobPhaseOf(t.job.value.retained.job) == JobFaulted
            && t.devices == r.devices
  {
    hide PrepareNext, ReadinessOf, JobTerminal;
  }

  lemma DueIsBegun(j: Job, idle: Job, x: Surroundings)
    requires RoundIsDue(j, idle, x) && idle.c.policy == NetworkAttended
    ensures var (begun, result) :=
              JobBeginLeaseRenewal(idle, RenewalIfDue(idle, x.nowUi.value, ClocksOf(idle, x)).value.value);
            PrepareNext(j, x).next.Err? <==> (result.Err? || NextOperation(begun).1.Err?)
  {
    hide NextOperation, JobBeginLeaseRenewal, RenewalIfDue, JobPhaseOf;
    assert Emit(j) == Preparation(idle, Ok(None));
    assert BeginRound(idle, x) == BeginCadence(idle, x);
    var (begun, result) :=
      JobBeginLeaseRenewal(idle, RenewalIfDue(idle, x.nowUi.value, ClocksOf(idle, x)).value.value);
    assert BeginCadence(idle, x).1.Err? == result.Err? && BeginCadence(idle, x).0 == begun;
  }

  /** A job that has nothing to send holds no queue and no sweep. */
  lemma SilentJobIsIdle(j: Job, idle: Job)
    requires NextOperation(j) == (idle, Ok(None)) && idle.terminalOverride.None?
    ensures idle.queue == [] && !idle.sweepRequired
  {
    hide NextRequest, CoordinatorModel.BeginStatusRound;
    Jobs.StatusRoundEffect(j.c);
  }

  lemma LivePhase(j: Job)
    requires j.terminalOverride.None? && JobPhaseOf(j) in {JobConfirmed, JobIrrevocable}
    ensures GlobalPhaseOf(j.c) in {GConfirmed, GIrrevocable}
  {
    hide GlobalPhaseOf;
  }

  lemma DueMeansAttended(j: Job, nowUi: u64, clocks: seq<LeaseClock>)
    requires |clocks| == |j.c.participants|
    requires RenewalIfDue(j, nowUi, clocks).Ok? && RenewalIfDue(j, nowUi, clocks).value.Some?
    ensures j.c.policy == NetworkAttended
  {
  }

  lemma RenewalThenAsk(j: Job, renewals: seq<LeaseRenewal>)
    requires WellFormed(j.c) && JobBeginLeaseRenewal(j, renewals).1.Ok?
    ensures NextOperation(JobBeginLeaseRenewal(j, renewals).0).1.Ok?
  {
    hide BeginLeaseRenewal, NextRequest, CoordinatorModel.BeginStatusRound, WellFormed;
    Jobs.RenewalRoundEffect(j.c, renewals);
    Jobs.NonEmpty(j.c);
    assert BeginLeaseRenewal(j.c, renewals).1.Ok?;
  }

  /**
   * A pending start is granted only to the very job it names, from Ready, with every bound device idle, and binds the
   * epoch one fixed lead ahead; a start that fails faults that job, and in either case the request is spent.
   */
  lemma PendingStartIsExact(r: Runtime, x: Surroundings)
    ensures var (t, result) := BeginPendingJobStart(r, x);
            && t.devices == r.devices && t.nextGeneration == r.nextGeneration
            && (result == Ok(true) ==>
                  && r.job.Some? && r.job.value.IdleJob? && r.pendingStart == Some(r.job.value.retained.jobId)
                  && JobPhaseOf(r.job.value.retained.job) == JobReady && AllIdle(r, r.job.value.retained.bindings)
                  && t.pendingStart.None? && t.job.Some? && t.job.value.IdleJob? && x.nowUi.Some?
                  && t.job.value.retained.job.c.target == Some(x.nowUi.value + 5_000_000_000)
                  && t.job.value.retained.job.c.intent == InstallIntent)
            && (result.Err? && r.job.Some? && r.job.value.IdleJob? && r.pendingStart == Some(r.job.value.retained.jobId)
                && JobPhaseOf(r.job.value.retained.job) == JobReady ==>
                  && t.pendingStart.None? && t.job.Some? && t.job.value.IdleJob?
                  && JobPhaseOf(t.job.value.retained.job) == JobFaulted)
            && (result == Ok(false) ==> t == r)
  {
    hide GlobalPhaseOf, PlanCommits, Planned;
  }
}
