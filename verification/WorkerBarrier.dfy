/** The loss barrier over every interleaving of the worker: no mutation leaves before everyone answered a later status. */
module WorkerBarrier {
  import opened Wrappers
  import opened ParticipantSchedule
  import opened CoordinatorModel
  import opened LiveJobModel
  import opened WorkerModel
  import opened WorkerRuns
  import opened WorkerJobRuns
  import Jobs = LiveJobRuns

  /** The retained job keeps the barrier of its serial run, with these devices still owing an answer. */
  ghost predicate Guarded(w: World, owed: set<nat>, devices: set<nat>) {
    w.r.job.Some? ==> exists s :: Guards(w, s, owed, devices)
  }

  ghost predicate Guards(w: World, s: Jobs.Serial, owed: set<nat>, devices: set<nat>) {
    Shows(w, s) && Jobs.SerialInv(s, owed) && Jobs.Devices(s.job.c) == devices
  }

  ghost predicate Finishes(w: World, e: Event) {
    e.FinishOperation? && e.task in w.tasks && w.tasks[e.task].OperationTask?
  }

  /** The finished operation was lost: every device owes an answer again. */
  ghost predicate LosesOperation(w: World, e: Event) {
    Finishes(w, e) && e.answer.None?
  }

  /** The finished operation was a status request to `d`, and it was answered. */
  ghost predicate AnswersStatus(w: World, e: Event, d: nat) {
    Finishes(w, e) && e.answer.Some? && w.tasks[e.task].operation.request == Request(d, JobStatus)
  }

  ghost function OwedBy(w: World, e: Event, owed: set<nat>): set<nat> {
    if LosesOperation(w, e) then Jobs.Devices(w.tasks[e.task].operation.retained.job.c)
    else set d | d in owed && !AnswersStatus(w, e, d)
  }

  /** A stop finds the job with nothing left of a round. */
  ghost predicate StopsBetweenRounds(w: World, e: Event) {
    e.StopCachedJob? && w.r.job.Some? && w.r.job.value.IdleJob? ==> w.r.job.value.retained.job.queue == []
  }

  lemma FinishGuards(w: World, s: Jobs.Serial, e: Event, owed: set<nat>, devices: set<nat>)
    requires Owned(w) && Allowed(w, e) && e.FinishOperation? && Guards(w, s, owed, devices)
    ensures Guarded(After(w, e), OwedBy(w, e, owed), devices)
    ensures LosesOperation(w, e) ==> Jobs.Devices(w.tasks[e.task].operation.retained.job.c) == devices
  {
    hide DevicesOwned, Jobs.SerialInv, Jobs.After, Jobs.Devices, Performed;
    var o := w.tasks[e.task].operation;
    OperationIsCurrent(w, e.task);
    var k :| Carries(w, k, s);
    assert k == e.task;
    var m := if e.answer.Some? then Jobs.Answer(e.answer.value) else Jobs.Lose;
    Jobs.MoveKeepsInv(s, m, owed);
    PerformedByMove(s, o, e.answer);
    Jobs.InvIsWellFormed(s, owed);
    Jobs.MoveKeepsParticipants(s, m);
    Jobs.SameParticipantsSameDevices(s.job.c, Jobs.After(s, m).job.c);
    SameDebt(s, o, e, w, owed);
    assert Guards(After(w, e), Jobs.After(s, m), OwedBy(w, e, owed), devices);
  }

  lemma PerformedByMove(s: Jobs.Serial, o: JobTask, answer: Option<Response>)
    requires s == Jobs.Serial(o.retained.job, Some(o.request))
    ensures Jobs.After(s, if answer.Some? then Jobs.Answer(answer.value) else Jobs.Lose) == Idle(Performed(o, answer).job)
  {
    hide JobAccept, JobAbandon;
  }

  lemma SameDebt(s: Jobs.Serial, o: JobTask, e: Event, w: World, owed: set<nat>)
    requires Finishes(w, e) && w.tasks[e.task].operation == o && s == Jobs.Serial(o.retained.job, Some(o.request))
    ensures Jobs.OwedAfter(s, if e.answer.Some? then Jobs.Answer(e.answer.value) else Jobs.Lose, owed) == OwedBy(w, e, owed)
  {
    hide Jobs.Devices;
    if e.answer.Some? {
      forall d | d in owed
        ensures AnswersStatus(w, e, d) <==> o.request.operation == JobStatus && d == o.request.deviceId
      {
      }
    }
  }

  lemma QuietGuards(t: World, s: Jobs.Serial, u: Jobs.Serial, owed: set<nat>, devices: set<nat>)
    requires Jobs.QuietlyReaches(s, u) && Shows(t, u)
    requires Jobs.SerialInv(s, owed) && Jobs.Devices(s.job.c) == devices
    ensures Guarded(t, owed, devices)
  {
    hide Shows, Jobs.SerialInv, Jobs.Devices, Jobs.QuietlyReaches;
    Jobs.QuietReachKeepsInv(s, u, owed);
    assert Guards(t, u, owed, devices);
  }

  lemma UntouchedGuards(w: World, t: World, owed: set<nat>, devices: set<nat>)
    requires Guarded(w, owed, devices) && t.r.job == w.r.job
    requires forall k | k in w.tasks && w.tasks[k].OperationTask? :: k in t.tasks && t.tasks[k] == w.tasks[k]
    ensures Guarded(t, owed, devices)
  {
    hide Jobs.SerialInv, Jobs.Devices;
    if w.r.job.Some? {
      var s :| Guards(w, s, owed, devices);
      if w.r.job.value.BusyJob? {
        var k :| Carries(w, k, s);
        assert Carries(t, k, s);
      }
      assert Guards(t, s, owed, devices);
    }
  }

  lemma LaunchGuards(w: World, x: Surroundings, owed: set<nat>, devices: set<nat>)
    requires Owned(w) && w.r.job.Some? && Guarded(w, owed, devices)
    ensures Guarded(After(w, LaunchOperation(x)), owed, devices)
  {
    hide TakeLiveJobTask, DevicesOwned, JobOwned, Jobs.SerialInv, Jobs.Devices, Jobs.QuietlyReaches;
    var t := After(w, LaunchOperation(x));
    TakeShape(w.r, x);
    var launch := TakeLiveJobTask(w.r, x);
    if w.r.job.value.IdleJob? {
      var s :| Guards(w, s, owed, devices);
      var u := TakeIsSerial(w.r, x);
      if launch.1.Ok? && launch.1.value.Some? {
        assert Carries(t, w.nextTask, u);
      }
      QuietGuards(t, s, u, owed, devices);
    } else {
      UntouchedGuards(w, t, owed, devices);
    }
  }

  lemma StartGuards(w: World, x: Surroundings, owed: set<nat>, devices: set<nat>)
    requires w.r.job.Some? && Guarded(w, owed, devices)
    ensures Guarded(w.(r := BeginPendingJobStart(w.r, x).0), owed, devices)
  {
    hide BeginPendingJobStart, Jobs.SerialInv, Jobs.Devices, Jobs.QuietlyReaches;
    var t := w.(r := BeginPendingJobStart(w.r, x).0);
    if w.r.job.value.IdleJob? {
      var s :| Guards(w, s, owed, devices);
      var u := StartIsSerial(w.r, x);
      QuietGuards(t, s, u, owed, devices);
    } else {
      BusyWaits(w.r, x);
    }
  }

  lemma StopGuards(w: World, jobId: nat, owed: set<nat>, devices: set<nat>)
    requires w.r.job.Some? && Guarded(w, owed, devices) && StopsBetweenRounds(w, StopCachedJob(jobId))
    ensures Guarded(w.(r := StopJob(w.r, jobId).0), owed, devices)
  {
    hide RequestStop, Jobs.SerialInv, Jobs.Devices, Jobs.After;
    var t := w.(r := StopJob(w.r, jobId).0);
    if t.r.job == w.r.job {
      UntouchedGuards(w, t, owed, devices);
    } else {
      var s :| Guards(w, s, owed, devices);
      Jobs.MoveKeepsInv(s, Jobs.Stop, owed);
      Jobs.InvIsWellFormed(s, owed);
      Jobs.MoveKeepsParticipants(s, Jobs.Stop);
      Jobs.SameParticipantsSameDevices(s.job.c, Jobs.After(s, Jobs.Stop).job.c);
      StopIsMove(s, w.r, jobId);
      assert Guards(t, Jobs.After(s, Jobs.Stop), owed, devices);
    }
  }

  lemma StopIsMove(s: Jobs.Serial, r: Runtime, jobId: nat)
    requires r.job.Some? && r.job.value.IdleJob? && s == Idle(r.job.value.retained.job) && StopJob(r, jobId).0.job != r.job
    ensures StopJob(r, jobId).0.job.Some? && StopJob(r, jobId).0.job.value.IdleJob?
    ensures Jobs.After(s, Jobs.Stop) == Idle(StopJob(r, jobId).0.job.value.retained.job)
  {
    hide RequestStop;
  }

  lemma EventGuards(w: World, e: Event, owed: set<nat>, devices: set<nat>)
    requires Owned(w) && Allowed(w, e) && w.r.job.Some? && After(w, e).r.job.Some?
    requires Guarded(w, owed, devices) && StopsBetweenRounds(w, e)
    ensures Guarded(After(w, e), OwedBy(w, e, owed), devices)
    ensures LosesOperation(w, e) ==> Jobs.Devices(w.tasks[e.task].operation.retained.job.c) == devices
  {
    hide Owned, TakeLiveJobTask, BeginPendingJobStart, StopJob, Performed, LiveJobModel.MarkFault, Guarded, Jobs.Devices,
         FinishLiveJobStep;
    assert !e.FinishOperation? ==> OwedBy(w, e, owed) == owed;
    match e
    case FinishOperation(_, _, _) =>
      var s := Guard(w, owed, devices);
      FinishGuards(w, s, e, owed, devices);
    case LaunchOperation(x) => LaunchGuards(w, x, owed, devices);
    case StopCachedJob(jobId) => StopGuards(w, jobId, owed, devices);
    case BeginStart(x) => StartGuards(w, x, owed, devices);
    case LaunchDevice(c) =>
      FreshTask(w);
      UntouchedGuards(w, After(w, e), owed, devices);
    case _ => UntouchedGuards(w, After(w, e), owed, devices);
  }

  lemma Guard(w: World, owed: set<nat>, devices: set<nat>) returns (s: Jobs.Serial)
    requires w.r.job.Some? && Guarded(w, owed, devices)
    ensures Guards(w, s, owed, devices)
  {
    s :| Guards(w, s, owed, devices);
  }

  // ---- Runs -------------------------------------------------------------------------------

  /** From `from` on one job is retained, held in its entry with nothing begun, and never stopped inside a round. */
  ghost predicate OrderlyStretch(run: seq<World>, events: seq<Event>, from: nat, to: nat) {
    && IsWorkerRun(run, events) && from <= to <= |events|
    && (forall k | from <= k <= to :: run[k].r.job.Some?)
    && (forall k | from <= k < to :: StopsBetweenRounds(run[k], events[k]))
    && run[from].r.job.value.IdleJob?
    && run[from].r.job.value.retained.job.queue == []
    && Jobs.Tracked(run[from].r.job.value.retained.job.c, [])
  }

  /** Devices that have answered no status request since the latest loss in this stretch. */
  ghost function OwedIn(run: seq<World>, events: seq<Event>, from: nat, n: nat): set<nat>
    requires from <= n <= |events| && |run| == |events| + 1
  {
    if n == from then {} else OwedBy(run[n - 1], events[n - 1], OwedIn(run, events, from, n - 1))
  }

  lemma StretchStarts(run: seq<World>, events: seq<Event>, from: nat, to: nat)
    requires OrderlyStretch(run, events, from, to)
    ensures Guarded(run[from], {}, Jobs.Devices(run[from].r.job.value.retained.job.c))
  {
    hide Jobs.Devices, IsWorkerRun, Jobs.Tracked;
    StretchBounds(run, events, from, to);
    var s := Idle(run[from].r.job.value.retained.job);
    assert Jobs.Begun(s) == [];
    Jobs.TrackedIsWellFormed(s.job.c, []);
    assert Guards(run[from], s, {}, Jobs.Devices(s.job.c));
  }

  lemma {:induction false} StretchStaysGuarded(run: seq<World>, events: seq<Event>, from: nat, to: nat, n: nat)
    requires OrderlyStretch(run, events, from, to) && from <= n <= to
    ensures Guarded(run[n], OwedIn(run, events, from, n), Jobs.Devices(run[from].r.job.value.retained.job.c))
  {
    hide After, Allowed, Guarded, Jobs.Devices, OwedBy, StopsBetweenRounds, Jobs.Tracked;
    if n == from {
      StretchStarts(run, events, from, to);
    } else {
      StretchStaysGuarded(run, events, from, to, n - 1);
      RunsKeepOwned(run, events, n - 1);
      assert run[n] == After(run[n - 1], events[n - 1]);
      EventGuards(run[n - 1], events[n - 1], OwedIn(run, events, from, n - 1),
                  Jobs.Devices(run[from].r.job.value.retained.job.c));
    }
  }

  lemma LossIsOfAll(run: seq<World>, events: seq<Event>, from: nat, to: nat, n: nat)
    requires OrderlyStretch(run, events, from, to) && from <= n < to && LosesOperation(run[n], events[n])
    ensures OwedIn(run, events, from, n + 1) == Jobs.Devices(run[from].r.job.value.retained.job.c)
  {
    hide After, Allowed, Guarded, Jobs.Devices, StopsBetweenRounds, Jobs.Tracked, LosesOperation;
    StretchStaysGuarded(run, events, from, to, n);
    RunsKeepOwned(run, events, n);
    assert run[n + 1] == After(run[n], events[n]);
    EventGuards(run[n], events[n], OwedIn(run, events, from, n), Jobs.Devices(run[from].r.job.value.retained.job.c));
  }

  lemma {:induction false} SettledByStatus(
    run: seq<World>, events: seq<Event>, from: nat, to: nat, lost: nat, n: nat, d: nat) returns (k: nat)
    requires OrderlyStretch(run, events, from, to) && from <= lost < n <= to && LosesOperation(run[lost], events[lost])
    requires d in Jobs.Devices(run[from].r.job.value.retained.job.c) && d !in OwedIn(run, events, from, n)
    ensures lost < k < n && AnswersStatus(run[k], events[k], d)
    decreases n
  {
    hide OrderlyStretch, Jobs.Devices, LosesOperation, AnswersStatus;
    StretchBounds(run, events, from, to);
    if LosesOperation(run[n - 1], events[n - 1]) {
      LossIsOfAll(run, events, from, to, n - 1);
    }
    if d in OwedIn(run, events, from, n - 1) {
      k := n - 1;
    } else {
      k := SettledByStatus(run, events, from, to, lost, n - 1, d);
    }
  }

  lemma StretchBounds(run: seq<World>, events: seq<Event>, from: nat, to: nat)
    requires OrderlyStretch(run, events, from, to)
    ensures from <= to <= |events| && |run| == |events| + 1 && run[from].r.job.Some? && run[from].r.job.value.IdleJob?
  {
  }

  /** The operation a launch sends out, if any. */
  function Launched(w: World, e: Event): Option<Request> {
    if e.LaunchOperation? then
      var launch := TakeLiveJobTask(w.r, e.surroundings).1;
      if launch.Ok? && launch.value.Some? then Some(launch.value.value.request) else None
    else None
  }

  lemma MutationLeavesNoDebt(w: World, e: Event, owed: set<nat>, devices: set<nat>)
    requires Owned(w) && e.LaunchOperation? && w.r.job.Some? && Guarded(After(w, e), owed, devices)
    requires Jobs.Mutating(Launched(w, e))
    ensures owed == {}
  {
    hide TakeLiveJobTask, DevicesOwned, JobOwned, Jobs.Devices, Jobs.Tracked, Jobs.SerialInv;
    TakeShape(w.r, e.surroundings);
    var t := After(w, e);
    assert Owned(t) by {
      EventKeepsOwned(w, e);
    }
    var s :| Guards(t, s, owed, devices);
    var k :| Carries(t, k, s);
    OneOperation(t, k, w.nextTask);
    assert s.outstanding == Launched(w, e);
    OutstandingMutation(s, owed);
  }

  lemma OneOperation(w: World, k: nat, l: nat)
    requires Owned(w) && k in w.tasks && l in w.tasks && w.tasks[k].OperationTask? && w.tasks[l].OperationTask?
    ensures k == l
  {
  }

  lemma OutstandingMutation(s: Jobs.Serial, owed: set<nat>)
    requires Jobs.SerialInv(s, owed) && Jobs.Mutating(s.outstanding)
    ensures owed == {}
  {
    assert Jobs.Begun(s)[0] == s.outstanding.value;
    assert Jobs.Begun(s)[0] in Jobs.Begun(s);
  }

  /**
   * Over every interleaving: between an operation that was lost and the next mutation the worker launches for the same
   * job, every one of its participants has answered a status request, as long as no stop comes inside a round.
   */
  lemma WorkerLossBarrier(run: seq<World>, events: seq<Event>, from: nat, lost: nat, asked: nat)
    requires OrderlyStretch(run, events, from, asked + 1) && from <= lost < asked
    requires LosesOperation(run[lost], events[lost]) && Jobs.Mutating(Launched(run[asked], events[asked]))
    ensures forall d <- Jobs.Devices(run[from].r.job.value.retained.job.c) ::
              exists k | lost < k < asked :: AnswersStatus(run[k], events[k], d)
  {
    hide After, Allowed, Guarded, Jobs.Devices, Launched, AnswersStatus, LosesOperation, Jobs.Tracked, StopsBetweenRounds;
    var devices := Jobs.Devices(run[from].r.job.value.retained.job.c);
    StretchStaysGuarded(run, events, from, asked + 1, asked + 1);
    RunsKeepOwned(run, events, asked);
    LaunchedIsLaunch(run[asked], events[asked]);
    assert run[asked + 1] == After(run[asked], events[asked]);
    MutationLeavesNoDebt(run[asked], events[asked], OwedIn(run, events, from, asked + 1), devices);
    LaunchKeepsDebt(run[asked], events[asked], OwedIn(run, events, from, asked));
    forall d | d in devices
      ensures exists k | lost < k < asked :: AnswersStatus(run[k], events[k], d)
    {
      var k := SettledByStatus(run, events, from, asked + 1, lost, asked, d);
    }
  }

  lemma LaunchedIsLaunch(w: World, e: Event)
    requires Jobs.Mutating(Launched(w, e))
    ensures e.LaunchOperation?
  {
  }

  lemma LaunchKeepsDebt(w: World, e: Event, owed: set<nat>)
    requires e.LaunchOperation?
    ensures OwedBy(w, e, owed) == owed
  {
  }
}
