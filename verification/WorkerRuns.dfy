/** Every interleaving of worker commands and task completions: nobody's state is lost or overwritten. */
module WorkerRuns {
  import opened Wrappers
  import opened ParticipantSchedule
  import opened CoordinatorModel
  import opened LiveJobModel
  import opened WorkerModel

  /** A live asynchronous task and the state it carries. */
  datatype Task =
    | DeviceTask(connectionId: nat, generation: nat, state: DeviceState)
    | OperationTask(operation: JobTask)

  function ConnectionOf(t: Task): nat {
    match t
    case DeviceTask(connectionId, _, _) => connectionId
    case OperationTask(operation) => operation.binding.connectionId
  }

  function TaskGeneration(t: Task): nat {
    match t
    case DeviceTask(_, generation, _) => generation
    case OperationTask(operation) => operation.binding.generation
  }

  function CarriedState(t: Task): DeviceState {
    match t
    case DeviceTask(_, _, state) => state
    case OperationTask(operation) => operation.state
  }

  /** The runtime and the live tasks; `nextTask` only names them apart. */
  datatype World = World(r: Runtime, tasks: map<nat, Task>, nextTask: nat)

  datatype Event =
    | ConfigureDevice(connectionId: nat, wellFormed: bool, accepted: bool)
    | DisconnectDevice(connectionId: nat)
    | EditIdleDevice(state: DeviceState)
    | LaunchDevice(connectionId: nat)
    | FinishDevice(task: nat, returned: DeviceState)
    | StageCachedJob(retained: RetainedJob, authorized: bool)
    | StartCachedJob(jobId: nat)
    | StopCachedJob(jobId: nat)
    | ClearCachedJob(jobId: nat)
    | BeginStart(surroundings: Surroundings)
    | LaunchOperation(surroundings: Surroundings)
    | FinishOperation(task: nat, answer: Option<Response>, returned: DeviceState)

  /** A task hands back its own connection and generation: no task assigns those two fields. */
  ghost predicate Allowed(w: World, e: Event) {
    match e
    case FinishDevice(task, returned) =>
      task in w.tasks && w.tasks[task].DeviceTask? && SameDevice(returned, w.tasks[task])
    case FinishOperation(task, _, returned) =>
      task in w.tasks && w.tasks[task].OperationTask? && SameDevice(returned, w.tasks[task])
    case EditIdleDevice(state) =>
      && state.connectionId in w.r.devices
      && w.r.devices[state.connectionId].IdleDevice?
      && state.generation == GenerationOf(w.r.devices[state.connectionId])
    case _ => true
  }

  predicate SameDevice(returned: DeviceState, t: Task) {
    returned.connectionId == ConnectionOf(t) && returned.generation == TaskGeneration(t)
  }

  function Spawn(w: World, r: Runtime, t: Task): World {
    World(r, w.tasks[w.nextTask := t], w.nextTask + 1)
  }

  function After(w: World, e: Event): World
    requires Allowed(w, e)
  {
    match e
    case ConfigureDevice(c, wellFormed, accepted) => w.(r := Configure(w.r, c, wellFormed, accepted).0)
    case DisconnectDevice(c) => w.(r := Disconnect(w.r, c).0)
    case EditIdleDevice(state) => w.(r := w.r.(devices := w.r.devices[state.connectionId := IdleDevice(state)]))
    case LaunchDevice(c) =>
      var (r, taken) := TakeIdleDevice(w.r, c);
      if taken.None? then w.(r := r) else Spawn(w, r, DeviceTask(c, taken.value.generation, taken.value))
    case FinishDevice(task, returned) =>
      var t := w.tasks[task];
      w.(r := FinishDeviceStep(w.r, t.connectionId, t.generation, returned).0, tasks := w.tasks - {task})
    case StageCachedJob(retained, authorized) => w.(r := StageJob(w.r, retained, authorized).0)
    case StartCachedJob(jobId) => w.(r := StartJob(w.r, jobId).0)
    case StopCachedJob(jobId) => w.(r := StopJob(w.r, jobId).0)
    case ClearCachedJob(jobId) => w.(r := ClearJob(w.r, jobId).0)
    case BeginStart(s) => w.(r := BeginPendingJobStart(w.r, s).0)
    case LaunchOperation(s) =>
      var (r, launched) := TakeLiveJobTask(w.r, s);
      if launched.Ok? && launched.value.Some? then Spawn(w, r, OperationTask(launched.value.value)) else w.(r := r)
    case FinishOperation(task, answer, returned) =>
      var o := w.tasks[task].operation;
      w.(r := FinishLiveJobStep(w.r, o.retained.jobId, o.binding.connectionId, o.binding.generation,
                                Performed(o, answer), returned).0,
         tasks := w.tasks - {task})
  }

  ghost predicate IsWorkerRun(run: seq<World>, events: seq<Event>) {
    && |run| == |events| + 1
    && run[0] == World(NewRuntime(), map[], 0)
    && forall k | 0 <= k < |events| :: Allowed(run[k], events[k]) && run[k + 1] == After(run[k], events[k])
  }

  // ---- Ownership --------------------------------------------------------------------------

  predicate EntrySound(c: nat, e: DeviceEntry, nextGeneration: nat) {
    && SnapshotOf(e).connectionId == c
    && SnapshotOf(e).generation == GenerationOf(e)
    && GenerationOf(e) < nextGeneration
  }

  /** The entry still waits for this very task. */
  predicate Current(r: Runtime, t: Task) {
    BusyWith(r, ConnectionOf(t), TaskGeneration(t))
  }

  /** The entry is gone or belongs to a later configuration of the connection. */
  predicate Stale(r: Runtime, t: Task) {
    ConnectionOf(t) in r.devices ==> TaskGeneration(t) < GenerationOf(r.devices[ConnectionOf(t)])
  }

  predicate SameOwner(t: Task, u: Task) {
    ConnectionOf(t) == ConnectionOf(u) && TaskGeneration(t) == TaskGeneration(u)
  }

  predicate BoundTo(r: Runtime, b: Binding) {
    b.connectionId in r.devices && GenerationOf(r.devices[b.connectionId]) == b.generation
  }

  /** Devices and tasks agree on who holds which state. */
  ghost predicate DevicesOwned(w: World) {
    && (forall c | c in w.r.devices :: EntrySound(c, w.r.devices[c], w.r.nextGeneration))
    && (forall k | k in w.tasks :: k < w.nextTask && SameDevice(CarriedState(w.tasks[k]), w.tasks[k]))
    && (forall k | k in w.tasks :: TaskGeneration(w.tasks[k]) < w.r.nextGeneration)
    && (forall k | k in w.tasks :: Current(w.r, w.tasks[k]) || Stale(w.r, w.tasks[k]))
    && (forall k, l | k in w.tasks && l in w.tasks && k != l :: !SameOwner(w.tasks[k], w.tasks[l]))
    && (forall c | c in w.r.devices && w.r.devices[c].BusyDevice? :: Held(w, c))
  }

  /** Some live task carries the state of this busy device. */
  ghost predicate Held(w: World, c: nat)
    requires c in w.r.devices
  {
    exists k :: k in w.tasks && ConnectionOf(w.tasks[k]) == c && TaskGeneration(w.tasks[k]) == GenerationOf(w.r.devices[c])
  }

  /** A busy job has exactly one operation task, which it bound; a retained job keeps its connections in place. */
  ghost predicate JobOwned(w: World) {
    && (w.r.job.Some? ==> forall b <- BindingsOf(w.r.job.value) :: BoundTo(w.r, b))
    && (forall k | k in w.tasks && w.tasks[k].OperationTask? :: OperationOwned(w.r, w.tasks[k].operation))
    && (forall k, l | k in w.tasks && l in w.tasks && w.tasks[k].OperationTask? && w.tasks[l].OperationTask? :: k == l)
    && (w.r.job.Some? && w.r.job.value.BusyJob? ==> exists k :: k in w.tasks && w.tasks[k].OperationTask?)
  }

  predicate OperationOwned(r: Runtime, o: JobTask) {
    && r.job == Some(BusyJob(o.retained.jobId, o.retained.bindings))
    && o.binding in o.retained.bindings
    && BusyWith(r, o.binding.connectionId, o.binding.generation)
  }

  ghost predicate Owned(w: World) {
    DevicesOwned(w) && JobOwned(w)
  }

  lemma ConfigureKeepsOwned(w: World, c: nat, wellFormed: bool, accepted: bool)
    requires Owned(w)
    ensures Owned(After(w, ConfigureDevice(c, wellFormed, accepted)))
  {
    hide DevicesOwned, JobOwned;
    ConfigureKeepsDevices(w, c, wellFormed, accepted);
    ConfigureKeepsJob(w, c, wellFormed, accepted);
  }

  lemma ConfigureKeepsDevices(w: World, c: nat, wellFormed: bool, accepted: bool)
    requires DevicesOwned(w)
    ensures DevicesOwned(w.(r := Configure(w.r, c, wellFormed, accepted).0))
  {
    var t := w.(r := Configure(w.r, c, wellFormed, accepted).0);
    forall d | d in t.r.devices && t.r.devices[d].BusyDevice? ensures Held(t, d) {
      assert Held(w, d);
    }
  }

  lemma ConfigureKeepsJob(w: World, c: nat, wellFormed: bool, accepted: bool)
    requires JobOwned(w)
    ensures JobOwned(w.(r := Configure(w.r, c, wellFormed, accepted).0))
  {
    var t := w.(r := Configure(w.r, c, wellFormed, accepted).0);
    if t.r.job.Some? {
      forall b | b in BindingsOf(t.r.job.value) ensures BoundTo(t.r, b) {
        assert BoundTo(w.r, b);
        BoundIsBinding(w.r, b);
      }
    }
    OperationsKeepTheirJob(w, t, c);
  }

  lemma BoundIsBinding(r: Runtime, b: Binding)
    requires r.job.Some? && b in BindingsOf(r.job.value)
    ensures Binds(r, b.connectionId)
  {
    var i :| 0 <= i < |BindingsOf(r.job.value)| && BindingsOf(r.job.value)[i] == b;
  }

  /** An operation's binding is protected, so changing an unbound connection does not touch it. */
  lemma OperationsKeepTheirJob(w: World, t: World, c: nat)
    requires JobOwned(w) && t.r.job == w.r.job && t.tasks == w.tasks
    requires !Binds(w.r, c) || t.r.devices == w.r.devices
    requires forall d | d != c :: (d in t.r.devices <==> d in w.r.devices) &&
                                  (d in w.r.devices ==> t.r.devices[d] == w.r.devices[d])
    ensures forall k | k in t.tasks && t.tasks[k].OperationTask? :: OperationOwned(t.r, t.tasks[k].operation)
  {
    forall k | k in t.tasks && t.tasks[k].OperationTask? ensures OperationOwned(t.r, t.tasks[k].operation) {
      assert OperationOwned(w.r, w.tasks[k].operation);
      BoundIsBinding(w.r, w.tasks[k].operation.binding);
    }
  }

  lemma DisconnectKeepsOwned(w: World, c: nat)
    requires Owned(w)
    ensures Owned(After(w, DisconnectDevice(c)))
  {
    hide TakeLiveJobTask, BeginPendingJobStart, StopJob, StageJob, StartJob, ClearJob, Performed;
    var t := After(w, DisconnectDevice(c));
    forall d | d in t.r.devices && t.r.devices[d].BusyDevice? ensures Held(t, d) {
      assert Held(w, d);
    }
    if t.r.job.Some? {
      forall b | b in BindingsOf(t.r.job.value) ensures BoundTo(t.r, b) {
        assert BoundTo(w.r, b);
        BoundIsBinding(w.r, b);
      }
    }
    OperationsKeepTheirJob(w, t, c);
  }

  /** Replacing an entry by one of the same generation keeps every binding in place. */
  lemma SameGenerationKeepsBindings(r: Runtime, c: nat, e: DeviceEntry)
    requires c in r.devices && GenerationOf(e) == GenerationOf(r.devices[c])
    ensures forall b | BoundTo(r, b) :: BoundTo(r.(devices := r.devices[c := e]), b)
  {
  }

  lemma EditKeepsOwned(w: World, state: DeviceState)
    requires Owned(w) && Allowed(w, EditIdleDevice(state))
    ensures Owned(After(w, EditIdleDevice(state)))
  {
    hide TakeLiveJobTask, BeginPendingJobStart, StopJob, StageJob, StartJob, ClearJob, Performed;
    var t := After(w, EditIdleDevice(state));
    SameGenerationKeepsBindings(w.r, state.connectionId, IdleDevice(state));
    forall d | d in t.r.devices && t.r.devices[d].BusyDevice? ensures Held(t, d) {
      assert Held(w, d);
    }
  }

  /** The device half of every launch: an idle state moves into a new task and its entry becomes busy. */
  lemma SpawnKeepsDevicesOwned(w: World, r: Runtime, c: nat, t: Task)
    requires DevicesOwned(w)
    requires c in w.r.devices && w.r.devices[c].IdleDevice?
    requires var state := w.r.devices[c].state;
             && CarriedState(t) == state && SameDevice(state, t)
             && r.devices == w.r.devices[c := BusyDevice(state.generation, state)]
             && r.nextGeneration == w.r.nextGeneration
    ensures DevicesOwned(Spawn(w, r, t))
  {
    var v := Spawn(w, r, t);
    forall d | d in v.r.devices && v.r.devices[d].BusyDevice? ensures Held(v, d) {
      if d == c {
        assert v.tasks[w.nextTask] == t;
      } else {
        assert Held(w, d);
        var k :| k in w.tasks && ConnectionOf(w.tasks[k]) == d && TaskGeneration(w.tasks[k]) == GenerationOf(w.r.devices[d]);
        assert k in v.tasks && v.tasks[k] == w.tasks[k];
      }
    }
    forall k | k in v.tasks ensures Current(v.r, v.tasks[k]) || Stale(v.r, v.tasks[k]) {
      if k != w.nextTask {
        assert Current(w.r, w.tasks[k]) || Stale(w.r, w.tasks[k]);
      }
    }
    forall k | k in w.tasks ensures !SameOwner(w.tasks[k], t) {
      assert Current(w.r, w.tasks[k]) || Stale(w.r, w.tasks[k]);
    }
  }

  lemma LaunchKeepsOwned(w: World, c: nat)
    requires Owned(w)
    ensures Owned(After(w, LaunchDevice(c)))
  {
    hide DevicesOwned;
    var (r, taken) := TakeIdleDevice(w.r, c);
    if taken.Some? {
      EntryIsSound(w, c);
      var t := DeviceTask(c, taken.value.generation, taken.value);
      SpawnKeepsDevicesOwned(w, r, c, t);
      SameGenerationKeepsBindings(w.r, c, BusyDevice(taken.value.generation, taken.value));
      JobAfterSpawn(w, r, t);
    }
  }

  lemma EntryIsSound(w: World, c: nat)
    requires DevicesOwned(w) && c in w.r.devices
    ensures EntrySound(c, w.r.devices[c], w.r.nextGeneration)
    ensures w.nextTask !in w.tasks
  {
  }

  lemma JobAfterSpawn(w: World, r: Runtime, t: Task)
    requires JobOwned(w) && w.nextTask !in w.tasks && t.DeviceTask? && r.job == w.r.job
    requires forall b | BoundTo(w.r, b) :: BoundTo(r, b)
    requires forall c | c in w.r.devices && w.r.devices[c].BusyDevice? :: c in r.devices && r.devices[c] == w.r.devices[c]
    ensures JobOwned(Spawn(w, r, t))
  {
    var v := Spawn(w, r, t);
    forall k | k in v.tasks && v.tasks[k].OperationTask? ensures OperationOwned(v.r, v.tasks[k].operation) {
      assert OperationOwned(w.r, w.tasks[k].operation);
    }
    if v.r.job.Some? && v.r.job.value.BusyJob? {
      var k :| k in w.tasks && w.tasks[k].OperationTask?;
      assert v.tasks[k].OperationTask?;
    }
  }

  /** The device half of every completion: the task ends, and its entry becomes idle only if it still waits for it. */
  lemma FinishKeepsDevicesOwned(w: World, task: nat, returned: DeviceState, t: World)
    requires DevicesOwned(w) && task in w.tasks && SameDevice(returned, w.tasks[task])
    requires t.tasks == w.tasks - {task} && t.nextTask == w.nextTask
    requires t.r.nextGeneration == w.r.nextGeneration
    requires t.r.devices == FinishDeviceStep(w.r, ConnectionOf(w.tasks[task]), TaskGeneration(w.tasks[task]), returned).0.devices
    ensures DevicesOwned(t)
  {
    var c := ConnectionOf(w.tasks[task]);
    forall d | d in t.r.devices && t.r.devices[d].BusyDevice? ensures Held(t, d) {
      assert Held(w, d);
      var k :| k in w.tasks && ConnectionOf(w.tasks[k]) == d && TaskGeneration(w.tasks[k]) == GenerationOf(w.r.devices[d]);
      assert k in t.tasks && t.tasks[k] == w.tasks[k];
    }
    forall k | k in t.tasks ensures Current(t.r, t.tasks[k]) || Stale(t.r, t.tasks[k]) {
      assert Current(w.r, w.tasks[k]) || Stale(w.r, w.tasks[k]);
      assert !SameOwner(w.tasks[k], w.tasks[task]);
    }
  }

  lemma FinishDeviceKeepsOwned(w: World, task: nat, returned: DeviceState)
    requires Owned(w) && Allowed(w, FinishDevice(task, returned))
    ensures Owned(After(w, FinishDevice(task, returned)))
  {
    hide DevicesOwned;
    var t := After(w, FinishDevice(task, returned));
    FinishKeepsDevicesOwned(w, task, returned, t);
    JobAfterDevice(w, task, returned);
  }

  lemma JobAfterDevice(w: World, task: nat, returned: DeviceState)
    requires Owned(w) && task in w.tasks && w.tasks[task].DeviceTask? && SameDevice(returned, w.tasks[task])
    ensures var d := w.tasks[task];
            JobOwned(w.(r := FinishDeviceStep(w.r, d.connectionId, d.generation, returned).0, tasks := w.tasks - {task}))
  {
    var d := w.tasks[task];
    var t := w.(r := FinishDeviceStep(w.r, d.connectionId, d.generation, returned).0, tasks := w.tasks - {task});
    forall k | k in t.tasks && t.tasks[k].OperationTask? ensures OperationOwned(t.r, t.tasks[k].operation) {
      assert OperationOwned(w.r, w.tasks[k].operation);
      assert !SameOwner(w.tasks[k], w.tasks[task]);
    }
    if BusyWith(w.r, d.connectionId, d.generation) {
      SameGenerationKeepsBindings(w.r, d.connectionId, IdleDevice(returned));
    }
    if t.r.job.Some? && t.r.job.value.BusyJob? {
      var k :| k in w.tasks && w.tasks[k].OperationTask?;
      assert t.tasks[k].OperationTask?;
    }
  }

  /** Between operations only the job entry changes, and the retained bindings are those in place. */
  lemma RetainedJobKeepsOwned(w: World, r: Runtime)
    requires Owned(w) && r.devices == w.r.devices && r.nextGeneration == w.r.nextGeneration
    requires !(w.r.job.Some? && w.r.job.value.BusyJob?) && !(r.job.Some? && r.job.value.BusyJob?)
    requires r.job.Some? ==> forall b <- BindingsOf(r.job.value) :: BoundTo(w.r, b)
    ensures Owned(w.(r := r))
  {
    var t := w.(r := r);
    forall d | d in t.r.devices && t.r.devices[d].BusyDevice? ensures Held(t, d) {
      assert Held(w, d);
    }
    forall k | k in t.tasks ensures !t.tasks[k].OperationTask? && (Current(r, t.tasks[k]) || Stale(r, t.tasks[k])) {
      assert Current(w.r, w.tasks[k]) || Stale(w.r, w.tasks[k]);
      assert w.tasks[k].OperationTask? ==> OperationOwned(w.r, w.tasks[k].operation);
    }
  }

  /** Starting only marks the runtime. */
  lemma MarkKeepsOwned(w: World, r: Runtime)
    requires Owned(w) && r == w.r.(pendingStart := r.pendingStart)
    ensures Owned(w.(r := r))
  {
    var t := w.(r := r);
    forall d | d in t.r.devices && t.r.devices[d].BusyDevice? ensures Held(t, d) {
      assert Held(w, d);
    }
    forall k | k in t.tasks ensures Current(r, t.tasks[k]) || Stale(r, t.tasks[k]) {
      assert Current(w.r, w.tasks[k]) || Stale(w.r, w.tasks[k]);
    }
    forall k | k in t.tasks && t.tasks[k].OperationTask? ensures OperationOwned(r, t.tasks[k].operation) {
      assert OperationOwned(w.r, w.tasks[k].operation);
    }
    if t.r.job.Some? {
      forall b | b in BindingsOf(t.r.job.value) ensures BoundTo(t.r, b) {
        assert BoundTo(w.r, b);
      }
    }
  }

  /** What every job handler that starts no operation may do to the runtime. */
  ghost predicate KeepsJobShape(r: Runtime, t: Runtime) {
    && t == r.(job := t.job, pendingStart := t.pendingStart)
    && (|| t.job == r.job
        || (&& r.job.Some? && r.job.value.IdleJob? && t.job.Some? && t.job.value.IdleJob?
            && BindingsOf(t.job.value) == BindingsOf(r.job.value)
            && t.job.value.retained.jobId == r.job.value.retained.jobId))
  }

  lemma KeptShapeKeepsOwned(w: World, r: Runtime)
    requires Owned(w) && KeepsJobShape(w.r, r)
    ensures Owned(w.(r := r))
  {
    if r.job == w.r.job {
      MarkKeepsOwned(w, r);
    } else {
      RetainedJobKeepsOwned(w, r);
    }
  }

  lemma StageKeepsOwned(w: World, retained: RetainedJob, authorized: bool)
    requires Owned(w)
    ensures Owned(w.(r := StageJob(w.r, retained, authorized).0))
  {
    hide JobOwned;
    var r := StageJob(w.r, retained, authorized).0;
    if r != w.r {
      forall b | b in retained.bindings ensures BoundTo(w.r, b) {
        var i :| 0 <= i < |retained.bindings| && retained.bindings[i] == b;
        assert Staged(w.r, b);
        assert EntrySound(b.connectionId, w.r.devices[b.connectionId], w.r.nextGeneration);
      }
      RetainedJobKeepsOwned(w, r);
    }
  }

  lemma ClearKeepsOwned(w: World, jobId: nat)
    requires Owned(w)
    ensures Owned(w.(r := ClearJob(w.r, jobId).0))
  {
    hide JobOwned, DevicesOwned;
    var r := ClearJob(w.r, jobId).0;
    if r != w.r {
      RetainedJobKeepsOwned(w, r);
    }
  }

  /** An operation leaves with the job and exactly one idle device of its bindings, or nothing leaves. */
  ghost predicate LaunchShape(r: Runtime, launch: Launch) {
    var (t, result) := launch;
    if result.Ok? && result.value.Some? then
      var o := result.value.value;
      && r.job.Some? && r.job.value.IdleJob?
      && o.retained.bindings == BindingsOf(r.job.value) && o.retained.jobId == r.job.value.retained.jobId
      && o.binding in o.retained.bindings && o.binding.deviceId == o.request.deviceId
      && o.binding.connectionId in r.devices && r.devices[o.binding.connectionId] == IdleDevice(o.state)
      && Matches(o.state, o.binding)
      && t == r.(job := Some(BusyJob(o.retained.jobId, o.retained.bindings)),
                 devices := r.devices[o.binding.connectionId := BusyDevice(o.state.generation, o.state)])
    else KeepsJobShape(r, t)
  }

  lemma LaunchRequestShape(r: Runtime, retained: RetainedJob, request: Request)
    requires r.job.Some? && r.job.value.IdleJob?
    requires retained.bindings == BindingsOf(r.job.value) && retained.jobId == r.job.value.retained.jobId
    ensures LaunchShape(r, LaunchRequest(r, retained, request))
  {
    hide JobAbandon, LiveJobModel.MarkFault;
  }

  lemma TakeShape(r: Runtime, s: Surroundings)
    ensures LaunchShape(r, TakeLiveJobTask(r, s))
  {
    hide PrepareNext, ReadinessOf, JobTerminal, LaunchRequest, LiveJobModel.MarkFault;
    if !(r.job.None? || r.job.value.BusyJob? || JobTerminal(r.job.value.retained.job)) {
      var retained := r.job.value.retained;
      var prepared := PrepareNext(retained.job, s);
      if prepared.next.Ok? && prepared.next.value.Some? {
        LaunchRequestShape(r, retained.(job := prepared.job), prepared.next.value.value);
      }
    }
  }

  lemma LaunchOperationKeepsOwned(w: World, s: Surroundings)
    requires Owned(w)
    ensures Owned(After(w, LaunchOperation(s)))
  {
    hide DevicesOwned, JobOwned, TakeLiveJobTask;
    TakeShape(w.r, s);
    var (r, launched) := TakeLiveJobTask(w.r, s);
    if launched.Ok? && launched.value.Some? {
      var o := launched.value.value;
      EntryIsSound(w, o.binding.connectionId);
      SpawnKeepsDevicesOwned(w.(r := w.r), r, o.binding.connectionId, OperationTask(o));
      JobAfterLaunch(w, r, o);
    } else {
      KeptShapeKeepsOwned(w, r);
    }
  }

  lemma JobAfterLaunch(w: World, r: Runtime, o: JobTask)
    requires JobOwned(w) && w.nextTask !in w.tasks
    requires LaunchShape(w.r, (r, Ok(Some(o))))
    ensures JobOwned(Spawn(w, r, OperationTask(o)))
  {
    var v := Spawn(w, r, OperationTask(o));
    forall k | k in w.tasks ensures !w.tasks[k].OperationTask? {
      assert w.tasks[k].OperationTask? ==> OperationOwned(w.r, w.tasks[k].operation);
    }
    SameGenerationKeepsBindings(w.r, o.binding.connectionId, BusyDevice(o.state.generation, o.state));
    assert v.tasks[w.nextTask] == OperationTask(o);
  }

  lemma FinishOperationKeepsOwned(w: World, task: nat, answer: Option<Response>, returned: DeviceState)
    requires Owned(w) && Allowed(w, FinishOperation(task, answer, returned))
    ensures Owned(After(w, FinishOperation(task, answer, returned)))
  {
    hide DevicesOwned, JobOwned, Performed;
    var t := After(w, FinishOperation(task, answer, returned));
    var o := w.tasks[task].operation;
    OperationIsCurrent(w, task);
    PerformedKeepsBindings(o, answer);
    FinishKeepsDevicesOwned(w, task, returned, t);
    JobAfterOperation(w, task, returned, t);
  }

  lemma PerformedKeepsBindings(o: JobTask, answer: Option<Response>)
    ensures var after := Performed(o, answer);
            after.bindings == o.retained.bindings && after.jobId == o.retained.jobId
  {
  }

  lemma OperationIsCurrent(w: World, task: nat)
    requires JobOwned(w) && task in w.tasks && w.tasks[task].OperationTask?
    ensures OperationOwned(w.r, w.tasks[task].operation)
  {
  }

  lemma JobAfterOperation(w: World, task: nat, returned: DeviceState, t: World)
    requires JobOwned(w) && task in w.tasks && w.tasks[task].OperationTask? && SameDevice(returned, w.tasks[task])
    requires t.tasks == w.tasks - {task} && t.r.job.Some? && t.r.job.value.IdleJob?
    requires var o := w.tasks[task].operation;
             && BindingsOf(t.r.job.value) == o.retained.bindings
             && t.r.devices == w.r.devices[o.binding.connectionId := IdleDevice(returned)]
    ensures JobOwned(t)
  {
    var o := w.tasks[task].operation;
    assert OperationOwned(w.r, o);
    forall b | b in BindingsOf(t.r.job.value) ensures BoundTo(t.r, b) {
      assert BoundTo(w.r, b);
    }
  }

  lemma EventKeepsOwned(w: World, e: Event)
    requires Owned(w) && Allowed(w, e)
    ensures Owned(After(w, e))
  {
    hide Owned, TakeLiveJobTask, BeginPendingJobStart, StopJob, StageJob, StartJob, ClearJob, KeepsJobShape;
    match e
    case ConfigureDevice(c, wellFormed, accepted) => ConfigureKeepsOwned(w, c, wellFormed, accepted);
    case DisconnectDevice(c) => DisconnectKeepsOwned(w, c);
    case EditIdleDevice(state) => EditKeepsOwned(w, state);
    case LaunchDevice(c) => LaunchKeepsOwned(w, c);
    case FinishDevice(task, returned) => FinishDeviceKeepsOwned(w, task, returned);
    case StageCachedJob(retained, authorized) => StageKeepsOwned(w, retained, authorized);
    case StartCachedJob(jobId) => MarkedKeepsOwned(w, jobId);
    case StopCachedJob(jobId) => StoppedKeepsOwned(w, jobId);
    case ClearCachedJob(jobId) => ClearKeepsOwned(w, jobId);
    case BeginStart(s) => BegunKeepsOwned(w, s);
    case LaunchOperation(s) => LaunchOperationKeepsOwned(w, s);
    case FinishOperation(task, answer, returned) => FinishOperationKeepsOwned(w, task, answer, returned);
  }

  lemma MarkedKeepsOwned(w: World, jobId: nat)
    requires Owned(w)
    ensures Owned(w.(r := StartJob(w.r, jobId).0))
  {
    hide Owned;
    KeptShapeKeepsOwned(w, StartJob(w.r, jobId).0);
  }

  lemma StoppedKeepsOwned(w: World, jobId: nat)
    requires Owned(w)
    ensures Owned(w.(r := StopJob(w.r, jobId).0))
  {
    hide Owned, RequestStop;
    KeptShapeKeepsOwned(w, StopJob(w.r, jobId).0);
  }

  lemma BegunKeepsOwned(w: World, s: Surroundings)
    requires Owned(w)
    ensures Owned(w.(r := BeginPendingJobStart(w.r, s).0))
  {
    hide Owned, BindFrom, LiveJobModel.MarkFault, JobPhaseOf, AllIdle;
    KeptShapeKeepsOwned(w, BeginPendingJobStart(w.r, s).0);
  }

  lemma {:induction false} RunsKeepOwned(run: seq<World>, events: seq<Event>, n: nat)
    requires IsWorkerRun(run, events) && n <= |events|
    ensures Owned(run[n])
  {
    hide After, Allowed;
    if n > 0 {
      RunsKeepOwned(run, events, n - 1);
      EventKeepsOwned(run[n - 1], events[n - 1]);
    }
  }

  // ---- No lost or overwritten state -------------------------------------------------------

  /** Task `k` is the only live task for the connection and generation its entry waits for. */
  ghost predicate OnlyHolder(w: World, c: nat, k: nat)
    requires c in w.r.devices
  {
    && k in w.tasks
    && ConnectionOf(w.tasks[k]) == c && TaskGeneration(w.tasks[k]) == GenerationOf(w.r.devices[c])
    && forall l | l in w.tasks && l != k ::
         ConnectionOf(w.tasks[l]) != c || TaskGeneration(w.tasks[l]) != GenerationOf(w.r.devices[c])
  }

  /** Over every interleaving a device entry is busy exactly when one live task of its generation holds its state. */
  lemma BusyMeansExactlyOneTask(run: seq<World>, events: seq<Event>, n: nat, c: nat)
    requires IsWorkerRun(run, events) && n <= |events| && c in run[n].r.devices
    ensures run[n].r.devices[c].BusyDevice? <==> exists k :: OnlyHolder(run[n], c, k)
  {
    RunsKeepOwned(run, events, n);
    var w := run[n];
    if w.r.devices[c].BusyDevice? {
      assert Held(w, c);
      var k :| k in w.tasks && ConnectionOf(w.tasks[k]) == c && TaskGeneration(w.tasks[k]) == GenerationOf(w.r.devices[c]);
      forall l | l in w.tasks && l != k
        ensures ConnectionOf(w.tasks[l]) != c || TaskGeneration(w.tasks[l]) != GenerationOf(w.r.devices[c])
      {
        assert !SameOwner(w.tasks[k], w.tasks[l]);
      }
      assert OnlyHolder(w, c, k);
    }
  }

  /** A finishing device task restores its own state, or finds its connection gone or newer and changes nothing. */
  lemma FinishRestoresOrIsStale(run: seq<World>, events: seq<Event>, n: nat)
    requires IsWorkerRun(run, events) && n < |events| && events[n].FinishDevice?
    ensures var t := run[n].tasks[events[n].task];
            var (before, after) := (run[n].r, run[n + 1].r);
            if BusyWith(before, t.connectionId, t.generation) then
              after == before.(devices := before.devices[t.connectionId := IdleDevice(events[n].returned)])
            else
              && after == before
              && (t.connectionId in before.devices ==> t.generation < GenerationOf(before.devices[t.connectionId]))
  {
    RunsKeepOwned(run, events, n);
    var t := run[n].tasks[events[n].task];
    assert Current(run[n].r, t) || Stale(run[n].r, t);
  }

  /** Whatever commands came in between, a finishing operation always puts back both its job and its device. */
  lemma FinishAlwaysRestoresBoth(run: seq<World>, events: seq<Event>, n: nat)
    requires IsWorkerRun(run, events) && n < |events| && events[n].FinishOperation?
    ensures var o := run[n].tasks[events[n].task].operation;
            && run[n].r.job == Some(BusyJob(o.retained.jobId, o.retained.bindings))
            && BusyWith(run[n].r, o.binding.connectionId, o.binding.generation)
            && run[n + 1].r.job == Some(IdleJob(Performed(o, events[n].answer)))
            && run[n + 1].r.devices
               == run[n].r.devices[o.binding.connectionId := IdleDevice(events[n].returned)]
  {
    hide Performed;
    RunsKeepOwned(run, events, n);
    OperationIsCurrent(run[n], events[n].task);
  }

  /** The job is busy exactly while one operation task, and only one, carries it. */
  lemma BusyJobMeansOneOperation(run: seq<World>, events: seq<Event>, n: nat)
    requires IsWorkerRun(run, events) && n <= |events|
    ensures (run[n].r.job.Some? && run[n].r.job.value.BusyJob?)
            <==> exists k :: k in run[n].tasks && run[n].tasks[k].OperationTask?
    ensures forall k, l | k in run[n].tasks && l in run[n].tasks
                          && run[n].tasks[k].OperationTask? && run[n].tasks[l].OperationTask? :: k == l
  {
    RunsKeepOwned(run, events, n);
    if k :| k in run[n].tasks && run[n].tasks[k].OperationTask? {
      OperationIsCurrent(run[n], k);
    }
  }

  /** While a job is retained, its connections stay configured exactly as they were staged. */
  lemma RetainedConnectionsStay(run: seq<World>, events: seq<Event>, n: nat)
    requires IsWorkerRun(run, events) && n <= |events| && run[n].r.job.Some?
    ensures forall b <- BindingsOf(run[n].r.job.value) ::
              b.connectionId in run[n].r.devices && GenerationOf(run[n].r.devices[b.connectionId]) == b.generation
  {
    RunsKeepOwned(run, events, n);
    forall b | b in BindingsOf(run[n].r.job.value)
      ensures b.connectionId in run[n].r.devices && GenerationOf(run[n].r.devices[b.connectionId]) == b.generation
    {
      assert BoundTo(run[n].r, b);
    }
  }
}
