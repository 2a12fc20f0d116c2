/** Every serial run of the retained job: at most one operation outstanding, every loss declared. */
module LiveJobRuns {
  import opened Wrappers
  import opened ParticipantSchedule
  import opened CoordinatorModel
  import opened StartTiming
  import opened LiveJobModel
  import CoordinatorRuns
  import Ordering
  import Rounds = JointRequests

  /** The job and the one operation whose answer is awaited. */
  datatype Serial = Serial(job: Job, outstanding: Option<Request>)

  datatype JobMove =
    | Ask
    | Answer(response: Response)
    | Lose
    | Start(nowUi: u64, targetUi: u64, inputs: seq<StartInput>, encodes: Commit -> bool)
    | OpenConfirmation(nowUi: u64, inputs: seq<StartInput>)
    | Round
    | Renew(renewals: seq<LeaseRenewal>)
    | Stop
    | Fault

  /** A fault may strike at any time, and forgets what was outstanding. */
  predicate Admissible(s: Serial, m: JobMove) {
    m.Fault? || (m.Answer? || m.Lose?) == s.outstanding.Some?
  }

  function After(s: Serial, m: JobMove): Serial
    requires Admissible(s, m)
  {
    match m
    case Ask =>
      var (j, next) := NextOperation(s.job);
      Serial(j, if next.Ok? then next.value else None)
    case Answer(response) => Serial(JobAccept(s.job, s.outstanding.value.deviceId, response).0, None)
    case Lose => Serial(JobAbandon(s.job, s.outstanding.value.deviceId).0, None)
    case Start(now, target, inputs, encodes) => s.(job := LiveJobModel.BeginStart(s.job, now, target, inputs, encodes).0)
    case OpenConfirmation(now, inputs) => s.(job := JobBeginConfirmation(s.job, now, inputs).0)
    case Round => s.(job := JobBeginStatusRound(s.job).0)
    case Renew(renewals) => s.(job := JobBeginLeaseRenewal(s.job, renewals).0)
    case Stop => s.(job := RequestStop(s.job).0)
    case Fault => Serial(LiveJobModel.MarkFault(s.job), None)
  }

  ghost predicate IsSerialRun(run: seq<Serial>, moves: seq<JobMove>) {
    && |run| == |moves| + 1
    && forall k | 0 <= k < |moves| :: Admissible(run[k], moves[k]) && run[k + 1] == After(run[k], moves[k])
  }

  // ---- What the coordinator awaits and what the job still holds ---------------------------

  /** Requests the coordinator has begun and the job has neither settled nor given up: the outstanding one first. */
  function Begun(s: Serial): seq<Request> {
    (if s.outstanding.Some? then [s.outstanding.value] else []) + s.job.queue
  }

  ghost predicate Named(begun: seq<Request>, deviceId: nat) {
    exists j | 0 <= j < |begun| :: begun[j].deviceId == deviceId
  }

  predicate Awaits(c: Coordinator, i: nat)
    requires i < |c.participants|
  {
    c.participants[i].control.pending.Some?
  }

  ghost predicate Distinct(begun: seq<Request>) {
    forall j, k | 0 <= j < k < |begun| :: begun[j].deviceId != begun[k].deviceId
  }

  /** Exactly the participants named by the job's begun requests have a pending request. */
  ghost predicate Tracked(c: Coordinator, begun: seq<Request>) {
    && WellFormed(c)
    && Distinct(begun)
    && (forall j | 0 <= j < |begun| :: begun[j].deviceId in Devices(c))
    && forall i | 0 <= i < |c.participants| :: Awaits(c, i) <==> Named(begun, c.participants[i].deviceId)
  }

  function Devices(c: Coordinator): set<nat> {
    set i | 0 <= i < |c.participants| :: c.participants[i].deviceId
  }

  ghost predicate SameParticipants(c: Coordinator, d: Coordinator) {
    && |d.participants| == |c.participants|
    && forall i | 0 <= i < |c.participants| :: d.participants[i].deviceId == c.participants[i].deviceId
  }

  lemma SameParticipantsSameDevices(c: Coordinator, d: Coordinator)
    requires SameParticipants(c, d)
    ensures Devices(d) == Devices(c) && (WellFormed(c) ==> WellFormed(d))
  {
    forall x | x in Devices(c) ensures x in Devices(d) {
      var i :| 0 <= i < |c.participants| && c.participants[i].deviceId == x;
      assert d.participants[i].deviceId == x;
    }
    forall x | x in Devices(d) ensures x in Devices(c) {
      var i :| 0 <= i < |d.participants| && d.participants[i].deviceId == x;
      assert c.participants[i].deviceId == x;
    }
  }

  lemma IndexIsPosition(c: Coordinator, i: nat)
    requires WellFormed(c) && i < |c.participants|
    ensures IndexOf(c.participants, c.participants[i].deviceId) == Some(i)
  {
    var found := IndexOf(c.participants, c.participants[i].deviceId);
    assert c.participants[found.value].deviceId == c.participants[i].deviceId;
  }

  /** One participant's machine is replaced, the rest is untouched. */
  ghost predicate OneChanges(c: Coordinator, k: nat, d: Coordinator) {
    && k < |c.participants|
    && SameParticipants(c, d)
    && forall i | 0 <= i < |c.participants| && i != k :: d.participants[i] == c.participants[i]
  }

  lemma SettleHead(c: Coordinator, begun: seq<Request>, k: nat, d: Coordinator)
    requires Tracked(c, begun) && begun != []
    requires k < |c.participants| && begun[0].deviceId == c.participants[k].deviceId
    requires OneChanges(c, k, d) && !Awaits(d, k)
    ensures Tracked(d, begun[1..])
  {
    SameParticipantsSameDevices(c, d);
    var rest := begun[1..];
    forall i | 0 <= i < |d.participants|
      ensures Awaits(d, i) <==> Named(rest, d.participants[i].deviceId)
    {
      if i == k {
        assert forall j | 0 <= j < |rest| :: rest[j] == begun[j + 1] && begun[0].deviceId != begun[j + 1].deviceId;
      } else if Named(rest, d.participants[i].deviceId) {
        var j :| 0 <= j < |rest| && rest[j].deviceId == d.participants[i].deviceId;
        assert begun[j + 1].deviceId == c.participants[i].deviceId;
      }
    }
  }

  lemma HeadIndex(c: Coordinator, begun: seq<Request>) returns (k: nat)
    requires Tracked(c, begun) && begun != []
    ensures k < |c.participants| && begun[0].deviceId == c.participants[k].deviceId
    ensures IndexOf(c.participants, begun[0].deviceId) == Some(k) && Awaits(c, k)
  {
    k :| 0 <= k < |c.participants| && c.participants[k].deviceId == begun[0].deviceId;
    IndexIsPosition(c, k);
  }

  lemma AcceptEffect(c: Coordinator, k: nat, deviceId: nat, response: Response)
    requires IndexOf(c.participants, deviceId) == Some(k)
    ensures var d := Accept(c, deviceId, response).0; OneChanges(c, k, d) && !Awaits(d, k)
  {
  }

  lemma AbandonEffect(c: Coordinator, k: nat, deviceId: nat)
    requires IndexOf(c.participants, deviceId) == Some(k)
    ensures var (d, abandoned) := Abandon(c, deviceId);
            OneChanges(c, k, d) && !Awaits(d, k) && abandoned == Ok(Awaits(c, k))
  {
  }

  /** Giving up a tracked queue clears every pending request and is never refused. */
  lemma {:induction false} AbandonQueueClears(c: Coordinator, queue: seq<Request>)
    requires Tracked(c, queue)
    ensures var (d, rest, result) := AbandonQueue(c, queue);
            Tracked(d, []) && rest == [] && result == Ok(()) && SameParticipants(c, d)
    decreases |queue|
  {
    if queue != [] {
      var k := HeadIndex(c, queue);
      AbandonEffect(c, k, queue[0].deviceId);
      var d := Abandon(c, queue[0].deviceId).0;
      SettleHead(c, queue, k, d);
      AbandonQueueClears(d, queue[1..]);
    }
  }

  lemma NextEffect(c: Coordinator) returns (k: nat)
    ensures var (d, next) := NextRequest(c);
            if next.Ok? && next.value.Some? then
              && OneChanges(c, k, d) && !Awaits(c, k) && Awaits(d, k)
              && next.value.value.deviceId == c.participants[k].deviceId
            else d == c
  {
    hide GlobalPhaseOf, Decide;
    var (d, next) := NextRequest(c);
    k := 0;
    if next.Ok? && next.value.Some? {
      k := Scan(c.participants, c.intent, InitialRound(c), 0).value.value.0;
      CoordinatorRuns.DecidedIsPending(c.participants[k], c.intent, InitialRound(c));
    }
  }

  /** A full round: one request for every participant, in order. */
  ghost predicate OpensRound(c: Coordinator, d: Coordinator, requests: seq<Request>) {
    && SameParticipants(c, d)
    && |requests| == |c.participants|
    && (forall i | 0 <= i < |c.participants| :: Awaits(d, i))
    && forall i | 0 <= i < |requests| :: requests[i].deviceId == c.participants[i].deviceId
  }

  lemma RoundIsTracked(c: Coordinator, d: Coordinator, requests: seq<Request>)
    requires WellFormed(c) && OpensRound(c, d, requests)
    ensures Tracked(d, requests)
    ensures forall x | x in Devices(c) :: Named(requests, x)
  {
    SameParticipantsSameDevices(c, d);
    forall x | x in Devices(c) ensures Named(requests, x) {
      var i :| 0 <= i < |c.participants| && c.participants[i].deviceId == x;
      assert requests[i].deviceId == x;
    }
  }

  lemma StatusRoundEffect(c: Coordinator)
    ensures var (d, round) := CoordinatorModel.BeginStatusRound(c);
            && round.Err? == AnyPending(c.participants)
            && (round.Ok? ==> OpensRound(c, d, round.value) && forall r <- round.value :: r.operation == JobStatus)
            && (round.Err? ==> d == c && round.error == ParticipantState)
  {
  }

  lemma RenewalRoundEffect(c: Coordinator, renewals: seq<LeaseRenewal>)
    ensures var (d, round) := BeginLeaseRenewal(c, renewals);
            && (round.Ok? ==> OpensRound(c, d, round.value) && !AnyPending(c.participants))
            && (round.Err? ==> d == c)
  {
    hide StageRenewals, GlobalPhaseOf, AnyPending;
    var (d, round) := BeginLeaseRenewal(c, renewals);
    if round.Ok? {
      Rounds.RenewalRequests(c, renewals);
      forall i | 0 <= i < |c.participants|
        ensures |d.participants| == |c.participants| && d.participants[i].deviceId == c.participants[i].deviceId
        ensures d.participants[i].control.pending.Some?
      {
        Rounds.RenewalsMatch(c, renewals, i);
      }
    }
  }

  /** Binding, confirming and stopping leave every pending request as it was. */
  ghost predicate PendingUntouched(c: Coordinator, d: Coordinator) {
    && SameParticipants(c, d)
    && forall i | 0 <= i < |c.participants| :: d.participants[i].control == c.participants[i].control
  }

  lemma BindEffect(c: Coordinator, nowUi: u64, targetUi: u64, inputs: seq<StartInput>, encodes: Commit -> bool)
    ensures PendingUntouched(c, BindStart(c, nowUi, targetUi, inputs, encodes).0)
  {
  }

  lemma UntouchedIsTracked(c: Coordinator, begun: seq<Request>, d: Coordinator)
    requires Tracked(c, begun) && PendingUntouched(c, d)
    ensures Tracked(d, begun)
  {
    SameParticipantsSameDevices(c, d);
  }

  lemma IdleNothingPending(c: Coordinator)
    requires Tracked(c, [])
    ensures !AnyPending(c.participants)
  {
    forall i | 0 <= i < |c.participants| ensures c.participants[i].control.pending.None? {
      assert !Named([], c.participants[i].deviceId);
      assert !Awaits(c, i);
    }
  }

  lemma BegunOneIsTracked(c: Coordinator, k: nat, d: Coordinator, request: Request)
    requires Tracked(c, []) && OneChanges(c, k, d) && Awaits(d, k)
    requires request.deviceId == c.participants[k].deviceId
    ensures Tracked(d, [request])
  {
    SameParticipantsSameDevices(c, d);
    forall i | 0 <= i < |d.participants|
      ensures Awaits(d, i) <==> Named([request], d.participants[i].deviceId)
    {
      assert [request][0] == request;
      if i != k {
        assert !Named([], c.participants[i].deviceId);
        assert !Awaits(c, i);
        if i < k {
          assert c.participants[i].deviceId < c.participants[k].deviceId;
        } else {
          assert c.participants[k].deviceId < c.participants[i].deviceId;
        }
      }
    }
  }

  // ---- The loss barrier -------------------------------------------------------------------

  /** While answers are owed only status requests are begun, and a sweep is due or already covers every debtor. */
  ghost predicate Barrier(s: Serial, owed: set<nat>) {
    owed != {} ==>
      && (forall r <- Begun(s) :: r.operation == JobStatus)
      && (s.job.sweepRequired || forall d <- owed :: Named(Begun(s), d))
  }

  ghost predicate SerialInv(s: Serial, owed: set<nat>) {
    && WellFormed(s.job.c)
    && owed <= Devices(s.job.c)
    && (s.job.terminalOverride.Some? ==> s.outstanding.None?)
    && (s.job.terminalOverride.None? ==> Tracked(s.job.c, Begun(s)) && Barrier(s, owed))
  }

  /** Devices that have answered no status request issued since the latest loss. */
  function OwedAfter(s: Serial, m: JobMove, owed: set<nat>): set<nat>
    requires Admissible(s, m)
  {
    if m.Lose? then Devices(s.job.c)
    else if m.Answer? && s.outstanding.value.operation == JobStatus then owed - {s.outstanding.value.deviceId}
    else owed
  }

  lemma AskKeepsInv(s: Serial, owed: set<nat>)
    requires SerialInv(s, owed) && Admissible(s, Ask)
    ensures SerialInv(After(s, Ask), owed)
  {
    hide Tracked, NextRequest, CoordinatorModel.BeginStatusRound, Devices;
    if s.job.terminalOverride.None? {
      assert Begun(s) == s.job.queue;
      var t := After(s, Ask);
      if s.job.queue != [] {
        assert Begun(t) == s.job.queue;
      } else if s.job.sweepRequired {
        IdleNothingPending(s.job.c);
        StatusRoundEffect(s.job.c);
        var (d, round) := CoordinatorModel.BeginStatusRound(s.job.c);
        TrackedIsWellFormed(s.job.c, []);
        RoundIsTracked(s.job.c, d, round.value);
        SameParticipantsSameDevices(s.job.c, d);
        TrackedIsWellFormed(d, round.value);
        assert round.value != [];
        assert Begun(t) == round.value;
      } else {
        var k := NextEffect(s.job.c);
        var (d, next) := NextRequest(s.job.c);
        assert owed == {} by {
          assert forall d <- owed :: !Named(Begun(s), d);
        }
        if next.Ok? && next.value.Some? {
          BegunOneIsTracked(s.job.c, k, d, next.value.value);
          SameParticipantsSameDevices(s.job.c, d);
          assert Begun(t) == [next.value.value];
        }
      }
    }
  }

  lemma TrackedIsWellFormed(c: Coordinator, begun: seq<Request>)
    requires Tracked(c, begun)
    ensures WellFormed(c) && c.participants != []
  {
  }

  /** An answer settles the request it answers and leaves the rest of the begun requests tracked. */
  lemma AnswerTracks(s: Serial, response: Response)
    requires s.outstanding.Some? && Tracked(s.job.c, Begun(s))
    ensures var t := After(s, Answer(response));
            && Begun(t) == Begun(s)[1..] && Begun(t) == s.job.queue
            && Tracked(t.job.c, Begun(t))
            && SameParticipants(s.job.c, t.job.c)
            && Begun(s) != [] && Begun(s)[0] == s.outstanding.value
            && t.outstanding.None? && t.job == s.job.(c := t.job.c)
  {
    hide Tracked, Accept, WellFormed;
    var begun := Begun(s);
    assert begun[0] == s.outstanding.value && begun[1..] == s.job.queue;
    var k := HeadIndex(s.job.c, begun);
    AcceptEffect(s.job.c, k, begun[0].deviceId, response);
    SettleHead(s.job.c, begun, k, After(s, Answer(response)).job.c);
  }

  lemma AnswerKeepsInv(s: Serial, response: Response, owed: set<nat>)
    requires SerialInv(s, owed) && Admissible(s, Answer(response))
    ensures SerialInv(After(s, Answer(response)), OwedAfter(s, Answer(response), owed))
  {
    hide Tracked, After, Devices, WellFormed;
    AnswerTracks(s, response);
    var t := After(s, Answer(response));
    SameParticipantsSameDevices(s.job.c, t.job.c);
    var begun := Begun(s);
    assert forall j | 0 <= j < |Begun(t)| :: Begun(t)[j] == begun[j + 1];
    var left := OwedAfter(s, Answer(response), owed);
    if left != {} {
      assert begun[0] in begun;
      if !s.job.sweepRequired {
        forall d | d in left ensures Named(Begun(t), d) {
          var j :| 0 <= j < |begun| && begun[j].deviceId == d;
          assert j > 0 && Begun(t)[j - 1] == begun[j];
        }
      }
    }
  }

  lemma LoseKeepsInv(s: Serial, owed: set<nat>)
    requires SerialInv(s, owed) && Admissible(s, Lose)
    ensures SerialInv(After(s, Lose), OwedAfter(s, Lose, owed))
    ensures var (j, lost) := JobAbandon(s.job, s.outstanding.value.deviceId);
            lost == Ok(true) && j.sweepRequired && j.queue == []
  {
    hide Tracked, Abandon, Devices;
    var t := After(s, Lose);
    var begun := Begun(s);
    assert begun[0] == s.outstanding.value && begun[1..] == s.job.queue;
    var k := HeadIndex(s.job.c, begun);
    AbandonEffect(s.job.c, k, begun[0].deviceId);
    var d := Abandon(s.job.c, begun[0].deviceId).0;
    SettleHead(s.job.c, begun, k, d);
    AbandonQueueClears(d, s.job.queue);
    SameParticipantsSameDevices(s.job.c, d);
    SameParticipantsSameDevices(d, t.job.c);
    assert Begun(t) == [];
  }

  /** Opening a round either changes nothing or begins one request for every participant of an idle coordinator. */
  lemma RoundOpens(s: Serial, m: JobMove)
    requires Admissible(s, m) && (m.Round? || m.Renew?)
    requires WellFormed(s.job.c)
    ensures var t := After(s, m);
            || t == s
            || (&& s.job.terminalOverride.None? && Begun(s) == []
                && OpensRound(s.job.c, t.job.c, Begun(t))
                && t.job == s.job.(c := t.job.c, queue := t.job.queue, renewalRounds := t.job.renewalRounds)
                && !AnyPending(s.job.c.participants)
                && (s.job.sweepRequired ==> forall r <- Begun(t) :: r.operation == JobStatus)
                && (m.Round? ==> forall r <- Begun(t) :: r.operation == JobStatus))
  {
    hide CoordinatorModel.BeginStatusRound, BeginLeaseRenewal, AnyPending;
    StatusRoundEffect(s.job.c);
    assert Begun(After(s, m)) == After(s, m).job.queue;
    if m.Renew? {
      RenewalRoundEffect(s.job.c, m.renewals);
    }
    if After(s, m) != s {
      assert m.Round? ==> CoordinatorModel.BeginStatusRound(s.job.c).1.Ok?;
      assert m.Renew? ==> BeginLeaseRenewal(s.job.c, m.renewals).1.Ok?;
    }
  }

  lemma RoundKeepsInv(s: Serial, m: JobMove, owed: set<nat>)
    requires SerialInv(s, owed) && Admissible(s, m) && (m.Round? || m.Renew?)
    ensures SerialInv(After(s, m), owed)
  {
    hide Tracked, After, Devices, AnyPending;
    var t := After(s, m);
    RoundOpens(s, m);
    if t != s {
      RoundIsTracked(s.job.c, t.job.c, Begun(t));
      SameParticipantsSameDevices(s.job.c, t.job.c);
      assert !s.job.sweepRequired ==> owed == {} by {
        assert forall d <- owed :: !Named(Begun(s), d);
      }
    }
  }

  lemma QuietKeepsInv(s: Serial, m: JobMove, owed: set<nat>)
    requires SerialInv(s, owed) && Admissible(s, m) && (m.Start? || m.OpenConfirmation? || m.Fault? || m.Stop?)
    requires m.Stop? ==> s.job.queue == []
    ensures SerialInv(After(s, m), owed)
  {
    hide Tracked, BindStart, DeadlineWindowOf, GlobalPhaseOf, Devices;
    var t := After(s, m);
    if m.Start? {
      BindEffect(s.job.c, m.nowUi, m.targetUi, m.inputs, m.encodes);
    }
    assert PendingUntouched(s.job.c, t.job.c);
    SameParticipantsSameDevices(s.job.c, t.job.c);
    if s.job.terminalOverride.None? {
      UntouchedIsTracked(s.job.c, Begun(s), t.job.c);
      assert t.job.terminalOverride.None? ==> Begun(t) == Begun(s);
    }
  }

  lemma MoveKeepsInv(s: Serial, m: JobMove, owed: set<nat>)
    requires SerialInv(s, owed) && Admissible(s, m) && (m.Stop? ==> s.job.queue == [])
    ensures SerialInv(After(s, m), OwedAfter(s, m, owed))
  {
    hide SerialInv, After;
    match m
    case Ask => AskKeepsInv(s, owed);
    case Answer(response) => AnswerKeepsInv(s, response, owed);
    case Lose => LoseKeepsInv(s, owed);
    case Round => RoundKeepsInv(s, m, owed);
    case Renew(_) => RoundKeepsInv(s, m, owed);
    case _ => QuietKeepsInv(s, m, owed);
  }

  /** Devices that, after the first `n` moves, have answered no status request issued since the latest loss. */
  ghost function Owed(run: seq<Serial>, moves: seq<JobMove>, n: nat): set<nat>
    requires IsSerialRun(run, moves) && n <= |moves|
  {
    if n == 0 then {} else OwedAfter(run[n - 1], moves[n - 1], Owed(run, moves, n - 1))
  }

  /** Nothing is begun when the run starts, and it never stops in the middle of a round. */
  ghost predicate OrderlyRun(run: seq<Serial>, moves: seq<JobMove>) {
    && IsSerialRun(run, moves)
    && run[0].outstanding.None? && run[0].job.queue == [] && Tracked(run[0].job.c, [])
    && forall k | 0 <= k < |moves| && moves[k].Stop? :: run[k].job.queue == []
  }

  lemma {:induction false} RunsKeepSerialInv(run: seq<Serial>, moves: seq<JobMove>, n: nat)
    requires OrderlyRun(run, moves) && n <= |moves|
    ensures SerialInv(run[n], Owed(run, moves, n))
  {
    if n == 0 {
      assert Begun(run[0]) == [];
    } else {
      RunsKeepSerialInv(run, moves, n - 1);
      MoveKeepsInv(run[n - 1], moves[n - 1], Owed(run, moves, n - 1));
    }
  }

  /** The request that asking would hand out. */
  function Emitted(s: Serial): Option<Request> {
    var next := NextOperation(s.job).1;
    if next.Ok? then next.value else None
  }

  predicate Mutating(request: Option<Request>) {
    request.Some? && request.value.operation != JobStatus
  }

  lemma MutationOwesNothing(s: Serial, owed: set<nat>)
    requires SerialInv(s, owed) && s.outstanding.None? && Mutating(Emitted(s))
    ensures owed == {}
  {
    hide Tracked, NextRequest, CoordinatorModel.BeginStatusRound, Devices;
    assert Begun(s) == s.job.queue;
    if s.job.queue != [] {
      assert s.job.queue[0] in Begun(s);
    } else {
      StatusRoundEffect(s.job.c);
      assert forall d <- owed :: !Named(Begun(s), d);
    }
  }

  lemma {:induction false} AbandonQueueKeepsParticipants(c: Coordinator, queue: seq<Request>)
    ensures SameParticipants(c, AbandonQueue(c, queue).0)
    decreases |queue|
  {
    if queue != [] {
      AbandonKeepsOthers(c, queue[0].deviceId);
      AbandonQueueKeepsParticipants(Abandon(c, queue[0].deviceId).0, queue[1..]);
    }
  }

  lemma AbandonKeepsOthers(c: Coordinator, deviceId: nat)
    ensures var d := Abandon(c, deviceId).0;
            && SameParticipants(c, d)
            && forall i | 0 <= i < |c.participants| && c.participants[i].deviceId != deviceId ::
                 d.participants[i] == c.participants[i]
  {
  }

  lemma AcceptKeepsOthers(c: Coordinator, deviceId: nat, response: Response)
    ensures var d := Accept(c, deviceId, response).0;
            && SameParticipants(c, d)
            && forall i | 0 <= i < |c.participants| && c.participants[i].deviceId != deviceId ::
                 d.participants[i] == c.participants[i]
  {
  }

  lemma MoveKeepsParticipants(s: Serial, m: JobMove)
    requires Admissible(s, m) && WellFormed(s.job.c)
    ensures SameParticipants(s.job.c, After(s, m).job.c)
  {
    hide NextRequest, CoordinatorModel.BeginStatusRound, BeginLeaseRenewal, BindStart, BeginConfirmation, Accept, Abandon,
         BeginAbortAll, BeginCancelAll, GlobalPhaseOf;
    match m
    case Ask =>
      StatusRoundEffect(s.job.c);
      var k := NextEffect(s.job.c);
    case Answer(response) => AcceptKeepsOthers(s.job.c, s.outstanding.value.deviceId, response);
    case Lose =>
      AbandonKeepsOthers(s.job.c, s.outstanding.value.deviceId);
      AbandonQueueKeepsParticipants(Abandon(s.job.c, s.outstanding.value.deviceId).0, s.job.queue);
    case Start(now, target, inputs, encodes) => BindEffect(s.job.c, now, target, inputs, encodes);
    case OpenConfirmation(now, inputs) => ConfirmationEffect(s.job.c, now, inputs);
    case Round => StatusRoundEffect(s.job.c);
    case Renew(renewals) =>
      RenewalRoundEffect(s.job.c, renewals);
      var (d, round) := BeginLeaseRenewal(s.job.c, renewals);
      assert round.Err? ==> d == s.job.c;
    case Stop => StopEffect(s.job.c);
    case Fault =>
  }

  lemma ConfirmationEffect(c: Coordinator, nowUi: u64, inputs: seq<StartInput>)
    ensures PendingUntouched(c, BeginConfirmation(c, nowUi, inputs).0)
  {
  }

  lemma StopEffect(c: Coordinator)
    ensures PendingUntouched(c, BeginAbortAll(c).0) && PendingUntouched(c, BeginCancelAll(c).0)
  {
  }

  lemma {:induction false} RunKeepsDevices(run: seq<Serial>, moves: seq<JobMove>, from: nat, to: nat)
    requires IsSerialRun(run, moves) && from <= to <= |moves| && WellFormed(run[from].job.c)
    ensures Devices(run[to].job.c) == Devices(run[from].job.c) && WellFormed(run[to].job.c)
  {
    if from < to {
      RunKeepsDevices(run, moves, from, to - 1);
      MoveKeepsParticipants(run[to - 1], moves[to - 1]);
      SameParticipantsSameDevices(run[to - 1].job.c, run[to].job.c);
    }
  }

  /** A device leaves the debt only by answering a status request; a loss puts every device back. */
  lemma {:induction false} SettledByAnswer(run: seq<Serial>, moves: seq<JobMove>, lost: nat, n: nat, d: nat) returns (k: nat)
    requires IsSerialRun(run, moves) && lost < n <= |moves| && moves[lost].Lose? && WellFormed(run[0].job.c)
    requires d in Devices(run[lost].job.c) && d !in Owed(run, moves, n)
    ensures lost < k < n && moves[k].Answer? && run[k].outstanding == Some(Request(d, JobStatus))
    decreases n
  {
    hide After, Devices, WellFormed;
    RunKeepsDevices(run, moves, 0, lost);
    RunKeepsDevices(run, moves, 0, n - 1);
    assert !moves[n - 1].Lose?;
    if d in Owed(run, moves, n - 1) {
      k := n - 1;
    } else {
      k := SettledByAnswer(run, moves, lost, n - 1, d);
    }
  }

  /** No mutation follows a loss before every device has answered a status request that was issued after it. */
  lemma LossBarrier(run: seq<Serial>, moves: seq<JobMove>, lost: nat, asked: nat)
    requires OrderlyRun(run, moves) && lost < asked < |moves|
    requires moves[lost].Lose? && moves[asked].Ask? && Mutating(Emitted(run[asked]))
    ensures forall d <- Devices(run[lost].job.c) ::
              exists k | lost < k < asked :: moves[k].Answer? && run[k].outstanding == Some(Request(d, JobStatus))
    ensures run[lost + 1].outstanding.None?
  {
    RunsKeepSerialInv(run, moves, asked);
    MutationOwesNothing(run[asked], Owed(run, moves, asked));
    forall d | d in Devices(run[lost].job.c)
      ensures exists k | lost < k < asked :: moves[k].Answer? && run[k].outstanding == Some(Request(d, JobStatus))
    {
      var k := SettledByAnswer(run, moves, lost, asked, d);
    }
  }

  /** Declaring a loss is never refused: it always drops the rest of the queue and asks for a sweep. */
  lemma LossAlwaysSweeps(run: seq<Serial>, moves: seq<JobMove>, lost: nat)
    requires OrderlyRun(run, moves) && lost < |moves| && moves[lost].Lose?
    ensures JobAbandon(run[lost].job, run[lost].outstanding.value.deviceId).1 == Ok(true)
    ensures run[lost + 1].job.sweepRequired && run[lost + 1].job.queue == []
  {
    RunsKeepSerialInv(run, moves, lost);
    LoseKeepsInv(run[lost], Owed(run, moves, lost));
  }

  /** Opening a required sweep never fails, and its first request is a status request to the first participant. */
  lemma SweepAlwaysOpens(run: seq<Serial>, moves: seq<JobMove>, n: nat)
    requires OrderlyRun(run, moves) && n <= |moves|
    requires var s := run[n];
             s.outstanding.None? && s.job.terminalOverride.None? && s.job.queue == [] && s.job.sweepRequired
    ensures var (j, next) := NextOperation(run[n].job);
            && run[n].job.c.participants != []
            && next == Ok(Some(Request(run[n].job.c.participants[0].deviceId, JobStatus)))
            && !j.sweepRequired
            && |j.queue| == |run[n].job.c.participants| - 1
            && forall r <- j.queue :: r.operation == JobStatus
  {
    RunsKeepSerialInv(run, moves, n);
    assert Begun(run[n]) == [];
    IdleNothingPending(run[n].job.c);
    StatusRoundEffect(run[n].job.c);
    hide CoordinatorModel.BeginStatusRound;
  }

  // ---- Stopping in the middle of a round --------------------------------------------------

  /** A participant awaits an answer that no request of this job can bring any more. */
  ghost predicate Stuck(s: Serial, i: nat) {
    && WellFormed(s.job.c)
    && i < |s.job.c.participants|
    && Awaits(s.job.c, i)
    && !Named(Begun(s), s.job.c.participants[i].deviceId)
  }

  /** A stop strands exactly the participants whose begun requests were still queued, even when it is refused. */
  lemma StopStrandsTheQueue(s: Serial, i: nat)
    requires s.outstanding.None? && Tracked(s.job.c, Begun(s)) && s.job.terminalOverride.None?
    requires !JobTerminal(s.job) && i < |s.job.c.participants|
    ensures Stuck(After(s, Stop), i) <==> Named(s.job.queue, s.job.c.participants[i].deviceId)
  {
    hide BeginAbortAll, BeginCancelAll, JobTerminal;
    StopEffect(s.job.c);
    assert Begun(s) == s.job.queue;
    assert Begun(After(s, Stop)) == [];
    SameParticipantsSameDevices(s.job.c, After(s, Stop).job.c);
  }

  lemma StuckIsPending(s: Serial, i: nat)
    requires Stuck(s, i)
    ensures AnyPending(s.job.c.participants)
  {
    assert s.job.c.participants[i].control.pending.Some?;
  }

  lemma OthersAreNot(c: Coordinator, i: nat, k: nat)
    requires WellFormed(c) && i < |c.participants| && k < |c.participants| && i != k
    ensures c.participants[i].deviceId != c.participants[k].deviceId
  {
    if i < k {
      assert c.participants[i].deviceId < c.participants[k].deviceId;
    } else {
      assert c.participants[k].deviceId < c.participants[i].deviceId;
    }
  }

  lemma {:induction false} AbandonQueueKeepsUnnamed(c: Coordinator, queue: seq<Request>, i: nat)
    requires i < |c.participants| && !Named(queue, c.participants[i].deviceId)
    ensures var d := AbandonQueue(c, queue).0;
            SameParticipants(c, d) && d.participants[i] == c.participants[i]
    decreases |queue|
  {
    AbandonQueueKeepsParticipants(c, queue);
    if queue != [] {
      AbandonKeepsOthers(c, queue[0].deviceId);
      assert forall j | 0 <= j < |queue[1..]| :: queue[1..][j] == queue[j + 1];
      AbandonQueueKeepsUnnamed(Abandon(c, queue[0].deviceId).0, queue[1..], i);
    }
  }

  lemma StuckAsk(s: Serial, i: nat)
    requires Stuck(s, i) && Admissible(s, Ask)
    ensures var t := After(s, Ask);
            Stuck(t, i) && t.job.c.participants[i].control == s.job.c.participants[i].control
  {
    hide NextRequest, CoordinatorModel.BeginStatusRound, WellFormed;
    StuckIsPending(s, i);
    StatusRoundEffect(s.job.c);
    var k := NextEffect(s.job.c);
    var t := After(s, Ask);
    MoveKeepsParticipants(s, Ask);
    SameParticipantsSameDevices(s.job.c, t.job.c);
    assert Begun(s) == s.job.queue;
    if s.job.terminalOverride.None? && s.job.queue != [] {
      assert Begun(t) == s.job.queue;
    } else if t.outstanding.Some? {
      OthersAreNot(s.job.c, i, k);
      assert Begun(t) == [t.outstanding.value];
    }
  }

  /** Nothing later reaches a stuck participant: its machine is frozen and no request names it again. */
  lemma StuckForever(s: Serial, m: JobMove, i: nat)
    requires Stuck(s, i) && Admissible(s, m)
    ensures var t := After(s, m);
            && Stuck(t, i)
            && t.job.c.participants[i].control == s.job.c.participants[i].control
            && t.job.c.participants[i].deviceId == s.job.c.participants[i].deviceId
  {
    hide NextRequest, CoordinatorModel.BeginStatusRound, BeginLeaseRenewal, BindStart, BeginConfirmation, Accept, Abandon,
         BeginAbortAll, BeginCancelAll, GlobalPhaseOf, WellFormed, AbandonQueue;
    MoveKeepsParticipants(s, m);
    SameParticipantsSameDevices(s.job.c, After(s, m).job.c);
    StuckIsPending(s, i);
    match m
    case Ask => StuckAsk(s, i);
    case Answer(response) =>
      assert Begun(s)[0] == s.outstanding.value;
      AcceptKeepsOthers(s.job.c, s.outstanding.value.deviceId, response);
      assert forall j | 0 <= j < |s.job.queue| :: Begun(s)[j + 1] == s.job.queue[j];
    case Lose => StuckLose(s, i);
    case Start(now, target, inputs, encodes) => BindEffect(s.job.c, now, target, inputs, encodes);
    case OpenConfirmation(now, inputs) => ConfirmationEffect(s.job.c, now, inputs);
    case Round => RoundOpens(s, m);
    case Renew(_) => RoundOpens(s, m);
    case Stop => StopEffect(s.job.c);
    case Fault =>
  }

  lemma StuckLose(s: Serial, i: nat)
    requires Stuck(s, i) && Admissible(s, Lose)
    ensures var t := After(s, Lose);
            Stuck(t, i) && t.job.c.participants[i].control == s.job.c.participants[i].control
  {
    hide Abandon, WellFormed;
    var t := After(s, Lose);
    var lost := s.outstanding.value.deviceId;
    var d := Abandon(s.job.c, lost).0;
    assert Begun(s)[0] == s.outstanding.value;
    assert forall j | 0 <= j < |s.job.queue| :: Begun(s)[j + 1] == s.job.queue[j];
    AbandonKeepsOthers(s.job.c, lost);
    AbandonQueueKeepsUnnamed(d, s.job.queue, i);
    MoveKeepsParticipants(s, Lose);
    SameParticipantsSameDevices(s.job.c, t.job.c);
    AbandonQueueShrinks(d, s.job.queue);
    assert Begun(t) == t.job.queue;
    forall j | 0 <= j < |Begun(t)|
      ensures Begun(t)[j].deviceId != s.job.c.participants[i].deviceId
    {
      assert Begun(t)[j] in t.job.queue;
      assert Begun(t)[j] in s.job.queue;
    }
  }

  lemma {:induction false} AbandonQueueShrinks(c: Coordinator, queue: seq<Request>)
    ensures forall r | r in AbandonQueue(c, queue).1 :: r in queue
    decreases |queue|
  {
    if queue != [] {
      AbandonQueueShrinks(Abandon(c, queue[0].deviceId).0, queue[1..]);
    }
  }

  lemma {:induction false} StuckForTheRun(run: seq<Serial>, moves: seq<JobMove>, n: nat, i: nat)
    requires IsSerialRun(run, moves) && n <= |moves| && Stuck(run[0], i)
    ensures Stuck(run[n], i)
    ensures run[n].job.c.participants[i].control == run[0].job.c.participants[i].control
    ensures run[n].job.c.participants[i].deviceId == run[0].job.c.participants[i].deviceId
    ensures run[n].outstanding.Some? ==> run[n].outstanding.value.deviceId != run[0].job.c.participants[i].deviceId
  {
    hide Stuck, After, Admissible;
    if n > 0 {
      StuckForTheRun(run, moves, n - 1, i);
      StuckForever(run[n - 1], moves[n - 1], i);
    }
    StuckIsNotOutstanding(run[n], i);
  }

  lemma StuckIsNotOutstanding(s: Serial, i: nat)
    requires Stuck(s, i)
    ensures s.outstanding.Some? ==> s.outstanding.value.deviceId != s.job.c.participants[i].deviceId
  {
    if s.outstanding.Some? {
      assert Begun(s)[0] == s.outstanding.value;
    }
  }

  /** Once someone is stuck no sweep opens again, so after one more loss the job asks nothing ever after. */
  lemma StuckBlocksEverySweep(s: Serial, i: nat)
    requires Stuck(s, i) && s.job.terminalOverride.None? && s.job.queue == [] && s.job.sweepRequired
    ensures NextOperation(s.job) == (s.job, Err(Scheduling(ParticipantState)))
  {
    StuckIsPending(s, i);
    StatusRoundEffect(s.job.c);
    hide CoordinatorModel.BeginStatusRound;
  }

  predicate Unsettled(phase: ParticipantPhase) {
    phase in {Preparing, Ready, Installing, ParticipantPhase.Installed, ParticipantPhase.Confirmed} || phase in
      {ParticipantPhase.Priming, ParticipantPhase.Primed, ParticipantPhase.Running}
  }

  lemma UnsettledBlocksTheAbort(c: Coordinator, i: nat)
    requires c.intent == AbortIntent && i < |c.participants| && Unsettled(Phase(c.participants[i].control))
    ensures GlobalPhaseOf(c) in {GAborting, GIrrevocable}
  {
    var ps := c.participants;
    assert !Stopped(ps[i]) && !Completed(ps[i]);
    assert !SafeAfterAbort(ps[i]) && !TerminalAfterFaultCleanup(ps[i]);
    assert Phase(ps[i].control) != ParticipantPhase.Complete;
  }

  ghost predicate Aborting(c: Coordinator) {
    c.target.Some? && c.intent == AbortIntent
  }

  lemma {:induction false} AbandonQueueKeepsGlobals(c: Coordinator, queue: seq<Request>)
    ensures CoordinatorRuns.SameGlobals(c, AbandonQueue(c, queue).0)
    decreases |queue|
  {
    if queue != [] {
      CoordinatorRuns.RequestsKeepGlobals(c, [], queue[0].deviceId);
      AbandonQueueKeepsGlobals(Abandon(c, queue[0].deviceId).0, queue[1..]);
    }
  }

  lemma AbortIsKept(s: Serial, m: JobMove)
    requires Admissible(s, m) && WellFormed(s.job.c) && Aborting(s.job.c)
    ensures Aborting(After(s, m).job.c)
  {
    hide NextRequest, CoordinatorModel.BeginStatusRound, BeginLeaseRenewal, BindStart, BeginConfirmation, Accept, Abandon,
         GlobalPhaseOf, WellFormed, AbandonQueue;
    var c := s.job.c;
    match m
    case Ask =>
      CoordinatorRuns.RequestsKeepGlobals(c, [], 0);
      CoordinatorRuns.RequestsKeepGlobals(CoordinatorModel.BeginStatusRound(c).0, [], 0);
    case Answer(response) => CoordinatorRuns.AcceptMovesForward(c, s.outstanding.value.deviceId, response);
    case Lose =>
      CoordinatorRuns.RequestsKeepGlobals(c, [], s.outstanding.value.deviceId);
      AbandonQueueKeepsGlobals(Abandon(c, s.outstanding.value.deviceId).0, s.job.queue);
    case Start(now, target, inputs, encodes) => CoordinatorRuns.BindMovesForward(c, now, target, inputs, encodes);
    case OpenConfirmation(now, inputs) => CoordinatorRuns.ConfirmationMovesForward(c, now, inputs);
    case Round => CoordinatorRuns.RequestsKeepGlobals(c, [], 0);
    case Renew(renewals) => CoordinatorRuns.RequestsKeepGlobals(c, renewals, 0);
    case Stop =>
    case Fault =>
  }

  lemma {:induction false} AbortIsKeptForTheRun(run: seq<Serial>, moves: seq<JobMove>, n: nat)
    requires IsSerialRun(run, moves) && n <= |moves| && WellFormed(run[0].job.c) && Aborting(run[0].job.c)
    ensures Aborting(run[n].job.c)
  {
    hide WellFormed, After;
    if n > 0 {
      AbortIsKeptForTheRun(run, moves, n - 1);
      RunKeepsDevices(run, moves, 0, n - 1);
      AbortIsKept(run[n - 1], moves[n - 1]);
    }
  }

  lemma OverrideNeedsFault(s: Serial, m: JobMove)
    requires Admissible(s, m) && s.job.terminalOverride.None? && !m.Fault?
    ensures After(s, m).job.terminalOverride.None?
  {
  }

  lemma {:induction false} NoOverride(run: seq<Serial>, moves: seq<JobMove>, n: nat)
    requires IsSerialRun(run, moves) && n <= |moves| && run[0].job.terminalOverride.None?
    requires forall k | 0 <= k < n :: !moves[k].Fault?
    ensures run[n].job.terminalOverride.None?
  {
    hide After, Admissible;
    if n > 0 {
      NoOverride(run, moves, n - 1);
      OverrideNeedsFault(run[n - 1], moves[n - 1]);
    }
  }

  /** A stopped job with a participant stuck short of rest never becomes terminal by itself. */
  lemma StrandedStopNeverSettles(run: seq<Serial>, moves: seq<JobMove>, n: nat, i: nat)
    requires IsSerialRun(run, moves) && n <= |moves|
    requires Stuck(run[0], i) && Aborting(run[0].job.c) && Unsettled(Phase(run[0].job.c.participants[i].control))
    requires run[0].job.terminalOverride.None? && forall k | 0 <= k < n :: !moves[k].Fault?
    ensures !JobTerminal(run[n].job)
  {
    hide After, Admissible, GlobalPhaseOf, Phase;
    StuckForTheRun(run, moves, n, i);
    AbortIsKeptForTheRun(run, moves, n);
    NoOverride(run, moves, n);
    UnsettledBlocksTheAbort(run[n].job.c, i);
  }

  lemma NonEmpty(c: Coordinator)
    requires WellFormed(c)
    ensures 0 < |c.participants|
  {
  }

  /** The round asks every participant, and its first request is the first participant's. */
  ghost predicate RoundUnderWay(s: Serial, c: Coordinator) {
    && s.job.terminalOverride.None?
    && Tracked(s.job.c, Begun(s))
    && SameParticipants(c, s.job.c)
    && s.job.c.target == c.target
    && (forall i | 0 < i < |c.participants| :: Named(s.job.queue, c.participants[i].deviceId))
    && (forall i | 0 < i < |c.participants| :: Phase(s.job.c.participants[i].control) == Phase(c.participants[i].control))
  }

  lemma RoundAndAsk(s: Serial)
    requires s.outstanding.None? && s.job.terminalOverride.None? && Tracked(s.job.c, []) && s.job.queue == []
    ensures var t := After(After(s, Round), Ask);
            && t.outstanding == Some(Request(s.job.c.participants[0].deviceId, JobStatus))
            && RoundUnderWay(t, s.job.c)
  {
    hide CoordinatorModel.BeginStatusRound, NextRequest, WellFormed, Phase;
    TrackedIsWellFormed(s.job.c, []);
    IdleNothingPending(s.job.c);
    StatusRoundEffect(s.job.c);
    StatusRoundKeepsPhases(s.job.c);
    var r := After(s, Round);
    assert r.job.c == CoordinatorModel.BeginStatusRound(s.job.c).0;
    RoundIsTracked(s.job.c, r.job.c, r.job.queue);
    var t := After(r, Ask);
    assert Begun(t) == r.job.queue;
    FirstIsStatus(s.job.c);
    OthersAreQueued(s.job.c, r.job.c, r.job.queue);
    hide OpensRound, After, Tracked, JobBeginStatusRound, NextOperation;
  }

  lemma OthersAreQueued(c: Coordinator, d: Coordinator, requests: seq<Request>)
    requires OpensRound(c, d, requests) && requests != []
    ensures forall i | 0 < i < |c.participants| :: Named(requests[1..], c.participants[i].deviceId)
  {
    forall i | 0 < i < |c.participants|
      ensures Named(requests[1..], c.participants[i].deviceId)
    {
      assert requests[1..][i - 1] == requests[i];
    }
  }

  lemma FirstIsStatus(c: Coordinator)
    requires c.participants != [] && !AnyPending(c.participants)
    ensures CoordinatorModel.BeginStatusRound(c).1.value[0] == Request(c.participants[0].deviceId, JobStatus)
  {
  }

  lemma StatusRoundKeepsPhases(c: Coordinator)
    requires !AnyPending(c.participants)
    ensures var d := CoordinatorModel.BeginStatusRound(c).0;
            && d.target == c.target && |d.participants| == |c.participants|
            && forall i | 0 <= i < |c.participants| :: Phase(d.participants[i].control) == Phase(c.participants[i].control)
  {
  }

  lemma FirstAnswer(s: Serial, c: Coordinator, response: Response)
    requires RoundUnderWay(s, c) && c.participants != []
    requires s.outstanding == Some(Request(c.participants[0].deviceId, JobStatus))
    ensures var t := After(s, Answer(response));
            t.outstanding.None? && RoundUnderWay(t, c)
  {
    hide Accept, WellFormed, Phase, Tracked;
    AnswerTracks(s, response);
    AcceptKeepsOthers(s.job.c, s.outstanding.value.deviceId, response);
    AcceptKeepsTarget(s.job.c, s.outstanding.value.deviceId, response);
    TrackedIsWellFormed(s.job.c, Begun(s));
    FirstDiffers(s.job.c);
  }

  lemma AcceptKeepsTarget(c: Coordinator, deviceId: nat, response: Response)
    ensures Accept(c, deviceId, response).0.target == c.target
  {
  }

  lemma FirstDiffers(c: Coordinator)
    requires WellFormed(c)
    ensures forall i | 0 < i < |c.participants| :: c.participants[i].deviceId != c.participants[0].deviceId
  {
    forall i | 0 < i < |c.participants|
      ensures c.participants[i].deviceId != c.participants[0].deviceId
    {
      assert c.participants[0].deviceId < c.participants[i].deviceId;
    }
  }

  /**
   * The worker opens a status round and asks its first request in one step. When a stop is accepted as soon as that
   * request is answered, every other participant keeps the phase it was last shown in, no request ever names it
   * again, and if it was short of rest the job never becomes terminal by itself.
   */
  lemma StopAfterFirstAnswerStrandsTheRest(run: seq<Serial>, moves: seq<JobMove>, n: nat, i: nat)
    requires IsSerialRun(run, moves) && 4 <= n <= |moves|
    requires moves[0].Round? && moves[1].Ask? && moves[2].Answer? && moves[3].Stop?
    requires var s := run[0];
             && s.outstanding.None? && s.job.terminalOverride.None? && Tracked(s.job.c, []) && s.job.queue == []
             && s.job.c.target.Some? && 0 < i < |s.job.c.participants|
    requires RequestStop(run[3].job).1 == Ok(())
    ensures Stuck(run[n], i)
    ensures Phase(run[n].job.c.participants[i].control) == Phase(run[0].job.c.participants[i].control)
    ensures run[n].outstanding.Some? ==> run[n].outstanding.value.deviceId != run[0].job.c.participants[i].deviceId
    ensures Unsettled(Phase(run[0].job.c.participants[i].control)) && (forall k | 4 <= k < n :: !moves[k].Fault?) ==>
              !JobTerminal(run[n].job)
  {
    hide After, Phase, JobTerminal, Tracked, WellFormed, Stuck, GlobalPhaseOf;
    FourSteps(run, moves);
    TrackedIsWellFormed(run[0].job.c, []);
    RoundAndAsk(run[0]);
    FirstAnswer(run[2], run[0].job.c, moves[2].response);
    StopsTheRest(run[3], run[0].job.c, i);
    var rest, after := run[4..], moves[4..];
    forall k | 0 <= k < |after|
      ensures Admissible(rest[k], after[k]) && rest[k + 1] == After(rest[k], after[k])
    {
      assert rest[k] == run[k + 4] && rest[k + 1] == run[k + 5] && after[k] == moves[k + 4];
    }
    assert rest[0] == run[4] && rest[n - 4] == run[n];
    StuckForTheRun(rest, after, n - 4, i);
    if Unsettled(Phase(run[0].job.c.participants[i].control)) && (forall k | 4 <= k < n :: !moves[k].Fault?) {
      StrandedStopNeverSettles(rest, after, n - 4, i);
    }
  }

  lemma FourSteps(run: seq<Serial>, moves: seq<JobMove>)
    requires IsSerialRun(run, moves) && 4 <= |moves|
    requires moves[0].Round? && moves[1].Ask? && moves[2].Answer? && moves[3].Stop? && run[0].outstanding.None?
    ensures run[2] == After(After(run[0], Round), Ask)
    ensures Admissible(run[2], moves[2]) && run[3] == After(run[2], moves[2])
    ensures Admissible(run[3], Stop) && run[4] == After(run[3], Stop)
  {
    hide After;
    assert run[1] == After(run[0], moves[0]) && run[2] == After(run[1], moves[1]) && run[3] == After(run[2], moves[2]);
    assert run[4] == After(run[3], moves[3]);
  }

  lemma StopsTheRest(s: Serial, c: Coordinator, i: nat)
    requires s.outstanding.None? && RoundUnderWay(s, c) && c.target.Some? && 0 < i < |c.participants|
    requires RequestStop(s.job).1 == Ok(())
    ensures var t := After(s, Stop);
            && Stuck(t, i) && Aborting(t.job.c) && t.job.terminalOverride.None?
            && Phase(t.job.c.participants[i].control) == Phase(c.participants[i].control)
            && t.job.c.participants[i].deviceId == c.participants[i].deviceId
  {
    hide GlobalPhaseOf, Phase, WellFormed, JobTerminal, Tracked, Stuck, Named;
    assert Begun(s) == s.job.queue;
    StopStrandsTheQueue(s, i);
    StopEffect(s.job.c);
  }

  // ---- Reachability, for callers that drive the job ---------------------------------------

  ghost predicate Reaches(s: Serial, t: Serial) {
    exists run, moves :: RunsBetween(s, run, moves, t)
  }

  ghost predicate RunsBetween(s: Serial, run: seq<Serial>, moves: seq<JobMove>, t: Serial) {
    IsSerialRun(run, moves) && run[0] == s && run[|moves|] == t
  }

  lemma ReachesItself(s: Serial)
    ensures Reaches(s, s)
  {
    assert RunsBetween(s, [s], [], s);
  }

  lemma ReachesNext(s: Serial, t: Serial, m: JobMove)
    requires Reaches(s, t) && Admissible(t, m)
    ensures Reaches(s, After(t, m))
  {
    hide After, Admissible;
    var run, moves :| RunsBetween(s, run, moves, t);
    var longer, more := run + [After(t, m)], moves + [m];
    forall k | 0 <= k < |more|
      ensures Admissible(longer[k], more[k]) && longer[k + 1] == After(longer[k], more[k])
    {
      if k < |moves| {
        assert longer[k] == run[k] && longer[k + 1] == run[k + 1];
      }
    }
    assert RunsBetween(s, longer, more, After(t, m));
  }

  lemma ReachesTransitively(s: Serial, t: Serial, u: Serial)
    requires Reaches(s, t) && Reaches(t, u)
    ensures Reaches(s, u)
  {
    hide After, Admissible;
    var first, before :| RunsBetween(s, first, before, t);
    var second, later :| RunsBetween(t, second, later, u);
    var run, moves := first + second[1..], before + later;
    forall k | 0 <= k < |moves|
      ensures Admissible(run[k], moves[k]) && run[k + 1] == After(run[k], moves[k])
    {
      if k < |before| {
        assert run[k] == first[k] && run[k + 1] == first[k + 1];
      } else {
        assert run[k] == second[k - |before|] && run[k + 1] == second[k - |before| + 1];
        assert moves[k] == later[k - |before|];
      }
    }
    assert RunsBetween(s, run, moves, u);
  }

  /** Nothing is answered, lost or stopped on the way. */
  ghost predicate QuietlyReaches(s: Serial, t: Serial) {
    exists run, moves :: QuietBetween(s, run, moves, t)
  }

  predicate QuietMove(m: JobMove) {
    !m.Answer? && !m.Lose? && !m.Stop?
  }

  ghost predicate QuietBetween(s: Serial, run: seq<Serial>, moves: seq<JobMove>, t: Serial) {
    RunsBetween(s, run, moves, t) && forall m <- moves :: QuietMove(m)
  }

  lemma QuietlyItself(s: Serial)
    ensures QuietlyReaches(s, s)
  {
    assert QuietBetween(s, [s], [], s);
  }

  lemma QuietlyNext(s: Serial, t: Serial, m: JobMove)
    requires QuietlyReaches(s, t) && Admissible(t, m) && QuietMove(m)
    ensures QuietlyReaches(s, After(t, m))
  {
    hide After, Admissible;
    var run, moves :| QuietBetween(s, run, moves, t);
    var longer, more := run + [After(t, m)], moves + [m];
    forall k | 0 <= k < |more|
      ensures Admissible(longer[k], more[k]) && longer[k + 1] == After(longer[k], more[k])
    {
      if k < |moves| {
        assert longer[k] == run[k] && longer[k + 1] == run[k + 1];
      }
    }
    assert QuietBetween(s, longer, more, After(t, m));
  }

  lemma QuietReachIsReach(s: Serial, t: Serial)
    requires QuietlyReaches(s, t)
    ensures Reaches(s, t)
  {
    var run, moves :| QuietBetween(s, run, moves, t);
    assert RunsBetween(s, run, moves, t);
  }

  /** A quiet stretch of a run keeps the barrier with the same debt, and the same devices. */
  lemma QuietReachKeepsInv(s: Serial, t: Serial, owed: set<nat>)
    requires QuietlyReaches(s, t) && SerialInv(s, owed)
    ensures SerialInv(t, owed) && Devices(t.job.c) == Devices(s.job.c)
  {
    hide SerialInv, After, Admissible;
    var run, moves :| QuietBetween(s, run, moves, t);
    QuietRunKeepsInv(run, moves, |moves|, owed);
    InvIsWellFormed(s, owed);
    RunKeepsDevices(run, moves, 0, |moves|);
  }

  lemma InvIsWellFormed(s: Serial, owed: set<nat>)
    requires SerialInv(s, owed)
    ensures WellFormed(s.job.c)
  {
  }

  lemma {:induction false} QuietRunKeepsInv(run: seq<Serial>, moves: seq<JobMove>, n: nat, owed: set<nat>)
    requires IsSerialRun(run, moves) && n <= |moves| && SerialInv(run[0], owed)
    requires forall m <- moves :: QuietMove(m)
    ensures SerialInv(run[n], owed)
  {
    hide SerialInv, After, Admissible;
    if n > 0 {
      QuietRunKeepsInv(run, moves, n - 1, owed);
      assert moves[n - 1] in moves;
      MoveKeepsInv(run[n - 1], moves[n - 1], owed);
    }
  }
}
