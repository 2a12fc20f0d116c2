/** Exactly what one retained job asks next, and what an answer, a loss or a fault makes of it. */
module LiveJobExactness {
  import opened Wrappers
  import opened ParticipantSchedule
  import opened CoordinatorModel
  import opened CoordinatorDuties
  import opened LiveJobModel
  import LiveJobRuns

  /** Everyone has been asked for its status; the first request is out and the others wait in device order. */
  ghost predicate SweepOpened(j: Job, t: Job) {
    && |t.c.participants| == |j.c.participants| == |t.queue| + 1
    && t == j.(c := j.c.(participants := t.c.participants), queue := t.queue, sweepRequired := false)
    && (forall i | 0 <= i < |j.c.participants| ::
          t.c.participants[i] ==
            j.c.participants[i].(control := j.c.participants[i].control.(pending := Some(StatusAction))))
    && forall i | 0 <= i < |t.queue| :: t.queue[i] == Request(j.c.participants[i + 1].deviceId, JobStatus)
  }

  ghost predicate SomebodyAwaits(c: Coordinator) {
    exists i | 0 <= i < |c.participants| :: c.participants[i].control.pending.Some?
  }

  /**
   * A faulted job asks nothing; a begun round is asked in order before anything else; a required sweep opens once the
   * queue is empty, and is refused exactly while somebody awaits an answer; only then is the coordinator asked.
   */
  lemma OperationIsExact(j: Job)
    requires WellFormed(j.c)
    ensures var (t, next) := NextOperation(j);
            if j.terminalOverride.Some? then t == j && next == Ok(None)
            else if j.queue != [] then t == j.(queue := j.queue[1..]) && next == Ok(Some(j.queue[0]))
            else if j.sweepRequired then
              if SomebodyAwaits(j.c) then t == j && next == Err(Scheduling(ParticipantState))
              else SweepOpened(j, t) && next == Ok(Some(Request(j.c.participants[0].deviceId, JobStatus)))
            else
              && t == j.(c := NextRequest(j.c).0)
              && next == (match NextRequest(j.c).1 case Ok(request) => Ok(request) case Err(e) => Err(Scheduling(e)))
  {
    hide NextRequest;
    if j.terminalOverride.None? && j.queue == [] && j.sweepRequired {
      StatusRoundIsExact(j.c);
      if !SomebodyAwaits(j.c) {
        SweepOpensAll(j);
      }
    }
  }

  lemma SweepOpensAll(j: Job)
    requires WellFormed(j.c) && !SomebodyAwaits(j.c)
    requires j.terminalOverride.None? && j.queue == [] && j.sweepRequired
    ensures NextOperation(j).1 == Ok(Some(Request(j.c.participants[0].deviceId, JobStatus)))
    ensures SweepOpened(j, NextOperation(j).0)
  {
    hide NextRequest, CoordinatorModel.BeginStatusRound;
    StatusRoundIsExact(j.c);
    var (d, round) := CoordinatorModel.BeginStatusRound(j.c);
    assert round.Ok?;
    assert NextOperation(j) ==
           (j.(c := d, queue := round.value[1..], sweepRequired := false), Ok(Some(round.value[0])));
  }

  // ---- Answers and losses -----------------------------------------------------------------

  /** An answer is the coordinator's business alone. */
  lemma AnswerChangesOnlyTheCoordinator(j: Job, deviceId: nat, response: Response)
    ensures JobAccept(j, deviceId, response).0 == j.(c := Accept(j.c, deviceId, response).0)
    ensures JobAccept(j, deviceId, response).1.Ok? <==> Accept(j.c, deviceId, response).1.Ok?
  {
    hide Accept;
  }

  /** Exactly the machines of `lost` gave up what they awaited, a mutation leaving them in doubt. */
  ghost predicate GaveUp(c: Coordinator, d: Coordinator, lost: seq<Request>) {
    && |d.participants| == |c.participants| && d == c.(participants := d.participants)
    && forall i | 0 <= i < |c.participants| ::
         d.participants[i] == c.participants[i].(control :=
           if LiveJobRuns.Named(lost, c.participants[i].deviceId)
           then AbandonPending(c.participants[i].control).0 else c.participants[i].control)
  }

  ghost predicate AllKnown(c: Coordinator, requests: seq<Request>) {
    forall r <- requests :: exists i | 0 <= i < |c.participants| :: c.participants[i].deviceId == r.deviceId
  }

  lemma OneGivenUp(c: Coordinator, k: nat)
    requires WellFormed(c) && k < |c.participants|
    ensures var d := Abandon(c, c.participants[k].deviceId).0;
            WellFormed(d) && GaveUp(c, d, [Request(c.participants[k].deviceId, JobStatus)])
    ensures Abandon(c, c.participants[k].deviceId).1 == Ok(c.participants[k].control.pending.Some?)
  {
    LossIsForOne(c, k);
    hide AbandonPending;
    var lost := [Request(c.participants[k].deviceId, JobStatus)];
    forall i | 0 <= i < |c.participants|
      ensures LiveJobRuns.Named(lost, c.participants[i].deviceId) <==> i == k
    {
      if i == k {
        assert lost[0].deviceId == c.participants[i].deviceId;
      }
    }
  }

  lemma GivingUpTwice(p: Participant)
    ensures AbandonPending(AbandonPending(p).0).0 == AbandonPending(p).0
  {
  }

  lemma GaveUpInTurn(c: Coordinator, d: Coordinator, e: Coordinator, head: Request, tail: seq<Request>, k: nat)
    requires k < |c.participants| && head.deviceId == c.participants[k].deviceId
    requires GaveUp(c, d, [Request(c.participants[k].deviceId, JobStatus)]) && GaveUp(d, e, tail)
    ensures GaveUp(c, e, [head] + tail)
  {
    hide AbandonPending;
    var first := [Request(c.participants[k].deviceId, JobStatus)];
    forall i | 0 <= i < |c.participants|
      ensures e.participants[i] == c.participants[i].(control :=
                if LiveJobRuns.Named([head] + tail, c.participants[i].deviceId)
                then AbandonPending(c.participants[i].control).0 else c.participants[i].control)
    {
      GivingUpTwice(c.participants[i].control);
      NamedInTurn(head, tail, c.participants[i].deviceId);
      NamedInTurn(first[0], [], c.participants[i].deviceId);
      assert first == [first[0]] + [];
    }
  }

  lemma NamedInTurn(head: Request, tail: seq<Request>, deviceId: nat)
    ensures LiveJobRuns.Named([head] + tail, deviceId) <==> head.deviceId == deviceId || LiveJobRuns.Named(tail, deviceId)
  {
    var all := [head] + tail;
    if head.deviceId == deviceId {
      assert all[0].deviceId == deviceId;
    }
    if LiveJobRuns.Named(tail, deviceId) {
      var j :| 0 <= j < |tail| && tail[j].deviceId == deviceId;
      assert all[j + 1].deviceId == deviceId;
    }
  }

  lemma {:induction false} QueueIsGivenUp(c: Coordinator, queue: seq<Request>)
    requires WellFormed(c) && AllKnown(c, queue)
    ensures var (d, rest, drained) := AbandonQueue(c, queue); rest == [] && drained == Ok(()) && GaveUp(c, d, queue)
    decreases |queue|
  {
    hide Abandon, WellFormed, GaveUp, AllKnown;
    if queue == [] {
      NothingGivenUp(c);
    } else {
      var k := KnownHead(c, queue);
      OneGivenUp(c, k);
      var d := Abandon(c, queue[0].deviceId).0;
      StillKnown(c, d, queue, k);
      QueueIsGivenUp(d, queue[1..]);
      GaveUpInTurn(c, d, AbandonQueue(d, queue[1..]).0, queue[0], queue[1..], k);
      assert queue == [queue[0]] + queue[1..];
    }
  }

  lemma NothingGivenUp(c: Coordinator)
    ensures GaveUp(c, c, [])
  {
  }

  lemma KnownHead(c: Coordinator, queue: seq<Request>) returns (k: nat)
    requires queue != [] && AllKnown(c, queue)
    ensures k < |c.participants| && c.participants[k].deviceId == queue[0].deviceId
  {
    assert queue[0] in queue;
    k :| 0 <= k < |c.participants| && c.participants[k].deviceId == queue[0].deviceId;
  }

  lemma StillKnown(c: Coordinator, d: Coordinator, queue: seq<Request>, k: nat)
    requires queue != [] && AllKnown(c, queue) && k < |c.participants|
    requires GaveUp(c, d, [Request(c.participants[k].deviceId, JobStatus)])
    ensures AllKnown(d, queue[1..])
  {
    forall r | r in queue[1..]
      ensures exists i | 0 <= i < |d.participants| :: d.participants[i].deviceId == r.deviceId
    {
      assert r in queue;
      var i :| 0 <= i < |c.participants| && c.participants[i].deviceId == r.deviceId;
      assert d.participants[i].deviceId == r.deviceId;
    }
  }

  /**
   * Losing an awaited answer gives up every request still queued with it, empties the queue and requires a sweep;
   * losing what nobody awaits changes nothing.
   */
  lemma LossIsExact(j: Job, k: nat)
    requires WellFormed(j.c) && k < |j.c.participants| && AllKnown(j.c, j.queue)
    ensures var (t, result) := JobAbandon(j, j.c.participants[k].deviceId);
            if j.c.participants[k].control.pending.None? then t == j && result == Ok(false)
            else
              && result == Ok(true)
              && t == j.(c := t.c, queue := [], sweepRequired := true)
              && GaveUp(j.c, t.c, [Request(j.c.participants[k].deviceId, JobStatus)] + j.queue)
  {
    LossIsForOne(j.c, k);
    OneGivenUp(j.c, k);
    hide Abandon, WellFormed;
    var d := Abandon(j.c, j.c.participants[k].deviceId).0;
    var request := Request(j.c.participants[k].deviceId, JobStatus);
    if j.c.participants[k].control.pending.Some? {
      assert AllKnown(d, j.queue) by {
        AlsoKnown(j.c, d, j.queue, k);
      }
      QueueIsGivenUp(d, j.queue);
      GaveUpInTurn(j.c, d, AbandonQueue(d, j.queue).0, request, j.queue, k);
    } else {
      assert d == j.c;
    }
  }

  lemma AlsoKnown(c: Coordinator, d: Coordinator, queue: seq<Request>, k: nat)
    requires AllKnown(c, queue) && k < |c.participants|
    requires GaveUp(c, d, [Request(c.participants[k].deviceId, JobStatus)])
    ensures AllKnown(d, queue)
  {
    forall r | r in queue
      ensures exists i | 0 <= i < |d.participants| :: d.participants[i].deviceId == r.deviceId
    {
      var i :| 0 <= i < |c.participants| && c.participants[i].deviceId == r.deviceId;
      assert d.participants[i].deviceId == r.deviceId;
    }
  }

  /** A faulted job is Faulted for good and asks nothing more. */
  lemma FaultIsFinal(j: Job)
    ensures var t := MarkFault(j);
            && JobPhaseOf(t) == JobFaulted && JobTerminal(t) && t.c == j.c
            && NextOperation(t) == (t, Ok(None)) && RequestStop(t) == (t, Err(NotLegal))
  {
  }
}
