/** Exactly what every answer makes of a capture, and that a device which answers is read out to the last byte. */
module WaveformProgress {
  import opened Wrappers
  import opened WaveformModel

  // ---- Answers ----------------------------------------------------------------------------

  /** A successful status of this very capture. */
  predicate Tells(m: Capture, reply: Reply, phase: CapturePhase) {
    && reply.code == CodeOk && reply.body.StatusBody?
    && reply.body.status.reference == m.reference && reply.body.status.phase == phase
  }

  /** A finished record that fits and has a digest. */
  predicate Fetchable(m: Capture, reply: Reply) {
    && Tells(m, reply, SessionComplete)
    && 0 < reply.body.status.recordBytes <= m.maximumRecord && reply.body.status.recordDigest != 0
  }

  predicate SaysAbsent(reply: Reply) {
    reply == Reply(CodeNotFound, EmptyBody)
  }

  /** The capture the answer leads to, if it leads anywhere: one line for each thing a device can say in time. */
  function Led(m: Capture, action: Action, reply: Reply): Option<Capture> {
    var asked := m.(pending := None);
    match action
    case Configure =>
      if Tells(m, reply, SessionConfigured) then Some(asked.(phase := Configured, status := Some(reply.body.status))) else None
    case PollConfigure =>
      if SaysAbsent(reply) then Some(asked.(phase := Configuring))
      else if Tells(m, reply, SessionConfigured) then
        Some(asked.(phase := Configured, status := Some(reply.body.status)))
      else None
    case Stop =>
      if Tells(m, reply, SessionStopped) then
        Some(asked.(phase := Stopped, status := Some(reply.body.status), record := []))
      else None
    case PollStop =>
      if SaysAbsent(reply) then Some(asked.(phase := Stopped, status := None, record := []))
      else if Tells(m, reply, SessionStopped) then
        Some(asked.(phase := Stopped, status := Some(reply.body.status), record := []))
      else None
    case Read => LedByRange(m, reply)
    case PollArm =>
      if Tells(m, reply, SessionConfigured) then Some(asked.(phase := Arming, status := Some(reply.body.status)))
      else LedByStatus(m, reply)
    case _ => LedByStatus(m, reply)
  }

  function LedByStatus(m: Capture, reply: Reply): Option<Capture> {
    if Tells(m, reply, SessionArmed) then
      Some(m.(pending := None, phase := Armed, status := Some(reply.body.status)))
    else if Fetchable(m, reply) then
      Some(m.(pending := None, phase := Downloading(0, reply.body.status.recordBytes),
              status := Some(reply.body.status), record := []))
    else None
  }

  /** The next range of the announced record. */
  predicate NextRange(m: Capture, reply: Reply) {
    && m.phase.Downloading? && m.status.Some? && reply.code == CodeOk && reply.body.ChunkBody?
    && reply.body.chunk.reference == m.reference && reply.body.chunk.recordDigest == m.status.value.recordDigest
    && reply.body.chunk.offset == m.phase.received && reply.body.chunk.recordBytes == m.phase.total
  }

  function LedByRange(m: Capture, reply: Reply): Option<Capture> {
    if !NextRange(m, reply) then None
    else
      var (grown, end) := (m.record + reply.body.chunk.bytes, m.phase.received + |reply.body.chunk.bytes|);
      if end < m.phase.total then
        Some(m.(pending := None, phase := Downloading(end, m.phase.total), record := grown))
      else if m.validate(grown) == Some(m.status.value.recordDigest) then
        Some(m.(pending := None, phase := Phase.Complete, record := grown))
      else None
  }

  /** The whole record arrived and is not the one announced. */
  predicate Spoiled(m: Capture, reply: Reply) {
    && m.pending == Some(Read) && NextRange(m, reply)
    && m.phase.received + |reply.body.chunk.bytes| == m.phase.total
    && m.validate(m.record + reply.body.chunk.bytes) != Some(m.status.value.recordDigest)
  }

  /**
   * An answer is accepted exactly when it leads somewhere, and then the capture is what it leads to. Any other answer
   * only ends the wait, except that a record found spoiled is dropped and fetched again from its first byte.
   */
  lemma AnswersAreExact(m: Capture, reply: Reply)
    requires Sound(m) && m.pending.Some?
    ensures var ((t, result), led) := (Accept(m, reply), Led(m, m.pending.value, reply));
            && (result.Ok? <==> led.Some?)
            && (led.Some? ==> t == led.value)
            && (led.None? ==> t == if Spoiled(m, reply)
                                   then m.(pending := None, record := [], phase := Downloading(0, m.phase.total))
                                   else m.(pending := None))
  {
  }

  /** A finished capture is fetched: from an arm or either poll, its status opens the download of exactly its length. */
  lemma FinishedIsFetchedExactly(m: Capture, reply: Reply, total: nat)
    requires m.pending.Some? && m.pending.value in {Arm, PollArm, PollComplete} && !m.phase.Downloading?
    ensures Accept(m, reply).0.phase == Downloading(0, total) <==>
              Fetchable(m, reply) && total == reply.body.status.recordBytes
    ensures Fetchable(m, reply) ==>
              && Accept(m, reply).1.Ok? && Accept(m, reply).0.status == Some(reply.body.status)
              && Accept(m, reply).0.record == [] && Accept(m, reply).0.pending.None?
  {
  }

  /** A loss turns a mutation into a poll of its outcome and leaves a poll or a range to be asked again. */
  lemma LossIsExact(m: Capture)
    requires Sound(m) && m.pending.Some?
    ensures var t := Abandon(m).0;
            && t == m.(pending := None, phase := t.phase)
            && RequestFor(t).Ok? && RequestFor(t).value.Some?
            && RequestFor(t).value.value.0 ==
                 (match m.pending.value
                  case Configure => PollConfigure
                  case Arm => PollArm
                  case Stop => PollStop
                  case PollConfigure => PollConfigure
                  case PollArm => PollArm
                  case PollComplete => PollComplete
                  case PollStop => PollStop
                  case Read => Read)
  {
  }

  /** An arm is accepted exactly from a configured capture at rest. */
  lemma ArmIsExact(m: Capture)
    ensures RequestArm(m).1.Ok? <==> m.pending.None? && m.phase == Configured
    ensures RequestArm(m).0 == if RequestArm(m).1.Ok? then m.(phase := Arming) else m
    ensures RequestArm(m).1.Ok? ==> Next(RequestArm(m).0).1 == Ok(Some(ArmOp))
  {
  }

  /** A stop is accepted exactly at rest from a configured, armed, downloading, complete or stopped capture. */
  lemma StopIsExact(m: Capture)
    ensures RequestStop(m).1.Ok? <==>
              m.pending.None? && (m.phase in {Configured, Armed, Phase.Complete, Stopped} || m.phase.Downloading?)
    ensures RequestStop(m).1.Ok? && m.phase != Stopped ==> Next(RequestStop(m).0).1 == Ok(Some(StopOp))
    ensures RequestStop(m).0 ==
            if RequestStop(m).1.Ok? && m.phase != Stopped then m.(phase := Stopping) else m
  {
  }

  // ---- A device that answers --------------------------------------------------------------

  /** The device has finished the capture of its one record and serves any nonempty part of a range it is asked for. */
  ghost predicate Serves(g: Genuine, m: Capture, operation: Operation, reply: Reply) {
    reply.code == CodeOk &&
    match operation
    case ConfigureOp => Tells(m, reply, SessionConfigured)
    case ArmOp => Tells(m, reply, SessionArmed)
    case StatusOp =>
      reply.body == StatusBody(CaptureStatus(m.reference, SessionComplete, |g.record|, g.digest))
    case ReadOp(digest, offset, maximum) =>
      && digest == g.digest && reply.body.ChunkBody?
      && reply.body.chunk.reference == m.reference && reply.body.chunk.recordDigest == g.digest
      && reply.body.chunk.recordBytes == |g.record| && reply.body.chunk.offset == offset
      && 0 < |reply.body.chunk.bytes| <= maximum && offset + |reply.body.chunk.bytes| <= |g.record|
      && reply.body.chunk.bytes == g.record[offset..offset + |reply.body.chunk.bytes|]
    case StopOp => false
  }

  /** One request and its answer. */
  ghost predicate Exchange(g: Genuine, m: Capture, t: Capture) {
    && m.pending.None? && Next(m).1.Ok? && Next(m).1.value.Some?
    && exists reply :: Serves(g, m, Next(m).1.value.value, reply) && t == Accept(Next(m).0, reply).0
  }

  /** The client is fetching this device's record, which it will recognise. */
  ghost predicate Fetching(g: Genuine, m: Capture) {
    && Faithful(g, m) && m.phase.Downloading? && m.pending.None?
    && m.validate(g.record) == Some(g.digest) && 0 < m.maximumChunk
  }

  /** Each exchange of a download brings it strictly closer to the complete record. */
  lemma ExchangeFetches(g: Genuine, m: Capture, t: Capture)
    requires Fetching(g, m) && Exchange(g, m, t)
    ensures (Fetching(g, t) && m.phase.received < t.phase.received) || (t.phase == Phase.Complete && t.record == g.record)
  {
    var operation := Next(m).1.value.value;
    var reply :| Serves(g, m, operation, reply) && t == Accept(Next(m).0, reply).0;
    assert m.record + reply.body.chunk.bytes == g.record[..m.phase.received + |reply.body.chunk.bytes|];
    assert g.record[..|g.record|] == g.record;
  }

  /** A capture that is complete asks nothing more, so an exchange is always possible until then. */
  lemma ExchangeIsPossible(g: Genuine, m: Capture) returns (reply: Reply)
    requires Fetching(g, m)
    ensures Next(m).1 == Ok(Some(ReadOp(g.digest, m.phase.received, m.maximumChunk)))
    ensures Serves(g, m, Next(m).1.value.value, reply) && Exchange(g, m, Accept(Next(m).0, reply).0)
    ensures Truthful(g, reply)
  {
    var from := m.phase.received;
    var size := if |g.record| - from < m.maximumChunk then |g.record| - from else m.maximumChunk;
    var bytes := g.record[from..from + size];
    reply := Reply(CodeOk, ChunkBody(RawChunk(m.reference, g.digest, |g.record|, from, bytes)));
    assert Serves(g, m, Next(m).1.value.value, reply);
  }

  ghost predicate Exchanges(g: Genuine, states: seq<Capture>) {
    states != [] && forall k | 0 <= k < |states| - 1 :: Exchange(g, states[k], states[k + 1])
  }

  /**
   * However the device divides its record into ranges, a download whose requests are all answered is complete after at
   * most as many exchanges as bytes were missing, with exactly the device's record.
   */
  lemma {:induction false} AnsweredDownloadCompletes(g: Genuine, states: seq<Capture>)
    requires Exchanges(g, states) && Fetching(g, states[0])
    ensures |states| - 1 <= Remaining(g, states[0])
    ensures var last := states[|states| - 1];
            && (last.phase == Phase.Complete ==> last.record == g.record)
            && (last.phase != Phase.Complete ==>
                  Fetching(g, last) && |states| - 1 + Remaining(g, last) <= Remaining(g, states[0]))
    decreases |states|
  {
    hide Exchange, Faithful;
    if |states| > 1 {
      var before := states[..|states| - 1];
      assert forall k | 0 <= k < |before| - 1 :: Exchange(g, before[k], before[k + 1]) by {
        forall k | 0 <= k < |before| - 1
          ensures Exchange(g, before[k], before[k + 1])
        {
          assert before[k] == states[k] && before[k + 1] == states[k + 1];
        }
      }
      AnsweredDownloadCompletes(g, before);
      var previous := states[|states| - 2];
      assert Exchange(g, previous, states[|states| - 2 + 1]);
      CompleteAsksNothing(g, previous, states[|states| - 1]);
      ExchangeFetches(g, previous, states[|states| - 1]);
      FetchingIsInside(g, previous);
      if states[|states| - 1].phase != Phase.Complete {
        FetchingIsInside(g, states[|states| - 1]);
      }
    }
  }

  lemma CompleteAsksNothing(g: Genuine, m: Capture, t: Capture)
    requires Exchange(g, m, t)
    ensures m.phase != Phase.Complete
  {
  }

  lemma FetchingIsInside(g: Genuine, m: Capture)
    requires Fetching(g, m)
    ensures m.phase.received < |g.record|
  {
  }

  // ---- From a new capture to the whole record ---------------------------------------------

  ghost predicate Reached(g: Genuine, first: Capture, m: Capture) {
    exists run, events :: GenuineRun(g, run, events) && run[0] == first && run[|events|] == m
  }

  lemma ReachedFirst(g: Genuine, reference: nat, maximumChunk: nat, maximumRecord: nat, validate: Bytes -> Option<nat>)
    ensures var first := NewCapture(reference, maximumChunk, maximumRecord, validate); Reached(g, first, first)
  {
    var first := NewCapture(reference, maximumChunk, maximumRecord, validate);
    assert GenuineRun(g, [first], []);
  }

  lemma ReachedNext(g: Genuine, first: Capture, m: Capture, e: Event, t: Capture)
    requires Reached(g, first, m) && (e.Answer? ==> Truthful(g, e.reply)) && t == After(m, e)
    ensures Reached(g, first, t)
  {
    hide After, Truthful, NewCapture;
    var run: seq<Capture>, events: seq<Event> :|
      GenuineRun(g, run, events) && run[0] == first && run[|events|] == m;
    var (longer, more) := (run + [t], events + [e]);
    forall k | 0 <= k < |more|
      ensures longer[k + 1] == After(longer[k], more[k])
      ensures more[k].Answer? ==> Truthful(g, more[k].reply)
    {
      if k < |events| {
        assert longer[k + 1] == run[k + 1] && more[k] == events[k];
      }
    }
    assert longer[0] == run[0];
    assert GenuineRun(g, longer, more);
  }

  lemma ReachedByExchange(g: Genuine, first: Capture, m: Capture, reply: Reply)
    requires Reached(g, first, m) && Truthful(g, reply)
    ensures Reached(g, first, Accept(Next(m).0, reply).0)
  {
    hide Reached, Truthful;
    ReachedNext(g, first, m, Ask, Next(m).0);
    ReachedNext(g, first, Next(m).0, Answer(reply), Accept(Next(m).0, reply).0);
  }

  ghost predicate Whole(g: Genuine, m: Capture) {
    m.phase == Phase.Complete && m.record == g.record
  }

  lemma {:induction false} ReachedToTheEnd(g: Genuine, first: Capture, m: Capture) returns (last: Capture)
    requires Reached(g, first, m) && Fetching(g, m)
    ensures Reached(g, first, last) && Whole(g, last)
    decreases Remaining(g, m)
  {
    hide Reached, Exchange, Truthful, Faithful;
    FetchingIsInside(g, m);
    var reply := ExchangeIsPossible(g, m);
    var t := Accept(Next(m).0, reply).0;
    ReachedByExchange(g, first, m, reply);
    ExchangeFetches(g, m, t);
    if t.phase == Phase.Complete {
      last := t;
    } else {
      FetchingIsInside(g, t);
      last := ReachedToTheEnd(g, first, t);
    }
  }

  /** Configured, armed and found finished: the download of the device's record is open. */
  lemma ReachedFetching(g: Genuine, reference: nat, maximumChunk: nat, maximumRecord: nat, validate: Bytes -> Option<nat>)
    returns (m: Capture)
    requires 0 < |g.record| <= maximumRecord && g.digest != 0 && 0 < maximumChunk
    requires validate(g.record) == Some(g.digest)
    ensures Reached(g, NewCapture(reference, maximumChunk, maximumRecord, validate), m) && Fetching(g, m)
  {
    hide Reached;
    var first := NewCapture(reference, maximumChunk, maximumRecord, validate);
    ReachedFirst(g, reference, maximumChunk, maximumRecord, validate);
    var configured := CaptureStatus(reference, SessionConfigured, 0, 0);
    var armed := CaptureStatus(reference, SessionArmed, 0, 0);
    var finished := CaptureStatus(reference, SessionComplete, |g.record|, g.digest);
    var a := first.(phase := Configured, status := Some(configured));
    var b := a.(phase := Arming);
    var c := b.(phase := Armed, status := Some(armed));
    m := c.(phase := Downloading(0, |g.record|), status := Some(finished));
    ReachedByExchange(g, first, first, Reply(CodeOk, StatusBody(configured)));
    ReachedNext(g, first, a, AskArm, b);
    ReachedByExchange(g, first, b, Reply(CodeOk, StatusBody(armed)));
    ReachedByExchange(g, first, c, Reply(CodeOk, StatusBody(finished)));
    assert g.record[..0] == [];
  }

  /** The client gets there: against a device that answers truthfully, a new capture can be driven to the whole record. */
  lemma WholeRecordIsReached(
    g: Genuine, reference: nat, maximumChunk: nat, maximumRecord: nat, validate: Bytes -> Option<nat>)
    requires 0 < |g.record| <= maximumRecord && g.digest != 0 && 0 < maximumChunk
    requires validate(g.record) == Some(g.digest)
    ensures exists m ::
              Reached(g, NewCapture(reference, maximumChunk, maximumRecord, validate), m) && Whole(g, m)
  {
    hide Reached, Fetching, Whole;
    var first := NewCapture(reference, maximumChunk, maximumRecord, validate);
    var fetching := ReachedFetching(g, reference, maximumChunk, maximumRecord, validate);
    var last := ReachedToTheEnd(g, first, fetching);
  }
}
