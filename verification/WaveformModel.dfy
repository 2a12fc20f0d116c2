/** What one call of the waveform capture client does: configure, arm, poll, fetch ranges, release. */
module WaveformModel {
  import opened Wrappers

  type byte = x: int | 0 <= x < 256
  type Bytes = seq<byte>

  datatype CapturePhase = SessionConfigured | SessionArmed | SessionComplete | SessionFaulted | SessionStopped

  /** A decoded device status; digest 0 is the zero digest. */
  datatype CaptureStatus = CaptureStatus(reference: nat, phase: CapturePhase, recordBytes: nat, recordDigest: nat)

  datatype RawChunk = RawChunk(reference: nat, recordDigest: nat, recordBytes: nat, offset: nat, bytes: Bytes)

  /** The wire decoder only yields nonempty ranges inside the record they announce. */
  type Chunk = c: RawChunk | c.bytes != [] && c.offset + |c.bytes| <= c.recordBytes
    witness RawChunk(0, 0, 1, 0, [0])

  datatype Code = CodeOk | CodeNotFound | CodeOther

  datatype Body = EmptyBody | StatusBody(status: CaptureStatus) | ChunkBody(chunk: Chunk) | UndecodableBody

  datatype Reply = Reply(code: Code, body: Body)

  datatype Phase =
    | Configuring | ReconcilingConfigure | Configured | Arming | ReconcilingArm | Armed
    | Downloading(received: nat, total: nat) | Complete | Stopping | ReconcilingStop | Stopped

  datatype Action = Configure | PollConfigure | Arm | PollArm | PollComplete | Read | Stop | PollStop

  datatype Operation = ConfigureOp | StatusOp | ArmOp | ReadOp(recordDigest: nat, offset: nat, maximum: nat) | StopOp

  datatype ClientError =
    | RequestPending | NoPendingRequest | InvalidTransition | BadState | BadIdentity | DeviceCode | BadBody | BadWire

  /** `validate` is the complete-record check: the digest of a canonical record of this configuration. */
  datatype Capture = Capture(
    reference: nat, maximumChunk: nat, maximumRecord: nat, validate: Bytes -> Option<nat>,
    phase: Phase, pending: Option<Action>, status: Option<CaptureStatus>, record: Bytes)

  function NewCapture(reference: nat, maximumChunk: nat, maximumRecord: nat, validate: Bytes -> Option<nat>): Capture {
    Capture(reference, maximumChunk, maximumRecord, validate, Configuring, None, None, [])
  }

  type Outcome = (Capture, Result<(), ClientError>)

  function RequestFor(m: Capture): Result<Option<(Action, Operation)>, ClientError> {
    match m.phase
    case Configuring => Ok(Some((Configure, ConfigureOp)))
    case ReconcilingConfigure => Ok(Some((PollConfigure, StatusOp)))
    case Arming => Ok(Some((Arm, ArmOp)))
    case ReconcilingArm => Ok(Some((PollArm, StatusOp)))
    case Armed => Ok(Some((PollComplete, StatusOp)))
    case Downloading(received, _) =>
      if m.status.None? then Err(BadState)
      else Ok(Some((Read, ReadOp(m.status.value.recordDigest, received, m.maximumChunk))))
    case Stopping => Ok(Some((Stop, StopOp)))
    case ReconcilingStop => Ok(Some((PollStop, StatusOp)))
    case Configured => Ok(None)
    case Complete => Ok(None)
    case Stopped => Ok(None)
  }

  function Next(m: Capture): (Capture, Result<Option<Operation>, ClientError>) {
    if m.pending.Some? then (m, Err(RequestPending))
    else
      match RequestFor(m)
      case Err(error) => (m, Err(error))
      case Ok(None) => (m, Ok(None))
      case Ok(Some(pair)) => (m.(pending := Some(pair.0)), Ok(Some(pair.1)))
  }

  function RequestArm(m: Capture): Outcome {
    if m.pending.Some? then (m, Err(RequestPending))
    else if m.phase != Configured then (m, Err(InvalidTransition))
    else (m.(phase := Arming), Ok(()))
  }

  function RequestStop(m: Capture): Outcome {
    if m.pending.Some? then (m, Err(RequestPending))
    else if m.phase in {Configured, Armed, Complete} || m.phase.Downloading? then (m.(phase := Stopping), Ok(()))
    else if m.phase == Stopped then (m, Ok(()))
    else (m, Err(InvalidTransition))
  }

  function BeginDownload(m: Capture, status: CaptureStatus): Outcome {
    if status.recordBytes == 0 || status.recordBytes > m.maximumRecord || status.recordDigest == 0 then (m, Err(BadState))
    else (m.(record := [], phase := Downloading(0, status.recordBytes)), Ok(()))
  }

  function AcceptAcquisition(m: Capture, status: CaptureStatus): Outcome {
    match status.phase
    case SessionArmed => (m.(phase := Armed), Ok(()))
    case SessionComplete => BeginDownload(m, status)
    case SessionConfigured => if m.phase == ReconcilingArm then (m.(phase := Arming), Ok(())) else (m, Err(BadState))
    case SessionFaulted => (m, Err(BadState))
    case SessionStopped => (m, Err(BadState))
  }

  /** A range is appended before the whole record is judged; a bad record starts the download over. */
  function AcceptRange(m: Capture, body: Body): Outcome {
    if m.status.None? || !m.phase.Downloading? then (m, Err(BadState))
    else if !body.ChunkBody? || body.chunk.reference != m.reference
         || body.chunk.recordDigest != m.status.value.recordDigest then (m, Err(BadWire))
    else
      var chunk := body.chunk;
      if chunk.offset != m.phase.received || chunk.recordBytes != m.phase.total then (m, Err(BadIdentity))
      else
        var grown := m.record + chunk.bytes;
        var received := chunk.offset + |chunk.bytes|;
        if received != m.phase.total then (m.(record := grown, phase := Downloading(received, m.phase.total)), Ok(()))
        else
          var digest := m.validate(grown);
          var restarted := m.(record := [], phase := Downloading(0, m.phase.total));
          if digest.None? then (restarted, Err(BadWire))
          else if digest.value != m.status.value.recordDigest then (restarted, Err(BadIdentity))
          else (m.(record := grown, phase := Complete), Ok(()))
  }

  function AcceptStatus(m: Capture, action: Action, status: CaptureStatus): Outcome {
    match action
    case Configure => if status.phase != SessionConfigured then (m, Err(BadState)) else (m.(phase := Configured), Ok(()))
    case PollConfigure => if status.phase != SessionConfigured then (m, Err(BadState)) else (m.(phase := Configured), Ok(()))
    case Stop => if status.phase != SessionStopped then (m, Err(BadState)) else (m.(phase := Stopped, record := []), Ok(()))
    case PollStop => if status.phase != SessionStopped then (m, Err(BadState)) else (m.(phase := Stopped, record := []), Ok(()))
    case _ => AcceptAcquisition(m, status)
  }

  /** The code and body every reply but a NotFound poll must have. */
  function RequireOk(reply: Reply): Option<ClientError> {
    if reply.code == CodeOk then (if reply.body.EmptyBody? then Some(BadBody) else None)
    else if reply.body.EmptyBody? then Some(DeviceCode) else Some(BadBody)
  }

  function Accept(m: Capture, reply: Reply): Outcome {
    if m.pending.None? then (m, Err(NoPendingRequest))
    else
      var action := m.pending.value;
      var q := m.(pending := None);
      if action in {PollConfigure, PollStop} && reply.code == CodeNotFound then
        if !reply.body.EmptyBody? then (q, Err(BadBody))
        else if action == PollConfigure then (q.(phase := Configuring), Ok(()))
        else (q.(phase := Stopped, status := None, record := []), Ok(()))
      else if RequireOk(reply).Some? then (q, Err(RequireOk(reply).value))
      else if action == Read then AcceptRange(q, reply.body)
      else if !reply.body.StatusBody? then (q, Err(BadWire))
      else if reply.body.status.reference != m.reference then (q, Err(BadIdentity))
      else
        var (r, result) := AcceptStatus(q, action, reply.body.status);
        (if result.Ok? then r.(status := Some(reply.body.status)) else r, result)
  }

  function Abandon(m: Capture): (Capture, bool) {
    if m.pending.None? then (m, false)
    else
      var phase :=
        match m.pending.value
        case Configure => ReconcilingConfigure
        case PollConfigure => ReconcilingConfigure
        case Arm => ReconcilingArm
        case PollArm => ReconcilingArm
        case PollComplete => Armed
        case Read => m.phase
        case Stop => ReconcilingStop
        case PollStop => ReconcilingStop;
      (m.(pending := None, phase := phase), true)
  }

  // ---- Runs -------------------------------------------------------------------------------

  datatype Event = Ask | Answer(reply: Reply) | Lose | AskArm | AskStop

  function After(m: Capture, e: Event): Capture {
    match e
    case Ask => Next(m).0
    case Answer(reply) => Accept(m, reply).0
    case Lose => Abandon(m).0
    case AskArm => RequestArm(m).0
    case AskStop => RequestStop(m).0
  }

  ghost predicate IsRun(run: seq<Capture>, events: seq<Event>) {
    && |run| == |events| + 1
    && (exists reference, chunk, record, validate :: run[0] == NewCapture(reference, chunk, record, validate))
    && forall k | 0 <= k < |events| :: run[k + 1] == After(run[k], events[k])
  }

  /** The action a phase would send; a pending action always belongs to the phase it was sent in. */
  predicate PendingFits(m: Capture) {
    m.pending.Some? ==> RequestFor(m).Ok? && RequestFor(m).value.Some? && RequestFor(m).value.value.0 == m.pending.value
  }

  ghost predicate Sound(m: Capture) {
    && PendingFits(m)
    && (m.phase.Downloading? ==>
          && m.status.Some? && m.status.value.recordBytes == m.phase.total
          && m.status.value.phase == SessionComplete && m.status.value.reference == m.reference
          && m.phase.total <= m.maximumRecord && m.status.value.recordDigest != 0
          && |m.record| == m.phase.received < m.phase.total)
    && (m.phase == Complete ==>
          && m.status.Some? && |m.record| == m.status.value.recordBytes
          && m.validate(m.record) == Some(m.status.value.recordDigest))
  }

  lemma EventKeepsSound(m: Capture, e: Event)
    requires Sound(m)
    ensures Sound(After(m, e))
  {
  }

  /**
   * Against any device at all: the retained bytes have exactly the download offset as their length, and a complete
   * record has passed validation with exactly the announced digest and length.
   */
  lemma {:induction false} RetainedBytesMatchOffset(run: seq<Capture>, events: seq<Event>, n: nat)
    requires IsRun(run, events) && n <= |events|
    ensures Sound(run[n])
  {
    if n > 0 {
      RetainedBytesMatchOffset(run, events, n - 1);
      EventKeepsSound(run[n - 1], events[n - 1]);
    }
  }

  // ---- A genuine device -------------------------------------------------------------------

  datatype Genuine = Genuine(record: Bytes, digest: nat)

  /** Whatever this device says about a finished capture is true of its one record. */
  ghost predicate Truthful(g: Genuine, reply: Reply) {
    && (reply.body.StatusBody? && reply.body.status.phase == SessionComplete ==>
          reply.body.status.recordBytes == |g.record| && reply.body.status.recordDigest == g.digest)
    && (reply.body.ChunkBody? && reply.body.chunk.recordDigest == g.digest
        && reply.body.chunk.offset + |reply.body.chunk.bytes| <= |g.record| ==>
          reply.body.chunk.bytes
          == g.record[reply.body.chunk.offset..reply.body.chunk.offset + |reply.body.chunk.bytes|])
  }

  ghost predicate Faithful(g: Genuine, m: Capture) {
    && Sound(m)
    && (m.phase.Downloading? ==>
          && m.phase.total == |g.record| && m.status.value.recordDigest == g.digest
          && m.record == g.record[..m.phase.received])
    && (m.phase == Complete ==> m.record == g.record && m.status.value.recordDigest == g.digest)
  }

  lemma RangeKeepsFaithful(g: Genuine, m: Capture, reply: Reply)
    requires Faithful(g, m) && m.pending == Some(Read) && Truthful(g, reply)
    ensures Faithful(g, Accept(m, reply).0)
  {
    EventKeepsSound(m, Answer(reply));
    if reply.code == CodeOk && reply.body.ChunkBody? && reply.body.chunk.offset == m.phase.received
       && reply.body.chunk.recordBytes == m.phase.total && reply.body.chunk.recordDigest == g.digest {
      var chunk := reply.body.chunk;
      assert m.record + chunk.bytes == g.record[..chunk.offset + |chunk.bytes|];
    }
  }

  lemma EventKeepsFaithful(g: Genuine, m: Capture, e: Event)
    requires Faithful(g, m) && (e.Answer? ==> Truthful(g, e.reply))
    ensures Faithful(g, After(m, e))
  {
    EventKeepsSound(m, e);
    if e.Answer? && m.pending == Some(Read) {
      RangeKeepsFaithful(g, m, e.reply);
    }
  }

  ghost predicate GenuineRun(g: Genuine, run: seq<Capture>, events: seq<Event>) {
    IsRun(run, events) && forall k | 0 <= k < |events| && events[k].Answer? :: Truthful(g, events[k].reply)
  }

  /** Retained bytes are a prefix of the device's record throughout, and the whole record once complete. */
  lemma {:induction false} RetainedBytesAreAPrefix(g: Genuine, run: seq<Capture>, events: seq<Event>, n: nat)
    requires GenuineRun(g, run, events) && n <= |events|
    ensures Faithful(g, run[n])
  {
    if n > 0 {
      RetainedBytesAreAPrefix(g, run, events, n - 1);
      EventKeepsFaithful(g, run[n - 1], events[n - 1]);
    }
  }

  /** A range request continues exactly where the retained prefix ends and names the announced record. */
  lemma RangeContinuesThePrefix(g: Genuine, run: seq<Capture>, events: seq<Event>, n: nat)
    requires GenuineRun(g, run, events) && n <= |events| && run[n].pending.None? && run[n].phase.Downloading?
    ensures Next(run[n]).1 == Ok(Some(ReadOp(g.digest, |run[n].record|, run[n].maximumChunk)))
    ensures |run[n].record| < |g.record| && run[n].record == g.record[..|run[n].record|]
  {
    RetainedBytesAreAPrefix(g, run, events, n);
  }

  /** Bytes the download still needs. */
  function Remaining(g: Genuine, m: Capture): nat {
    if m.phase.Downloading? && m.phase.received <= |g.record| then |g.record| - m.phase.received else 0
  }

  /**
   * Against a genuine device whose record validates, nothing ever starts the download over: every accepted range
   * brings it strictly closer to its end, and a rejected, lost or unanswered one leaves it exactly where it was.
   */
  lemma DownloadAdvances(g: Genuine, m: Capture, e: Event)
    requires Faithful(g, m) && m.phase.Downloading? && m.validate(g.record) == Some(g.digest)
    requires e.Answer? ==> Truthful(g, e.reply)
    requires !e.AskStop?
    ensures var t := After(m, e);
            if e.Answer? && Accept(m, e.reply).1.Ok? then
              t.phase == Complete || (t.phase.Downloading? && Remaining(g, t) < Remaining(g, m))
            else t.phase == m.phase && t.record == m.record
  {
    if e.Answer? && m.pending == Some(Read) && e.reply.body.ChunkBody? {
      var chunk := e.reply.body.chunk;
      if chunk.offset == m.phase.received && chunk.recordBytes == m.phase.total && chunk.recordDigest == g.digest {
        assert m.record + chunk.bytes == g.record[..chunk.offset + |chunk.bytes|];
        assert g.record[..|g.record|] == g.record;
      }
    }
  }

  lemma EventKeepsConfiguration(m: Capture, e: Event)
    ensures After(m, e).validate == m.validate && After(m, e).reference == m.reference
  {
  }

  lemma {:induction false} ConfigurationNeverChanges(run: seq<Capture>, events: seq<Event>, from: nat, to: nat)
    requires IsRun(run, events) && from <= to <= |events|
    ensures run[to].validate == run[from].validate && run[to].reference == run[from].reference
  {
    hide After;
    if from < to {
      ConfigurationNeverChanges(run, events, from, to - 1);
      EventKeepsConfiguration(run[to - 1], events[to - 1]);
    }
  }

  predicate Accepts(m: Capture, e: Event) {
    e.Answer? && Accept(m, e.reply).1.Ok?
  }

  lemma AcceptedRangeCounts(g: Genuine, m: Capture, e: Event)
    requires Faithful(g, m) && m.phase.Downloading? && m.validate(g.record) == Some(g.digest)
    requires (e.Answer? ==> Truthful(g, e.reply)) && !e.AskStop?
    ensures (if Accepts(m, e) then 1 else 0) + Remaining(g, After(m, e)) <= Remaining(g, m)
  {
    hide After, Accept;
    DownloadAdvances(g, m, e);
  }

  ghost function AcceptedRanges(run: seq<Capture>, events: seq<Event>, from: nat, to: nat): nat
    requires |run| == |events| + 1 && from <= to <= |events|
  {
    if from == to then 0
    else AcceptedRanges(run, events, from, to - 1)
         + (if Accepts(run[to - 1], events[to - 1]) then 1 else 0)
  }

  /** So a download is over after at most as many accepted ranges as bytes were missing. */
  lemma {:induction false} DownloadTerminates(g: Genuine, run: seq<Capture>, events: seq<Event>, from: nat, to: nat)
    requires GenuineRun(g, run, events) && from <= to <= |events|
    requires run[from].validate(g.record) == Some(g.digest)
    requires forall k | from <= k < to :: run[k].phase.Downloading? && !events[k].AskStop?
    ensures AcceptedRanges(run, events, from, to) + Remaining(g, run[to]) <= Remaining(g, run[from])
  {
    if from < to {
      hide After, Faithful, Accepts, Remaining, Truthful, NewCapture;
      DownloadTerminates(g, run, events, from, to - 1);
      ConfigurationNeverChanges(run, events, from, to - 1);
      RetainedBytesAreAPrefix(g, run, events, to - 1);
      AcceptedRangeCounts(g, run[to - 1], events[to - 1]);
    }
  }

  /** Even a lying device cannot pass off another record: if only one record has the announced digest, that one is shown. */
  lemma CompleteIsTheAnnouncedRecord(run: seq<Capture>, events: seq<Event>, n: nat, record: Bytes)
    requires IsRun(run, events) && n <= |events| && run[n].phase == Complete
    requires forall b: Bytes ::
               run[n].status.Some? && run[n].validate(b) == Some(run[n].status.value.recordDigest) ==> b == record
    ensures run[n].record == record
  {
    RetainedBytesMatchOffset(run, events, n);
  }

  // ---- Lost mutations ---------------------------------------------------------------------

  /** The session was proven absent by the poll answered at step `k`. */
  predicate ProvenAbsent(m: Capture, e: Event) {
    m.pending == Some(PollConfigure) && e == Answer(Reply(CodeNotFound, EmptyBody))
  }

  /** The session was proven configured but not armed. */
  predicate ProvenUnarmed(m: Capture, e: Event) {
    && m.pending == Some(PollArm) && e.Answer? && e.reply.code == CodeOk && e.reply.body.StatusBody?
    && e.reply.body.status.reference == m.reference && e.reply.body.status.phase == SessionConfigured
  }

  predicate Emits(m: Capture, e: Event, operation: Operation) {
    e.Ask? && Next(m).1 == Ok(Some(operation))
  }

  /** Once past configuration, only a poll that proves absence leads back to it. */
  lemma {:induction false} ConfiguringNeedsProof(run: seq<Capture>, events: seq<Event>, lost: nat, n: nat) returns (k: nat)
    requires IsRun(run, events) && lost < n <= |events| && events[lost].Lose? && run[lost].pending == Some(Configure)
    requires run[n].phase == Configuring
    ensures lost < k < n && ProvenAbsent(run[k], events[k])
  {
    RetainedBytesMatchOffset(run, events, n - 1);
    if run[n - 1].phase == Configuring && n - 1 > lost {
      k := ConfiguringNeedsProof(run, events, lost, n - 1);
    } else {
      k := n - 1;
    }
  }

  /** A configure whose outcome was lost is sent again only after a poll proved that no session exists. */
  lemma LostConfigureIsNeverBlindlyRepeated(run: seq<Capture>, events: seq<Event>, lost: nat, again: nat)
    requires IsRun(run, events) && lost < again < |events|
    requires events[lost].Lose? && run[lost].pending == Some(Configure) && Emits(run[again], events[again], ConfigureOp)
    ensures exists k :: lost < k < again && ProvenAbsent(run[k], events[k])
  {
    var k := ConfiguringNeedsProof(run, events, lost, again);
  }

  predicate BeforeArming(phase: Phase) {
    phase in {Configuring, ReconcilingConfigure, Configured, Arming}
  }

  lemma LostArmLeavesArming(m: Capture)
    requires m.pending == Some(Arm)
    ensures !BeforeArming(After(m, Lose).phase)
  {
  }

  lemma ReturnIsProven(m: Capture, e: Event)
    requires Sound(m) && !BeforeArming(m.phase) && BeforeArming(After(m, e).phase)
    ensures ProvenUnarmed(m, e)
  {
  }

  lemma {:induction false} ArmingNeedsProof(run: seq<Capture>, events: seq<Event>, lost: nat, n: nat) returns (k: nat)
    requires IsRun(run, events) && lost < n <= |events| && events[lost].Lose? && run[lost].pending == Some(Arm)
    requires BeforeArming(run[n].phase)
    ensures lost < k < n && ProvenUnarmed(run[k], events[k])
  {
    hide After, Sound, ProvenUnarmed, BeforeArming;
    RetainedBytesMatchOffset(run, events, n - 1);
    LostArmLeavesArming(run[lost]);
    if BeforeArming(run[n - 1].phase) {
      k := ArmingNeedsProof(run, events, lost, n - 1);
    } else {
      k := n - 1;
      ReturnIsProven(run[k], events[k]);
    }
  }

  /** An arm whose outcome was lost is sent again only after a poll showed the session still merely configured. */
  lemma LostArmIsNeverBlindlyRepeated(run: seq<Capture>, events: seq<Event>, lost: nat, again: nat)
    requires IsRun(run, events) && lost < again < |events|
    requires events[lost].Lose? && run[lost].pending == Some(Arm) && Emits(run[again], events[again], ArmOp)
    ensures exists k :: lost < k < again && ProvenUnarmed(run[k], events[k])
  {
    var k := ArmingNeedsProof(run, events, lost, again);
  }

  /** A lost stop is only ever polled: it is not sent again, whatever the device answers. */
  lemma {:induction false} LostStopIsOnlyPolled(run: seq<Capture>, events: seq<Event>, lost: nat, n: nat)
    requires IsRun(run, events) && lost < n <= |events| && events[lost].Lose? && run[lost].pending == Some(Stop)
    ensures run[n].phase in {ReconcilingStop, Stopped}
    ensures n < |events| ==> !Emits(run[n], events[n], StopOp)
  {
    if n - 1 > lost {
      LostStopIsOnlyPolled(run, events, lost, n - 1);
    }
    RetainedBytesMatchOffset(run, events, n - 1);
  }

  /** In contrast a reply that arrives but is refused keeps the mutation: the next request repeats it without a poll. */
  lemma RefusedMutationIsRepeated(run: seq<Capture>, events: seq<Event>, n: nat)
    requires IsRun(run, events) && n < |events| && events[n].Answer?
    requires run[n].pending.Some? && run[n].pending.value in {Configure, Arm, Stop}
    requires Accept(run[n], events[n].reply).1.Err?
    ensures run[n + 1].phase == run[n].phase
    ensures Next(run[n + 1]).0.pending == run[n].pending
  {
    RetainedBytesMatchOffset(run, events, n);
  }
}
