/** What one call of the capability document downloader does: contiguous ranges into one preallocated document. */
module CapabilityModel {
  import opened Wrappers

  type byte = x: int | 0 <= x < 256
  type Bytes = seq<byte>

  /** Digest 0 is the zero digest. */
  datatype Identity = Identity(byteLen: u32, digest: nat)

  datatype RangeRequest = RangeRequest(expectedDigest: nat, offset: nat, maximum: nat)

  /** A decoded range reply; the wire decoder ties the announced chunk length to the chunk. */
  datatype RangeReply = RangeReply(identity: Identity, offset: nat, complete: bool, chunk: Bytes)

  datatype Body = EmptyBody | RangeBody(range: RangeReply) | UndecodableBody

  datatype Reply = Reply(ok: bool, body: Body)

  datatype DownloadError = Limit | BadWire | BadDocument | DeviceCode | BadBody | BadIdentity | Range | RequestPending | NoPendingRequest

  /** `decode` is the complete-document check: the identity of canonical document bytes. */
  datatype Download = Download(
    maximumDocument: nat, maximumChunk: nat, decode: Bytes -> Option<Identity>,
    identity: Option<Identity>, document: Bytes, received: nat, complete: bool, pending: Option<RangeRequest>)

  function NewDownload(maximumDocument: nat, maximumChunk: nat, decode: Bytes -> Option<Identity>): Download {
    Download(maximumDocument, maximumChunk, decode, None, [], 0, false, None)
  }

  function ExpectedDigest(m: Download): nat {
    if m.identity.Some? then m.identity.value.digest else 0
  }

  function RemainingBytes(m: Download): nat {
    if m.identity.None? then m.maximumChunk
    else if m.identity.value.byteLen > m.received then m.identity.value.byteLen - m.received
    else 0
  }

  function Next(m: Download): (Download, Result<Option<RangeRequest>, DownloadError>) {
    if m.pending.Some? then (m, Err(RequestPending))
    else if m.complete then (m, Ok(None))
    else if RemainingBytes(m) == 0 then (m, Err(Range))
    else
      var maximum := if RemainingBytes(m) < m.maximumChunk then RemainingBytes(m) else m.maximumChunk;
      var request := RangeRequest(ExpectedDigest(m), m.received, maximum);
      (m.(pending := Some(request)), Ok(Some(request)))
  }

  /** What a reply must satisfy before it may touch the document. */
  function Refusal(m: Download, request: RangeRequest, range: RangeReply): Option<DownloadError> {
    if range.offset != request.offset || range.offset != m.received || |range.chunk| > request.maximum then Some(Range)
    else if range.identity.byteLen > m.maximumDocument then Some(Limit)
    else if m.identity.Some? then
      if range.identity != m.identity.value || request.expectedDigest != m.identity.value.digest then Some(BadIdentity) else None
    else if request.expectedDigest != 0 then Some(BadIdentity)
    else None
  }

  /** The document is allocated and its identity retained before the range itself is judged. */
  function Admitted(m: Download, identity: Identity): Download {
    if m.identity.Some? then m
    else m.(identity := Some(identity), document := seq(identity.byteLen, _ => 0))
  }

  function Overwrite(document: Bytes, start: nat, chunk: Bytes): (r: Bytes)
    requires start + |chunk| <= |document|
    ensures |r| == |document|
  {
    document[..start] + chunk + document[start + |chunk|..]
  }

  function Commit(m: Download, range: RangeReply): (Download, Result<(), DownloadError>)
  {
    var end := m.received + |range.chunk|;
    if end > |m.document| then (m, Err(Range))
    else
      var written := m.(document := Overwrite(m.document, m.received, range.chunk));
      if range.complete then
        if end != range.identity.byteLen then (written, Err(Range))
        else if m.decode(written.document).None? then (written, Err(BadDocument))
        else if m.decode(written.document).value != range.identity then (written, Err(BadIdentity))
        else (written.(received := end, complete := true), Ok(()))
      else if end >= range.identity.byteLen then (written, Err(Range))
      else (written.(received := end), Ok(()))
  }

  function Accept(m: Download, reply: Reply): (Download, Result<(), DownloadError>) {
    if m.pending.None? then (m, Err(NoPendingRequest))
    else
      var request := m.pending.value;
      var q := m.(pending := None);
      if !reply.ok then (q, Err(if reply.body.EmptyBody? then DeviceCode else BadBody))
      else if reply.body.EmptyBody? then (q, Err(BadBody))
      else if reply.body.UndecodableBody? then (q, Err(BadWire))
      else
        var refusal := Refusal(q, request, reply.body.range);
        if refusal.Some? then (q, Err(refusal.value))
        else Commit(Admitted(q, reply.body.range.identity), reply.body.range)
  }

  function Abandon(m: Download): (Download, bool) {
    (m.(pending := None), m.pending.Some?)
  }

  function Reset(m: Download): Download {
    m.(identity := None, document := [], received := 0, complete := false, pending := None)
  }

  // ---- Runs -------------------------------------------------------------------------------

  datatype Event = Ask | Answer(reply: Reply) | Lose | StartOver

  function After(m: Download, e: Event): Download {
    match e
    case Ask => Next(m).0
    case Answer(reply) => Accept(m, reply).0
    case Lose => Abandon(m).0
    case StartOver => Reset(m)
  }

  ghost predicate IsRun(run: seq<Download>, events: seq<Event>) {
    && |run| == |events| + 1
    && (exists document, chunk, decode :: chunk > 0 && run[0] == NewDownload(document, chunk, decode))
    && forall k | 0 <= k < |events| :: run[k + 1] == After(run[k], events[k])
  }

  ghost predicate Sound(m: Download) {
    && m.maximumChunk > 0
    && m.received <= |m.document|
    && (m.identity.None? ==> m.document == [] && !m.complete)
    && (m.identity.Some? ==> |m.document| == m.identity.value.byteLen)
    && (m.identity.Some? && !m.complete ==> m.received < m.identity.value.byteLen || m.identity.value.byteLen == 0)
    && (m.complete ==> m.received == m.identity.value.byteLen && m.decode(m.document) == Some(m.identity.value))
    && (m.complete ==> m.pending.None?)
    && (m.pending.Some? ==>
          && m.pending.value.offset == m.received && m.pending.value.expectedDigest == ExpectedDigest(m)
          && 0 < m.pending.value.maximum <= RemainingBytes(m))
  }

  lemma EventKeepsSound(m: Download, e: Event)
    requires Sound(m)
    ensures Sound(After(m, e))
  {
  }

  /** Against any device at all, `Complete` means whole canonical bytes of exactly the retained identity. */
  lemma {:induction false} DownloadsAreSound(run: seq<Download>, events: seq<Event>, n: nat)
    requires IsRun(run, events) && n <= |events|
    ensures Sound(run[n])
  {
    hide After, Sound;
    if n > 0 {
      DownloadsAreSound(run, events, n - 1);
      EventKeepsSound(run[n - 1], events[n - 1]);
    } else {
      FreshIsSound(run[0]);
    }
  }

  lemma FreshIsSound(m: Download)
    requires exists document, chunk, decode :: chunk > 0 && m == NewDownload(document, chunk, decode)
    ensures Sound(m)
  {
  }

  /** The contiguous prefix the client may rely on; bytes behind it may hold parts of a refused range. */
  function Prefix(m: Download): Bytes
    requires m.received <= |m.document|
  {
    m.document[..m.received]
  }

  /**
   * Only an accepted range changes the prefix, and only by extending it; a refused reply, a loss or a request leaves
   * it as it was; only a reset shortens it.
   */
  lemma PrefixOnlyGrows(m: Download, e: Event)
    requires Sound(m) && !e.StartOver?
    ensures var t := After(m, e);
            && t.received <= |t.document| && m.received <= t.received && t.document[..m.received] == Prefix(m)
            && (m.identity.Some? ==> t.identity == m.identity)
            && (!(e.Answer? && Accept(m, e.reply).1.Ok?) ==> t.received == m.received && t.complete == m.complete)
            && (e.Answer? && Accept(m, e.reply).1.Ok? ==> Prefix(t) == Prefix(m) + e.reply.body.range.chunk)
  {
    if e.Answer? && m.pending.Some? && e.reply.ok && e.reply.body.RangeBody? {
      var q := m.(pending := None);
      var range := e.reply.body.range;
      if Refusal(q, m.pending.value, range).None? {
        CommitGrows(Admitted(q, range.identity), range);
      }
    }
    hide Commit;
  }

  lemma CommitGrows(m: Download, range: RangeReply)
    requires m.received <= |m.document| && m.identity.Some? && !m.complete
    ensures var (t, result) := Commit(m, range);
            && t.received <= |t.document| == |m.document| && t.document[..m.received] == Prefix(m)
            && t.identity == m.identity && m.received <= t.received
            && (result.Err? ==> t.received == m.received && t.complete == m.complete)
            && (result.Ok? ==> Prefix(t) == Prefix(m) + range.chunk)
  {
  }

  // ---- A genuine device -------------------------------------------------------------------

  datatype Genuine = Genuine(document: Bytes, identity: Identity)

  /** Every range this device sends is cut from its one document and marked complete exactly at its end. */
  ghost predicate Truthful(g: Genuine, reply: Reply) {
    && g.identity.byteLen == |g.document|
    && (reply.body.RangeBody? ==>
          var range := reply.body.range;
          && range.identity == g.identity
          && range.offset + |range.chunk| <= |g.document|
          && range.chunk == g.document[range.offset..range.offset + |range.chunk|]
          && (range.complete <==> range.offset + |range.chunk| == |g.document|))
  }

  ghost predicate Faithful(g: Genuine, m: Download) {
    && Sound(m)
    && (m.identity.Some? ==> m.identity.value == g.identity && |g.document| == g.identity.byteLen)
    && (m.received <= |g.document| && Prefix(m) == g.document[..m.received])
    && (m.complete ==> m.document == g.document)
  }

  lemma AnswerKeepsFaithful(g: Genuine, m: Download, reply: Reply)
    requires Faithful(g, m) && Truthful(g, reply)
    ensures Faithful(g, Accept(m, reply).0)
  {
    EventKeepsSound(m, Answer(reply));
    PrefixOnlyGrows(m, Answer(reply));
    AnswerNamesTheDocument(g, m, reply);
    hide Accept, Sound;
    var t := Accept(m, reply).0;
    if Accept(m, reply).1.Ok? {
      var range := reply.body.range;
      assert g.document[..m.received] + range.chunk == g.document[..m.received + |range.chunk|];
      assert t.complete ==> t.document == Prefix(t) && g.document[..t.received] == g.document;
    }
  }

  /** What a truthful reply leaves behind names the device's own document, at the offset it was asked for. */
  lemma AnswerNamesTheDocument(g: Genuine, m: Download, reply: Reply)
    requires Faithful(g, m) && Truthful(g, reply)
    ensures var (t, result) := Accept(m, reply);
            && (t.identity.Some? ==> t.identity.value == g.identity)
            && (t.complete ==> t.received == |t.document| == |g.document|)
            && (result.Ok? ==> reply.body.RangeBody? && reply.body.range.offset == m.received && !m.complete)
            && (!result.Ok? && t.complete ==> t.document == m.document && m.complete)
  {
  }

  lemma EventKeepsFaithful(g: Genuine, m: Download, e: Event)
    requires Faithful(g, m) && (e.Answer? ==> Truthful(g, e.reply))
    ensures Faithful(g, After(m, e))
  {
    if e.Answer? {
      AnswerKeepsFaithful(g, m, e.reply);
    }
  }

  /** The retained prefix is always the device document's prefix, and a completed download is the whole document. */
  lemma {:induction false} PrefixIsTheDocuments(g: Genuine, run: seq<Download>, events: seq<Event>, n: nat)
    requires IsRun(run, events) && n <= |events|
    requires forall k | 0 <= k < |events| && events[k].Answer? :: Truthful(g, events[k].reply)
    ensures Faithful(g, run[n])
  {
    if n == 0 {
      FreshIsSound(run[0]);
    } else {
      PrefixIsTheDocuments(g, run, events, n - 1);
      hide Faithful, After, Truthful;
      EventKeepsFaithful(g, run[n - 1], events[n - 1]);
    }
  }

  // ---- The request that cannot be formed --------------------------------------------------

  /** An unfinished download has nothing left to ask for exactly when it has admitted an identity of length zero. */
  lemma NothingRemainsExactlyForEmptyIdentity(run: seq<Download>, events: seq<Event>, n: nat)
    requires IsRun(run, events) && n <= |events| && run[n].pending.None? && !run[n].complete
    ensures Next(run[n]).1 == Err(Range) <==> run[n].identity.Some? && run[n].identity.value.byteLen == 0
  {
    DownloadsAreSound(run, events, n);
  }

  /** Such an identity is admitted by a first range that is itself refused, and from then on only a reset helps. */
  lemma EmptyIdentityIsAdmitted(m: Download, digest: nat, complete: bool)
    requires Sound(m) && m.identity.None? && m.pending.Some?
    requires complete ==> m.decode([]) == None
    ensures var reply := Reply(true, RangeBody(RangeReply(Identity(0, digest), 0, complete, [])));
            && Accept(m, reply).1.Err?
            && Accept(m, reply).0.identity == Some(Identity(0, digest))
            && Next(Accept(m, reply).0).1 == Err(Range)
  {
    assert Overwrite([], 0, []) == [];
  }

  lemma {:induction false} EmptyIdentityStays(run: seq<Download>, events: seq<Event>, from: nat, to: nat)
    requires IsRun(run, events) && from <= to <= |events|
    requires run[from].identity.Some? && run[from].identity.value.byteLen == 0 && !run[from].complete
    requires run[from].pending.None? && forall k | from <= k < to :: !events[k].StartOver?
    ensures run[to].pending.None? && Next(run[to]).1 == Err(Range)
  {
    if from < to {
      EmptyIdentityStays(run, events, from, to - 1);
      DownloadsAreSound(run, events, to - 1);
    }
  }

  /** With a nonzero length the download can always go on: the next range is nonempty and starts at the prefix's end. */
  lemma UnfinishedDownloadGoesOn(run: seq<Download>, events: seq<Event>, n: nat)
    requires IsRun(run, events) && n <= |events| && run[n].pending.None? && !run[n].complete
    requires run[n].identity.Some? ==> run[n].identity.value.byteLen > 0
    ensures var next := Next(run[n]).1;
            && next.Ok? && next.value.Some?
            && next.value.value.offset == run[n].received
            && 0 < next.value.value.maximum <= run[n].maximumChunk
            && (run[n].identity.Some? ==>
                  next.value.value.offset + next.value.value.maximum <= run[n].identity.value.byteLen)
  {
    DownloadsAreSound(run, events, n);
  }

  /** A lost range is asked for again exactly. */
  lemma LostRangeIsRepeatedExactly(m: Download)
    requires Next(m).1.Ok? && Next(m).1.value.Some?
    ensures Next(Abandon(Next(m).0).0).1 == Next(m).1
  {
  }
}
