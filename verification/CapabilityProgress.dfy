/** Exactly which ranges a capability download takes, and that a device which answers is read out to the last byte. */
module CapabilityProgress {
  import opened Wrappers
  import opened CapabilityModel

  // ---- Answers ----------------------------------------------------------------------------

  /** A range of the retained document, or of any that fits when none is retained, at the offset that was asked for. */
  predicate Fits(m: Download, reply: Reply) {
    && m.pending.Some? && reply.ok && reply.body.RangeBody?
    && var (request, range) := (m.pending.value, reply.body.range);
       && range.offset == request.offset == m.received
       && |range.chunk| <= request.maximum
       && range.identity.byteLen <= m.maximumDocument
       && request.expectedDigest == (if m.identity.Some? then m.identity.value.digest else 0)
       && (m.identity.Some? ==> range.identity == m.identity.value)
  }

  /** The document as it would stand with the range written at the end of the prefix. */
  function Written(m: Download, range: RangeReply): Bytes
    requires m.received <= |m.document|
  {
    m.document[..m.received] + range.chunk
  }

  /** A fitting range that stops short of the announced end, or that ends exactly there with the announced document. */
  ghost predicate Good(m: Download, reply: Reply)
    requires m.received <= |m.document|
  {
    && Fits(m, reply)
    && var range := reply.body.range;
       if range.complete then
         m.received + |range.chunk| == range.identity.byteLen && m.decode(Written(m, range)) == Some(range.identity)
       else m.received + |range.chunk| < range.identity.byteLen
  }

  lemma WrittenToTheEnd(document: Bytes, start: nat, chunk: Bytes)
    requires start + |chunk| == |document|
    ensures Overwrite(document, start, chunk) == document[..start] + chunk
  {
  }

  lemma WrittenPrefix(document: Bytes, start: nat, chunk: Bytes)
    requires start + |chunk| <= |document|
    ensures Overwrite(document, start, chunk)[..start + |chunk|] == document[..start] + chunk
  {
  }

  /** Judged against the retained document, of the announced length. */
  lemma CommitIsExact(m: Download, range: RangeReply)
    requires m.received <= |m.document| && m.identity == Some(range.identity) && |m.document| == range.identity.byteLen
    ensures Commit(m, range).1.Ok? <==>
              if range.complete then
                m.received + |range.chunk| == range.identity.byteLen && m.decode(Written(m, range)) == Some(range.identity)
              else m.received + |range.chunk| < range.identity.byteLen
    ensures Commit(m, range).1.Ok? ==>
              var t := Commit(m, range).0;
              && t.received == m.received + |range.chunk| && t.complete == (m.complete || range.complete)
              && |t.document| == |m.document| && t.document[..t.received] == Written(m, range)
              && t == m.(document := t.document, received := t.received, complete := t.complete)
  {
    if m.received + |range.chunk| == |m.document| {
      WrittenToTheEnd(m.document, m.received, range.chunk);
    }
    if m.received + |range.chunk| <= |m.document| {
      WrittenPrefix(m.document, m.received, range.chunk);
    }
  }

  /**
   * A reply is taken exactly when its range is good: the prefix grows by it, the document it names is retained, and
   * the download is complete exactly when the range says it is the last.
   */
  lemma RangesAreTakenExactly(m: Download, reply: Reply)
    requires Sound(m)
    ensures Accept(m, reply).1.Ok? <==> Good(m, reply)
    ensures Good(m, reply) ==>
              var (t, range) := (Accept(m, reply).0, reply.body.range);
              && t.pending.None? && t.identity == Some(range.identity)
              && t.received == m.received + |range.chunk| && t.complete == range.complete
              && |t.document| == range.identity.byteLen && t.document[..t.received] == Written(m, range)
              && t == m.(pending := None, identity := t.identity, document := t.document, received := t.received,
                         complete := t.complete)
  {
    hide Commit;
    if Fits(m, reply) {
      var q := m.(pending := None);
      CommitIsExact(Admitted(q, reply.body.range.identity), reply.body.range);
      assert Written(Admitted(q, reply.body.range.identity), reply.body.range) == Written(m, reply.body.range);
    }
  }

  /** What is asked next, and when nothing is. */
  lemma RequestsAreExact(m: Download)
    ensures Next(m).1 == Ok(None) <==> m.pending.None? && m.complete
    ensures Next(m).1.Ok? && Next(m).1.value.Some? ==>
              && Next(m).0 == m.(pending := Next(m).1.value)
              && Next(m).1.value.value.offset == m.received
              && Next(m).1.value.value.expectedDigest == (if m.identity.Some? then m.identity.value.digest else 0)
              && (m.identity.Some? ==>
                    m.received + Next(m).1.value.value.maximum <= m.identity.value.byteLen
                    && (Next(m).1.value.value.maximum == m.maximumChunk
                        || m.received + Next(m).1.value.value.maximum == m.identity.value.byteLen))
              && (m.identity.None? ==> Next(m).1.value.value.maximum == m.maximumChunk)
    ensures Next(m).1 == Err(RequestPending) <==> m.pending.Some?
  {
  }

  // ---- A device that answers --------------------------------------------------------------

  /** Any nonempty part of the range that was asked for, cut from the one document and marked at its end. */
  ghost predicate Serves(g: Genuine, request: RangeRequest, reply: Reply) {
    && reply.ok && reply.body.RangeBody? && Truthful(g, reply)
    && reply.body.range.offset == request.offset && 0 < |reply.body.range.chunk| <= request.maximum
  }

  ghost predicate Exchange(g: Genuine, m: Download, t: Download) {
    && Next(m).1.Ok? && Next(m).1.value.Some?
    && exists reply :: Serves(g, Next(m).1.value.value, reply) && t == Accept(Next(m).0, reply).0
  }

  /** The client is on its way to this device's document, which fits and which it will recognise. */
  ghost predicate Fetching(g: Genuine, m: Download) {
    && Faithful(g, m) && !m.complete && m.pending.None?
    && m.decode(g.document) == Some(g.identity) && g.identity.byteLen == |g.document|
    && m.received < |g.document| <= m.maximumDocument
  }

  ghost predicate Whole(g: Genuine, m: Download) {
    m.complete && m.document == g.document && m.identity == Some(g.identity)
  }

  /** Each exchange brings the download strictly closer to the whole document. */
  lemma ExchangeFetches(g: Genuine, m: Download, t: Download)
    requires Fetching(g, m) && Exchange(g, m, t)
    ensures (Fetching(g, t) && m.received < t.received) || Whole(g, t)
  {
    var asked := Next(m).0;
    var reply :| Serves(g, Next(m).1.value.value, reply) && t == Accept(asked, reply).0;
    EventKeepsFaithful(g, m, Ask);
    EventKeepsFaithful(g, asked, Answer(reply));
    ServedIsGood(g, m, reply);
    RangesAreTakenExactly(asked, reply);
    hide Accept, Next, Sound;
    WholeWhenComplete(g, t);
  }

  lemma WholeWhenComplete(g: Genuine, t: Download)
    requires Faithful(g, t)
    ensures t.complete ==> t.document == g.document && t.identity == Some(g.identity)
  {
  }

  lemma ServedIsGood(g: Genuine, m: Download, reply: Reply)
    requires Fetching(g, m) && Next(m).1.Ok? && Next(m).1.value.Some? && Serves(g, Next(m).1.value.value, reply)
    ensures Next(m).0.received <= |Next(m).0.document| && Good(Next(m).0, reply)
  {
    var range := reply.body.range;
    assert Written(Next(m).0, range) == Prefix(m) + range.chunk;
    assert g.document[..m.received] + range.chunk == g.document[..m.received + |range.chunk|];
    assert g.document[..|g.document|] == g.document;
  }

  /** Until then an exchange is always possible. */
  lemma ExchangeIsPossible(g: Genuine, m: Download) returns (reply: Reply)
    requires Fetching(g, m)
    ensures Next(m).1.Ok? && Next(m).1.value.Some? && Serves(g, Next(m).1.value.value, reply)
    ensures Exchange(g, m, Accept(Next(m).0, reply).0)
  {
    var request := Next(m).1.value.value;
    var left := |g.document| - m.received;
    var size := if left < request.maximum then left else request.maximum;
    reply := Reply(true, RangeBody(RangeReply(
      g.identity, m.received, m.received + size == |g.document|, g.document[m.received..m.received + size])));
    assert Serves(g, request, reply);
  }

  function Missing(g: Genuine, m: Download): nat {
    if m.received <= |g.document| then |g.document| - m.received else 0
  }

  ghost predicate Exchanges(g: Genuine, states: seq<Download>) {
    states != [] && forall k | 0 <= k < |states| - 1 :: Exchange(g, states[k], states[k + 1])
  }

  /**
   * However the device divides its document, a download whose requests are all answered is complete after at most as
   * many exchanges as bytes were missing, with exactly the device's document.
   */
  lemma {:induction false} AnsweredDownloadCompletes(g: Genuine, states: seq<Download>)
    requires Exchanges(g, states) && Fetching(g, states[0])
    ensures |states| - 1 <= Missing(g, states[0])
    ensures var last := states[|states| - 1];
            Whole(g, last) || (Fetching(g, last) && |states| - 1 + Missing(g, last) <= Missing(g, states[0]))
    decreases |states|
  {
    hide Exchange, Faithful;
    if |states| > 1 {
      var before := states[..|states| - 1];
      forall k | 0 <= k < |before| - 1
        ensures Exchange(g, before[k], before[k + 1])
      {
        assert before[k] == states[k] && before[k + 1] == states[k + 1];
      }
      AnsweredDownloadCompletes(g, before);
      var previous := states[|states| - 2];
      assert Exchange(g, previous, states[|states| - 2 + 1]);
      CompleteAsksNothing(g, previous, states[|states| - 1]);
      ExchangeFetches(g, previous, states[|states| - 1]);
    }
  }

  lemma CompleteAsksNothing(g: Genuine, m: Download, t: Download)
    requires Exchange(g, m, t)
    ensures !m.complete
  {
  }

  /** The client gets there: from a new download, answered requests lead to the whole document. */
  lemma WholeDocumentIsReached(g: Genuine, maximumDocument: nat, maximumChunk: nat, decode: Bytes -> Option<Identity>)
    returns (states: seq<Download>)
    requires 0 < |g.document| <= maximumDocument && 0 < maximumChunk
    requires g.identity.byteLen == |g.document| && decode(g.document) == Some(g.identity)
    ensures Exchanges(g, states) && states[0] == NewDownload(maximumDocument, maximumChunk, decode)
    ensures Whole(g, states[|states| - 1])
  {
    var first := NewDownload(maximumDocument, maximumChunk, decode);
    assert Prefix(first) == g.document[..0];
    states := FetchedToTheEnd(g, first);
  }

  lemma {:induction false} FetchedToTheEnd(g: Genuine, m: Download) returns (states: seq<Download>)
    requires Fetching(g, m)
    ensures Exchanges(g, states) && states[0] == m && Whole(g, states[|states| - 1])
    decreases Missing(g, m)
  {
    hide Exchange, Faithful;
    var reply := ExchangeIsPossible(g, m);
    var t := Accept(Next(m).0, reply).0;
    ExchangeFetches(g, m, t);
    if Whole(g, t) {
      states := [m, t];
    } else {
      var rest := FetchedToTheEnd(g, t);
      states := [m] + rest;
      forall k | 0 <= k < |states| - 1
        ensures Exchange(g, states[k], states[k + 1])
      {
        if k > 0 {
          assert states[k] == rest[k - 1] && states[k + 1] == rest[k];
          Consecutive(g, rest, k - 1);
        }
      }
    }
  }

  lemma Consecutive(g: Genuine, states: seq<Download>, k: nat)
    requires Exchanges(g, states) && k + 1 < |states|
    ensures Exchange(g, states[k], states[k + 1])
  {
  }
}
