/** Native framing counters: what one request/response exchange checks and how its identities advance. */
module ProtocolClientModel {
  import opened Wrappers

  const MAXIMUM_PAYLOAD: int := 65536

  datatype Direction = RequestDirection | ResponseDirection

  type Body = seq<int>

  /** Fixed lengths of the two headers, as the wire format declares them. */
  datatype Sizes = Sizes(frame: nat, message: nat)

  datatype FrameHeader = FrameHeader(kind: nat, payloadLen: u32, sequence: u32, config: nat)

  datatype MessageHeader = MessageHeader(
    direction: Direction, operation: nat, correlation: u32, status: nat, bodyLen: u32)

  /** Received bytes: their count, and what the header codecs make of them. */
  datatype Encoded = Encoded(
    length: nat, frame: Option<FrameHeader>, message: Option<MessageHeader>, body: Body)

  datatype Response = Response(status: nat, body: Body)

  datatype FrameError = RequestTooLarge | BadMessage | Truncated | BadFrame | BadLength | BadSequence | BadConfiguration | BadCorrelation

  datatype ClientError = TransportFailed | RequestRefused(encode: FrameError) | ResponseRefused(decode: FrameError)

  /** Which header pairs the message codec admits, and the frame kind of each operation. */
  datatype Wire = Wire(
    sizes: Sizes, kindOf: nat -> nat, admits: (MessageHeader, nat, u32) -> bool)

  datatype Client = Client(wire: Wire, sequence: u32, correlation: u32, config: nat)

  function NewClient(wire: Wire, config: nat): Client {
    Client(wire, 0, 1, config)
  }

  function Frame(w: Wire, kind: nat, sequence: u32, config: nat, message: MessageHeader, body: Body): Encoded
    requires w.sizes.message + |body| <= MAXIMUM_PAYLOAD
  {
    var payload := w.sizes.message + |body|;
    Encoded(w.sizes.frame + payload, Some(FrameHeader(kind, payload, sequence, config)), Some(message), body)
  }

  function EncodeRequest(w: Wire, operation: nat, body: Body, sequence: u32, correlation: u32, config: nat)
    : Result<Encoded, FrameError>
  {
    if w.sizes.message + |body| > MAXIMUM_PAYLOAD then Err(RequestTooLarge)
    else
      var message := MessageHeader(RequestDirection, operation, correlation, 0, |body|);
      if !w.admits(message, w.kindOf(operation), w.sizes.message + |body|) then Err(BadMessage)
      else Ok(Frame(w, w.kindOf(operation), sequence, config, message, body))
  }

  function DecodeResponse(w: Wire, e: Encoded, operation: nat, sequence: u32, correlation: u32, config: nat)
    : Result<Response, FrameError>
  {
    if e.length < w.sizes.frame + w.sizes.message then Err(Truncated)
    else if e.frame.None? || e.frame.value.payloadLen > MAXIMUM_PAYLOAD then Err(BadFrame)
    else if e.length != w.sizes.frame + e.frame.value.payloadLen then Err(BadLength)
    else if e.frame.value.sequence != sequence then Err(BadSequence)
    else if e.frame.value.config != config then Err(BadConfiguration)
    else if e.message.None? || !w.admits(e.message.value, e.frame.value.kind, e.frame.value.payloadLen) then Err(BadMessage)
    else if e.message.value.direction != ResponseDirection || e.message.value.operation != operation
         || e.message.value.correlation != correlation then Err(BadCorrelation)
    else Ok(Response(e.message.value.status, e.body))
  }

  function WrappingNext(x: u32): u32 {
    if x + 1 == U32_MODULUS then 0 else x + 1
  }

  function AtLeastOne(x: u32): u32 {
    if x < 1 then 1 else x
  }

  /** `exchange` answers with the received bytes, or nothing when the transport fails. */
  function RequestOf(c: Client, operation: nat, body: Body, exchange: Encoded -> Option<Encoded>)
    : (Client, Result<Response, ClientError>)
  {
    match EncodeRequest(c.wire, operation, body, c.sequence, c.correlation, c.config)
    case Err(error) => (c, Err(RequestRefused(error)))
    case Ok(request) =>
      match exchange(request)
      case None => (c, Err(TransportFailed))
      case Some(received) =>
        match DecodeResponse(c.wire, received, operation, c.sequence, c.correlation, c.config)
        case Err(error) => (c, Err(ResponseRefused(error)))
        case Ok(response) =>
          (c.(sequence := WrappingNext(c.sequence), correlation := AtLeastOne(WrappingNext(c.correlation))), Ok(response))
  }

  // ---- What is sent and what is taken -----------------------------------------------------

  /** Everything one reply must say to be the answer to one request. */
  predicate Answers(
    w: Wire, e: Encoded, operation: nat, sequence: u32, correlation: u32, config: nat, response: Response)
  {
    && e.frame.Some? && e.message.Some?
    && e.frame.value.sequence == sequence && e.frame.value.config == config
    && e.message.value.direction == ResponseDirection
    && e.message.value.operation == operation && e.message.value.correlation == correlation
    && w.sizes.message <= e.frame.value.payloadLen <= MAXIMUM_PAYLOAD
    && e.length == w.sizes.frame + e.frame.value.payloadLen
    && w.admits(e.message.value, e.frame.value.kind, e.frame.value.payloadLen)
    && response == Response(e.message.value.status, e.body)
  }

  lemma RepliesAreTakenExactly(
    w: Wire, e: Encoded, operation: nat, sequence: u32, correlation: u32, config: nat, response: Response)
    ensures DecodeResponse(w, e, operation, sequence, correlation, config) == Ok(response) <==>
              Answers(w, e, operation, sequence, correlation, config, response)
  {
  }

  /** The one frame of a request: its own kind and identities, both lengths, and the body as given. */
  predicate Asks(w: Wire, e: Encoded, operation: nat, body: Body, sequence: u32, correlation: u32, config: nat) {
    && w.sizes.message + |body| <= 65_536
    && e.length == w.sizes.frame + w.sizes.message + |body| && e.body == body
    && e.frame == Some(FrameHeader(w.kindOf(operation), w.sizes.message + |body|, sequence, config))
    && e.message == Some(MessageHeader(RequestDirection, operation, correlation, 0, |body|))
    && w.admits(e.message.value, w.kindOf(operation), w.sizes.message + |body|)
  }

  lemma RequestsAreFramedExactly(
    w: Wire, e: Encoded, operation: nat, body: Body, sequence: u32, correlation: u32, config: nat)
    ensures EncodeRequest(w, operation, body, sequence, correlation, config) == Ok(e) <==>
              Asks(w, e, operation, body, sequence, correlation, config)
  {
  }

  /** A request succeeds exactly when its frame is formed, the transport answers it, and that answer is its own. */
  lemma RequestIsExact(
    c: Client, operation: nat, body: Body, exchange: Encoded -> Option<Encoded>, response: Response)
    ensures RequestOf(c, operation, body, exchange).1 == Ok(response) <==>
              exists e ::
                && Asks(c.wire, e, operation, body, c.sequence, c.correlation, c.config) && exchange(e).Some?
                && Answers(c.wire, exchange(e).value, operation, c.sequence, c.correlation, c.config, response)
  {
    hide EncodeRequest, DecodeResponse, Asks, Answers;
    var framed := EncodeRequest(c.wire, operation, body, c.sequence, c.correlation, c.config);
    if framed.Ok? {
      RequestsAreFramedExactly(c.wire, framed.value, operation, body, c.sequence, c.correlation, c.config);
      if exchange(framed.value).Some? {
        RepliesAreTakenExactly(
          c.wire, exchange(framed.value).value, operation, c.sequence, c.correlation, c.config, response);
      }
    }
    if e :| && Asks(c.wire, e, operation, body, c.sequence, c.correlation, c.config) && exchange(e).Some?
            && Answers(c.wire, exchange(e).value, operation, c.sequence, c.correlation, c.config, response) {
      RequestsAreFramedExactly(c.wire, e, operation, body, c.sequence, c.correlation, c.config);
    }
  }

  // ---- Round trip -------------------------------------------------------------------------

  /** The deterministic simulator: it checks one request frame and echoes its identities around the handler's answer. */
  function SimulatorExchange(w: Wire, handler: (nat, Body) -> Response, request: Encoded): Option<Encoded> {
    if request.length < w.sizes.frame + w.sizes.message then None
    else if request.frame.None? || request.frame.value.payloadLen > MAXIMUM_PAYLOAD then None
    else if request.length != w.sizes.frame + request.frame.value.payloadLen then None
    else if request.message.None?
         || !w.admits(request.message.value, request.frame.value.kind, request.frame.value.payloadLen) then None
    else if request.message.value.direction != RequestDirection then None
    else
      var answer := handler(request.message.value.operation, request.body);
      if w.sizes.message + |answer.body| > MAXIMUM_PAYLOAD then None
      else
        var message := MessageHeader(
          ResponseDirection, request.message.value.operation, request.message.value.correlation, answer.status, |answer.body|);
        if !w.admits(message, request.frame.value.kind, w.sizes.message + |answer.body|) then None
        else
          Some(Frame(w, request.frame.value.kind, request.frame.value.sequence, request.frame.value.config, message, answer.body))
  }

  /** Through the simulator a request always comes back as exactly what the handler answered, if both frames fit. */
  lemma RequestRoundTrip(c: Client, operation: nat, body: Body, handler: (nat, Body) -> Response)
    ensures var exchange := (request: Encoded) => SimulatorExchange(c.wire, handler, request);
            var answer := handler(operation, body);
            var asked := MessageHeader(RequestDirection, operation, c.correlation, 0, if |body| <= MAXIMUM_PAYLOAD then |body| else 0);
            var told := MessageHeader(ResponseDirection, operation, c.correlation, answer.status,
                                      if |answer.body| <= MAXIMUM_PAYLOAD then |answer.body| else 0);
            RequestOf(c, operation, body, exchange).1 == Ok(answer)
            <==>
              && c.wire.sizes.message + |body| <= MAXIMUM_PAYLOAD
              && c.wire.sizes.message + |answer.body| <= MAXIMUM_PAYLOAD
              && c.wire.admits(asked, c.wire.kindOf(operation), c.wire.sizes.message + |body|)
              && c.wire.admits(told, c.wire.kindOf(operation), c.wire.sizes.message + |answer.body|)
  {
  }

  // ---- Correlation uniqueness -------------------------------------------------------------

  datatype Attempt = Attempt(operation: nat, body: Body, exchange: Encoded -> Option<Encoded>)

  function Try(c: Client, a: Attempt): (Client, Result<Response, ClientError>) {
    RequestOf(c, a.operation, a.body, a.exchange)
  }

  ghost predicate IsRun(run: seq<Client>, attempts: seq<Attempt>) {
    && |run| == |attempts| + 1
    && (exists wire, config :: run[0] == NewClient(wire, config))
    && forall k | 0 <= k < |attempts| :: run[k + 1] == Try(run[k], attempts[k]).0
  }

  ghost function Successes(run: seq<Client>, attempts: seq<Attempt>, n: nat): nat
    requires |run| == |attempts| + 1 && n <= |attempts|
  {
    if n == 0 then 0
    else Successes(run, attempts, n - 1) + (if Try(run[n - 1], attempts[n - 1]).1.Ok? then 1 else 0)
  }

  lemma NextModulo(k: nat, m: nat)
    requires m > 1
    ensures (k + 1) % m == if k % m + 1 == m then 0 else k % m + 1
  {
    var q, r := k / m, k % m;
    assert k == q * m + r;
    if r + 1 == m {
      assert k + 1 == (q + 1) * m;
      ModuloOf(q + 1, m, 0);
    } else {
      ModuloOf(q, m, r + 1);
    }
  }

  lemma ProductAtLeast(d: nat, e: nat, m: nat)
    requires d >= e
    ensures d * m >= e * m
  {
    assert (d - e) * m >= 0;
    assert d * m == e * m + (d - e) * m;
  }

  lemma ModuloOf(q: nat, m: nat, r: nat)
    requires r < m
    ensures (q * m + r) % m == r
  {
    var n := q * m + r;
    assert n >= 0;
    var p, s := n / m, n % m;
    assert n == p * m + s;
    assert (q + 1) * m == q * m + m && (p + 1) * m == p * m + m;
    if p > q {
      ProductAtLeast(p, q + 1, m);
    } else if p < q {
      ProductAtLeast(q, p + 1, m);
    }
  }

  /** The counters depend only on how many requests have succeeded; a failed one leaves both as they were. */
  lemma {:induction false} CountersCountSuccesses(run: seq<Client>, attempts: seq<Attempt>, n: nat)
    requires IsRun(run, attempts) && n <= |attempts|
    ensures var k := Successes(run, attempts, n);
            run[n].sequence == k % U32_MODULUS && run[n].correlation == 1 + k % (U32_MODULUS - 1)
  {
    hide EncodeRequest, DecodeResponse;
    if n > 0 {
      CountersCountSuccesses(run, attempts, n - 1);
      var k := Successes(run, attempts, n - 1);
      NextModulo(k, U32_MODULUS);
      NextModulo(k, U32_MODULUS - 1);
    }
  }

  lemma CorrelationIsNeverZero(run: seq<Client>, attempts: seq<Attempt>, n: nat)
    requires IsRun(run, attempts) && n <= |attempts|
    ensures run[n].correlation != 0
  {
    CountersCountSuccesses(run, attempts, n);
  }

  lemma {:induction false} SuccessesGrow(run: seq<Client>, attempts: seq<Attempt>, i: nat, j: nat)
    requires |run| == |attempts| + 1 && i <= j <= |attempts|
    ensures Successes(run, attempts, i) <= Successes(run, attempts, j)
  {
    if i < j {
      SuccessesGrow(run, attempts, i, j - 1);
    }
  }

  lemma SameRemainder(a: nat, b: nat, m: nat) returns (u: nat)
    requires m > 0 && a < b && a % m == b % m
    ensures u > 0 && b - a == u * m
  {
    var p, q := a / m, b / m;
    assert a == p * m + a % m && b == q * m + b % m;
    if p >= q {
      ProductAtLeast(p, q, m);
    }
    u := q - p;
    assert u * m == q * m - p * m;
  }

  /** Two numbers that agree modulo m and modulo m - 1 are equal or at least m * (m - 1) apart. */
  lemma AgreeTwice(a: nat, b: nat, m: nat)
    requires m > 1 && a < b && a % m == b % m && a % (m - 1) == b % (m - 1)
    ensures b - a >= m * (m - 1)
  {
    var u := SameRemainder(a, b, m);
    var v := SameRemainder(a, b, m - 1);
    CommonMultiple(u, v, m);
  }

  lemma CommonMultiple(u: nat, v: nat, m: nat)
    requires m > 1 && u > 0 && u * m == v * (m - 1)
    ensures u * m >= m * (m - 1)
  {
    var w := v - u;
    assert w * (m - 1) == v * (m - 1) - u * (m - 1);
    assert u * m == u * (m - 1) + u;
    if w <= 0 {
      ProductAtLeast(u, v, m - 1);
    } else {
      ProductAtLeast(w, 1, m - 1);
      ProductAtLeast(u, m - 1, m);
    }
  }

  /** Two successful requests share both identities only when 2^32 * (2^32 - 1) successes lie between them. */
  lemma PairRepeatsOnlyAfterFullCycle(run: seq<Client>, attempts: seq<Attempt>, i: nat, j: nat)
    requires IsRun(run, attempts) && i < j < |attempts|
    requires Try(run[i], attempts[i]).1.Ok? && Try(run[j], attempts[j]).1.Ok?
    requires run[i].sequence == run[j].sequence && run[i].correlation == run[j].correlation
    ensures Successes(run, attempts, j) - Successes(run, attempts, i) >= U32_MODULUS * (U32_MODULUS - 1)
  {
    hide RequestOf;
    CountersCountSuccesses(run, attempts, i);
    CountersCountSuccesses(run, attempts, j);
    SuccessesGrow(run, attempts, i + 1, j);
    CountersApart(Successes(run, attempts, i), Successes(run, attempts, j));
  }

  lemma CountersApart(a: nat, b: nat)
    requires a < b && a % U32_MODULUS == b % U32_MODULUS
    requires 1 + a % (U32_MODULUS - 1) == 1 + b % (U32_MODULUS - 1)
    ensures b - a >= U32_MODULUS * (U32_MODULUS - 1)
  {
    AgreeTwice(a, b, U32_MODULUS);
  }

  /** Within that span the reply that answered one successful request is never accepted for another one. */
  lemma RepliesAreNotConfused(run: seq<Client>, attempts: seq<Attempt>, i: nat, j: nat, received: Encoded, operation: nat)
    requires IsRun(run, attempts) && i < |attempts| && j < |attempts| && i != j
    requires Try(run[i], attempts[i]).1.Ok? && Try(run[j], attempts[j]).1.Ok?
    requires var (a, b) := (Successes(run, attempts, i), Successes(run, attempts, j));
             (if a < b then b - a else a - b) < U32_MODULUS * (U32_MODULUS - 1)
    requires DecodeResponse(run[i].wire, received, attempts[i].operation, run[i].sequence, run[i].correlation, run[i].config).Ok?
    ensures DecodeResponse(run[j].wire, received, operation, run[j].sequence, run[j].correlation, run[j].config).Err?
  {
    if i < j {
      SuccessesGrow(run, attempts, i, j);
      if run[i].sequence == run[j].sequence && run[i].correlation == run[j].correlation {
        PairRepeatsOnlyAfterFullCycle(run, attempts, i, j);
      }
    } else {
      SuccessesGrow(run, attempts, j, i);
      if run[i].sequence == run[j].sequence && run[i].correlation == run[j].correlation {
        PairRepeatsOnlyAfterFullCycle(run, attempts, j, i);
      }
    }
    WireNeverChanges(run, attempts, i);
    WireNeverChanges(run, attempts, j);
  }

  lemma {:induction false} WireNeverChanges(run: seq<Client>, attempts: seq<Attempt>, n: nat)
    requires IsRun(run, attempts) && n <= |attempts|
    ensures run[n].wire == run[0].wire && run[n].config == run[0].config
  {
    if n > 0 {
      WireNeverChanges(run, attempts, n - 1);
    }
  }

  /** A failed request gives its identities to the next one: only a success moves the pair on. */
  lemma FailureKeepsThePair(c: Client, a: Attempt)
    ensures Try(c, a).1.Err? <==> Try(c, a).0 == c
  {
  }

  lemma MultipleApart(a: nat, b: nat, m: nat, w: nat)
    requires m > 0 && b == a + w * m
    ensures b % m == a % m
  {
    var q, r := a / m, a % m;
    assert a == q * m + r;
    assert b == (q + w) * m + r;
    ModuloOf(q + w, m, r);
  }

  lemma CommonPeriods(u: nat, v: nat, m: nat) returns (w: nat)
    requires m > 1 && u > 0 && u * m == v * (m - 1)
    ensures u * m == w * (m * (m - 1))
  {
    var d := v - u;
    assert d * (m - 1) == v * (m - 1) - u * (m - 1);
    assert u * m == u * (m - 1) + u;
    if d <= 0 {
      ProductAtLeast(u, v, m - 1);
    }
    w := d;
    assert u == w * (m - 1);
    Regroup(w, m);
  }

  lemma Regroup(w: nat, m: nat)
    requires m > 1
    ensures (w * (m - 1)) * m == w * (m * (m - 1))
  {
  }

  lemma AgreeingIsPeriodic(a: nat, b: nat, m: nat, p: nat)
    requires m > 2 && p == m * (m - 1) && a < b && a % m == b % m && a % (m - 1) == b % (m - 1)
    ensures p > 0 && (b - a) % p == 0
  {
    ProductAtLeast(m, 1, m - 1);
    var u := SameRemainder(a, b, m);
    var v := SameRemainder(a, b, m - 1);
    var w := CommonPeriods(u, v, m);
    ModuloOf(w, p, 0);
  }

  lemma PeriodicAgrees(a: nat, b: nat, m: nat, p: nat)
    requires m > 2 && p == m * (m - 1) && p > 0 && a <= b && (b - a) % p == 0
    ensures a % m == b % m && a % (m - 1) == b % (m - 1)
  {
    var w := (b - a) / p;
    assert b - a == w * p;
    Regroup(w, m);
    OtherFactor(w, m);
    MultipleApart(a, b, m, w * (m - 1));
    MultipleApart(a, b, m - 1, w * m);
  }

  lemma OtherFactor(w: nat, m: nat)
    requires m > 1
    ensures (w * m) * (m - 1) == w * (m * (m - 1))
  {
  }

  /** A whole number of full cycles of both counters. */
  predicate WholeCycles(successes: nat) {
    successes % (U32_MODULUS * (U32_MODULUS - 1)) == 0
  }

  lemma PeriodsApart(a: nat, b: nat)
    requires a <= b
    ensures (a % U32_MODULUS == b % U32_MODULUS && 1 + a % (U32_MODULUS - 1) == 1 + b % (U32_MODULUS - 1))
            <==> WholeCycles(b - a)
  {
    var p := U32_MODULUS * (U32_MODULUS - 1);
    if a < b && a % U32_MODULUS == b % U32_MODULUS && a % (U32_MODULUS - 1) == b % (U32_MODULUS - 1) {
      AgreeingIsPeriodic(a, b, U32_MODULUS, p);
    }
    if (b - a) % p == 0 {
      PeriodicAgrees(a, b, U32_MODULUS, p);
    }
  }

  lemma TakenForSameNames(
    w: Wire, received: Encoded, config: nat, operation: nat, sequence: u32, correlation: u32,
    other: nat, otherSequence: u32, otherCorrelation: u32)
    requires DecodeResponse(w, received, operation, sequence, correlation, config).Ok?
    ensures DecodeResponse(w, received, other, otherSequence, otherCorrelation, config).Ok?
            <==> other == operation && otherSequence == sequence && otherCorrelation == correlation
  {
  }

  /**
   * The reply to an earlier attempt, failed or not, is taken for a later one exactly when both ask the same operation
   * and a whole number of full cycles of successes (none, right after a failure) lies between them.
   */
  lemma EarlierReplyIsTakenExactly(run: seq<Client>, attempts: seq<Attempt>, i: nat, j: nat, received: Encoded)
    requires IsRun(run, attempts) && i < j < |attempts|
    requires DecodeResponse(run[i].wire, received, attempts[i].operation, run[i].sequence, run[i].correlation, run[i].config).Ok?
    ensures Successes(run, attempts, i) <= Successes(run, attempts, j)
    ensures DecodeResponse(run[j].wire, received, attempts[j].operation, run[j].sequence, run[j].correlation, run[j].config).Ok?
            <==>
              && attempts[i].operation == attempts[j].operation
              && WholeCycles(Successes(run, attempts, j) - Successes(run, attempts, i))
  {
    hide RequestOf, DecodeResponse, WholeCycles, Successes;
    CountersCountSuccesses(run, attempts, i);
    CountersCountSuccesses(run, attempts, j);
    SuccessesGrow(run, attempts, i, j);
    TakenForSameNames(run[i].wire, received, run[i].config,
                      attempts[i].operation, run[i].sequence, run[i].correlation,
                      attempts[j].operation, run[j].sequence, run[j].correlation);
    PeriodsApart(Successes(run, attempts, i), Successes(run, attempts, j));
    WireNeverChanges(run, attempts, i);
    WireNeverChanges(run, attempts, j);
  }
}
