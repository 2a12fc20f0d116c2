/** What one call of the telemetry subscription client does: subscribe, acknowledge events, unsubscribe. */
module TelemetryModel {
  import opened Wrappers

  datatype SessionPhase = SessionActive | SessionUnsubscribed

  /** `reference` stands for the subscription identity and digest. */
  datatype Subscription = Subscription(reference: nat, period: u64, maximumEventBytes: nat, resources: nat)

  datatype SubscriptionStatus = SubscriptionStatus(
    subscription: Subscription, phase: SessionPhase, nextSequence: u64, dropped: u64)

  /** The monotonic facts of one event that decoded against this subscription. */
  datatype Progress = Progress(sequence: u64, dropped: u64, cycle: u64, digest: nat)

  datatype Code = CodeOk | CodeNotFound | CodeOther

  datatype Body = EmptyBody | StatusBody(status: SubscriptionStatus) | EventBody(event: Progress) | UndecodableBody

  datatype Reply = Reply(code: Code, body: Body)

  datatype Phase = Subscribing | ReconcilingSubscribe | Active | Unsubscribing | ReconcilingUnsubscribe | Unsubscribed

  datatype Action = Subscribe | PollSubscribe | PollEvent | Unsubscribe | PollUnsubscribe

  datatype Operation = SubscribeOp | StatusOp | PollOp(accepted: u64) | UnsubscribeOp

  datatype ClientError =
    | RequestPending | NoPendingRequest | InvalidTransition | BadState | BadIdentity | EventOrder
    | DeviceCode | BadBody | BadWire

  datatype Telemetry = Telemetry(
    subscription: Subscription, phase: Phase, pending: Option<Action>,
    status: Option<SubscriptionStatus>, progress: Option<Progress>)

  function NewTelemetry(subscription: Subscription): Telemetry {
    Telemetry(subscription, Subscribing, None, None, None)
  }

  function Next(m: Telemetry): (Telemetry, Result<Option<Operation>, ClientError>) {
    if m.pending.Some? then (m, Err(RequestPending))
    else
      match m.phase
      case Subscribing => (m.(pending := Some(Subscribe)), Ok(Some(SubscribeOp)))
      case ReconcilingSubscribe => (m.(pending := Some(PollSubscribe)), Ok(Some(StatusOp)))
      case Unsubscribing => (m.(pending := Some(Unsubscribe)), Ok(Some(UnsubscribeOp)))
      case ReconcilingUnsubscribe => (m.(pending := Some(PollUnsubscribe)), Ok(Some(StatusOp)))
      case Active => (m, Ok(None))
      case Unsubscribed => (m, Ok(None))
  }

  function NextEvent(m: Telemetry): (Telemetry, Result<Operation, ClientError>) {
    if m.pending.Some? then (m, Err(RequestPending))
    else if m.phase != Active then (m, Err(InvalidTransition))
    else
      (m.(pending := Some(PollEvent)), Ok(PollOp(if m.progress.Some? then m.progress.value.sequence else 0)))
  }

  function RequestUnsubscribe(m: Telemetry): (Telemetry, Result<(), ClientError>) {
    if m.pending.Some? then (m, Err(RequestPending))
    else if m.phase == Active then (m.(phase := Unsubscribing), Ok(()))
    else if m.phase == Unsubscribed then (m, Ok(()))
    else (m, Err(InvalidTransition))
  }

  function RequireOk(reply: Reply): Option<ClientError> {
    if reply.code == CodeOk then (if reply.body.EmptyBody? then Some(BadBody) else None)
    else if reply.body.EmptyBody? then Some(DeviceCode) else Some(BadBody)
  }

  predicate StatusRegresses(m: Telemetry, status: SubscriptionStatus) {
    && m.progress.Some?
    && (status.nextSequence <= m.progress.value.sequence || status.dropped < m.progress.value.dropped)
  }

  function AcceptStatus(m: Telemetry, action: Action, status: SubscriptionStatus): (Telemetry, Result<(), ClientError>) {
    var expected := if action in {Subscribe, PollSubscribe} then SessionActive else SessionUnsubscribed;
    if status.subscription != m.subscription then (m, Err(BadIdentity))
    else if StatusRegresses(m, status) then (m, Err(EventOrder))
    else if status.phase != expected then (m, Err(BadState))
    else (m.(status := Some(status), phase := if expected == SessionActive then Active else Unsubscribed), Ok(()))
  }

  function Accept(m: Telemetry, reply: Reply): (Telemetry, Result<(), ClientError>) {
    if m.pending == Some(PollEvent) then (m, Err(InvalidTransition))
    else if m.pending.None? then (m, Err(NoPendingRequest))
    else
      var action := m.pending.value;
      var q := m.(pending := None);
      if action in {PollSubscribe, PollUnsubscribe} && reply.code == CodeNotFound then
        if !reply.body.EmptyBody? then (q, Err(BadBody))
        else if action == PollSubscribe then (q.(phase := Subscribing), Ok(()))
        else (q.(phase := Unsubscribed, status := None), Ok(()))
      else if RequireOk(reply).Some? then (q, Err(RequireOk(reply).value))
      else if !reply.body.StatusBody? then (q, Err(BadWire))
      else AcceptStatus(q, action, reply.body.status)
  }

  /** A later event must be strictly newer, lose nothing that was already counted, and keep the cadence. */
  predicate Succeeds(previous: Progress, next: Progress, period: u64) {
    && previous.sequence < next.sequence
    && previous.dropped <= next.dropped
    && previous.cycle <= next.cycle
    && next.cycle - previous.cycle >= period
  }

  /** Whether the event advanced the retained progress; an exact replay is accepted without advancing it. */
  function AcceptEvent(m: Telemetry, body: Body): (Telemetry, Result<bool, ClientError>) {
    if m.phase != Active then (m, Err(BadState))
    else if !body.EventBody? then (m, Err(BadWire))
    else if m.progress == Some(body.event) then (m, Ok(false))
    else if m.progress.Some? && !Succeeds(m.progress.value, body.event, m.subscription.period) then (m, Err(EventOrder))
    else (m.(progress := Some(body.event)), Ok(true))
  }

  function AcceptEventReply(m: Telemetry, reply: Reply): (Telemetry, Result<Option<bool>, ClientError>) {
    if m.pending != Some(PollEvent) then (m, Err(NoPendingRequest))
    else
      var q := m.(pending := None);
      if reply.code != CodeOk then (q, Err(if reply.body.EmptyBody? then DeviceCode else BadBody))
      else if reply.body.EmptyBody? then (q, Ok(None))
      else
        var (r, result) := AcceptEvent(q, reply.body);
        (r, match result case Err(error) => Err(error) case Ok(advanced) => Ok(Some(advanced)))
  }

  function Abandon(m: Telemetry): (Telemetry, bool) {
    if m.pending.None? then (m, false)
    else
      var phase :=
        match m.pending.value
        case Subscribe => ReconcilingSubscribe
        case PollSubscribe => ReconcilingSubscribe
        case Unsubscribe => ReconcilingUnsubscribe
        case PollUnsubscribe => ReconcilingUnsubscribe
        case PollEvent => Active;
      (m.(pending := None, phase := phase), true)
  }

  // ---- Runs -------------------------------------------------------------------------------

  datatype Event =
    | Ask | AskEvent | Answer(reply: Reply) | AnswerEvent(reply: Reply) | Direct(body: Body) | Lose | AskUnsubscribe

  function After(m: Telemetry, e: Event): Telemetry {
    match e
    case Ask => Next(m).0
    case AskEvent => NextEvent(m).0
    case Answer(reply) => Accept(m, reply).0
    case AnswerEvent(reply) => AcceptEventReply(m, reply).0
    case Direct(body) => AcceptEvent(m, body).0
    case Lose => Abandon(m).0
    case AskUnsubscribe => RequestUnsubscribe(m).0
  }

  ghost predicate IsRun(run: seq<Telemetry>, events: seq<Event>) {
    && |run| == |events| + 1
    && (exists subscription :: run[0] == NewTelemetry(subscription))
    && forall k | 0 <= k < |events| :: run[k + 1] == After(run[k], events[k])
  }

  /** The event this step validated as new, if any. */
  function Validated(m: Telemetry, e: Event): seq<Progress> {
    if e.AnswerEvent? && AcceptEventReply(m, e.reply).1 == Ok(Some(true)) then [e.reply.body.event]
    else if e.Direct? && AcceptEvent(m, e.body).1 == Ok(true) then [e.body.event]
    else []
  }

  /** Every event validated as new in the first `n` steps, oldest first. */
  ghost function History(run: seq<Telemetry>, events: seq<Event>, n: nat): seq<Progress>
    requires |run| == |events| + 1 && n <= |events|
  {
    if n == 0 then [] else History(run, events, n - 1) + Validated(run[n - 1], events[n - 1])
  }

  ghost predicate Chain(h: seq<Progress>, period: u64) {
    forall i | 0 < i < |h| :: Succeeds(h[i - 1], h[i], period)
  }

  ghost predicate Recorded(m: Telemetry, h: seq<Progress>, period: u64) {
    && m.subscription.period == period
    && Chain(h, period)
    && (m.progress == if h == [] then None else Some(h[|h| - 1]))
  }

  lemma EventIsRecorded(m: Telemetry, e: Event, h: seq<Progress>, period: u64)
    requires Recorded(m, h, period)
    ensures Recorded(After(m, e), h + Validated(m, e), period)
  {
    var longer := h + Validated(m, e);
    if Validated(m, e) == [] {
      assert longer == h;
    } else {
      assert longer == h + [longer[|h|]];
      forall i | 0 < i < |longer| ensures Succeeds(longer[i - 1], longer[i], period) {
        if i < |h| {
          assert Succeeds(h[i - 1], h[i], period);
        }
      }
    }
  }

  lemma {:induction false} HistoryIsRecorded(run: seq<Telemetry>, events: seq<Event>, n: nat)
    requires IsRun(run, events) && n <= |events|
    ensures Recorded(run[n], History(run, events, n), run[0].subscription.period)
  {
    if n > 0 {
      HistoryIsRecorded(run, events, n - 1);
      EventIsRecorded(run[n - 1], events[n - 1], History(run, events, n - 1), run[0].subscription.period);
    }
  }

  lemma {:induction false} ChainSpans(h: seq<Progress>, period: u64, i: nat, j: nat)
    requires Chain(h, period) && i < j < |h|
    ensures h[i].sequence + (j - i) <= h[j].sequence && h[i].dropped <= h[j].dropped
    ensures h[j].cycle - h[i].cycle >= (j - i) * period
    decreases j - i
  {
    assert Succeeds(h[j - 1], h[j], period);
    if i < j - 1 {
      ChainSpans(h, period, i, j - 1);
      assert (j - i) * period == (j - 1 - i) * period + period;
    }
  }

  /**
   * In every run the validated events have strictly rising sequence numbers and never-falling loss counts, and any
   * two of them are at least as many subscription periods apart as events lie between them.
   */
  lemma HistoryKeepsOrderAndCadence(run: seq<Telemetry>, events: seq<Event>, n: nat, i: nat, j: nat)
    requires IsRun(run, events) && n <= |events| && i < j < |History(run, events, n)|
    ensures var h := History(run, events, n);
            && h[i].sequence < h[j].sequence
            && h[i].dropped <= h[j].dropped
            && h[j].cycle - h[i].cycle >= (j - i) * run[0].subscription.period
  {
    HistoryIsRecorded(run, events, n);
    ChainSpans(History(run, events, n), run[0].subscription.period, i, j);
  }

  /** Every poll acknowledges exactly the newest event validated so far, and no event before the first one. */
  lemma PollAcknowledgesNewestValidated(run: seq<Telemetry>, events: seq<Event>, n: nat)
    requires IsRun(run, events) && n < |events| && events[n].AskEvent? && NextEvent(run[n]).1.Ok?
    ensures var h := History(run, events, n);
            NextEvent(run[n]).1 == Ok(PollOp(if h == [] then 0 else h[|h| - 1].sequence))
    ensures forall i | 0 <= i < |History(run, events, n)| ::
              History(run, events, n)[i].sequence <= NextEvent(run[n]).1.value.accepted
  {
    HistoryIsRecorded(run, events, n);
    var h := History(run, events, n);
    forall i | 0 <= i < |h| ensures h[i].sequence <= NextEvent(run[n]).1.value.accepted {
      if i < |h| - 1 {
        ChainSpans(h, run[0].subscription.period, i, |h| - 1);
      }
    }
  }

  // ---- Lost mutations ---------------------------------------------------------------------

  predicate PendingFits(m: Telemetry) {
    m.pending.Some? ==>
      match m.pending.value
      case Subscribe => m.phase == Subscribing
      case PollSubscribe => m.phase == ReconcilingSubscribe
      case PollEvent => m.phase == Active
      case Unsubscribe => m.phase == Unsubscribing
      case PollUnsubscribe => m.phase == ReconcilingUnsubscribe
  }

  lemma {:induction false} PendingAlwaysFits(run: seq<Telemetry>, events: seq<Event>, n: nat)
    requires IsRun(run, events) && n <= |events|
    ensures PendingFits(run[n])
  {
    if n > 0 {
      PendingAlwaysFits(run, events, n - 1);
    }
  }

  predicate ProvenAbsent(m: Telemetry, e: Event) {
    m.pending == Some(PollSubscribe) && e == Answer(Reply(CodeNotFound, EmptyBody))
  }

  lemma {:induction false} SubscribingNeedsProof(run: seq<Telemetry>, events: seq<Event>, lost: nat, n: nat) returns (k: nat)
    requires IsRun(run, events) && lost < n <= |events| && events[lost].Lose? && run[lost].pending == Some(Subscribe)
    requires run[n].phase == Subscribing
    ensures lost < k < n && ProvenAbsent(run[k], events[k])
  {
    PendingAlwaysFits(run, events, n - 1);
    if run[n - 1].phase == Subscribing && n - 1 > lost {
      k := SubscribingNeedsProof(run, events, lost, n - 1);
    } else {
      k := n - 1;
    }
  }

  /** A subscribe whose outcome was lost is sent again only after a poll proved that no session exists. */
  lemma LostSubscribeIsNeverBlindlyRepeated(run: seq<Telemetry>, events: seq<Event>, lost: nat, again: nat)
    requires IsRun(run, events) && lost < again < |events|
    requires events[lost].Lose? && run[lost].pending == Some(Subscribe)
    requires events[again].Ask? && Next(run[again]).1 == Ok(Some(SubscribeOp))
    ensures exists k :: lost < k < again && ProvenAbsent(run[k], events[k])
  {
    var k := SubscribingNeedsProof(run, events, lost, again);
  }

  /** A lost unsubscribe is only ever polled: it is not sent again, whatever the device answers. */
  lemma {:induction false} LostUnsubscribeIsOnlyPolled(run: seq<Telemetry>, events: seq<Event>, lost: nat, n: nat)
    requires IsRun(run, events) && lost < n <= |events| && events[lost].Lose? && run[lost].pending == Some(Unsubscribe)
    ensures run[n].phase in {ReconcilingUnsubscribe, Unsubscribed}
    ensures Next(run[n]).1 != Ok(Some(UnsubscribeOp)) && Next(run[n]).1 != Ok(Some(SubscribeOp))
  {
    PendingAlwaysFits(run, events, n - 1);
    if n - 1 > lost {
      LostUnsubscribeIsOnlyPolled(run, events, lost, n - 1);
    }
  }

  /** A lost event poll changes nothing: asked again it sends the very same acknowledgement. */
  lemma LostPollIsRepeatedExactly(run: seq<Telemetry>, events: seq<Event>, n: nat)
    requires IsRun(run, events) && n + 1 < |events| && events[n].AskEvent? && events[n + 1].Lose?
    requires NextEvent(run[n]).1.Ok?
    ensures run[n + 2] == run[n] && NextEvent(run[n + 2]).1 == NextEvent(run[n]).1
  {
    assert run[n + 1] == After(run[n], events[n]) && run[n + 2] == After(run[n + 1], events[n + 1]);
  }
}
