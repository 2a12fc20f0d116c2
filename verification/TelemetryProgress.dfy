/** Exactly what every answer makes of a subscription, and that a published event is validated and then freed. */
module TelemetryProgress {
  import opened Wrappers
  import opened TelemetryModel
  import Device = TelemetryDevice

  // ---- Answers about the session ----------------------------------------------------------

  /** A successful status of this very subscription in this phase that takes back nothing already validated. */
  predicate Tells(m: Telemetry, reply: Reply, phase: SessionPhase) {
    && reply.code == CodeOk && reply.body.StatusBody?
    && reply.body.status.subscription == m.subscription && reply.body.status.phase == phase
    && (m.progress.Some? ==>
          && m.progress.value.sequence < reply.body.status.nextSequence
          && m.progress.value.dropped <= reply.body.status.dropped)
  }

  predicate SaysAbsent(reply: Reply) {
    reply == Reply(CodeNotFound, EmptyBody)
  }

  /** The subscription the answer leads to, if it leads anywhere. */
  function Led(m: Telemetry, action: Action, reply: Reply): Option<Telemetry> {
    var asked := m.(pending := None);
    match action
    case Subscribe =>
      if Tells(m, reply, SessionActive) then Some(asked.(phase := Active, status := Some(reply.body.status))) else None
    case PollSubscribe =>
      if SaysAbsent(reply) then Some(asked.(phase := Subscribing))
      else if Tells(m, reply, SessionActive) then Some(asked.(phase := Active, status := Some(reply.body.status)))
      else None
    case Unsubscribe =>
      if Tells(m, reply, SessionUnsubscribed) then
        Some(asked.(phase := Unsubscribed, status := Some(reply.body.status)))
      else None
    case PollUnsubscribe =>
      if SaysAbsent(reply) then Some(asked.(phase := Unsubscribed, status := None))
      else if Tells(m, reply, SessionUnsubscribed) then
        Some(asked.(phase := Unsubscribed, status := Some(reply.body.status)))
      else None
    case PollEvent => None
  }

  /**
   * An answer is accepted exactly when it leads somewhere, and then the subscription is what it leads to; any other
   * answer only ends the wait, and the answer of an event poll is refused here without ending it.
   */
  lemma AnswersAreExact(m: Telemetry, reply: Reply)
    requires m.pending.Some?
    ensures var ((t, result), led) := (Accept(m, reply), Led(m, m.pending.value, reply));
            && (result.Ok? <==> led.Some?)
            && t == (if led.Some? then led.value else if m.pending == Some(PollEvent) then m else m.(pending := None))
  {
  }

  /** A loss turns a mutation into a poll of its outcome; a poll is asked again. */
  lemma LossIsExact(m: Telemetry)
    requires PendingFits(m) && m.pending.Some?
    ensures var t := Abandon(m).0;
            && t == m.(pending := None, phase := t.phase)
            && (m.pending == Some(PollEvent) <==> t.phase == Active)
            && (m.pending.value in {Subscribe, PollSubscribe} ==> Next(t).0.pending == Some(PollSubscribe))
            && (m.pending.value in {Unsubscribe, PollUnsubscribe} ==> Next(t).0.pending == Some(PollUnsubscribe))
  {
  }

  /** An unsubscription is accepted exactly at rest from an active or an already ended subscription. */
  lemma UnsubscribeIsExact(m: Telemetry)
    ensures RequestUnsubscribe(m).1.Ok? <==> m.pending.None? && m.phase in {Active, Unsubscribed}
    ensures RequestUnsubscribe(m).0 ==
            if m.pending.None? && m.phase == Active then m.(phase := Unsubscribing) else m
    ensures m.pending.None? && m.phase == Active ==> Next(RequestUnsubscribe(m).0).1 == Ok(Some(UnsubscribeOp))
  {
  }

  // ---- Events -----------------------------------------------------------------------------

  /** The first event, or one that is newer, loses nothing already counted and keeps the subscription's period. */
  predicate IsNext(m: Telemetry, event: Progress) {
    m.progress.Some? ==>
      && m.progress.value.sequence < event.sequence
      && m.progress.value.dropped <= event.dropped
      && m.progress.value.cycle + m.subscription.period <= event.cycle
  }

  /** Events are polled exactly from an active subscription at rest. */
  lemma EventPollIsExact(m: Telemetry)
    ensures NextEvent(m).1.Ok? <==> m.pending.None? && m.phase == Active
    ensures NextEvent(m).0 == if NextEvent(m).1.Ok? then m.(pending := Some(PollEvent)) else m
    ensures Next(m).1 == Ok(None) <==> m.pending.None? && m.phase in {Active, Unsubscribed}
  {
  }

  /** An active subscription takes exactly the next events as new and a repeat of the last one as nothing new. */
  lemma EventsAreExact(m: Telemetry, body: Body)
    ensures AcceptEvent(m, body).1 == Ok(true) <==>
              m.phase == Active && body.EventBody? && IsNext(m, body.event) && m.progress != Some(body.event)
    ensures AcceptEvent(m, body).1 == Ok(false) <==>
              m.phase == Active && body.EventBody? && m.progress == Some(body.event)
    ensures AcceptEvent(m, body).0 ==
            if AcceptEvent(m, body).1 == Ok(true) then m.(progress := Some(body.event)) else m
  {
  }

  /** The answer of a poll: nothing published, an event judged as above, or a refusal; the wait always ends. */
  lemma EventAnswersAreExact(m: Telemetry, reply: Reply)
    requires m.pending == Some(PollEvent)
    ensures var ((t, result), asked) := (AcceptEventReply(m, reply), m.(pending := None));
            && (result == Ok(None) <==> reply == Reply(CodeOk, EmptyBody))
            && (result == Ok(Some(true)) <==> reply.code == CodeOk && AcceptEvent(asked, reply.body).1 == Ok(true))
            && (result == Ok(Some(false)) <==> reply.code == CodeOk && AcceptEvent(asked, reply.body).1 == Ok(false))
            && t == if result == Ok(Some(true)) then asked.(progress := Some(reply.body.event)) else asked
  {
  }

  // ---- Getting there ----------------------------------------------------------------------

  /** From a new subscription one answered request makes it active. */
  lemma ActiveIsReached(subscription: Subscription, status: SubscriptionStatus)
    requires status.subscription == subscription && status.phase == SessionActive
    ensures var m := NewTelemetry(subscription);
            && Next(m).1 == Ok(Some(SubscribeOp))
            && Accept(Next(m).0, Reply(CodeOk, StatusBody(status))) ==
                 (m.(phase := Active, status := Some(status)), Ok(()))
  {
  }

  /** The client may take the event the device still holds. */
  ghost predicate Awaits(s: Device.Link) {
    && s.client.phase == Active && s.client.pending.None? && s.device.holds && s.device.published != []
    && IsNext(s.client, Device.Newest(s.device)) && s.client.progress != Some(Device.Newest(s.device))
  }

  function Shown(s: Device.Link): Event
    requires s.device.published != []
  {
    AnswerEvent(Reply(CodeOk, EventBody(Device.Newest(s.device))))
  }

  /**
   * A held event reaches the history: the poll's answer validates it, the next poll acknowledges it, and when that
   * acknowledgement arrives the device frees it.
   */
  lemma HeldEventIsDelivered(s: Device.Link)
    requires Awaits(s)
    ensures Device.Possible(s, Device.Client(AskEvent))
    ensures Device.Possible(Device.Next(s, Device.Client(AskEvent)), Device.Client(Shown(s)))
    ensures var polled := Device.Next(s, Device.Client(AskEvent));
            var taken := Device.Next(polled, Device.Client(Shown(s)));
            var again := Device.Next(taken, Device.Client(AskEvent));
            var acknowledged := Device.Acknowledge(Device.Newest(s.device).sequence);
            && taken.validated == s.validated + [Device.Newest(s.device)]
            && Device.Possible(again, acknowledged) && Device.Frees(again, acknowledged)
            && !Device.Next(again, acknowledged).device.holds
  {
    var newest := Device.Newest(s.device);
    assert newest in s.device.published;
    var polled := Device.Next(s, Device.Client(AskEvent));
    EventsAreExact(polled.client.(pending := None), EventBody(newest));
    assert Validated(s.client, AskEvent) == [];
    assert polled.validated == s.validated;
    var taken := Device.Next(polled, Device.Client(Shown(s)));
    assert taken.client == s.client.(progress := Some(newest));
  }
}
