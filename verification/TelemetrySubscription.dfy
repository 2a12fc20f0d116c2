/** The telemetry subscription client: a retry-safe session that acknowledges only what it has validated. */
module TelemetrySubscription {
  import opened Wrappers
  import opened TelemetryModel

  class TelemetrySubscriptionMachine {
    const subscription: Subscription
    var phase: Phase
    var pending: Option<Action>
    var status: Option<SubscriptionStatus>
    var progress: Option<Progress>

    function Model(): Telemetry
      reads this
    {
      Telemetry(subscription, phase, pending, status, progress)
    }

    constructor (subscription: Subscription)
      ensures Model() == NewTelemetry(subscription)
    {
      this.subscription := subscription;
      phase, pending, status, progress := Subscribing, None, None, None;
    }

    method NextRequest() returns (result: Result<Option<Operation>, ClientError>)
      modifies this
      ensures (Model(), result) == Next(old(Model()))
    {
      if pending.Some? {
        return Err(RequestPending);
      }
      match phase {
        case Subscribing =>
          pending := Some(Subscribe);
          return Ok(Some(SubscribeOp));
        case ReconcilingSubscribe =>
          pending := Some(PollSubscribe);
          return Ok(Some(StatusOp));
        case Unsubscribing =>
          pending := Some(Unsubscribe);
          return Ok(Some(UnsubscribeOp));
        case ReconcilingUnsubscribe =>
          pending := Some(PollUnsubscribe);
          return Ok(Some(StatusOp));
        case _ => return Ok(None);
      }
    }

    method NextEventRequest() returns (result: Result<Operation, ClientError>)
      modifies this
      ensures (Model(), result) == NextEvent(old(Model()))
    {
      if pending.Some? {
        return Err(RequestPending);
      }
      if phase != Active {
        return Err(InvalidTransition);
      }
      var accepted: u64 := if progress.Some? then progress.value.sequence else 0;
      pending := Some(PollEvent);
      return Ok(PollOp(accepted));
    }

    method RequestUnsubscribe() returns (result: Result<(), ClientError>)
      modifies this
      ensures (Model(), result) == TelemetryModel.RequestUnsubscribe(old(Model()))
    {
      if pending.Some? {
        return Err(RequestPending);
      }
      match phase {
        case Active =>
          phase := Unsubscribing;
          return Ok(());
        case Unsubscribed => return Ok(());
        case _ => return Err(InvalidTransition);
      }
    }

    method AcceptResponse(reply: Reply) returns (result: Result<(), ClientError>)
      modifies this
      ensures (Model(), result) == Accept(old(Model()), reply)
    {
      if pending == Some(PollEvent) {
        return Err(InvalidTransition);
      }
      if pending.None? {
        return Err(NoPendingRequest);
      }
      var action := pending.value;
      pending := None;
      if action in {PollSubscribe, PollUnsubscribe} && reply.code == CodeNotFound {
        if !reply.body.EmptyBody? {
          return Err(BadBody);
        }
        if action == PollSubscribe {
          phase := Subscribing;
        } else {
          phase, status := Unsubscribed, None;
        }
        return Ok(());
      }
      var refused := RequireOk(reply);
      if refused.Some? {
        return Err(refused.value);
      }
      if !reply.body.StatusBody? {
        return Err(BadWire);
      }
      var reported := reply.body.status;
      if reported.subscription != subscription {
        return Err(BadIdentity);
      }
      if progress.Some?
         && (reported.nextSequence <= progress.value.sequence || reported.dropped < progress.value.dropped) {
        return Err(EventOrder);
      }
      var expected := if action in {Subscribe, PollSubscribe} then SessionActive else SessionUnsubscribed;
      if reported.phase != expected {
        return Err(BadState);
      }
      status := Some(reported);
      phase := if expected == SessionActive then Active else Unsubscribed;
      return Ok(());
    }

    method AcceptEventResponse(reply: Reply) returns (result: Result<Option<bool>, ClientError>)
      modifies this
      ensures (Model(), result) == AcceptEventReply(old(Model()), reply)
    {
      if pending != Some(PollEvent) {
        return Err(NoPendingRequest);
      }
      pending := None;
      if reply.code != CodeOk {
        return Err(if reply.body.EmptyBody? then DeviceCode else BadBody);
      }
      if reply.body.EmptyBody? {
        return Ok(None);
      }
      var advanced := AcceptEvent(reply.body);
      if advanced.Err? {
        return Err(advanced.error);
      }
      return Ok(Some(advanced.value));
    }

    method AcceptEvent(body: Body) returns (advanced: Result<bool, ClientError>)
      modifies this
      ensures (Model(), advanced) == TelemetryModel.AcceptEvent(old(Model()), body)
    {
      if phase != Active {
        return Err(BadState);
      }
      if !body.EventBody? {
        return Err(BadWire);
      }
      var event := body.event;
      if progress.Some? {
        var previous := progress.value;
        if event == previous {
          return Ok(false);
        }
        if event.sequence <= previous.sequence || event.dropped < previous.dropped
           || event.cycle < previous.cycle || event.cycle - previous.cycle < subscription.period {
          return Err(EventOrder);
        }
      }
      progress := Some(event);
      return Ok(true);
    }

    method AbandonPending() returns (abandoned: bool)
      modifies this
      ensures (Model(), abandoned) == Abandon(old(Model()))
    {
      if pending.None? {
        return false;
      }
      match pending.value {
        case Subscribe | PollSubscribe => phase := ReconcilingSubscribe;
        case Unsubscribe | PollUnsubscribe => phase := ReconcilingUnsubscribe;
        case PollEvent => phase := Active;
      }
      pending := None;
      return true;
    }
  }
}
