/** The telemetry client beside a device that frees an event only when a poll acknowledges it. */
module TelemetryDevice {
  import opened Wrappers
  import opened TelemetryModel

  /** Every event the device ever published, oldest first, and whether it still holds the newest one. */
  datatype Publisher = Publisher(published: seq<Progress>, holds: bool)

  /** `polled` are the acknowledgements on their way, however late, and `validated` is the client's history. */
  datatype Link = Link(client: Telemetry, device: Publisher, polled: set<u64>, validated: seq<Progress>)

  datatype Move = Client(event: Event) | Publish(update: Progress) | Acknowledge(accepted: u64)

  ghost predicate Rising(h: seq<Progress>) {
    (forall i | 0 <= i < |h| :: 0 < h[i].sequence) && forall i, j | 0 <= i < j < |h| :: h[i].sequence < h[j].sequence
  }

  function Newest(d: Publisher): Progress
    requires d.published != []
  {
    d.published[|d.published| - 1]
  }

  /** An event the client is shown is one the device published; a newer event replaces the one held. */
  ghost predicate Possible(s: Link, m: Move) {
    match m
    case Client(e) =>
      && (e.AnswerEvent? && e.reply.body.EventBody? ==> e.reply.body.event in s.device.published)
      && (e.Direct? && e.body.EventBody? ==> e.body.event in s.device.published)
    case Publish(event) => Rising(s.device.published + [event])
    case Acknowledge(accepted) => accepted in s.polled
  }

  /** Every poll may arrive at any later time, any number of times or never. */
  function Polled(m: Telemetry, e: Event): set<u64> {
    if e.AskEvent? && NextEvent(m).1.Ok? then {NextEvent(m).1.value.accepted} else {}
  }

  /** The device frees what it holds when the acknowledgement reaches it. */
  predicate Frees(s: Link, m: Move) {
    m.Acknowledge? && s.device.holds && s.device.published != [] && Newest(s.device).sequence <= m.accepted
  }

  function Next(s: Link, m: Move): Link {
    match m
    case Client(e) =>
      s.(client := After(s.client, e), polled := s.polled + Polled(s.client, e),
         validated := s.validated + Validated(s.client, e))
    case Publish(event) => s.(device := Publisher(s.device.published + [event], true))
    case Acknowledge(_) => if Frees(s, m) then s.(device := s.device.(holds := false)) else s
  }

  ghost predicate IsLinkRun(run: seq<Link>, moves: seq<Move>) {
    && |run| == |moves| + 1
    && (exists subscription :: run[0] == Link(NewTelemetry(subscription), Publisher([], false), {}, []))
    && forall k | 0 <= k < |moves| :: Possible(run[k], moves[k]) && run[k + 1] == Next(run[k], moves[k])
  }

  ghost predicate Names(h: seq<Progress>, sequence: u64) {
    exists i | 0 <= i < |h| :: h[i].sequence == sequence
  }

  ghost predicate Linked(s: Link) {
    && Recorded(s.client, s.validated, s.client.subscription.period)
    && Rising(s.device.published)
    && (forall e <- s.validated :: e in s.device.published)
    && (forall a <- s.polled :: a == 0 || Names(s.validated, a))
  }

  lemma ClientKeepsLinked(s: Link, e: Event)
    requires Linked(s) && Possible(s, Client(e))
    ensures Linked(Next(s, Client(e)))
  {
    var t := Next(s, Client(e));
    EventIsRecorded(s.client, e, s.validated, s.client.subscription.period);
    assert After(s.client, e).subscription == s.client.subscription;
    forall a | a in t.polled ensures a == 0 || Names(t.validated, a) {
      if a in s.polled {
        if a != 0 {
          var i :| 0 <= i < |s.validated| && s.validated[i].sequence == a;
          assert t.validated[i].sequence == a;
        }
      } else if s.client.progress.Some? {
        assert t.validated[|s.validated| - 1].sequence == a;
      }
    }
  }

  lemma MoveKeepsLinked(s: Link, m: Move)
    requires Linked(s) && Possible(s, m)
    ensures Linked(Next(s, m))
  {
    match m
    case Client(e) => ClientKeepsLinked(s, e);
    case Publish(event) =>
    case Acknowledge(_) =>
  }

  lemma {:induction false} RunsStayLinked(run: seq<Link>, moves: seq<Move>, n: nat)
    requires IsLinkRun(run, moves) && n <= |moves|
    ensures Linked(run[n])
  {
    hide Next, Possible, Linked;
    if n > 0 {
      RunsStayLinked(run, moves, n - 1);
      MoveKeepsLinked(run[n - 1], moves[n - 1]);
    } else {
      StartIsLinked(run[0]);
    }
  }

  lemma StartIsLinked(s: Link)
    requires exists subscription :: s == Link(NewTelemetry(subscription), Publisher([], false), {}, [])
    ensures Linked(s)
  {
  }

  /**
   * Whatever polls are lost, repeated or late: an event the device frees on an acknowledgement is one the client has
   * completely validated.
   */
  lemma OnlyValidatedEventsAreFreed(run: seq<Link>, moves: seq<Move>, n: nat)
    requires IsLinkRun(run, moves) && n < |moves| && Frees(run[n], moves[n])
    ensures Newest(run[n].device) in run[n].validated
  {
    RunsStayLinked(run, moves, n);
    var s := run[n];
    var newest := Newest(s.device);
    assert newest in s.device.published && 0 < newest.sequence;
    assert Possible(s, moves[n]);
    assert Names(s.validated, moves[n].accepted);
    var i :| 0 <= i < |s.validated| && s.validated[i].sequence == moves[n].accepted;
    assert s.validated[i] in s.device.published;
    var j :| 0 <= j < |s.device.published| && s.device.published[j] == s.validated[i];
    assert j == |s.device.published| - 1;
  }
}
