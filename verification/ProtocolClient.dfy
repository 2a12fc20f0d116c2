/** The native client: one exchange at a time, its identities spent only by success. */
module NativeClient {
  import opened Wrappers
  import opened ProtocolClientModel

  class ProtocolClient {
    const wire: Wire
    const config: nat
    var nextSequence: u32
    var nextCorrelation: u32

    function Model(): Client
      reads this
    {
      Client(wire, nextSequence, nextCorrelation, config)
    }

    constructor (wire: Wire, config: nat)
      ensures Model() == NewClient(wire, config)
    {
      this.wire, this.config := wire, config;
      nextSequence, nextCorrelation := 0, 1;
    }

    method Request(operation: nat, body: Body, exchange: Encoded -> Option<Encoded>)
      returns (result: Result<Response, ClientError>)
      modifies this
      ensures (Model(), result) == RequestOf(old(Model()), operation, body, exchange)
    {
      var correlation, sequence := nextCorrelation, nextSequence;
      var request := EncodeRequest(wire, operation, body, sequence, correlation, config);
      if request.Err? {
        return Err(RequestRefused(request.error));
      }
      var received := exchange(request.value);
      if received.None? {
        return Err(TransportFailed);
      }
      var decoded := DecodeResponse(wire, received.value, operation, sequence, correlation, config);
      if decoded.Err? {
        return Err(ResponseRefused(decoded.error));
      }
      nextSequence := WrappingNext(nextSequence);
      nextCorrelation := AtLeastOne(WrappingNext(nextCorrelation));
      return Ok(decoded.value);
    }
  }
}
