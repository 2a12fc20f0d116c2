/** The capability downloader: ranges are written into one preallocated array as they arrive. */
module CapabilityDownload {
  import opened Wrappers
  import opened CapabilityModel

  class CapabilityDownloadMachine {
    const maximumDocument: nat
    const maximumChunk: nat
    const decode: Bytes -> Option<Identity>
    var identity: Option<Identity>
    var document: array<byte>
    var received: nat
    var complete: bool
    var pending: Option<RangeRequest>

    function Model(): Download
      reads this, document
    {
      Download(maximumDocument, maximumChunk, decode, identity, document[..], received, complete, pending)
    }

    constructor (maximumDocument: nat, maximumChunk: nat, decode: Bytes -> Option<Identity>)
      ensures Model() == NewDownload(maximumDocument, maximumChunk, decode) && fresh(document)
    {
      this.maximumDocument, this.maximumChunk, this.decode := maximumDocument, maximumChunk, decode;
      identity, received, complete, pending := None, 0, false, None;
      document := new byte[0];
    }

    method NextRequest() returns (result: Result<Option<RangeRequest>, DownloadError>)
      modifies this
      ensures document == old(document) && document[..] == old(document[..])
      ensures (Model(), result) == Next(old(Model()))
    {
      if pending.Some? {
        return Err(RequestPending);
      }
      if complete {
        return Ok(None);
      }
      var remaining := maximumChunk;
      if identity.Some? {
        remaining := if identity.value.byteLen > received then identity.value.byteLen - received else 0;
      }
      if remaining == 0 {
        return Err(Range);
      }
      var request := RangeRequest(
        if identity.Some? then identity.value.digest else 0,
        received,
        if remaining < maximumChunk then remaining else maximumChunk);
      pending := Some(request);
      return Ok(Some(request));
    }

    method AcceptResponse(reply: Reply) returns (result: Result<(), DownloadError>)
      modifies this, document
      ensures document == old(document) || fresh(document)
      ensures (Model(), result) == Accept(old(Model()), reply)
    {
      if pending.None? {
        return Err(NoPendingRequest);
      }
      var request := pending.value;
      pending := None;
      if !reply.ok {
        return Err(if reply.body.EmptyBody? then DeviceCode else BadBody);
      }
      match reply.body {
        case EmptyBody => return Err(BadBody);
        case UndecodableBody => return Err(BadWire);
        case RangeBody(range) =>
          var refusal := Refusal(Model(), request, range);
          if refusal.Some? {
            return Err(refusal.value);
          }
          if identity.None? {
            document := new byte[range.identity.byteLen](_ => 0);
            identity := Some(range.identity);
            assert document[..] == seq(range.identity.byteLen, _ => 0);
          }
          result := CommitRange(range);
      }
    }

    /** The chunk is copied in before it is known whether the range will be accepted. */
    method CommitRange(range: RangeReply) returns (result: Result<(), DownloadError>)
      modifies this, document
      ensures document == old(document)
      ensures (Model(), result) == Commit(old(Model()), range)
    {
      var start, end := received, received + |range.chunk|;
      if end > document.Length {
        return Err(Range);
      }
      CopyInto(document, start, range.chunk);
      if range.complete {
        if end != range.identity.byteLen {
          return Err(Range);
        }
        var decoded := decode(document[..]);
        if decoded.None? {
          return Err(BadDocument);
        }
        if decoded.value != range.identity {
          return Err(BadIdentity);
        }
        received, complete := end, true;
      } else {
        if end >= range.identity.byteLen {
          return Err(Range);
        }
        received := end;
      }
      return Ok(());
    }

    method AbandonPending() returns (abandoned: bool)
      modifies this
      ensures document == old(document)
      ensures (Model(), abandoned) == Abandon(old(Model()))
    {
      abandoned := pending.Some?;
      pending := None;
    }

    method Reset()
      modifies this
      ensures fresh(document)
      ensures Model() == CapabilityModel.Reset(old(Model()))
    {
      identity, received, complete, pending := None, 0, false, None;
      document := new byte[0];
    }
  }

  method CopyInto(document: array<byte>, start: nat, chunk: Bytes)
    requires start + |chunk| <= document.Length
    modifies document
    ensures document[..] == Overwrite(old(document[..]), start, chunk)
  {
    var n := 0;
    while n < |chunk|
      invariant n <= |chunk|
      invariant document[..] == old(document[..])[..start] + chunk[..n] + old(document[..])[start + n..]
    {
      document[start + n] := chunk[n];
      n := n + 1;
    }
  }
}
