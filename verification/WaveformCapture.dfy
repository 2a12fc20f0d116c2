/** The waveform capture client: a retry-safe session whose record is assembled range by range. */
module WaveformCapture {
  import opened Wrappers
  import opened WaveformModel

  class WaveformCaptureMachine {
    const reference: nat
    const maximumChunk: nat
    const maximumRecord: nat
    const validate: Bytes -> Option<nat>
    var phase: Phase
    var pending: Option<Action>
    var status: Option<CaptureStatus>
    var record: Bytes

    function Model(): Capture
      reads this
    {
      Capture(reference, maximumChunk, maximumRecord, validate, phase, pending, status, record)
    }

    constructor (reference: nat, maximumChunk: nat, maximumRecord: nat, validate: Bytes -> Option<nat>)
      ensures Model() == NewCapture(reference, maximumChunk, maximumRecord, validate)
    {
      this.reference, this.maximumChunk, this.maximumRecord, this.validate := reference, maximumChunk, maximumRecord, validate;
      phase, pending, status, record := Configuring, None, None, [];
    }

    method NextRequest() returns (result: Result<Option<Operation>, ClientError>)
      modifies this
      ensures (Model(), result) == Next(old(Model()))
    {
      if pending.Some? {
        return Err(RequestPending);
      }
      var action: Action;
      var operation: Operation;
      match phase {
        case Configuring => action, operation := Configure, ConfigureOp;
        case ReconcilingConfigure => action, operation := PollConfigure, StatusOp;
        case Arming => action, operation := Arm, ArmOp;
        case ReconcilingArm => action, operation := PollArm, StatusOp;
        case Armed => action, operation := PollComplete, StatusOp;
        case Downloading(received, _) =>
          if status.None? {
            return Err(BadState);
          }
          action, operation := Read, ReadOp(status.value.recordDigest, received, maximumChunk);
        case Stopping => action, operation := Stop, StopOp;
        case ReconcilingStop => action, operation := PollStop, StatusOp;
        case _ => return Ok(None);
      }
      pending := Some(action);
      return Ok(Some(operation));
    }

    method RequestArm() returns (result: Result<(), ClientError>)
      modifies this
      ensures (Model(), result) == WaveformModel.RequestArm(old(Model()))
    {
      if pending.Some? {
        return Err(RequestPending);
      }
      if phase != Configured {
        return Err(InvalidTransition);
      }
      phase := Arming;
      return Ok(());
    }

    method RequestStop() returns (result: Result<(), ClientError>)
      modifies this
      ensures (Model(), result) == WaveformModel.RequestStop(old(Model()))
    {
      if pending.Some? {
        return Err(RequestPending);
      }
      if phase in {Configured, Armed, Complete} || phase.Downloading? {
        phase := Stopping;
        return Ok(());
      }
      return if phase == Stopped then Ok(()) else Err(InvalidTransition);
    }

    method AcceptResponse(reply: Reply) returns (result: Result<(), ClientError>)
      modifies this
      ensures (Model(), result) == Accept(old(Model()), reply)
    {
      if pending.None? {
        return Err(NoPendingRequest);
      }
      var action := pending.value;
      pending := None;
      if action == PollConfigure && reply.code == CodeNotFound {
        if !reply.body.EmptyBody? {
          return Err(BadBody);
        }
        phase := Configuring;
        return Ok(());
      }
      if action == PollStop && reply.code == CodeNotFound {
        if !reply.body.EmptyBody? {
          return Err(BadBody);
        }
        phase, status, record := Stopped, None, [];
        return Ok(());
      }
      var refused := RequireOk(reply);
      if refused.Some? {
        return Err(refused.value);
      }
      if action == Read {
        result := AcceptRange(reply.body);
        return;
      }
      if !reply.body.StatusBody? {
        return Err(BadWire);
      }
      var reported := reply.body.status;
      if reported.reference != reference {
        return Err(BadIdentity);
      }
      if action in {Configure, PollConfigure} {
        if reported.phase != SessionConfigured {
          return Err(BadState);
        }
        phase := Configured;
      } else if action in {Stop, PollStop} {
        if reported.phase != SessionStopped {
          return Err(BadState);
        }
        phase, record := Stopped, [];
      } else {
        var acquired := AcceptAcquisitionStatus(reported);
        if acquired.Err? {
          return acquired;
        }
      }
      status := Some(reported);
      return Ok(());
    }

    method AcceptAcquisitionStatus(reported: CaptureStatus) returns (result: Result<(), ClientError>)
      modifies this
      ensures (Model(), result) == AcceptAcquisition(old(Model()), reported)
    {
      match reported.phase {
        case SessionArmed =>
          phase := Armed;
          return Ok(());
        case SessionComplete =>
          if reported.recordBytes == 0 || reported.recordBytes > maximumRecord || reported.recordDigest == 0 {
            return Err(BadState);
          }
          record := [];
          phase := Downloading(0, reported.recordBytes);
          return Ok(());
        case SessionConfigured =>
          if phase != ReconcilingArm {
            return Err(BadState);
          }
          phase := Arming;
          return Ok(());
        case _ => return Err(BadState);
      }
    }

    method AcceptRange(body: Body) returns (result: Result<(), ClientError>)
      modifies this
      ensures (Model(), result) == WaveformModel.AcceptRange(old(Model()), body)
    {
      if status.None? || !phase.Downloading? {
        return Err(BadState);
      }
      var total := phase.total;
      if !body.ChunkBody? || body.chunk.reference != reference || body.chunk.recordDigest != status.value.recordDigest {
        return Err(BadWire);
      }
      var chunk := body.chunk;
      if chunk.offset != phase.received || chunk.recordBytes != total {
        return Err(BadIdentity);
      }
      record := record + chunk.bytes;
      var received := chunk.offset + |chunk.bytes|;
      if received != total {
        phase := Downloading(received, total);
        return Ok(());
      }
      var digest := validate(record);
      if digest.None? {
        record, phase := [], Downloading(0, total);
        return Err(BadWire);
      }
      if digest.value != status.value.recordDigest {
        record, phase := [], Downloading(0, total);
        return Err(BadIdentity);
      }
      phase := Complete;
      return Ok(());
    }

    method AbandonPending() returns (abandoned: bool)
      modifies this
      ensures (Model(), abandoned) == Abandon(old(Model()))
    {
      if pending.None? {
        return false;
      }
      match pending.value {
        case Configure | PollConfigure => phase := ReconcilingConfigure;
        case Arm | PollArm => phase := ReconcilingArm;
        case PollComplete => phase := Armed;
        case Read =>
        case Stop | PollStop => phase := ReconcilingStop;
      }
      pending := None;
      return true;
    }
  }
}
