/** One small attended job on devices with equal clocks, shared by the concrete runs. */
module JobFixture {
  import opened Wrappers
  import opened ParticipantSchedule
  import opened StartTiming
  import opened DeviceModel

  const DESCRIPTOR := Descriptor(1, 2, 3)
  const IDLE := Participant(DESCRIPTOR, 7, 9, None, None, None, None, false)
  const PREPARED_DEVICE := BLANK_DEVICE.(stage := AtPrepared)
  const TARGET: u64 := 5_000
  const BOUND := Commit(NetworkAttended, 1, 7, 11, 12, 9, 2, 1_000, 700, 900, 1_300, 4, 1, 2, 8)
  const CLOCK := DeviceClock(
    Some(7), Some(100), Some(Prediction(7, 0, TARGET, 1, 1_000, 500, 4)), Some(Instant(7, 0, 1, 500, 500)), None)

  function Input(deviceId: nat): StartInput { StartInput(deviceId, CLOCK, StartPolicy(1, 2, 300, 100, 300, 8)) }
}
