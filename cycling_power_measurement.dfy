/**
 * The Cycling Power Measurement record (Bluetooth Cycling Power Service,
 * section 3.2) as the firmware fills it: six little-endian fields, 14 bytes.
 */
module CyclingPowerMeasurement {
  import opened CTypes

  /** Flags bits of the record (Cycling Power Service, section 3.2.1.1). */
  const WheelRevolutionDataPresent: bv16 := 1 << 4
  const CrankRevolutionDataPresent: bv16 := 1 << 5
  const AccumulatedEnergyPresent: bv16 := 1 << 11

  /** The firmware reports wheel and crank revolution data, and no accumulated energy. */
  const MeasurementFlags: bv16 := CrankRevolutionDataPresent | WheelRevolutionDataPresent

  const RecordLength: nat := 14

  /** Largest value of the signed 16-bit power field. */
  const MaxPower: u16 := 0x7FFF

  datatype Measurement = Measurement(
    flags: u16,
    instantaneousPower: u16,
    wheelRevolutions: u32,
    lastWheelEventTime: u16,
    crankRevolutions: u16,
    lastCrankEventTime: u16)

  datatype Option<T> = None | Some(value: T)

  /** Power above what the signed field holds is clamped to its maximum. */
  function ClampPower(powerWatts: u16): (clamped: u16)
  {
    if powerWatts > MaxPower then MaxPower else powerWatts
  }

  /**
   * Milliseconds to 1/2048 s: `ms * 2048` is computed in 32 bits, so it
   * wraps before the division; the quotient is then cut to 16 bits.
   */
  function WheelEventTime(ms: u32): (ticks: u16)
  {
    (ms * 2048 % 0x1_0000_0000 / 1000) % 0x1_0000
  }

  /** Milliseconds to 1/1024 s, with the same 32-bit product and 16-bit cut. */
  function CrankEventTime(ms: u32): (ticks: u16)
  {
    (ms * 1024 % 0x1_0000_0000 / 1000) % 0x1_0000
  }

  /** The record for one sample of the ride. */
  function FromSample(crankRevs: u16, lastCrankRevTimestampMs: u32, wheelRevs: u32,
                      lastWheelRevTimestampMs: u32, powerWatts: u16): Measurement
  {
    Measurement(MeasurementFlags as int, ClampPower(powerWatts), wheelRevs,
                WheelEventTime(lastWheelRevTimestampMs), crankRevs, CrankEventTime(lastCrankRevTimestampMs))
  }

  /** The wire bytes of a record: each field little-endian, in field order, no padding. */
  function Serialize(m: Measurement): (bytes: seq<u8>)
    ensures |bytes| == RecordLength
  {
    LittleEndian(m.flags, 2) + LittleEndian(m.instantaneousPower, 2) + LittleEndian(m.wheelRevolutions, 4)
      + LittleEndian(m.lastWheelEventTime, 2) + LittleEndian(m.crankRevolutions, 2)
      + LittleEndian(m.lastCrankEventTime, 2)
  }

  /** Reads a record back from its wire bytes; anything but 14 bytes is not a record. */
  function Parse(bytes: seq<u8>): (parsed: Option<Measurement>)
  {
    if |bytes| != RecordLength then None
    else Some(Measurement(
      FromLittleEndian(bytes[0..2]), FromLittleEndian(bytes[2..4]), FromLittleEndian(bytes[4..8]),
      FromLittleEndian(bytes[8..10]), FromLittleEndian(bytes[10..12]), FromLittleEndian(bytes[12..14])))
  }

  /** Parsing recovers every field of a serialized record. */
  lemma ParseSerialize(m: Measurement)
    ensures Parse(Serialize(m)) == Some(m)
  {
    var bytes := Serialize(m);
    assert bytes[0..2] == LittleEndian(m.flags, 2);
    assert bytes[2..4] == LittleEndian(m.instantaneousPower, 2);
    assert bytes[4..8] == LittleEndian(m.wheelRevolutions, 4);
    assert bytes[8..10] == LittleEndian(m.lastWheelEventTime, 2);
    assert bytes[10..12] == LittleEndian(m.crankRevolutions, 2);
    assert bytes[12..14] == LittleEndian(m.lastCrankEventTime, 2);
    LittleEndianRoundTrip(m.flags, 2);
    LittleEndianRoundTrip(m.instantaneousPower, 2);
    LittleEndianRoundTrip(m.wheelRevolutions, 4);
    LittleEndianRoundTrip(m.lastWheelEventTime, 2);
    LittleEndianRoundTrip(m.crankRevolutions, 2);
    LittleEndianRoundTrip(m.lastCrankEventTime, 2);
  }

  /** Every 14-byte sequence is the serialization of the record parsed from it. */
  lemma SerializeParse(bytes: seq<u8>)
    requires |bytes| == RecordLength
    ensures Parse(bytes).Some? && Serialize(Parse(bytes).value) == bytes
  {
    FromLittleEndianRoundTrip(bytes[0..2]);
    FromLittleEndianRoundTrip(bytes[2..4]);
    FromLittleEndianRoundTrip(bytes[4..8]);
    FromLittleEndianRoundTrip(bytes[8..10]);
    FromLittleEndianRoundTrip(bytes[10..12]);
    FromLittleEndianRoundTrip(bytes[12..14]);
    assert bytes == bytes[0..2] + bytes[2..4] + bytes[4..8] + bytes[8..10] + bytes[10..12] + bytes[12..14];
  }

  /**
   * What a sample puts in the record: the flags announce wheel and crank
   * data and nothing else; power is clamped to 0x7FFF and otherwise passed
   * through; revolution counts pass through unchanged.
   */
  lemma SampleFields(crankRevs: u16, lastCrankRevTimestampMs: u32, wheelRevs: u32,
                     lastWheelRevTimestampMs: u32, powerWatts: u16)
    ensures var m := FromSample(crankRevs, lastCrankRevTimestampMs, wheelRevs, lastWheelRevTimestampMs, powerWatts);
      && m.flags == 0x30
      && m.flags as bv16 & WheelRevolutionDataPresent != 0
      && m.flags as bv16 & CrankRevolutionDataPresent != 0
      && m.flags as bv16 & AccumulatedEnergyPresent == 0
      && m.instantaneousPower <= MaxPower
      && (powerWatts <= MaxPower ==> m.instantaneousPower == powerWatts)
      && (powerWatts > MaxPower ==> m.instantaneousPower == MaxPower)
      && m.wheelRevolutions == wheelRevs
      && m.crankRevolutions == crankRevs
  {
    assert MeasurementFlags == 0x30;
  }

  /** The wire bytes of a sample's record start with the flags 0x30 0x00. */
  lemma SampleRecordFlagBytes(crankRevs: u16, lastCrankRevTimestampMs: u32, wheelRevs: u32,
                              lastWheelRevTimestampMs: u32, powerWatts: u16)
    ensures var bytes := Serialize(FromSample(crankRevs, lastCrankRevTimestampMs, wheelRevs,
                                              lastWheelRevTimestampMs, powerWatts));
      bytes[0] == 0x30 && bytes[1] == 0x00
  {
    assert MeasurementFlags == 0x30;
  }

  /**
   * Below 2^21 ms (about 35 minutes) the product does not wrap, and the
   * wheel event time is the exact conversion `floor(ms * 2048 / 1000)`
   * taken modulo 2^16.
   */
  lemma WheelEventTimeBeforeWrap(ms: u32)
    requires ms < 0x20_0000
    ensures WheelEventTime(ms) == (ms * 2048 / 1000) % 0x1_0000
  {
    var product := ms * 2048;
    assert product < 0x1_0000_0000;
    assert product % 0x1_0000_0000 == product;
  }

  /** Below 2^22 ms (about 70 minutes) the crank event time is `floor(ms * 1024 / 1000)` modulo 2^16. */
  lemma CrankEventTimeBeforeWrap(ms: u32)
    requires ms < 0x40_0000
    ensures CrankEventTime(ms) == (ms * 1024 / 1000) % 0x1_0000
  {
    var product := ms * 1024;
    assert product < 0x1_0000_0000;
    assert product % 0x1_0000_0000 == product;
  }

  /**
   * At 2^21 ms the 32-bit product wraps to 0, so the wheel event time
   * restarts at 0 where the exact conversion gives 35127; the crank time
   * does the same at 2^22 ms.
   */
  lemma EventTimesAtWrap()
    ensures WheelEventTime(0x20_0000) == 0 && (0x20_0000 * 2048 / 1000) % 0x1_0000 == 35127
    ensures CrankEventTime(0x40_0000) == 0 && (0x40_0000 * 1024 / 1000) % 0x1_0000 == 35127
  {
  }

  /** Worked examples: 40000 W is sent as 0x7FFF; a wheel event at 1290 ms is sent as 2641, the floor of 2641.92. */
  lemma SampleExamples()
    ensures FromSample(0, 0, 5199, 1290, 40000).instantaneousPower == 0x7FFF
    ensures FromSample(0, 0, 5199, 1290, 40000).lastWheelEventTime == 2641
    ensures FromSample(0, 0, 5199, 1290, 40000).wheelRevolutions == 5199
  {
  }
}
