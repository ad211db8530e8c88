/**
 * The Cycling Power service of the Bluetooth module: provisioning of its
 * GATT table and the measurement record sent on each update.
 */
module CyclingPowerService {
  import opened CTypes
  import opened CyclingPowerMeasurement
  import opened GattReference

  const CyclingPowerServiceUuid: u16 := 0x1818
  const CyclingPowerFeatureCharUuid: u16 := 0x2A65
  const CyclingPowerMeasurementCharUuid: u16 := 0x2A63
  const SensorLocationCharUuid: u16 := 0x2A5D

  /** Characteristic property bits (Bluetooth Core, Vol 3, Part G, section 3.3.1.1). */
  const GattCharsPropertiesRead: bv8 := 0x02
  const GattCharsPropertiesNotify: bv8 := 0x10

  const BleDatatypeAuto: u8 := 0

  /** A characteristic as declared to the module, with the id of the service it belongs to. */
  datatype Characteristic = Characteristic(service: u8, uuid: u16, properties: u8, minLen: u8, maxLen: u8, dataType: u8)

  /**
   * The module's GATT table, as far as the firmware sees it: services and
   * characteristics in the order they were added. Ids count from 1, services
   * and characteristics separately, and a characteristic belongs to the most
   * recently added service.
   */
  class GattServer {
    var services: seq<u16>
    var characteristics: seq<Characteristic>

    constructor ()
      ensures services == [] && characteristics == []
    {
      services := [];
      characteristics := [];
    }

    method Clear()
      modifies this
      ensures services == [] && characteristics == []
    {
      services := [];
      characteristics := [];
    }

    method AddService(uuid: u16) returns (id: u8)
      requires |services| < 0xFF
      modifies this
      ensures services == old(services) + [uuid] && characteristics == old(characteristics)
      ensures id as int == |services|
    {
      services := services + [uuid];
      id := |services|;
    }

    method AddCharacteristic(uuid: u16, properties: u8, minLen: u8, maxLen: u8, dataType: u8) returns (id: u8)
      requires 0 < |services| < 0x100 && |characteristics| < 0xFF
      modifies this
      ensures services == old(services)
      ensures characteristics == old(characteristics) + [Characteristic(|services|, uuid, properties, minLen, maxLen, dataType)]
      ensures id as int == |characteristics|
    {
      characteristics := characteristics + [Characteristic(|services|, uuid, properties, minLen, maxLen, dataType)];
      id := |characteristics|;
    }
  }

  /** The three mandatory characteristics, declared for the service with id `service`. */
  function CyclingPowerCharacteristics(service: u8): (chars: seq<Characteristic>)
    ensures |chars| == 3
    ensures forall k :: 0 <= k < 3 ==> chars[k].service == service && chars[k].dataType == BleDatatypeAuto
  {
    [Characteristic(service, CyclingPowerFeatureCharUuid, GattCharsPropertiesRead as int, 4, 4, BleDatatypeAuto),
     Characteristic(service, CyclingPowerMeasurementCharUuid,
                    (GattCharsPropertiesRead | GattCharsPropertiesNotify) as int, 14, 14, BleDatatypeAuto),
     Characteristic(service, SensorLocationCharUuid, GattCharsPropertiesRead as int, 1, 1, BleDatatypeAuto)]
  }

  /**
   * The record always fills the measurement characteristic exactly: the
   * declared minimum and maximum length are both 14, the record's length.
   * The measurement can be read and notified; the others can only be read.
   */
  lemma MeasurementCharacteristicFitsRecord(service: u8, m: Measurement)
    ensures CyclingPowerCharacteristics(service)[1].uuid == CyclingPowerMeasurementCharUuid
    ensures CyclingPowerCharacteristics(service)[1].minLen as int == |Serialize(m)|
    ensures CyclingPowerCharacteristics(service)[1].maxLen as int == |Serialize(m)|
    ensures CyclingPowerCharacteristics(service)[1].properties == 0x12
    ensures CyclingPowerCharacteristics(service)[0].properties == 0x02
    ensures CyclingPowerCharacteristics(service)[2].properties == 0x02
  {
    assert GattCharsPropertiesRead | GattCharsPropertiesNotify == 0x12;
  }

  /**
   * The reference listing does not describe the characteristics as
   * provisioned: for the measurement characteristic it has properties 0x10
   * and lengths 6, where provisioning declares 0x12 and 14; for the feature
   * and sensor-location characteristics the lengths agree.
   */
  lemma ReferenceListingDisagreesOnMeasurement()
    ensures Line3[8..20] == "UUID=0x2A63," && Line3[20..36] == "PROPERTIES=0x10,"
    ensures Line3[36..46] == "MIN_LEN=6," && Line3[46..56] == "MAX_LEN=6,"
    ensures CyclingPowerCharacteristics(1)[1].properties != 0x10
    ensures CyclingPowerCharacteristics(1)[1].minLen != 6 && CyclingPowerCharacteristics(1)[1].maxLen != 6
    ensures Line2[36..46] == "MIN_LEN=4," && CyclingPowerCharacteristics(1)[0].minLen == 4
    ensures Line4[36..46] == "MIN_LEN=1," && CyclingPowerCharacteristics(1)[2].minLen == 1
  {
    MeasurementCharacteristicFitsRecord(1, Measurement(0, 0, 0, 0, 0, 0));
  }

  /**
   * Writes `field` little-endian into `buffer[base..base + size]` and
   * returns the advanced offset, like `memcpy` of a `size`-byte integer.
   */
  method AppendBuffer(buffer: array<u8>, base: nat, field: nat, size: nat) returns (next: nat)
    requires base + size <= buffer.Length && field < Pow256(size)
    modifies buffer
    ensures next == base + size
    ensures buffer[..base] == old(buffer[..base])
    ensures buffer[base..next] == LittleEndian(field, size)
    ensures buffer[next..] == old(buffer[next..])
  {
    var k := 0;
    var rest: nat := field;
    while k < size
      invariant k <= size
      invariant rest < Pow256(size - k)
      invariant buffer[..base] == old(buffer[..base])
      invariant buffer[base + size..] == old(buffer[base + size..])
      invariant buffer[base..base + k] + LittleEndian(rest, size - k) == LittleEndian(field, size)
    {
      ghost var written := buffer[base..base + k];
      LittleEndianStep(rest, size - k);
      buffer[base + k] := rest % 0x100;
      assert buffer[base..base + k + 1] == written + [rest % 0x100];
      rest := rest / 0x100;
      k := k + 1;
    }
    next := base + k;
  }

  /** The firmware's `BLECyclingPower`: the ids it was given for its service and characteristics. */
  class BleCyclingPower {
    const gatt: GattServer
    var cpServiceId: u8
    var cpFeatureId: u8
    var cpMeasurementId: u8
    var cpSensorLocationId: u8

    constructor (gatt: GattServer)
      ensures this.gatt == gatt
    {
      this.gatt := gatt;
    }

    /** The check against the reference listing is switched off: it always reports a mismatch. */
    method GattsAsExpected() returns (expected: bool)
      ensures !expected
    {
      return false;
    }

    /**
     * Since the listing never matches, the module is always reset and the
     * service provisioned afresh: one service, then its three characteristics.
     */
    method LoadOrSetupGatts()
      modifies this, gatt
      ensures gatt.services == [CyclingPowerServiceUuid]
      ensures gatt.characteristics == CyclingPowerCharacteristics(1)
      ensures cpServiceId == 1
      ensures cpFeatureId == 1 && cpMeasurementId == 2 && cpSensorLocationId == 3
    {
      var expected := GattsAsExpected();
      if !expected {
        gatt.Clear();
        SetupCyclingPowerFeature();
      }
    }

    /**
     * Adds the Cycling Power service and its feature, measurement and sensor
     * location characteristics, in that order, and keeps the ids handed out.
     */
    method SetupCyclingPowerFeature()
      requires |gatt.services| < 0xFF && |gatt.characteristics| < 0xFF - 3
      modifies this, gatt
      ensures gatt.services == old(gatt.services) + [CyclingPowerServiceUuid]
      ensures gatt.characteristics == old(gatt.characteristics) + CyclingPowerCharacteristics(cpServiceId)
      ensures cpServiceId as int == |gatt.services|
      ensures cpFeatureId as int == |old(gatt.characteristics)| + 1
      ensures cpMeasurementId == cpFeatureId + 1 && cpSensorLocationId == cpMeasurementId + 1
    {
      cpServiceId := gatt.AddService(CyclingPowerServiceUuid);
      cpFeatureId := gatt.AddCharacteristic(CyclingPowerFeatureCharUuid, GattCharsPropertiesRead as int,
                                            4, 4, BleDatatypeAuto);
      cpMeasurementId := gatt.AddCharacteristic(CyclingPowerMeasurementCharUuid,
                                                (GattCharsPropertiesRead | GattCharsPropertiesNotify) as int,
                                                14, 14, BleDatatypeAuto);
      cpSensorLocationId := gatt.AddCharacteristic(SensorLocationCharUuid, GattCharsPropertiesRead as int,
                                                   1, 1, BleDatatypeAuto);
    }

    /**
     * Builds the measurement record for one sample, field by field into a
     * 14-byte buffer, and returns what is handed to the module: the id of the
     * measurement characteristic and the record's bytes. The total energy
     * argument is accepted and not sent.
     */
    method Update(crankRevs: u16, lastCrankRevTimestampMs: u32, wheelRevs: u32,
                  lastWheelRevTimestampMs: u32, powerWatts: u16, totalEnergyKj: u16)
      returns (characteristicId: u8, record: seq<u8>)
      ensures characteristicId == cpMeasurementId
      ensures record == Serialize(FromSample(crankRevs, lastCrankRevTimestampMs, wheelRevs,
                                             lastWheelRevTimestampMs, powerWatts))
    {
      var data := new u8[14](_ => 0);
      var base: nat := 0;
      var flags: u16 := (CrankRevolutionDataPresent | WheelRevolutionDataPresent) as int;
      base := AppendBuffer(data, base, flags, 2);
      ghost var fields := data[..base];
      var power := powerWatts;
      if power > 0x7FFF {
        power := 0x7FFF;
      }
      base := AppendBuffer(data, base, power, 2);
      fields := fields + data[2..base];
      assert data[..base] == fields;
      base := AppendBuffer(data, base, wheelRevs, 4);
      fields := fields + data[4..base];
      assert data[..base] == fields;
      var lastWheelEventTimeCp: u16 := (lastWheelRevTimestampMs * 2048 % 0x1_0000_0000 / 1000) % 0x1_0000;
      base := AppendBuffer(data, base, lastWheelEventTimeCp, 2);
      fields := fields + data[8..base];
      assert data[..base] == fields;
      base := AppendBuffer(data, base, crankRevs, 2);
      fields := fields + data[10..base];
      assert data[..base] == fields;
      var lastCrankEventTimeCp: u16 := (lastCrankRevTimestampMs * 1024 % 0x1_0000_0000 / 1000) % 0x1_0000;
      base := AppendBuffer(data, base, lastCrankEventTimeCp, 2);
      fields := fields + data[12..base];
      assert data[..base] == fields;
      characteristicId := cpMeasurementId;
      record := data[..base];
      assert MeasurementFlags as int == flags;
    }
  }
}
