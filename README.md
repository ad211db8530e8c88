# PeloMon core in Dafny

PeloMon is Arduino firmware. It reads ride data from a Peloton bike over
the bike's serial link and re-publishes it as a Bluetooth Low Energy
Cycling Power sensor. This project models two byte-level parts of it and
proves their properties.

**GATT catalogue and power record (`BLECyclingGatt.h`).**
- The firmware keeps a Fletcher-style checksum, a reference listing of
  the module's GATT table and a table of the listing's checksums.
- Two line callbacks compare the module's `AT+GATTLIST` reply against
  these references: one by checksum, one by text.
- The firmware provisions one Cycling Power service with three
  characteristics.
- On every update it encodes a 14-byte Cycling Power Measurement record
  (section 3.2 of the Bluetooth Cycling Power Service specification).

**Peloton serial protocol and simulator (`peloton.h`).**
- The terminator check, and the head-unit (HU) and bike message parsers.
- The 15-byte simulated serial port.
- The software simulator. It plays both head unit and bike, and frames
  its messages with an additive checksum and the terminator 0xF6.

Modules, one per file:

- `CTypes` (`ctypes.dfy`): the fixed-width integer types, the 8-bit
  wrapping add, and little-endian encoding with its inverse.
- `Fletcher` (`fletcher.dfy`): the checksum.
  - A functional specification: fold one byte at a time.
  - A closed form: `lo` is the byte sum mod 256; `hi` is the sum of the
    running `lo` values mod 256.
  - The firmware's loop as a method, proved against both.
- `GattReference` (`gatt_reference.dfy`): the reference listing and its
  checksum table. Each table entry is proved to be the checksum of its
  line.
- `Comparator` (`comparator.dfy`): the comparator state.
  - As a value, with `Visit` for one callback and `VisitAll` for a whole
    reply.
  - As the firmware's class `ProgmemComparatorState`, whose two callbacks
    update its fields in place and are proved equal to `Visit`.
- `CyclingPowerMeasurement` (`cycling_power_measurement.dfy`): the record,
  its wire format and its parser.
- `CyclingPowerService` (`cycling_power_service.dfy`): the module's GATT
  table as an id allocator (`GattServer`), and the firmware's
  `BLECyclingPower` class: provisioning order, the ids it keeps, and
  `update` filling its 14-byte buffer field by field.
- `PelotonMessages` (`peloton_messages.dfy`): `message_is_valid`, the
  `HUMessage` parser, and the `BikeMessage` constructor. The constructor
  is a method with its descending digit loop, proved against a
  functional specification and related to the plain decimal value of the
  payload.
- `SimulatedSerialPort` (`simulated_serial.dfy`): the 15-byte buffer class
  with its `len`/`loc` cursors.
- `PelotonSimulation` (`peloton_simulator.dfy`): the simulator.
  - The decoded resistance table and the request schedule.
  - The frames each side sends.
  - `updateState` as methods on the simulator class, proved against a
    pure `Step` on the abstract state.
  - Every bike frame parses back through the `BikeMessage` model with the
    value that was sent.

Facts about the code that the model makes explicit:

- **Event times.** The code scales a millisecond timestamp by 2048/1000
  (1024/1000 for the crank) and keeps 16 bits, but it multiplies in
  32 bits first, so the product wraps at 2^21 ms for the wheel time and
  at 2^22 ms for the crank time. At 2^21 ms the wheel time is 0, where
  exact scaling gives 35127 after the 16-bit cut. `EventTimesAtWrap`
  proves this; below the wrap the two agree (`WheelEventTimeBeforeWrap`).
- **Truncation.** Exact scaling of a wheel event at 1290 ms gives
  2641.92; the code truncates to 2641 (`SampleExamples`).
- **Measurement line of the listing.** The reference line for the
  measurement characteristic 0x2A63 says `PROPERTIES=0x10`, `MIN_LEN=6`
  and `MAX_LEN=6`. Provisioning declares properties 0x12 and lengths 14.
  The model keeps both as written (`ReferenceListingDisagreesOnMeasurement`).
- **The two comparators do not accept the same listings.** The checksum
  comparator accepts every reply the text comparator accepts
  (`TextVerdictImpliesChecksumVerdict`), but not the other way round: the
  one-line reply `[0x01, 'M', 'L']` has the checksum of `"OK"` (0xE99A),
  so it passes the checksum comparator and fails the text comparator
  (`ChecksumVerdictWeakerThanText`).

## Model

| member | source | states |
|---|---|---|
| Fletcher.Fletcher16 | pelomon/BLECyclingGatt.h:24-35 | the loop returns `hi * 256 + lo` of the byte-by-byte fold over the first `len` bytes; its low byte is the byte sum mod 256 and its high byte the sum of the running low bytes mod 256 |
| Fletcher.ChecksumClosedForm | pelomon/BLECyclingGatt.h:27-33 | for every input, checksum mod 256 is the byte sum mod 256, and checksum div 256 is the sum of all prefix sums mod 256 (both accumulators wrap at 256, not 255) |
| Fletcher.AbsorbFromPrefix | pelomon/BLECyclingGatt.h:27-30 | folding from any position gives the closed-form sums of the prefix read so far, continued with the rest |
| Fletcher.EmptyChecksum | pelomon/BLECyclingGatt.h:24-35 | the empty input has checksum 0 |
| Fletcher.OrderSensitive | pelomon/BLECyclingGatt.h:27-30 | "ab" and "ba" have different checksums (0x24C3 and 0x25C3) |
| Fletcher.Collision | pelomon/BLECyclingGatt.h:24-35 | the bytes 0x01 'M' 'L' have the same checksum as "OK", 0xE99A |
| GattReference.ChecksumTableMatchesListing | pelomon/BLECyclingGatt.h:38-63 | the checksum table has one entry per reference line, and entry k is the checksum of line k (0xAC45, 0x389C, 0x228F, 0x39A6, 0xE99A) |
| Comparator.StrnLen | pelomon/BLECyclingGatt.h:104 | `strnlen` is at most the limit and the length, counts only non-NUL bytes, and stops at a NUL when it stops early |
| Comparator.Visit | pelomon/BLECyclingGatt.h:74-93 | one callback keeps the state well formed and never changes the table or `total_lines` |
| Comparator.VisitAll | pelomon/BLECyclingGatt.h:74-129 | a run of callbacks keeps the state well formed and never changes the table or `total_lines` |
| Comparator.VisitAllIgnoresSurplus | pelomon/BLECyclingGatt.h:76 | once `line_number >= total_lines`, any further lines leave the whole state unchanged |
| Comparator.VisitAllCounts | pelomon/BLECyclingGatt.h:76-86 | `line_number` grows by exactly the number of compared lines and never exceeds `total_lines` |
| Comparator.VisitAllVerdict | pelomon/BLECyclingGatt.h:83-85 | the final `is_equal` holds if and only if it held on entry and every compared line matched its table entry |
| Comparator.VisitAllKeepsMismatch | pelomon/BLECyclingGatt.h:85 | once `is_equal` is false it stays false |
| Comparator.TextLineMatchesIffEqual | pelomon/BLECyclingGatt.h:104-122 | for a NUL-free reference, the text test accepts a line of fewer than 65535 bytes if and only if it equals the reference; a line of 65535 bytes is never accepted, because `line_len + 1` wraps to 0 |
| Comparator.StrnLenOfNulFree | pelomon/BLECyclingGatt.h:104 | on a NUL-free string `strnlen` is the smaller of the limit and the length |
| Comparator.StrnEqualSameLength | pelomon/BLECyclingGatt.h:105 | for equal lengths and a NUL-free reference, `strncmp` over the whole length is 0 if and only if the strings are equal |
| Comparator.ChecksumsOf | pelomon/BLECyclingGatt.h:57-63 | the checksum table of a list of references has one entry per reference, each its checksum |
| Comparator.TextVerdictImpliesChecksumVerdict | pelomon/BLECyclingGatt.h:74-129 | whenever the text comparator reports a reply equal, the checksum comparator over the same references does too |
| Comparator.ChecksumVerdictWeakerThanText | pelomon/BLECyclingGatt.h:74-129 | the reply `[0x01,'M','L']` against "OK" passes the checksum comparator and fails the text comparator |
| Comparator.ReferenceListingAccepted | pelomon/BLECyclingGatt.h:38-64 | the reference listing itself, as a reply, passes both comparators |
| Comparator.ProgmemComparatorState.constructor | pelomon/BLECyclingGatt.h:216-220 | a comparison starts equal, at line 0, with the given line count and table |
| Comparator.ProgmemComparatorState.Fletcher16ComparatorCallback | pelomon/BLECyclingGatt.h:74-93 | the in-place update equals `Visit` of the old state on `linebuf[..line_len]` with a checksum table |
| Comparator.ProgmemComparatorState.StringComparatorCallback | pelomon/BLECyclingGatt.h:95-129 | the in-place update equals `Visit` of the old state on `linebuf[..line_len]` with a table of strings |
| CTypes.LittleEndianRoundTrip | pelomon/BLECyclingGatt.h:19-21 | decoding the little-endian bytes of a value that fits the width gives the value back |
| CTypes.FromLittleEndianRoundTrip | pelomon/BLECyclingGatt.h:19-21 | encoding the decoded value of any byte string at its width gives the bytes back |
| CyclingPowerMeasurement.Serialize | pelomon/BLECyclingGatt.h:349-372 | a record is always 14 bytes |
| CyclingPowerMeasurement.ParseSerialize | pelomon/BLECyclingGatt.h:349-372 | parsing a serialized record returns every field unchanged |
| CyclingPowerMeasurement.SerializeParse | pelomon/BLECyclingGatt.h:349-372 | a 14-byte string that parses serializes back to the same bytes |
| CyclingPowerMeasurement.SampleFields | pelomon/BLECyclingGatt.h:327-367 | flags are 0x30: wheel and crank data present, no energy bit; power above 0x7FFF becomes 0x7FFF and is otherwise passed through; revolution counts pass through |
| CyclingPowerMeasurement.SampleRecordFlagBytes | pelomon/BLECyclingGatt.h:327-349 | the record starts with the bytes 0x30 0x00 |
| CyclingPowerMeasurement.WheelEventTimeBeforeWrap | pelomon/BLECyclingGatt.h:361-362 | below 2^21 ms the wheel event time is `floor(ms * 2048 / 1000)` mod 2^16 |
| CyclingPowerMeasurement.CrankEventTimeBeforeWrap | pelomon/BLECyclingGatt.h:370-371 | below 2^22 ms the crank event time is `floor(ms * 1024 / 1000)` mod 2^16 |
| CyclingPowerMeasurement.EventTimesAtWrap | pelomon/BLECyclingGatt.h:361-371 | at 2^21 ms and at 2^22 ms the 32-bit product wraps and the event times are 0, where the exact conversion gives 35127 |
| CyclingPowerMeasurement.SampleExamples | pelomon/BLECyclingGatt.h:353-362 | 40000 W is sent as 0x7FFF; a wheel event at 1290 ms is sent as 2641; 5199 wheel revolutions pass through |
| CyclingPowerService.GattServer.Clear | pelomon/BLECyclingGatt.h:242 | the module afterwards holds no services and no characteristics |
| CyclingPowerService.GattServer.AddService | pelomon/BLECyclingGatt.h:279 | the service is appended and its id is the new number of services |
| CyclingPowerService.GattServer.AddCharacteristic | pelomon/BLECyclingGatt.h:283-309 | the characteristic is appended under the latest service and its id is the new number of characteristics |
| CyclingPowerService.CyclingPowerCharacteristics | pelomon/BLECyclingGatt.h:281-310 | three characteristics, all in the given service, all with the automatic data type |
| CyclingPowerService.MeasurementCharacteristicFitsRecord | pelomon/BLECyclingGatt.h:292-298 | the measurement characteristic declares minimum and maximum length equal to the record's 14 bytes, with properties read and notify (0x12); the other two are read-only |
| CyclingPowerService.ReferenceListingDisagreesOnMeasurement | pelomon/BLECyclingGatt.h:40 | the listing's 0x2A63 line says properties 0x10 and lengths 6, which provisioning does not declare; the feature and sensor-location lengths agree |
| CyclingPowerService.AppendBuffer | pelomon/BLECyclingGatt.h:19-21 | writes the field little-endian at `base`, leaves the rest of the buffer unchanged, and advances `base` by the field's size |
| CyclingPowerService.BleCyclingPower.GattsAsExpected | pelomon/BLECyclingGatt.h:210-211 | always reports a mismatch |
| CyclingPowerService.BleCyclingPower.LoadOrSetupGatts | pelomon/BLECyclingGatt.h:235-243 | always clears the table and provisions afresh: one Cycling Power service (id 1), then the feature, measurement and sensor-location characteristics (ids 1, 2, 3) |
| CyclingPowerService.BleCyclingPower.SetupCyclingPowerFeature | pelomon/BLECyclingGatt.h:278-311 | appends the service, then the three characteristics in order, and keeps the ids it is handed |
| CyclingPowerService.BleCyclingPower.Update | pelomon/BLECyclingGatt.h:313-382 | the bytes handed to the measurement characteristic are exactly the serialized record of the sample |
| PelotonMessages.ParseHuMessage | pelomon/peloton.h:145-154 | valid if and only if the last byte is 0xF6 and the first is 0xF5, 0xF7 or 0xFE; when valid, `packet_type` and `request` are the first two bytes |
| PelotonMessages.ParseBikeMessage | pelomon/peloton.h:94-134 | the constructor, descending digit loop and overflow guard included, produces exactly `BikeMessageOf` |
| PelotonMessages.ScanFromDecimal | pelomon/peloton.h:122-131 | over ASCII digits the loop succeeds if and only if the number built so far followed by the remaining digits fits in 16 bits, and then yields that number |
| PelotonMessages.BikeMessageDecimal | pelomon/peloton.h:102-132 | for a terminated, non-HU, non-id message with a digit payload: request and payload length come from the header, and the message is valid if and only if the payload's decimal value (least significant digit first) is at most 65535, with that value |
| PelotonMessages.MessageIsValidOnlyTerminator | pelomon/peloton.h:15-54 | a message of length `1 <= len` is valid iff `msg[len-1] == 0xF6`; header, length and checksum are not checked, so two messages with the same last byte are judged alike |
| PelotonMessages.BikeIdIsValid | pelomon/peloton.h:102-121 | a terminated reply that does not start with 0xF5 and whose request byte (after 0xF1, or first when there is no 0xF1 header) is BIKE_ID parses as valid with value 0, that payload length and that header size |
| PelotonMessages.BikeMessageRejects | pelomon/peloton.h:102-105 | a message without the terminator, or with the HU header 0xF5, is invalid with value 0 |
| SimulatedSerialPort.SimulatedSerial.Begin | pelomon/peloton.h:166-169 | the port has nothing left to read |
| SimulatedSerialPort.SimulatedSerial.Available | pelomon/peloton.h:171-174 | the number of unread bytes, 0 exactly when there are none |
| SimulatedSerialPort.SimulatedSerial.Read | pelomon/peloton.h:175-178 | 0xFF with nothing changed when empty; otherwise the first unread byte, which is consumed |
| SimulatedSerialPort.SimulatedSerial.Push | pelomon/peloton.h:179-184 | the unread bytes become the first `min(nbytes, 15)` bytes of the message |
| PelotonSimulation.LutFacts | pelomon/peloton.h:189-193 | the table has 31 deltas, all positive, whose sums run from 164 to 967 |
| PelotonSimulation.ResistanceCurve | pelomon/peloton.h:264-268 | the decoded resistance rises strictly with the table entry, from at least 164 to at most 967 |
| PelotonSimulation.DecodeResistance | pelomon/peloton.h:264-268 | the 16-bit accumulation loop returns the sum of the deltas up to and including the entry |
| PelotonSimulation.NextRequest | pelomon/peloton.h:254-305 | the request after any known request is again a known request |
| PelotonSimulation.ScheduleFromStartup | pelomon/peloton.h:254-305 | from start-up the bike answers the id request, then table entries 0x00 to 0x1E in order, then RPM, POWER, RESISTANCE repeating for ever |
| PelotonSimulation.ScheduleSplit | pelomon/peloton.h:254-305 | a schedule of `a + b` answers is `b` answers after `a` answers |
| PelotonSimulation.HuFrameParses | pelomon/peloton.h:223-236 | an HU query is 4 bytes, with byte 2 the mod-256 sum of bytes 0 and 1 and byte 3 = 0xF6; it carries the right packet type and request and parses as a valid HU message |
| PelotonSimulation.FrameWellFormed | pelomon/peloton.h:306-311 | a bike frame is `msg[2] + 5 <= 15` bytes; `msg[msg[2]+3]` is the mod-256 sum of the bytes before it and `msg[msg[2]+4] == 0xF6` |
| PelotonSimulation.FrameParses | pelomon/peloton.h:94-134 | a frame with a digit payload that fits 16 bits parses back as a valid bike message with its code and the payload's decimal value |
| PelotonSimulation.BikeFrameParses | pelomon/peloton.h:254-311 | every bike answer parses back as valid, with its response code and the value sent: 0 for start-up and id, the decoded table entry, the rpm, the power in tenths of a watt, or 4560 |
| PelotonSimulation.BikePayloadValue | pelomon/peloton.h:254-305 | every answer payload but the id is ASCII digits whose decimal value is the answer's value |
| PelotonSimulation.StepGuarantees | pelomon/peloton.h:205-330 | a step replaces a port's bytes only when it had none left, and then with a well-formed frame for the awaited request; the request moves only when the bike answers; an RPM, POWER or RESISTANCE query is sent only once 500 ms have passed |
| PelotonSimulation.FrameChecksum | pelomon/peloton.h:307-308 | the loop returns the mod-256 sum of the first `n` bytes |
| PelotonSimulation.WriteHuQuery | pelomon/peloton.h:223-236 | the first four bytes of the buffer are the HU query for the request |
| PelotonSimulation.WriteBikeAnswer | pelomon/peloton.h:251-305 | the buffer starts with 0xF1, the response code, the payload length and the payload, and the next request is the successor of the current one |
| PelotonSimulation.WriteZeroAnswer | pelomon/peloton.h:254-261 | the start-up answer has payload length 3 and the id answer payload length 7, all ASCII zeros, and the next request is the id request or table entry 0x00 respectively |
| PelotonSimulation.WriteResistanceAnswer | pelomon/peloton.h:262-279 | a table-entry answer is sent under code 0xF7 with payload length 4: the decoded resistance's three digits, least significant first, then a zero; the next request is the following entry, or RPM after entry 0x1E |
| PelotonSimulation.WriteRideAnswer | pelomon/peloton.h:280-305 | the RPM, POWER and RESISTANCE answers are written under their own code with their payloads, and the next request follows RPM, POWER, RESISTANCE, RPM |
| PelotonSimulation.WriteRpmAnswer | pelomon/peloton.h:280-286 | the cadence answer has payload length 3 and carries 75 plus the clock's last decimal digit, least significant digit first |
| PelotonSimulation.WritePowerAnswer | pelomon/peloton.h:287-296 | the power answer has payload length 5: the digits of 150 plus the clock's last decimal digit, least significant first, between two zero digits |
| PelotonSimulation.WriteResistanceReading | pelomon/peloton.h:297-304 | the resistance answer has payload length 4, carries the fixed reading 0x30 0x36 0x35 0x34, and does not depend on the clock |
| PelotonSimulation.WriteBikeFrame | pelomon/peloton.h:251-310 | the buffer's first `n <= 15` bytes are exactly the bike's frame for the request (body, mod-256 checksum, 0xF6), and the next request is the successor of the current one |
| PelotonSimulation.PelotonSimulator.HeadUnitTurn | pelomon/peloton.h:209-245 | the head unit's half of an update changes the port, request and timestamp exactly as `Step` does |
| PelotonSimulation.PelotonSimulator.BikeTurn | pelomon/peloton.h:246-311 | the bike's half of an update changes the port and request exactly as `Step` does |
| PelotonSimulation.PelotonSimulator.constructor | pelomon/peloton.h:201-203 | both ports empty, awaiting the start-up request, timestamp 0 |
| PelotonSimulation.PelotonSimulator.UpdateState | pelomon/peloton.h:205-330 | the in-place update of the ports, request and timestamp equals `Step` of the old state |

## Left out

- The Bluetooth transport is not modelled. This covers AT commands,
  `factoryReset`, `reset`, `atcommandStrReplyPerLine`, advertising and the
  device name in `initialize`. These are foreign calls into a library
  that is not part of this model.
- `atcommandStrReplyPerLine` is not modelled. It splits the reply into
  lines and calls the comparator once per line; the model takes the lines
  as a sequence. The line buffer is assumed to hold the line followed by
  a NUL, which the model encodes by reading past the line as NUL.
- `gatt_.setChar` is not modelled, and neither is its success result:
  `BleCyclingPower.Update` returns the characteristic id and the bytes it
  would be handed.
- The feature, sensor-location and control-point writes after
  provisioning are not modelled, because they are `setChar` calls.
- The module's own id allocation is assumed: `GattServer` hands out
  consecutive ids from 1, and a full table, where the module would fail,
  is excluded by the preconditions.
- The commented-out EEPROM persistence and the empty
  `handle_sc_control_point` are not modelled, because neither does
  anything.
- Logging, `Serial` output and the simulator's `if (0)` trace blocks are
  not modelled, because they are output only.
- `PelotonProxy`, `SoftwareSerial` and pin switching are not modelled,
  because they are hardware I/O.
- `millis()` is a parameter (`currentTime`), and PROGMEM tables are
  constant sequences.
- `SimulatedSerial::listen` is not modelled. It calls `updateState` with
  the port's id, which the model passes directly as `bikeListening`.
- `RideStatus.h` is not part of this model. It holds the float speed and
  energy numerics.
- `BikeMessage::encode` is not modelled, because it is an empty stub.
- `BleCyclingPower.Update`: `total_energy_kj` is accepted and not sent,
  as in the code.
- `PelotonMessages.ParseBikeMessage`: on the error paths the firmware
  leaves `payload_length` and `skip_bytes` unset, and `ParseHuMessage`
  leaves `packet_type` and `request` unset. The model sets them to 0.
- `SimulatedSerialPort.SimulatedSerial.constructor`: the firmware does not
  initialise `len` and `loc` in the constructor (only `begin` does); the
  model starts the port empty.
- `PelotonSimulation.PelotonSimulator.UpdateState` requires the awaited
  request to be one the simulator knows. That always holds from start-up,
  because every step keeps it; for any other value the firmware would
  send an uninitialised payload length.
