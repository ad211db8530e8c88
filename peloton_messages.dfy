/**
 * Parsing of the serial messages exchanged by the Peloton head unit (HU)
 * and the bike. Every message ends in 0xF6; bike replies carry an ASCII
 * decimal payload, least significant digit first.
 */
module PelotonMessages {
  import opened CTypes

  const Terminator: u8 := 0xF6

  /** First byte of a message from the head unit. */
  const StartupUnknown: u8 := 0xFE
  const ReadResistanceTable: u8 := 0xF7
  const ReadFromBike: u8 := 0xF5

  /** First byte of a reply from the bike. */
  const BikeHeader: u8 := 0xF1

  /** Request codes. Codes 0x00 to 0x1E read the entries of the resistance table. */
  const ReadResistanceTable00: u8 := 0x00
  const ReadResistanceTable1E: u8 := 0x1E
  const Rpm: u8 := 0x41
  const Power: u8 := 0x44
  const Resistance: u8 := 0x4A
  const ResistanceTableResponse: u8 := 0xF7
  const BikeId: u8 := 0xFB
  const UnknownInitRequest: u8 := 0xFE

  const AsciiZero: u8 := 0x30

  /** A message is accepted when its last byte is the terminator; nothing else is checked. */
  predicate MessageIsValid(msg: seq<u8>, len: u8)
    requires 1 <= len as int <= |msg|
  {
    msg[len - 1] == Terminator
  }

  /**
   * Validity depends on the last byte alone: the header, the length and the
   * checksum are not checked, so a message that differs anywhere else is
   * judged the same way, and a lone terminator is a valid message.
   */
  lemma MessageIsValidOnlyTerminator(msg: seq<u8>, len: u8, other: seq<u8>, otherLen: u8)
    requires 1 <= len as int <= |msg| && 1 <= otherLen as int <= |other|
    requires msg[len - 1] == other[otherLen - 1]
    ensures MessageIsValid(msg, len) <==> msg[len - 1] == 0xF6
    ensures MessageIsValid(msg, len) == MessageIsValid(other, otherLen)
    ensures MessageIsValid([Terminator], 1) && !MessageIsValid([Terminator, 0x00], 2)
  {
  }

  datatype HuMessage = HuMessage(packetType: u8, request: u8, isValid: bool)

  predicate IsHuHeader(b: u8)
  {
    b == ReadFromBike || b == ReadResistanceTable || b == StartupUnknown
  }

  /** The bytes `HUMessage` reads exist. */
  predicate HuReadable(huMsg: seq<u8>, len: u8)
  {
    1 <= len as int <= |huMsg| && (MessageIsValid(huMsg, len) && IsHuHeader(huMsg[0]) ==> |huMsg| >= 2)
  }

  /**
   * The head-unit message in `huMsg[..len]`. Fields the firmware leaves
   * unset on an invalid message are 0 here.
   */
  function ParseHuMessage(huMsg: seq<u8>, len: u8): (m: HuMessage)
    requires HuReadable(huMsg, len)
    ensures m.isValid <==> huMsg[len - 1] == Terminator && IsHuHeader(huMsg[0])
    ensures m.isValid ==> m.packetType == huMsg[0] && m.request == huMsg[1]
  {
    if !MessageIsValid(huMsg, len) || !IsHuHeader(huMsg[0]) then HuMessage(0, 0, false)
    else HuMessage(huMsg[0], huMsg[1], true)
  }

  datatype BikeMessage = BikeMessage(request: u8, value: u16, isValid: bool, payloadLength: u16, skipBytes: u16)

  /** Where the header ends: after the 0xF1 byte and the request, or after the request alone. */
  function SkipBytes(msg: seq<u8>): (skip: u8)
    requires |msg| >= 1
  {
    if msg[0] == BikeHeader then 2 else 1
  }

  /** The first index the digit loop reads; the firmware's loop counter is a `uint8_t`, so the sum wraps. */
  function LoopStart(msg: seq<u8>): (start: u8)
    requires |msg| >= 1 && |msg| > SkipBytes(msg) as int
  {
    (SkipBytes(msg) + msg[SkipBytes(msg)]) % 0x100
  }

  /** The bytes the `BikeMessage` constructor reads exist. */
  predicate BikeReadable(msg: seq<u8>, len: u8)
  {
    1 <= len as int <= |msg| &&
    (MessageIsValid(msg, len) && msg[0] != ReadFromBike ==>
       |msg| > SkipBytes(msg) as int &&
       (msg[SkipBytes(msg) - 1] != BikeId ==> LoopStart(msg) as int < |msg|))
  }

  /** The value of an ASCII digit byte; the subtraction wraps in 8 bits. */
  function DigitOf(b: u8): (d: u8)
  {
    (b as int - AsciiZero as int) % 0x100
  }

  /** The digit loop's outcome: the value reached, and whether it ran to the end. */
  datatype Scan = Scan(value: u16, ok: bool)

  /**
   * The digit loop from index `i` down to `skip + 1` with `value` so far.
   * A digit that would take the value past 65535 stops the loop and makes
   * the message invalid; a non-digit byte is used as is, wrapping in 16 bits.
   */
  function ScanFrom(msg: seq<u8>, skip: nat, i: nat, value: u16): (scan: Scan)
    requires i < |msg|
    decreases i
  {
    if i <= skip then Scan(value, true)
    else
      var nextDigit := DigitOf(msg[i]);
      if value > 6553 || (value == 6553 && nextDigit > 5) then Scan(value, false)
      else ScanFrom(msg, skip, i - 1, (value * 10 + nextDigit) % 0x1_0000)
  }

  /** The bike message in `msg[..len]`, as the `BikeMessage` constructor reads it. */
  function BikeMessageOf(msg: seq<u8>, len: u8): (m: BikeMessage)
    requires BikeReadable(msg, len)
  {
    if !MessageIsValid(msg, len) || msg[0] == ReadFromBike then BikeMessage(0, 0, false, 0, 0)
    else
      var skip := SkipBytes(msg);
      var request := msg[skip - 1];
      var payloadLength := msg[skip];
      if request == BikeId then BikeMessage(request, 0, true, payloadLength, skip)
      else
        var scan := ScanFrom(msg, skip, LoopStart(msg), 0);
        BikeMessage(request, scan.value, scan.ok, payloadLength, skip)
  }

  /** The firmware's `BikeMessage` constructor. */
  method ParseBikeMessage(bikeMsg: seq<u8>, len: u8) returns (m: BikeMessage)
    requires BikeReadable(bikeMsg, len)
    ensures m == BikeMessageOf(bikeMsg, len)
  {
    var request: u8 := 0;
    var value: u16 := 0;
    if !MessageIsValid(bikeMsg, len) || bikeMsg[0] == 0xF5 {
      return BikeMessage(request, value, false, 0, 0);
    }
    var payloadLength: u16;
    var skipBytes: u8;
    if bikeMsg[0] == 0xF1 {
      request := bikeMsg[1];
      payloadLength := bikeMsg[2];
      skipBytes := 2;
    } else {
      request := bikeMsg[0];
      payloadLength := bikeMsg[1];
      skipBytes := 1;
    }
    if request == BikeId {
      return BikeMessage(request, 0, true, payloadLength, skipBytes);
    }
    var i: u8 := (skipBytes + payloadLength) % 0x100;
    while i > skipBytes
      invariant i as int < |bikeMsg|
      invariant ScanFrom(bikeMsg, skipBytes as int, i as int, value) == ScanFrom(bikeMsg, skipBytes as int, LoopStart(bikeMsg) as int, 0)
      decreases i
    {
      var nextDigit: u8 := (bikeMsg[i] as int - 0x30) % 0x100;
      if value > 6553 || (value == 6553 && nextDigit > 5) {
        return BikeMessage(request, value, false, payloadLength, skipBytes);
      }
      value := (value * 10 + nextDigit) % 0x1_0000;
      i := i - 1;
    }
    return BikeMessage(request, value, true, payloadLength, skipBytes);
  }

  function Pow10(n: nat): (p: nat)
    ensures p >= 1
  {
    if n == 0 then 1 else 10 * Pow10(n - 1)
  }

  predicate IsDigit(b: u8)
  {
    AsciiZero <= b <= AsciiZero + 9
  }

  /** Reference definition: the number whose digit `k` is `digits[k]`, least significant first. */
  function DecimalValue(digits: seq<u8>): (value: nat)
  {
    if digits == [] then 0
    else DecimalValue(digits[..|digits| - 1]) + DigitOf(digits[|digits| - 1]) * Pow10(|digits| - 1)
  }

  /** Taking the most significant digit into the running value leaves the whole number unchanged. */
  lemma ShiftDigit(value: nat, d: nat, p: nat, q: nat, rest: nat, whole: nat)
    requires q == 10 * p && whole == value * q + (rest + d * p)
    ensures whole == (value * 10 + d) * p + rest
  {
  }

  /** The number the digit loop is building: the value so far followed by the digits still to read. */
  function Whole(msg: seq<u8>, skip: nat, i: nat, value: nat): (whole: nat)
    requires skip <= i < |msg|
  {
    value * Pow10(i - skip) + DecimalValue(msg[skip + 1..i + 1])
  }

  /** Reading digit `i` moves it from the digits still to read into the running value. */
  lemma WholeStep(msg: seq<u8>, skip: nat, i: nat, value: nat)
    requires skip < i < |msg| && IsDigit(msg[i])
    ensures var d := DigitOf(msg[i]) as nat;
      && d <= 9
      && Whole(msg, skip, i, value) == (value * 10 + d) * Pow10(i - skip - 1) + DecimalValue(msg[skip + 1..i])
      && Whole(msg, skip, i - 1, value * 10 + d) == Whole(msg, skip, i, value)
  {
    var d := DigitOf(msg[i]);
    var digits := msg[skip + 1..i + 1];
    var p := Pow10(i - skip - 1);
    var rest := DecimalValue(msg[skip + 1..i]);
    assert digits[..|digits| - 1] == msg[skip + 1..i];
    assert DecimalValue(digits) == rest + d as nat * p;
    ShiftDigit(value, d as nat, p, Pow10(i - skip), rest, Whole(msg, skip, i, value));
  }

  /** A digit that keeps the value within 16 bits is taken in without wrapping. */
  lemma ScanFromStep(msg: seq<u8>, skip: nat, i: nat, value: u16)
    requires skip < i < |msg| && IsDigit(msg[i])
    requires !(value > 6553 || (value == 6553 && DigitOf(msg[i]) > 5))
    ensures value * 10 + DigitOf(msg[i]) < 0x1_0000
    ensures ScanFrom(msg, skip, i, value) == ScanFrom(msg, skip, i - 1, value * 10 + DigitOf(msg[i]))
  {
    var x := value * 10 + DigitOf(msg[i]);
    assert x < 0x1_0000;
    assert x % 0x1_0000 == x;
  }

  lemma {:induction false} ScanFromDecimal(msg: seq<u8>, skip: nat, i: nat, value: u16)
    requires skip <= i < |msg|
    requires forall k :: skip < k <= i ==> IsDigit(msg[k])
    ensures ScanFrom(msg, skip, i, value).ok == (Whole(msg, skip, i, value) <= 0xFFFF)
    ensures Whole(msg, skip, i, value) <= 0xFFFF ==> ScanFrom(msg, skip, i, value).value == Whole(msg, skip, i, value)
    decreases i
  {
    if i > skip {
      var d := DigitOf(msg[i]);
      WholeStep(msg, skip, i, value as nat);
      if value > 6553 || (value == 6553 && d > 5) {
        assert ScanFrom(msg, skip, i, value) == Scan(value, false);
        Grow(value as nat * 10 + d as nat, Pow10(i - skip - 1));
      } else {
        var next: u16 := value * 10 + d;
        ScanFromStep(msg, skip, i, value);
        ScanFromDecimal(msg, skip, i - 1, next);
      }
    } else {
      assert msg[skip + 1..i + 1] == [];
    }
  }

  lemma Grow(x: nat, p: nat)
    requires p >= 1
    ensures x * p >= x
  {
  }

  /** The digits of a bike message: `payloadLength` bytes after the header, least significant first. */
  function Payload(msg: seq<u8>): (payload: seq<u8>)
    requires |msg| >= 1 && |msg| > SkipBytes(msg) as int
    requires SkipBytes(msg) as int + msg[SkipBytes(msg)] < |msg|
  {
    msg[SkipBytes(msg) + 1..SkipBytes(msg) + 1 + msg[SkipBytes(msg)]]
  }

  /**
   * For a terminated message that is not from the head unit and not a bike
   * id, whose payload is ASCII digits and fits the 8-bit loop counter: the
   * message is valid exactly when the decimal number fits in 16 bits, and
   * then its value is that number.
   */
  lemma BikeMessageDecimal(msg: seq<u8>, len: u8)
    requires BikeReadable(msg, len)
    requires MessageIsValid(msg, len) && msg[0] != ReadFromBike
    requires msg[SkipBytes(msg) - 1] != BikeId
    requires SkipBytes(msg) as int + msg[SkipBytes(msg)] < 0x100
    requires forall k :: 0 <= k < |Payload(msg)| ==> IsDigit(Payload(msg)[k])
    ensures var m := BikeMessageOf(msg, len);
      && m.request == msg[SkipBytes(msg) - 1]
      && m.payloadLength == msg[SkipBytes(msg)]
      && (m.isValid <==> DecimalValue(Payload(msg)) <= 0xFFFF)
      && (m.isValid ==> m.value == DecimalValue(Payload(msg)))
  {
    var skip := SkipBytes(msg) as int;
    var start := LoopStart(msg) as int;
    assert start == skip + msg[skip];
    forall k | skip < k <= start
      ensures IsDigit(msg[k])
    {
      assert msg[k] == Payload(msg)[k - skip - 1];
    }
    ScanFromDecimal(msg, skip, start, 0);
    assert Whole(msg, skip, start, 0) == DecimalValue(Payload(msg));
  }

  /** A bike id reply, with or without the 0xF1 header, is valid with value 0 whatever its payload. */
  lemma BikeIdIsValid(msg: seq<u8>, len: u8)
    requires BikeReadable(msg, len)
    requires MessageIsValid(msg, len) && msg[0] != ReadFromBike && msg[SkipBytes(msg) - 1] == BikeId
    ensures BikeMessageOf(msg, len) == BikeMessage(BikeId, 0, true, msg[SkipBytes(msg)], SkipBytes(msg))
  {
  }

  /** Without the terminator, or with a head-unit header, a message is rejected. */
  lemma BikeMessageRejects(msg: seq<u8>, len: u8)
    requires BikeReadable(msg, len)
    requires !MessageIsValid(msg, len) || msg[0] == ReadFromBike
    ensures !BikeMessageOf(msg, len).isValid && BikeMessageOf(msg, len).value == 0
  {
  }
}
