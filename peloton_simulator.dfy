/**
 * The software Peloton: it plays head unit and bike over two simulated
 * serial ports, stepping through the start-up exchange, the resistance
 * table and then a repeating cycle of cadence, power and resistance.
 */
module PelotonSimulation {
  import opened CTypes
  import opened PelotonMessages
  import opened SimulatedSerialPort

  /** Minimum time between two head-unit queries once the ride data cycle has begun. */
  const SimulatorMessageIntervalMillis: u32 := 500

  /** Resistance table, each entry stored as its increase over the one before. */
  const ResistanceLutDeltaEncoded: seq<u8> :=
    [164,  5, 17, 36, 75, 72, 71, 57] +
    [ 61, 51, 44, 34, 39, 31, 26, 20] +
    [ 24, 18, 16, 13, 15, 12, 10, 10] +
    [  9,  8,  6,  8,  6,  5,  4]

  /** The sum of the first `n` deltas. */
  function PrefixSum(deltas: seq<u8>, n: nat): (sum: nat)
    requires n <= |deltas|
  {
    if n == 0 then 0 else PrefixSum(deltas, n - 1) + deltas[n - 1]
  }

  /** The decoded table: 31 entries, every delta positive, summing to 967. */
  lemma LutFacts(deltas: seq<u8>)
    requires deltas == ResistanceLutDeltaEncoded
    ensures |deltas| == 31
    ensures forall i :: 0 <= i < |deltas| ==> deltas[i] > 0
    ensures PrefixSum(deltas, 1) == 164 && PrefixSum(deltas, 31) == 967
  {
    assert PrefixSum(deltas, 1) == 164;
    assert PrefixSum(deltas, 2) == 169;
    assert PrefixSum(deltas, 3) == 186;
    assert PrefixSum(deltas, 4) == 222;
    assert PrefixSum(deltas, 5) == 297;
    assert PrefixSum(deltas, 6) == 369;
    assert PrefixSum(deltas, 7) == 440;
    assert PrefixSum(deltas, 8) == 497;
    assert PrefixSum(deltas, 9) == 558;
    assert PrefixSum(deltas, 10) == 609;
    assert PrefixSum(deltas, 11) == 653;
    assert PrefixSum(deltas, 12) == 687;
    assert PrefixSum(deltas, 13) == 726;
    assert PrefixSum(deltas, 14) == 757;
    assert PrefixSum(deltas, 15) == 783;
    assert PrefixSum(deltas, 16) == 803;
    assert PrefixSum(deltas, 17) == 827;
    assert PrefixSum(deltas, 18) == 845;
    assert PrefixSum(deltas, 19) == 861;
    assert PrefixSum(deltas, 20) == 874;
    assert PrefixSum(deltas, 21) == 889;
    assert PrefixSum(deltas, 22) == 901;
    assert PrefixSum(deltas, 23) == 911;
    assert PrefixSum(deltas, 24) == 921;
    assert PrefixSum(deltas, 25) == 930;
    assert PrefixSum(deltas, 26) == 938;
    assert PrefixSum(deltas, 27) == 944;
    assert PrefixSum(deltas, 28) == 952;
    assert PrefixSum(deltas, 29) == 958;
    assert PrefixSum(deltas, 30) == 963;
    assert PrefixSum(deltas, 31) == 967;
  }

  lemma {:induction false} PrefixSumIncreasing(deltas: seq<u8>, j: nat, k: nat)
    requires j < k <= |deltas|
    requires forall i :: 0 <= i < |deltas| ==> deltas[i] > 0
    ensures PrefixSum(deltas, j) < PrefixSum(deltas, k)
    decreases k - j
  {
    assert deltas[k - 1] > 0;
    if j < k - 1 {
      PrefixSumIncreasing(deltas, j, k - 1);
    }
  }

  /** The resistance reported for table entry `request`: the deltas up to and including it, summed. */
  function ResistanceAt(request: u8): (resistance: nat)
    requires request <= ReadResistanceTable1E
  {
    PrefixSum(ResistanceLutDeltaEncoded, request as int + 1)
  }

  /**
   * The decoded table starts at 164, rises strictly with the entry, and
   * ends at 967, so every entry has three decimal digits.
   */
  lemma ResistanceCurve(j: u8, k: u8)
    requires j < k <= ReadResistanceTable1E
    ensures 164 <= ResistanceAt(j) < ResistanceAt(k) <= 967
  {
    var deltas := ResistanceLutDeltaEncoded;
    LutFacts(deltas);
    PrefixSumIncreasing(deltas, j as int + 1, k as int + 1);
    ResistanceBounds(j);
    ResistanceBounds(k);
  }

  lemma ResistanceBounds(request: u8)
    requires request <= ReadResistanceTable1E
    ensures 164 <= ResistanceAt(request) <= 967
  {
    var deltas := ResistanceLutDeltaEncoded;
    LutFacts(deltas);
    if request < ReadResistanceTable1E {
      PrefixSumIncreasing(deltas, request as int + 1, 31);
    }
    if request > 0 {
      PrefixSumIncreasing(deltas, 1, request as int + 1);
    }
  }

  /** The requests the simulator can be waiting to exchange. */
  predicate KnownRequest(r: u8)
  {
    r <= ReadResistanceTable1E || r == Rpm || r == Power || r == Resistance || r == BikeId || r == UnknownInitRequest
  }

  /** The ride data requests, which the head unit sends at most once per interval. */
  predicate IsPolled(r: u8)
  {
    r == Rpm || r == Power || r == Resistance
  }

  /** The request that follows `r` once the bike has answered it. */
  function NextRequest(r: u8): (next: u8)
    requires KnownRequest(r)
    ensures KnownRequest(next)
  {
    if r == UnknownInitRequest then BikeId
    else if r == BikeId then ReadResistanceTable00
    else if r <= ReadResistanceTable1E then (if r == ReadResistanceTable1E then Rpm else r + 1)
    else if r == Rpm then Power
    else if r == Power then Resistance
    else Rpm
  }

  /** The request waited on after `n` bike answers, starting from `r`. */
  function Schedule(r: u8, n: nat): (next: u8)
    requires KnownRequest(r)
    ensures KnownRequest(next)
    decreases n
  {
    if n == 0 then r else Schedule(NextRequest(r), n - 1)
  }

  /** The ride data cycle: cadence, power, resistance, cadence, ... */
  function RideCycle(n: nat): (r: u8)
  {
    if n % 3 == 0 then Rpm else if n % 3 == 1 then Power else Resistance
  }

  lemma {:induction false} ScheduleRideCycle(n: nat, m: nat)
    ensures Schedule(RideCycle(m), n) == RideCycle(m + n)
    decreases n
  {
    if n > 0 {
      assert NextRequest(RideCycle(m)) == RideCycle(m + 1);
      ScheduleRideCycle(n - 1, m + 1);
    }
  }

  lemma {:induction false} ScheduleTable(n: nat, k: nat)
    requires k <= 30 && k + n <= 31
    ensures Schedule(k as u8, n) == if k + n <= 30 then (k + n) as u8 else Rpm
    decreases n
  {
    if n > 0 {
      if k < 30 {
        ScheduleTable(n - 1, k + 1);
      } else {
        assert n == 1;
      }
    }
  }

  /**
   * From start-up the bike is asked for its id, then for the 31 resistance
   * table entries in order, and then cycles through cadence, power and
   * resistance for ever.
   */
  lemma ScheduleFromStartup(n: nat)
    ensures Schedule(UnknownInitRequest, n) ==
      if n == 0 then UnknownInitRequest
      else if n == 1 then BikeId
      else if n <= 32 then (n - 2) as u8
      else RideCycle(n - 33)
  {
    if n >= 2 {
      StartupPrefix(n);
      if n <= 33 {
        ScheduleTable(n - 2, 0);
      } else {
        ScheduleAfterTable(n - 2);
      }
    }
  }

  /** The first two answers are the unknown initial request and the bike id. */
  lemma StartupPrefix(n: nat)
    requires n >= 2
    ensures Schedule(UnknownInitRequest, n) == Schedule(ReadResistanceTable00, n - 2)
  {
    assert Schedule(UnknownInitRequest, n) == Schedule(BikeId, n - 1);
  }

  /** Once the 31 table entries are read, the ride cycle starts at cadence. */
  lemma ScheduleAfterTable(m: nat)
    requires m >= 31
    ensures Schedule(ReadResistanceTable00, m) == RideCycle(m - 31)
  {
    ScheduleThroughTable(0, m - 31);
    assert RideCycle(0) == Rpm;
    ScheduleRideCycle(m - 31, 0);
  }

  /** From table entry `k`, the entries left are read and then cadence is requested. */
  lemma {:induction false} ScheduleThroughTable(k: nat, b: nat)
    requires k <= 30
    ensures Schedule(k as u8, 31 - k + b) == Schedule(Rpm, b)
    decreases 30 - k
  {
    if k < 30 {
      ScheduleThroughTable(k + 1, b);
    }
  }

  lemma {:induction false} ScheduleSplit(r: u8, a: nat, b: nat)
    requires KnownRequest(r)
    ensures Schedule(r, a + b) == Schedule(Schedule(r, a), b)
    decreases a
  {
    if a > 0 {
      ScheduleSplit(NextRequest(r), a - 1, b);
    }
  }

  /** The 8-bit additive checksum of a frame's leading bytes. */
  function Sum8(s: seq<u8>): (sum: u8)
  {
    if s == [] then 0 else AddU8(Sum8(s[..|s| - 1]), s[|s| - 1])
  }

  /** The head unit's query for request `r`. */
  function HuFrame(r: u8): (frame: seq<u8>)
  {
    var header: seq<u8> :=
      if r == UnknownInitRequest then [StartupUnknown, 0x00]
      else if r <= ReadResistanceTable1E then [ReadResistanceTable, r]
      else [ReadFromBike, r];
    header + [AddU8(header[0], header[1]), Terminator]
  }

  /** The code the bike answers under: the request itself, or 0xF7 for a table entry. */
  function ResponseCode(r: u8): (code: u8)
  {
    if r <= ReadResistanceTable1E then ResistanceTableResponse else r
  }

  /** The ASCII digit for `d`. */
  function Ascii(d: nat): (b: u8)
    requires d <= 9
  {
    AsciiZero + d
  }

  /** The bike's answer payload for request `r` at time `currentTime` (ms), least significant digit first. */
  function BikePayload(r: u8, currentTime: u32): (payload: seq<u8>)
    requires KnownRequest(r)
  {
    if r == UnknownInitRequest then [AsciiZero, AsciiZero, AsciiZero]
    else if r == BikeId then [AsciiZero, AsciiZero, AsciiZero, AsciiZero, AsciiZero, AsciiZero, AsciiZero]
    else if r <= ReadResistanceTable1E then
      ResistanceBounds(r);
      var resistance := ResistanceAt(r);
      [Ascii(resistance % 10), Ascii((resistance / 10) % 10), Ascii(resistance / 100), AsciiZero]
    else if r == Rpm then
      var rpm := 75 + currentTime % 10;
      [Ascii(rpm % 10), Ascii(rpm / 10), AsciiZero]
    else if r == Power then
      var powerMillis := 150 + currentTime % 10;
      [AsciiZero, Ascii(powerMillis % 10), Ascii((powerMillis / 10) % 10), Ascii(powerMillis / 100), AsciiZero]
    else [AsciiZero, 0x36, 0x35, 0x34]
  }

  /** A bike frame: header, code, payload length, payload, checksum, terminator. */
  function Frame(code: u8, payload: seq<u8>): (frame: seq<u8>)
    requires |payload| <= 10
  {
    var body := [BikeHeader, code, |payload|] + payload;
    body + [Sum8(body), Terminator]
  }

  /** The bike's answer to request `r` at time `currentTime`. */
  function BikeFrame(r: u8, currentTime: u32): (frame: seq<u8>)
    requires KnownRequest(r)
  {
    Frame(ResponseCode(r), BikePayload(r, currentTime))
  }

  /** The value the bike's answer to `r` carries. */
  function AnswerValue(r: u8, currentTime: u32): (value: nat)
    requires KnownRequest(r)
  {
    if r == UnknownInitRequest || r == BikeId then 0
    else if r <= ReadResistanceTable1E then ResistanceAt(r)
    else if r == Rpm then 75 + currentTime % 10
    else if r == Power then 10 * (150 + currentTime % 10)
    else 4560
  }

  /**
   * The checksum rule of the message format: the byte before the
   * terminator is the 8-bit sum of all bytes before it.
   */
  predicate ChecksumHolds(msg: seq<u8>)
  {
    |msg| >= 2 && msg[|msg| - 2] == Sum8(msg[..|msg| - 2]) && msg[|msg| - 1] == Terminator
  }

  /**
   * A head-unit query is four bytes with the sum of the first two and the
   * terminator; it parses as a valid head-unit message with the query's
   * packet type and request.
   */
  lemma HuFrameParses(r: u8)
    ensures var f := HuFrame(r);
      && |f| == 4 && f[2] == (f[0] as int + f[1] as int) % 0x100 && f[3] == Terminator
      && ChecksumHolds(f)
      && ParseHuMessage(f, 4) == HuMessage(f[0], f[1], true)
      && f[0] == (if r == UnknownInitRequest then StartupUnknown
                  else if r <= ReadResistanceTable1E then ReadResistanceTable else ReadFromBike)
      && f[1] == (if r == UnknownInitRequest then 0 else r)
  {
    var f := HuFrame(r);
    assert f[..2] == [f[0]] + [f[1]];
    assert Sum8(f[..2]) == AddU8(Sum8([f[0]]), f[1]) by {
      assert f[..2][..1] == [f[0]];
    }
    assert Sum8([f[0]]) == f[0] by {
      assert [f[0]][..0] == [];
    }
  }

  /** A frame is at most 15 bytes, its third byte gives the payload length, and it ends with the checksum and the terminator. */
  lemma FrameWellFormed(code: u8, payload: seq<u8>)
    requires |payload| <= 10
    ensures var f := Frame(code, payload);
      && |f| == f[2] + 5 <= BufferSize
      && f[0] == BikeHeader && f[1] == code && f[3..3 + f[2]] == payload
      && f[f[2] + 3] == Sum8(f[..f[2] + 3]) && f[f[2] + 4] == Terminator
      && ChecksumHolds(f)
  {
    var f := Frame(code, payload);
    assert f[..f[2] + 3] == [BikeHeader, code, |payload|] + payload;
  }

  /** A frame with a digit payload parses back with its code and the payload's decimal value. */
  lemma FrameParses(code: u8, payload: seq<u8>)
    requires |payload| <= 10 && code != BikeId
    requires forall k :: 0 <= k < |payload| ==> IsDigit(payload[k])
    requires DecimalValue(payload) <= 0xFFFF
    ensures var f := Frame(code, payload);
      && BikeReadable(f, |f|)
      && BikeMessageOf(f, |f|) == BikeMessage(code, DecimalValue(payload), true, |payload|, 2)
  {
    var f := Frame(code, payload);
    FrameWellFormed(code, payload);
    assert SkipBytes(f) == 2 && LoopStart(f) as int == 2 + |payload|;
    assert Payload(f) == payload;
    BikeMessageDecimal(f, |f|);
  }

  /** A bike id frame parses back as a valid bike id message with value 0. */
  lemma BikeIdFrameParses(payload: seq<u8>)
    requires |payload| <= 10
    ensures var f := Frame(BikeId, payload);
      && BikeReadable(f, |f|)
      && BikeMessageOf(f, |f|) == BikeMessage(BikeId, 0, true, |payload|, 2)
  {
    FrameWellFormed(BikeId, payload);
  }

  lemma BikeFrameWellFormed(r: u8, currentTime: u32)
    requires KnownRequest(r)
    ensures var f := BikeFrame(r, currentTime);
      && |f| == f[2] + 5 <= BufferSize && f[0] == BikeHeader && f[1] == ResponseCode(r)
      && ChecksumHolds(f)
  {
    FrameWellFormed(ResponseCode(r), BikePayload(r, currentTime));
  }

  lemma DecimalValueOf3(a: u8, b: u8, c: u8)
    ensures DecimalValue([a, b, c]) == DigitOf(a) + 10 * DigitOf(b) + 100 * DigitOf(c)
  {
    assert DecimalValue([a]) == DigitOf(a) by {
      assert [a][..0] == [];
    }
    assert DecimalValue([a, b]) == DigitOf(a) + 10 * DigitOf(b) by {
      assert [a, b][..1] == [a];
    }
    assert [a, b, c][..2] == [a, b];
    assert Pow10(2) == 100;
  }

  lemma DecimalValueOf4(a: u8, b: u8, c: u8, d: u8)
    ensures DecimalValue([a, b, c, d]) == DigitOf(a) + 10 * DigitOf(b) + 100 * DigitOf(c) + 1000 * DigitOf(d)
  {
    assert [a, b, c, d][..3] == [a, b, c];
    DecimalValueOf3(a, b, c);
    assert Pow10(3) == 1000 by {
      assert Pow10(2) == 100;
    }
  }

  lemma DecimalValueOf5(a: u8, b: u8, c: u8, d: u8, e: u8)
    ensures DecimalValue([a, b, c, d, e])
         == DigitOf(a) + 10 * DigitOf(b) + 100 * DigitOf(c) + 1000 * DigitOf(d) + 10000 * DigitOf(e)
  {
    assert [a, b, c, d, e][..4] == [a, b, c, d];
    DecimalValueOf4(a, b, c, d);
    assert Pow10(4) == 10000 by {
      assert Pow10(3) == 1000 by {
        assert Pow10(2) == 100;
      }
    }
  }

  lemma AsciiDigit(d: nat)
    requires d <= 9
    ensures IsDigit(Ascii(d)) && DigitOf(Ascii(d)) == d
  {
  }

  /** Three decimal digits, least significant first, followed by a zero digit. */
  lemma ThreeDigitsValue(x: nat)
    requires x <= 999
    ensures var digits := [Ascii(x % 10), Ascii((x / 10) % 10), Ascii(x / 100), AsciiZero];
      && (forall k :: 0 <= k < |digits| ==> IsDigit(digits[k]))
      && DecimalValue(digits) == x
  {
    var a, b, c := x % 10, (x / 10) % 10, x / 100;
    AsciiDigit(a);
    AsciiDigit(b);
    AsciiDigit(c);
    AsciiDigit(0);
    DecimalValueOf4(Ascii(a), Ascii(b), Ascii(c), AsciiZero);
    DigitSplit(x);
  }

  lemma DigitSplit(x: nat)
    requires x <= 999
    ensures x == x % 10 + 10 * ((x / 10) % 10) + 100 * (x / 100)
  {
    var y := x / 10;
    assert x == 10 * y + x % 10;
    assert y == 10 * (y / 10) + y % 10;
    assert y / 10 == x / 100;
  }

  lemma ResistancePayloadValue(r: u8)
    requires r <= ReadResistanceTable1E
    ensures var payload := BikePayload(r, 0);
      && (forall k :: 0 <= k < |payload| ==> IsDigit(payload[k]))
      && DecimalValue(payload) == ResistanceAt(r)
  {
    ResistanceBounds(r);
    ThreeDigitsValue(ResistanceAt(r));
  }

  lemma RpmPayloadValue(currentTime: u32)
    ensures var payload := BikePayload(Rpm, currentTime);
      && (forall k :: 0 <= k < |payload| ==> IsDigit(payload[k]))
      && DecimalValue(payload) == 75 + currentTime % 10
  {
    var x := 75 + currentTime % 10;
    var payload := BikePayload(Rpm, currentTime);
    AsciiDigit(x % 10);
    AsciiDigit(x / 10);
    AsciiDigit(0);
    DecimalValueOf3(payload[0], payload[1], payload[2]);
  }

  lemma PowerPayloadValue(currentTime: u32)
    ensures var payload := BikePayload(Power, currentTime);
      && (forall k :: 0 <= k < |payload| ==> IsDigit(payload[k]))
      && DecimalValue(payload) == 10 * (150 + currentTime % 10)
  {
    var x := 150 + currentTime % 10;
    var a, b, c := x % 10, (x / 10) % 10, x / 100;
    AsciiDigit(a);
    AsciiDigit(b);
    AsciiDigit(c);
    AsciiDigit(0);
    DecimalValueOf5(AsciiZero, Ascii(a), Ascii(b), Ascii(c), AsciiZero);
    DigitSplit(x);
  }

  /** The payload of every answer but the id is ASCII digits whose decimal value is the answer's value. */
  lemma BikePayloadValue(r: u8, currentTime: u32)
    requires KnownRequest(r) && r != BikeId
    ensures var payload := BikePayload(r, currentTime);
      && (forall k :: 0 <= k < |payload| ==> IsDigit(payload[k]))
      && DecimalValue(payload) == AnswerValue(r, currentTime)
  {
    var payload := BikePayload(r, currentTime);
    if r == UnknownInitRequest {
      AsciiDigit(0);
      DecimalValueOf3(payload[0], payload[1], payload[2]);
    } else if r <= ReadResistanceTable1E {
      ResistancePayloadValue(r);
    } else if r == Rpm {
      RpmPayloadValue(currentTime);
    } else if r == Power {
      PowerPayloadValue(currentTime);
    } else {
      AsciiDigit(0);
      AsciiDigit(4);
      AsciiDigit(5);
      AsciiDigit(6);
      DecimalValueOf4(payload[0], payload[1], payload[2], payload[3]);
    }
  }

  /**
   * Every answer of the simulated bike parses back as a valid bike message
   * with the answer's code and value: 0 for the start-up and id answers,
   * the decoded table entry, the cadence, the power in tenths of a watt, or
   * the fixed resistance 4560.
   */
  lemma BikeFrameParses(r: u8, currentTime: u32)
    requires KnownRequest(r)
    ensures var f := BikeFrame(r, currentTime);
      && BikeReadable(f, |f|)
      && BikeMessageOf(f, |f|) == BikeMessage(ResponseCode(r), AnswerValue(r, currentTime), true, f[2], 2)
  {
    var payload := BikePayload(r, currentTime);
    FrameWellFormed(ResponseCode(r), payload);
    if r == BikeId {
      BikeIdFrameParses(payload);
    } else {
      BikePayloadValue(r, currentTime);
      if r <= ReadResistanceTable1E {
        ResistanceBounds(r);
      }
      FrameParses(ResponseCode(r), payload);
    }
  }

  /** The simulator as a value: the awaited request, the time of the last query, and what each port holds. */
  datatype SimulatorState = SimulatorState(nextMessageToSend: u8, lastHuTimestamp: u32, huPending: seq<u8>, bikePending: seq<u8>)

  /** Whether the head unit may send its query at `currentTime`; the elapsed time is computed modulo 2^32. */
  predicate HuQueryDue(s: SimulatorState, currentTime: u32)
  {
    !IsPolled(s.nextMessageToSend) || (currentTime - s.lastHuTimestamp) % 0x1_0000_0000 >= SimulatorMessageIntervalMillis
  }

  /**
   * One call of the simulator. With `bikeListening` zero the head unit
   * queries, unless its port still holds unread bytes or a ride data query
   * is not yet due; otherwise the bike answers, unless its port still holds
   * unread bytes, and the awaited request advances.
   */
  function Step(s: SimulatorState, bikeListening: u8, currentTime: u32): (next: SimulatorState)
    requires KnownRequest(s.nextMessageToSend)
  {
    if bikeListening == 0 then
      if s.huPending != [] || !HuQueryDue(s, currentTime) then s
      else s.(huPending := HuFrame(s.nextMessageToSend), lastHuTimestamp := currentTime)
    else
      if s.bikePending != [] then s
      else s.(bikePending := BikeFrame(s.nextMessageToSend, currentTime),
              nextMessageToSend := NextRequest(s.nextMessageToSend))
  }

  /**
   * What a step may do: a port's bytes are replaced only when it had none
   * left, and then by a well-formed frame for the awaited request; the
   * awaited request moves only when the bike answers; a ride data query
   * comes at least 500 ms after the previous query.
   */
  lemma StepGuarantees(s: SimulatorState, bikeListening: u8, currentTime: u32)
    requires KnownRequest(s.nextMessageToSend)
    ensures var t := Step(s, bikeListening, currentTime);
      && KnownRequest(t.nextMessageToSend)
      && (t.huPending != s.huPending ==>
            s.huPending == [] && bikeListening == 0 && t.huPending == HuFrame(s.nextMessageToSend)
            && ChecksumHolds(t.huPending) && HuQueryDue(s, currentTime))
      && (t.bikePending != s.bikePending ==>
            s.bikePending == [] && bikeListening != 0 && ChecksumHolds(t.bikePending)
            && BikeMessageOf(t.bikePending, |t.bikePending|).isValid)
      && (t.nextMessageToSend != s.nextMessageToSend ==>
            bikeListening != 0 && t.nextMessageToSend == NextRequest(s.nextMessageToSend))
  {
    HuFrameParses(s.nextMessageToSend);
    BikeFrameWellFormed(s.nextMessageToSend, currentTime);
    BikeFrameParses(s.nextMessageToSend, currentTime);
  }

  /** The resistance loop: the table deltas up to entry `request`, summed in 16 bits. */
  method DecodeResistance(request: u8) returns (resistance: u16)
    requires request <= ReadResistanceTable1E
    ensures resistance == ResistanceAt(request)
  {
    resistance := 0;
    var i: u8 := ReadResistanceTable00;
    while i <= request
      invariant i <= request + 1
      invariant resistance == PrefixSum(ResistanceLutDeltaEncoded, i as int)
    {
      ResistanceBounds(i);
      resistance := resistance + ResistanceLutDeltaEncoded[i - ReadResistanceTable00];
      i := i + 1;
    }
  }

  /** The checksum loop: the 8-bit sum of `msg[..n]`. */
  method FrameChecksum(msg: array<u8>, n: nat) returns (checksum: u8)
    requires n <= msg.Length
    ensures checksum == Sum8(msg[..n])
  {
    checksum := 0;
    var i := 0;
    while i < n
      invariant i <= n && checksum == Sum8(msg[..i])
    {
      assert msg[..i + 1][..i] == msg[..i];
      checksum := AddU8(checksum, msg[i]);
      i := i + 1;
    }
  }

  /** Fills the head unit's query for `request` into the first four bytes of `msg`. */
  method WriteHuQuery(msg: array<u8>, request: u8)
    requires msg.Length == BufferSize
    modifies msg
    ensures msg[..4] == HuFrame(request)
  {
    if request == UnknownInitRequest {
      msg[0] := 0xFE;
      msg[1] := 0x00;
    } else if ReadResistanceTable00 <= request <= ReadResistanceTable1E {
      msg[0] := 0xF7;
      msg[1] := request;
    } else {
      msg[0] := 0xF5;
      msg[1] := request;
    }
    msg[2] := AddU8(msg[0], msg[1]);
    msg[3] := 0xF6;
  }

  /** The answers to the start-up and id requests: runs of ASCII zeros. */
  method WriteZeroAnswer(msg: array<u8>, request: u8, currentTime: u32) returns (next: u8)
    requires msg.Length == BufferSize && (request == UnknownInitRequest || request == BikeId)
    requires msg[0] == BikeHeader && msg[1] == request
    modifies msg
    ensures next == NextRequest(request)
    ensures msg[2] as int == |BikePayload(request, currentTime)|
    ensures msg[..msg[2] + 3] == [BikeHeader, ResponseCode(request), msg[2]] + BikePayload(request, currentTime)
  {
    if request == UnknownInitRequest {
      msg[2] := 3;
      msg[3], msg[4], msg[5] := 0x30, 0x30, 0x30;
      next := BikeId;
      assert msg[..6] == [msg[0], msg[1], msg[2], msg[3], msg[4], msg[5]];
    } else {
      msg[2] := 7;
      var i := 0;
      while i < 7
        invariant 0 <= i <= 7
        invariant msg[0] == 0xF1 && msg[1] == BikeId && msg[2] == 7
        invariant forall k :: 3 <= k < 3 + i ==> msg[k] == 0x30
      {
        msg[3 + i] := 0x30;
        i := i + 1;
      }
      next := ReadResistanceTable00;
      assert msg[..10] == [msg[0], msg[1], msg[2], msg[3], msg[4], msg[5], msg[6], msg[7], msg[8], msg[9]];
    }
  }

  /** The answer to a resistance table request: the decoded entry as four digits. */
  method WriteResistanceAnswer(msg: array<u8>, request: u8, currentTime: u32) returns (next: u8)
    requires msg.Length == BufferSize && request <= ReadResistanceTable1E
    requires msg[0] == BikeHeader
    modifies msg
    ensures next == NextRequest(request)
    ensures msg[2] as int == |BikePayload(request, currentTime)|
    ensures msg[..msg[2] + 3] == [BikeHeader, ResponseCode(request), msg[2]] + BikePayload(request, currentTime)
  {
    var resistance := DecodeResistance(request);
    ResistanceBounds(request);
    msg[1] := 0xF7;
    msg[2] := 4;
    msg[3] := 0x30 + resistance % 10;
    msg[4] := 0x30 + (resistance / 10) % 10;
    msg[5] := 0x30 + resistance / 100;
    msg[6] := 0x30;
    if request == ReadResistanceTable1E {
      next := Rpm;
    } else {
      next := request + 1;
    }
    assert msg[..7] == [msg[0], msg[1], msg[2], msg[3], msg[4], msg[5], msg[6]];
  }

  /** The answers to the ride data requests: cadence, power and resistance. */
  method WriteRideAnswer(msg: array<u8>, request: u8, currentTime: u32) returns (next: u8)
    requires msg.Length == BufferSize && (request == Rpm || request == Power || request == Resistance)
    requires msg[0] == BikeHeader && msg[1] == request
    modifies msg
    ensures next == NextRequest(request)
    ensures msg[2] as int == |BikePayload(request, currentTime)|
    ensures msg[..msg[2] + 3] == [BikeHeader, ResponseCode(request), msg[2]] + BikePayload(request, currentTime)
  {
    if request == Rpm {
      WriteRpmAnswer(msg, currentTime);
      next := Power;
    } else if request == Power {
      WritePowerAnswer(msg, currentTime);
      next := Resistance;
    } else {
      WriteResistanceReading(msg);
      next := Rpm;
    }
  }

  /** The cadence answer: 75 to 84 RPM, following the clock's last digit. */
  method WriteRpmAnswer(msg: array<u8>, currentTime: u32)
    requires msg.Length == BufferSize && msg[0] == BikeHeader && msg[1] == Rpm
    modifies msg
    ensures msg[2] as int == |BikePayload(Rpm, currentTime)|
    ensures msg[..msg[2] + 3] == [BikeHeader, Rpm, msg[2]] + BikePayload(Rpm, currentTime)
  {
    var rpm: u8 := 75 + currentTime % 10;
    msg[2] := 3;
    msg[3] := 0x30 + rpm % 10;
    msg[4] := 0x30 + rpm / 10;
    msg[5] := 0x30;
    assert msg[..6] == [msg[0], msg[1], msg[2], msg[3], msg[4], msg[5]];
  }

  /** The power answer: 15.0 to 15.9 W in tenths, following the clock's last digit. */
  method WritePowerAnswer(msg: array<u8>, currentTime: u32)
    requires msg.Length == BufferSize && msg[0] == BikeHeader && msg[1] == Power
    modifies msg
    ensures msg[2] as int == |BikePayload(Power, currentTime)|
    ensures msg[..msg[2] + 3] == [BikeHeader, Power, msg[2]] + BikePayload(Power, currentTime)
  {
    var powerMillis: u8 := 150 + currentTime % 10;
    msg[1] := Power;
    msg[2] := 5;
    msg[3] := 0x30;
    msg[4] := 0x30 + powerMillis % 10;
    msg[5] := 0x30 + (powerMillis / 10) % 10;
    msg[6] := 0x30 + powerMillis / 100;
    msg[7] := 0x30;
    assert msg[..8] == [msg[0], msg[1], msg[2], msg[3], msg[4], msg[5], msg[6], msg[7]];
  }

  /** The resistance answer: the fixed digits 0x30 0x36 0x35 0x34, least significant first, which read as 4560. */
  method WriteResistanceReading(msg: array<u8>)
    requires msg.Length == BufferSize && msg[0] == BikeHeader && msg[1] == Resistance
    modifies msg
    ensures msg[2] as int == |BikePayload(Resistance, 0)|
    ensures forall t :: BikePayload(Resistance, t) == BikePayload(Resistance, 0)
    ensures msg[..msg[2] + 3] == [BikeHeader, Resistance, msg[2]] + BikePayload(Resistance, 0)
  {
    msg[1] := Resistance;
    msg[2] := 4;
    msg[3] := 0x30;
    msg[4] := 0x36;
    msg[5] := 0x35;
    msg[6] := 0x34;
    assert msg[..7] == [msg[0], msg[1], msg[2], msg[3], msg[4], msg[5], msg[6]];
  }

  /**
   * Fills the header and payload of the bike's answer to `request` into
   * `msg` and returns the request the simulator waits on next.
   */
  method WriteBikeAnswer(msg: array<u8>, request: u8, currentTime: u32) returns (next: u8)
    requires msg.Length == BufferSize && KnownRequest(request)
    modifies msg
    ensures next == NextRequest(request)
    ensures msg[2] as int == |BikePayload(request, currentTime)|
    ensures msg[..msg[2] + 3] == [BikeHeader, ResponseCode(request), msg[2]] + BikePayload(request, currentTime)
  {
    msg[0] := 0xF1;
    msg[1] := request;
    if request == UnknownInitRequest || request == BikeId {
      next := WriteZeroAnswer(msg, request, currentTime);
    } else if ReadResistanceTable00 <= request <= ReadResistanceTable1E {
      next := WriteResistanceAnswer(msg, request, currentTime);
    } else {
      next := WriteRideAnswer(msg, request, currentTime);
    }
  }

  /** Writes the bike's whole answer to `request` into `msg`: the body, its checksum and the terminator. */
  method WriteBikeFrame(msg: array<u8>, request: u8, currentTime: u32) returns (next: u8, n: u8)
    requires msg.Length == BufferSize && KnownRequest(request)
    modifies msg
    ensures next == NextRequest(request)
    ensures n as int <= BufferSize && msg[..n] == BikeFrame(request, currentTime)
  {
    next := WriteBikeAnswer(msg, request, currentTime);
    BikeFrameWellFormed(request, currentTime);
    var checksum := FrameChecksum(msg, msg[2] + 3);
    msg[msg[2] + 3] := checksum;
    msg[msg[2] + 4] := 0xF6;
    n := msg[2] + 5;
    assert msg[..n] == BikeFrame(request, currentTime);
  }

  class PelotonSimulator {
    const hu: SimulatedSerial
    const bike: SimulatedSerial
    var nextMessageToSend: u8
    var lastHuTimestamp: u32

    ghost predicate Valid()
      reads this, hu, bike
    {
      hu != bike && hu.buf != bike.buf && hu.Valid() && bike.Valid() && KnownRequest(nextMessageToSend)
    }

    function State(): (st: SimulatorState)
      reads this, hu, hu.buf, bike, bike.buf
      requires Valid()
    {
      SimulatorState(nextMessageToSend, lastHuTimestamp, hu.Pending(), bike.Pending())
    }

    /** A simulator at start-up: nothing sent yet, waiting on the initial request. */
    constructor ()
      ensures Valid() && fresh(hu) && fresh(bike) && fresh(hu.buf) && fresh(bike.buf)
      ensures hu.id == 0 && bike.id == 1
      ensures State() == SimulatorState(UnknownInitRequest, 0, [], [])
    {
      hu := new SimulatedSerial(0);
      bike := new SimulatedSerial(1);
      nextMessageToSend := UnknownInitRequest;
      lastHuTimestamp := 0;
    }

    /** One call from a port that is listening: `bikeListening` is that port's id. */
    method UpdateState(bikeListening: u8, currentTime: u32)
      requires Valid()
      modifies this, hu, hu.buf, bike, bike.buf
      ensures Valid()
      ensures State() == Step(old(State()), bikeListening, currentTime)
    {
      if bikeListening == 0 {
        HeadUnitTurn(currentTime);
      } else {
        BikeTurn(bikeListening, currentTime);
      }
    }

    /** The head unit's turn: push the query for the awaited request when it is due. */
    method HeadUnitTurn(currentTime: u32)
      requires Valid()
      modifies this, hu, hu.buf
      ensures Valid()
      ensures State() == Step(old(State()), 0, currentTime)
    {
      var msg := new u8[15];
      var pending := hu.Available();
      if pending != 0 {
        return;
      }
      var sendMessage := true;
      if nextMessageToSend == Rpm || nextMessageToSend == Power || nextMessageToSend == Resistance {
        sendMessage := (currentTime - lastHuTimestamp) % 0x1_0000_0000 >= SimulatorMessageIntervalMillis;
      }
      if !sendMessage {
        return;
      }
      WriteHuQuery(msg, nextMessageToSend);
      hu.Push(msg, 4);
      lastHuTimestamp := currentTime;
    }

    /** The bike's turn: push the answer to the awaited request and advance to the next one. */
    method BikeTurn(bikeListening: u8, currentTime: u32)
      requires Valid() && bikeListening != 0
      modifies this, bike, bike.buf
      ensures Valid()
      ensures State() == Step(old(State()), bikeListening, currentTime)
    {
      var msg := new u8[15];
      var pending := bike.Available();
      if pending != 0 {
        return;
      }
      var n;
      nextMessageToSend, n := WriteBikeFrame(msg, nextMessageToSend, currentTime);
      bike.Push(msg, n);
    }
  }
}
