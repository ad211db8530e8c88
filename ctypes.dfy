/**
 * The fixed-width C types the firmware computes with, and little-endian
 * byte layout. Integers in Dafny are unbounded, so every width and every
 * wrap-around of the source is written out here.
 */
module CTypes {

  type u8 = x: int | 0 <= x < 0x100
  type u16 = x: int | 0 <= x < 0x1_0000
  type u32 = x: int | 0 <= x < 0x1_0000_0000

  /** A C `char` on the target: one byte. */
  type Char = c: char | c as int < 0x100 witness '\0'

  /** The bytes of one line of text, without its terminating NUL. */
  type Line = seq<Char>

  /** `uint8_t` addition: the sum wraps at 256. */
  function AddU8(a: u8, b: u8): (sum: u8)
  {
    if a + b >= 0x100 then a + b - 0x100 else a + b
  }

  function Pow256(n: nat): (p: nat)
    ensures p > 0
  {
    if n == 0 then 1 else 0x100 * Pow256(n - 1)
  }

  /**
   * The `width` bytes of `value`, least significant first: what `memcpy`
   * of an integer of that width writes on a little-endian machine.
   */
  function LittleEndian(value: nat, width: nat): (bytes: seq<u8>)
    requires value < Pow256(width)
    ensures |bytes| == width
  {
    if width == 0 then [] else [value % 0x100] + LittleEndian(value / 0x100, width - 1)
  }

  /** The lowest byte of `value` comes first, followed by the bytes of the rest. */
  lemma LittleEndianStep(value: nat, width: nat)
    requires 0 < width && value < Pow256(width)
    ensures value / 0x100 < Pow256(width - 1)
    ensures LittleEndian(value, width) == [value % 0x100] + LittleEndian(value / 0x100, width - 1)
  {
  }

  /** The unsigned integer whose little-endian bytes are `bytes`. */
  function FromLittleEndian(bytes: seq<u8>): (value: nat)
    ensures value < Pow256(|bytes|)
  {
    if bytes == [] then 0 else bytes[0] + 0x100 * FromLittleEndian(bytes[1..])
  }

  lemma {:induction false} LittleEndianRoundTrip(value: nat, width: nat)
    requires value < Pow256(width)
    ensures FromLittleEndian(LittleEndian(value, width)) == value
  {
    if width > 0 {
      var bytes := LittleEndian(value, width);
      assert bytes[1..] == LittleEndian(value / 0x100, width - 1);
      LittleEndianRoundTrip(value / 0x100, width - 1);
    }
  }

  lemma {:induction false} FromLittleEndianRoundTrip(bytes: seq<u8>)
    ensures LittleEndian(FromLittleEndian(bytes), |bytes|) == bytes
  {
    if bytes != [] {
      var rest := FromLittleEndian(bytes[1..]);
      SplitLowByte(bytes[0], rest);
      FromLittleEndianRoundTrip(bytes[1..]);
      assert bytes == [bytes[0]] + bytes[1..];
    }
  }

  /** The low byte and the rest of `low + 0x100 * rest`. */
  lemma SplitLowByte(low: u8, rest: nat)
    ensures (low + 0x100 * rest) % 0x100 == low
    ensures (low + 0x100 * rest) / 0x100 == rest
  {
  }
}
