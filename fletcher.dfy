/**
 * The Fletcher-16 checksum the firmware uses to compare lines of a GATT
 * listing against a compact table instead of full reference strings.
 */
module Fletcher {
  import opened CTypes

  /** The two 8-bit running sums of the checksum. */
  datatype Sums = Sums(lo: u8, hi: u8)

  /** One byte of input: `lo` takes the byte, `hi` takes the new `lo`, both wrapping at 256. */
  function Absorb(acc: Sums, c: Char): (next: Sums)
  {
    var lo := if acc.lo + c as int >= 0x100 then acc.lo + c as int - 0x100 else acc.lo + c as int;
    Sums(lo, if acc.hi + lo >= 0x100 then acc.hi + lo - 0x100 else acc.hi + lo)
  }

  /** The running sums after absorbing `s[i..]`, starting from `acc`. */
  function AbsorbFrom(s: Line, i: nat, acc: Sums): (sums: Sums)
    requires i <= |s|
    decreases |s| - i
  {
    if i == |s| then acc else AbsorbFrom(s, i + 1, Absorb(acc, s[i]))
  }

  /** The checksum of a line: `hi` in the upper byte, `lo` in the lower. */
  function Checksum(s: Line): (checksum: u16)
  {
    var acc := AbsorbFrom(s, 0, Sums(0, 0));
    acc.hi * 0x100 + acc.lo
  }

  /** Reference definition: the plain sum of the bytes. */
  function ByteSum(s: Line): (total: nat)
  {
    if s == [] then 0 else ByteSum(s[..|s| - 1]) + s[|s| - 1] as int
  }

  /** Reference definition: the sum of the byte sums of every non-empty prefix. */
  function PrefixSumTotal(s: Line): (total: nat)
  {
    if s == [] then 0 else PrefixSumTotal(s[..|s| - 1]) + ByteSum(s)
  }

  /** Absorb is addition modulo 256 on both sums. */
  lemma AbsorbWraps(acc: Sums, c: Char)
    ensures Absorb(acc, c).lo == (acc.lo + c as int) % 0x100
    ensures Absorb(acc, c).hi == (acc.hi + Absorb(acc, c).lo) % 0x100
  {
  }

  lemma ModAdd(a: nat, b: nat)
    ensures (a % 0x100 + b) % 0x100 == (a + b) % 0x100
  {
    var q := a / 0x100;
    assert a == q * 0x100 + a % 0x100;
    assert a + b == q * 0x100 + (a % 0x100 + b);
  }

  /** Absorbing byte `i` takes the closed-form sums of `s[..i]` to those of `s[..i + 1]`. */
  lemma AbsorbStep(s: Line, i: nat)
    requires i < |s|
    ensures Absorb(Sums(ByteSum(s[..i]) % 0x100, PrefixSumTotal(s[..i]) % 0x100), s[i])
         == Sums(ByteSum(s[..i + 1]) % 0x100, PrefixSumTotal(s[..i + 1]) % 0x100)
  {
    var p, q := s[..i], s[..i + 1];
    assert q[..|q| - 1] == p;
    assert ByteSum(q) == ByteSum(p) + s[i] as int;
    assert PrefixSumTotal(q) == PrefixSumTotal(p) + ByteSum(q);
    AbsorbWraps(Sums(ByteSum(p) % 0x100, PrefixSumTotal(p) % 0x100), s[i]);
    ModAdd(ByteSum(p), s[i] as int);
    ModAdd(PrefixSumTotal(p), ByteSum(q) % 0x100);
    ModAdd(ByteSum(q), PrefixSumTotal(p));
  }

  lemma {:induction false} AbsorbFromPrefix(s: Line, i: nat)
    requires i <= |s|
    ensures AbsorbFrom(s, i, Sums(ByteSum(s[..i]) % 0x100, PrefixSumTotal(s[..i]) % 0x100))
         == Sums(ByteSum(s) % 0x100, PrefixSumTotal(s) % 0x100)
    decreases |s| - i
  {
    if i < |s| {
      AbsorbStep(s, i);
      AbsorbFromPrefix(s, i + 1);
    } else {
      assert s[..i] == s;
    }
  }

  /**
   * The checksum is determined by two sums: the low byte is the sum of the
   * bytes, the high byte the sum of the prefix sums, both modulo 256.
   */
  lemma ChecksumClosedForm(s: Line)
    ensures Checksum(s) % 0x100 == ByteSum(s) % 0x100
    ensures Checksum(s) / 0x100 == PrefixSumTotal(s) % 0x100
  {
    assert s[..0] == [];
    AbsorbFromPrefix(s, 0);
    var acc := AbsorbFrom(s, 0, Sums(0, 0));
    assert acc == Sums(ByteSum(s) % 0x100, PrefixSumTotal(s) % 0x100);
    SplitLowByte(acc.lo, acc.hi);
  }

  /** The firmware's `fletcher16`: the checksum of the first `len` bytes of `str`. */
  method Fletcher16(str: Line, len: u16) returns (rv: u16)
    requires len as int <= |str|
    ensures rv == Checksum(str[..len])
    ensures rv % 0x100 == ByteSum(str[..len]) % 0x100
    ensures rv / 0x100 == PrefixSumTotal(str[..len]) % 0x100
  {
    ghost var input := str[..len];
    var lo: u8, hi: u8 := 0, 0;
    var remaining := len;
    var p: nat := 0;
    while remaining > 0
      invariant p + remaining == len as int
      invariant AbsorbFrom(input, p, Sums(lo, hi)) == AbsorbFrom(input, 0, Sums(0, 0))
    {
      assert input[p] == str[p];
      lo := AddU8(lo, str[p] as int);
      hi := AddU8(hi, lo);
      remaining := remaining - 1;
      p := p + 1;
    }
    rv := hi * 0x100 + lo;
    ChecksumClosedForm(input);
  }

  lemma EmptyChecksum()
    ensures Checksum([]) == 0
  {
  }

  /**
   * The checksum is order-sensitive, unlike a plain byte sum: the same two
   * bytes in the other order give a different checksum.
   */
  lemma OrderSensitive()
    ensures Checksum("ab") != Checksum("ba")
  {
    assert Checksum("ab") == 0x24C3;
    assert Checksum("ba") == 0x25C3;
  }

  /**
   * Different lines can share a checksum: the three bytes 0x01 0x4D 0x4C sum
   * like "OK" does, so a checksum table accepts a line that a table of
   * reference strings rejects.
   */
  lemma Collision()
    ensures Checksum(['\U{1}', 'M', 'L']) == Checksum("OK")
  {
    assert Checksum("OK") == 0xE99A;
    assert Checksum(['\U{1}', 'M', 'L']) == 0xE99A;
  }
}
