/** The CRC-32 checksum a target descriptor keeps of its URL: the
    ISO 3309 / ITU-T V.42 CRC (reflected polynomial 0xEDB88320, initial value
    and final xor 0xFFFFFFFF) that `java.util.zip.CRC32` computes, taken over
    the US-ASCII encoding of the URL and then narrowed to a signed 32-bit
    Java `int`. */
module Checksum {

  /** A Java `int`. */
  type Int32 = x: int | -0x8000_0000 <= x < 0x8000_0000

  /** An unsigned byte. */
  type Byte = x: int | 0 <= x < 0x100

  const POLYNOMIAL: bv32 := 0xEDB8_8320
  const ALL_ONES: bv32 := 0xFFFF_FFFF

  /** `String.getBytes("US-ASCII")` for one character: characters outside
      ASCII become '?'. */
  function AsciiByte(c: char): (b: Byte)
    ensures c as int < 128 ==> b == c as int
    ensures c as int >= 128 ==> b == '?' as int
  {
    if c as int < 128 then c as int else 63
  }

  function AsciiBytes(s: string): (bytes: seq<Byte>)
    ensures |bytes| == |s|
    ensures forall i | 0 <= i < |s| :: bytes[i] == AsciiByte(s[i])
  {
    seq(|s|, i requires 0 <= i < |s| => AsciiByte(s[i]))
  }

  /** One bit of the reflected shift register. */
  function ShiftBit(c: bv32): bv32
  {
    if c & 1 == 1 then (c >> 1) ^ POLYNOMIAL else c >> 1
  }

  /** Feeds one byte into the register. */
  function Step(c: bv32, b: Byte): bv32
  {
    var x := c ^ (b as bv32);
    ShiftBit(ShiftBit(ShiftBit(ShiftBit(ShiftBit(ShiftBit(ShiftBit(ShiftBit(x))))))))
  }

  /** The register after feeding `bytes`, in order, starting from `c`. */
  function Update(c: bv32, bytes: seq<Byte>): bv32
  {
    if bytes == [] then c else Step(Update(c, bytes[..|bytes| - 1]), bytes[|bytes| - 1])
  }

  /** `CRC32.getValue()` after one `update` with `bytes`. */
  function Crc32(bytes: seq<Byte>): (r: bv32)
    ensures bytes == [] ==> r == 0
  {
    Update(ALL_ONES, bytes) ^ ALL_ONES
  }

  /** `(int) (value & 0xFFFFFFFFL)`: the 32 bits read as a signed Java `int`. */
  function ToInt32(v: bv32): (r: Int32)
    ensures r >= 0 <==> Unsigned(v) < 0x8000_0000
    ensures r == Unsigned(v) || r == Unsigned(v) - 0x1_0000_0000
  {
    var n := Unsigned(v);
    if n < 0x8000_0000 then n else n - 0x1_0000_0000
  }

  /** The 32 bits read as an unsigned number. */
  function Unsigned(v: bv32): (n: nat)
    ensures n < 0x1_0000_0000
  {
    v as int
  }

  /** The checksum stored in a target descriptor for `url`. */
  function UrlChecksum(url: string): (r: Int32)
    ensures r == Unsigned(Crc32(AsciiBytes(url))) || r == Unsigned(Crc32(AsciiBytes(url))) - 0x1_0000_0000
  {
    ToInt32(Crc32(AsciiBytes(url)))
  }

  /** Feeding bytes in two chunks gives the same register as feeding them at
      once: the checksum does not depend on how `update` calls are split. */
  lemma {:induction false} UpdateAppend(c: bv32, a: seq<Byte>, b: seq<Byte>)
    ensures Update(c, a + b) == Update(Update(c, a), b)
    decreases |b|
  {
    if b != [] {
      assert (a + b)[..|a + b| - 1] == a + b[..|b| - 1];
      UpdateAppend(c, a, b[..|b| - 1]);
    } else {
      assert a + b == a;
    }
  }

  /** The checksum can be computed incrementally: the CRC-32 of a longer
      message follows from the CRC-32 of its first part and the bytes that
      come after it. */
  lemma Crc32Append(a: seq<Byte>, b: seq<Byte>)
    ensures Crc32(a + b) == Update(Crc32(a) ^ ALL_ONES, b) ^ ALL_ONES
  {
    UpdateAppend(ALL_ONES, a, b);
    assert Crc32(a) ^ ALL_ONES == Update(ALL_ONES, a);
  }

  /** The standard check value of CRC-32 for the one-byte message "a". */
  lemma CheckValue()
    ensures UrlChecksum("a") == ToInt32(0xE8B7_BE43)
  {
    var bytes: seq<Byte> := [0x61];
    assert AsciiBytes("a") == bytes;
    assert bytes[..0] == [];
  }

  /** What `computeCRC32` does: one `CRC32` object fed the US-ASCII bytes of
      `s`, byte by byte, then read out as an `int`. */
  method ComputeCRC32(s: string) returns (crc: Int32)
    ensures crc == UrlChecksum(s)
  {
    var bytes := AsciiBytes(s);
    var register := ALL_ONES;
    var i := 0;
    while i < |bytes|
      invariant 0 <= i <= |bytes|
      invariant register == Update(ALL_ONES, bytes[..i])
    {
      assert bytes[..i + 1][..i] == bytes[..i];
      register := Step(register, bytes[i]);
      i := i + 1;
    }
    assert bytes[..i] == bytes;
    crc := ToInt32(register ^ ALL_ONES);
  }
}
