/** The fixed-width little-endian writers of Node's Buffer that the hasher
    uses (writeUInt8, writeUInt16LE, writeUInt32LE, writeUIntLE with six bytes,
    writeDoubleLE), stated over unbounded naturals. */
module ByteEncoding {

  type byte = b: int | 0 <= b < 256

  /** A JavaScript number that is a non-negative integer it represents exactly. */
  type SafeInteger = n: nat | n < 0x20_0000_0000_0000

  function Pow256(w: nat): (p: nat)
    ensures p > 0
  {
    if w == 0 then 1 else 256 * Pow256(w - 1)
  }

  function Pow2(k: nat): (p: nat)
    ensures p > 0
  {
    if k == 0 then 1 else 2 * Pow2(k - 1)
  }

  /** The w low-order bytes of n, least significant first. */
  function LittleEndian(n: nat, w: nat): (r: seq<byte>)
    ensures |r| == w
  {
    if w == 0 then [] else [n % 256] + LittleEndian(n / 256, w - 1)
  }

  /** Reads bytes as an unsigned little-endian number. */
  function DecodeLittleEndian(s: seq<byte>): nat
  {
    if s == [] then 0 else s[0] + 256 * DecodeLittleEndian(s[1..])
  }

  lemma {:induction false} LittleEndianRoundTrip(n: nat, w: nat)
    requires n < Pow256(w)
    ensures DecodeLittleEndian(LittleEndian(n, w)) == n
  {
    if w > 0 {
      LittleEndianRoundTrip(n / 256, w - 1);
    }
  }

  // The writers called with noAssert == true store the value modulo 2^(8w).

  function UInt8(n: nat): seq<byte> { LittleEndian(n % 0x100, 1) }

  function UInt16LE(n: nat): seq<byte> { LittleEndian(n % 0x1_0000, 2) }

  function UInt32LE(n: nat): seq<byte> { LittleEndian(n % 0x1_0000_0000, 4) }

  function UInt48LE(n: nat): seq<byte> { LittleEndian(n % 0x1_0000_0000_0000, 6) }

  /** Each writer emits exactly 1, 2, 4 or 6 bytes, least significant first,
      and reading them back little-endian gives n reduced to the width. */
  lemma UIntWritersRoundTrip(n: nat)
    ensures |UInt8(n)| == 1 && DecodeLittleEndian(UInt8(n)) == n % 0x100
    ensures |UInt16LE(n)| == 2 && DecodeLittleEndian(UInt16LE(n)) == n % 0x1_0000
    ensures |UInt32LE(n)| == 4 && DecodeLittleEndian(UInt32LE(n)) == n % 0x1_0000_0000
    ensures |UInt48LE(n)| == 6 && DecodeLittleEndian(UInt48LE(n)) == n % 0x1_0000_0000_0000
  {
    Pow256Values();
    TruncatedRoundTrip(n, 1, 0x100);
    TruncatedRoundTrip(n, 2, 0x1_0000);
    TruncatedRoundTrip(n, 4, 0x1_0000_0000);
    TruncatedRoundTrip(n, 6, 0x1_0000_0000_0000);
  }

  lemma TruncatedRoundTrip(n: nat, w: nat, modulus: nat)
    requires modulus == Pow256(w)
    ensures DecodeLittleEndian(LittleEndian(n % modulus, w)) == n % modulus
  {
    LittleEndianRoundTrip(n % modulus, w);
  }

  lemma Pow256Values()
    ensures Pow256(1) == 0x100 && Pow256(2) == 0x1_0000 && Pow256(4) == 0x1_0000_0000
    ensures Pow256(6) == 0x1_0000_0000_0000 && Pow256(8) == 0x1_0000_0000_0000_0000
  {
  }

  // ---- writeDoubleLE on integers below 2^53 ----

  /** The index of the highest set bit of n. */
  function Log2(n: nat): nat
    requires n >= 1
  {
    if n < 2 then 0 else 1 + Log2(n / 2)
  }

  lemma {:induction false} Log2Bounds(n: nat)
    requires n >= 1
    ensures Pow2(Log2(n)) <= n < Pow2(Log2(n) + 1)
  {
    if n >= 2 {
      Log2Bounds(n / 2);
    }
  }

  lemma {:induction false} Pow2Monotone(a: nat, b: nat)
    requires a <= b
    ensures Pow2(a) <= Pow2(b)
  {
    if a < b {
      Pow2Monotone(a, b - 1);
    }
  }

  lemma {:induction false} Pow2Add(a: nat, b: nat)
    ensures Pow2(a + b) == Pow2(a) * Pow2(b)
  {
    if b > 0 {
      Pow2Add(a, b - 1);
      assert Pow2(a + b) == 2 * Pow2(a + b - 1);
    }
  }

  lemma Pow2Values()
    ensures Pow2(52) == 0x10_0000_0000_0000 && Pow2(53) == 0x20_0000_0000_0000
  {
    assert Pow2(13) == 0x2000;
    Pow2Add(13, 13);
    Pow2Add(26, 26);
  }

  /** Exponent of a positive safe integer: below 53. */
  lemma ExponentBound(n: SafeInteger)
    requires n >= 1
    ensures Log2(n) <= 52
  {
    Log2Bounds(n);
    Pow2Values();
    if Log2(n) > 52 {
      Pow2Monotone(53, Log2(n));
    }
  }

  /** The 52-bit mantissa field for a positive integer: exact up to 2^53,
      the low bits dropped above. */
  function Mantissa(n: nat): int
    requires n >= 1
  {
    var e := Log2(n);
    if e <= 52 then (n - Pow2(e)) * Pow2(52 - e) else (n - Pow2(e)) / Pow2(e - 52)
  }

  lemma MantissaRange(n: nat)
    requires n >= 1
    ensures 0 <= Mantissa(n) < 0x10_0000_0000_0000
  {
    var e := Log2(n);
    var top := Pow2(e);
    assert top <= n && n - top < top by {
      Log2Bounds(n);
      assert Pow2(e + 1) == 2 * top;
    }
    if e <= 52 {
      ExactMantissaBound(n - top, e);
    } else {
      TruncatedMantissaBound(n - top, e);
    }
  }

  lemma ExactMantissaBound(low: nat, e: nat)
    requires e <= 52 && low < Pow2(e)
    ensures 0 <= low * Pow2(52 - e) < 0x10_0000_0000_0000
  {
    Pow2Values();
    Pow2Add(e, 52 - e);
    ScaledBelow(low, Pow2(e), Pow2(52 - e), 0x10_0000_0000_0000);
  }

  lemma TruncatedMantissaBound(low: nat, e: nat)
    requires e > 52 && low < Pow2(e)
    ensures 0 <= low / Pow2(e - 52) < 0x10_0000_0000_0000
  {
    Pow2Values();
    Pow2Add(52, e - 52);
    DividedBelow(low, 0x10_0000_0000_0000, Pow2(e - 52));
  }

  lemma ScaledBelow(low: nat, top: nat, scale: nat, bound: nat)
    requires low < top && scale > 0 && top * scale == bound
    ensures low * scale < bound
  {
    MulStrictlyMonotone(low, top, scale);
  }

  lemma DividedBelow(x: nat, a: nat, b: nat)
    requires b > 0 && x < a * b
    ensures x / b < a
  {
    if x / b >= a {
      MulMonotone(a, x / b, b);
      assert false;
    }
  }

  lemma MulMonotone(x: nat, y: nat, z: nat)
    requires x <= y
    ensures x * z <= y * z
  {
  }

  lemma MulStrictlyMonotone(x: nat, y: nat, z: nat)
    requires x < y && z > 0
    ensures x * z < y * z
  {
  }

  /** The IEEE 754 binary64 bit pattern writeDoubleLE stores for the number
      n: sign 0, biased exponent 1023 + Log2(n), and the bits of n below its
      leading one as mantissa; infinity past the largest exponent. */
  function DoubleBits(n: nat): (bits: nat)
    ensures bits < 0x8000_0000_0000_0000
    ensures n > 0 ==> bits >= 1023 * 0x10_0000_0000_0000
  {
    if n == 0 then 0
    else if Log2(n) > 1023 then 0x7FF0_0000_0000_0000
    else
      MantissaRange(n);
      (1023 + Log2(n)) * 0x10_0000_0000_0000 + Mantissa(n)
  }

  /** The eight bytes writeDoubleLE stores for n. */
  function Float64LE(n: nat): (r: seq<byte>)
    ensures |r| == 8
  {
    LittleEndian(DoubleBits(n), 8)
  }

  lemma QuotientUnique(q1: nat, r1: nat, q2: nat, r2: nat, d: nat)
    requires r1 < d && r2 < d
    requires q1 * d + r1 == q2 * d + r2
    ensures q1 == q2 && r1 == r2
  {
    if q1 > q2 {
      MulAtLeast(q1 - q2, d);
      assert false;
    } else if q2 > q1 {
      MulAtLeast(q2 - q1, d);
      assert false;
    }
  }

  lemma MulAtLeast(k: nat, d: nat)
    requires k >= 1
    ensures k * d >= d
  {
  }

  lemma MulCancel(x: int, y: int, z: int)
    requires z > 0 && x * z == y * z
    ensures x == y
  {
  }

  lemma DoubleBitsInjective(a: SafeInteger, b: SafeInteger)
    requires DoubleBits(a) == DoubleBits(b)
    ensures a == b
  {
    if a != 0 && b != 0 {
      ExponentBound(a);
      ExponentBound(b);
      MantissaRange(a);
      MantissaRange(b);
      QuotientUnique(1023 + Log2(a), Mantissa(a), 1023 + Log2(b), Mantissa(b), 0x10_0000_0000_0000);
      var e := Log2(a);
      MulCancel(a - Pow2(e), b - Pow2(e), Pow2(52 - e));
    }
  }

  /** writeDoubleLE is injective on safe integers: two different sizes or
      entry counts never share their eight bytes. */
  lemma Float64Injective(a: SafeInteger, b: SafeInteger)
    requires Float64LE(a) == Float64LE(b)
    ensures a == b
  {
    Pow256Values();
    LittleEndianRoundTrip(DoubleBits(a), 8);
    LittleEndianRoundTrip(DoubleBits(b), 8);
    DoubleBitsInjective(a, b);
  }
}
