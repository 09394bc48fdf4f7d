/** Fixed-width integers and their byte encodings.

    Java's `int` is a signed 32-bit two's-complement value; on the wire it is four
    bytes, least significant first for the `LE` calls (`readLEInt`, `writeLEInt`) and
    in the stream's own byte order for `readInt` / `writeInt`. That order is kept
    open here: every property below holds for both `Little` and `Big`. */
module Encoding {

  type byte = b: int | 0 <= b < 256

  const INT32_MIN: int := -0x8000_0000
  const INT32_MAX: int := 0x7FFF_FFFF
  const TWO_32: int := 0x1_0000_0000

  /** Java `int`. */
  type Int32 = x: int | -0x8000_0000 <= x < 0x8000_0000

  /** The byte order of a four-byte integer on the wire. */
  datatype Endian = Little | Big

  function Pow256(n: nat): (r: nat)
    ensures r >= 1
  {
    if n == 0 then 1 else 256 * Pow256(n - 1)
  }

  /** The low `n` bytes of `u`, least significant first; higher bytes are dropped,
      as Java's narrowing writes do. */
  function EncodeLE(u: nat, n: nat): (r: seq<byte>)
    ensures |r| == n
  {
    if n == 0 then [] else [u % 256] + EncodeLE(u / 256, n - 1)
  }

  /** The unsigned value of bytes stored least significant first. */
  function DecodeLE(bs: seq<byte>): (r: nat)
    ensures r < Pow256(|bs|)
  {
    if bs == [] then 0 else bs[0] + 256 * DecodeLE(bs[1..])
  }

  lemma {:induction false} DecodeEncodeLE(u: nat, n: nat)
    requires u < Pow256(n)
    ensures DecodeLE(EncodeLE(u, n)) == u
  {
    if n > 0 {
      assert u / 256 < Pow256(n - 1);
      DecodeEncodeLE(u / 256, n - 1);
      assert EncodeLE(u, n)[1..] == EncodeLE(u / 256, n - 1);
    }
  }

  lemma {:induction false} EncodeDecodeLE(bs: seq<byte>)
    ensures EncodeLE(DecodeLE(bs), |bs|) == bs
  {
    if bs != [] {
      var rest := DecodeLE(bs[1..]);
      assert (bs[0] + 256 * rest) % 256 == bs[0];
      assert (bs[0] + 256 * rest) / 256 == rest;
      EncodeDecodeLE(bs[1..]);
      assert bs == [bs[0]] + bs[1..];
    }
  }

  /** The 32-bit pattern of a Java `int` read as unsigned (what `Integer.toHexString`
      and the byte writers see). */
  function ToUnsigned32(x: Int32): (u: nat)
    ensures u < TWO_32
    ensures u % TWO_32 == x % TWO_32
    ensures x >= 0 <==> u <= INT32_MAX
  {
    if x < 0 then x + TWO_32 else x
  }

  /** The Java `int` whose 32-bit pattern is `u`. */
  function FromUnsigned32(u: nat): (x: Int32)
    requires u < TWO_32
    ensures ToUnsigned32(x) == u
  {
    if u <= INT32_MAX then u else u - TWO_32
  }

  /** Java's narrowing of an arbitrary integer to `int`: keep the low 32 bits. */
  function Wrap32(n: int): (x: Int32)
    ensures x % TWO_32 == n % TWO_32
    ensures INT32_MIN <= n <= INT32_MAX ==> x == n
  {
    FromUnsigned32(n % TWO_32)
  }

  /** The distance between two integers. */
  function Dist(a: int, b: int): nat
  {
    if a < b then b - a else a - b
  }

  /** Java's `(int)` cast of an out-of-range value that saturates (a floating-point
      value narrowed to `int`): the `int` nearest to `n`. */
  function Clamp32(n: int): (x: Int32)
    ensures forall y: Int32 :: Dist(x, n) <= Dist(y, n)
    ensures INT32_MIN <= n <= INT32_MAX ==> x == n
    ensures n > INT32_MAX ==> x == INT32_MAX
    ensures n < INT32_MIN ==> x == INT32_MIN
  {
    if n > INT32_MAX then INT32_MAX else if n < INT32_MIN then INT32_MIN else n
  }

  /** Bitwise OR of the low `n` bits of `a` and `b`, lowest bit first. */
  function OrBits(a: nat, b: nat, n: nat): (r: nat)
    ensures r < Pow2(n)
  {
    if n == 0 then 0
    else (if a % 2 == 1 || b % 2 == 1 then 1 else 0) + 2 * OrBits(a / 2, b / 2, n - 1)
  }

  function Pow2(n: nat): (r: nat)
    ensures r >= 1
  {
    if n == 0 then 1 else 2 * Pow2(n - 1)
  }

  lemma {:induction false} OrBitsZero(b: nat, n: nat)
    requires b < Pow2(n)
    ensures OrBits(0, b, n) == b
  {
    if n > 0 {
      OrBitsZero(b / 2, n - 1);
    }
  }

  lemma Pow2Is32()
    ensures Pow2(32) == TWO_32
  {
    assert Pow2(4) == 16;
    assert Pow2(8) == 256 by { Pow2Add(4, 4); }
    assert Pow2(16) == 0x1_0000 by { Pow2Add(8, 8); }
    assert Pow2(32) == TWO_32 by { Pow2Add(16, 16); }
  }

  lemma {:induction false} Pow2Add(m: nat, n: nat)
    ensures Pow2(m + n) == Pow2(m) * Pow2(n)
  {
    if m > 0 {
      Pow2Add(m - 1, n);
    }
  }

  /** Java's `a | b` on `int`: the OR of the two 32-bit patterns. */
  function Or32(a: Int32, b: Int32): (r: Int32)
  {
    Pow2Is32();
    FromUnsigned32(OrBits(ToUnsigned32(a), ToUnsigned32(b), 32))
  }

  /** OR-ing into a zero field yields the other operand unchanged. */
  lemma OrZeroLeft(b: Int32)
    ensures Or32(0, b) == b
  {
    Pow2Is32();
    OrBitsZero(ToUnsigned32(b), 32);
  }

  function Swap4(bs: seq<byte>): (r: seq<byte>)
    requires |bs| == 4
    ensures |r| == 4
  {
    [bs[3], bs[2], bs[1], bs[0]]
  }

  /** The four bytes of a Java `int` in byte order `e`. */
  function EncodeInt32(e: Endian, x: Int32): (r: seq<byte>)
    ensures |r| == 4
  {
    var le := EncodeLE(ToUnsigned32(x), 4);
    if e == Little then le else Swap4(le)
  }

  /** The Java `int` stored in four bytes in byte order `e`. */
  function DecodeInt32(e: Endian, bs: seq<byte>): Int32
    requires |bs| == 4
  {
    var le := if e == Little then bs else Swap4(bs);
    assert Pow256(|le|) == TWO_32;
    FromUnsigned32(DecodeLE(le))
  }

  /** Reading back what was written gives the same `int`. */
  lemma DecodeEncodeInt32(e: Endian, x: Int32)
    ensures DecodeInt32(e, EncodeInt32(e, x)) == x
  {
    var le := EncodeLE(ToUnsigned32(x), 4);
    assert Pow256(4) == TWO_32;
    DecodeEncodeLE(ToUnsigned32(x), 4);
    if e == Big {
      assert Swap4(Swap4(le)) == le;
    }
  }

  /** Every four-byte pattern is the encoding of exactly one `int`: the codec is a
      bijection between `Int32` and four-byte strings. */
  lemma EncodeDecodeInt32(e: Endian, bs: seq<byte>)
    requires |bs| == 4
    ensures EncodeInt32(e, DecodeInt32(e, bs)) == bs
  {
    var le := if e == Little then bs else Swap4(bs);
    EncodeDecodeLE(le);
    if e == Big {
      assert Swap4(le) == bs;
    }
  }

  /** A Java unsigned short (`readLEUShort`): two bytes, least significant first. */
  function DecodeLEUShort(bs: seq<byte>): (r: nat)
    requires |bs| == 2
    ensures r < 0x1_0000
  {
    assert Pow256(2) == 0x1_0000;
    DecodeLE(bs)
  }

  /** `writeLEUShort`: the low 16 bits of `x`, least significant first. */
  function EncodeLEUShort(x: int): (r: seq<byte>)
    ensures |r| == 2
  {
    EncodeLE(x % 0x1_0000, 2)
  }

  lemma DecodeEncodeLEUShort(x: int)
    ensures DecodeLEUShort(EncodeLEUShort(x)) == x % 0x1_0000
  {
    assert Pow256(2) == 0x1_0000;
    DecodeEncodeLE(x % 0x1_0000, 2);
  }

  lemma EncodeDecodeLEUShort(bs: seq<byte>)
    requires |bs| == 2
    ensures EncodeLEUShort(DecodeLEUShort(bs)) == bs
  {
    EncodeDecodeLE(bs);
  }

  function Zeros(n: nat): (r: seq<byte>)
    ensures |r| == n
    ensures forall i :: 0 <= i < n ==> r[i] == 0
  {
    seq(n, i => 0)
  }
}
