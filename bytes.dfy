/**
 * Bytes, the big-endian integer encodings used on the wire, and bitwise
 * exclusive or.  A byte is an integer in 0..255; the bit tests of the sources
 * (`b & 0x80`, `b >> 5`) are written as division and remainder.
 */
module Bytes {

  type byte = x: int | 0 <= x < 256

  function Pow256(width: nat): (p: nat)
    ensures p >= 1
  {
    if width == 0 then 1 else 256 * Pow256(width - 1)
  }

  /** The unsigned big-endian value of `bs` (`read_big_endian_16/64`). */
  function BigEndian(bs: seq<byte>): nat
  {
    if bs == [] then 0
    else BigEndian(bs[..|bs| - 1]) * 256 + bs[|bs| - 1]
  }

  /** The low `width` bytes of `n`, most significant first (`write_big_endian_16/64`). */
  function ToBigEndian(n: nat, width: nat): (bs: seq<byte>)
    ensures |bs| == width
  {
    if width == 0 then []
    else ToBigEndian(n / 256, width - 1) + [n % 256]
  }

  /** Writing then reading a value that fits in `width` bytes gives it back. */
  lemma {:induction false} BigEndianRoundTrip(n: nat, width: nat)
    requires n < Pow256(width)
    ensures BigEndian(ToBigEndian(n, width)) == n
  {
    if width > 0 {
      var q := n / 256;
      DivBound(n, Pow256(width - 1));
      var bs := ToBigEndian(n, width);
      assert bs[..|bs| - 1] == ToBigEndian(q, width - 1);
      BigEndianRoundTrip(q, width - 1);
    }
  }

  lemma DivBound(n: nat, p: nat)
    requires n < 256 * p
    ensures n / 256 < p
  {
  }

  /** A value read from `|bs|` bytes fits in `|bs|` bytes. */
  lemma {:induction false} BigEndianBound(bs: seq<byte>)
    ensures BigEndian(bs) < Pow256(|bs|)
  {
    if bs != [] {
      var init := bs[..|bs| - 1];
      BigEndianBound(init);
      MulBound(BigEndian(init), Pow256(|init|));
    }
  }

  lemma MulBound(a: nat, p: nat)
    requires a < p
    ensures a * 256 + 255 < 256 * p
  {
  }

  /** Reading then writing `|bs|` bytes gives them back. */
  lemma {:induction false} ToBigEndianOfBigEndian(bs: seq<byte>)
    ensures ToBigEndian(BigEndian(bs), |bs|) == bs
  {
    if bs != [] {
      var init := bs[..|bs| - 1];
      ToBigEndianOfBigEndian(init);
      assert bs == init + [bs[|bs| - 1]];
    }
  }

  /** `value >> (8 * i)`. */
  function ShiftBytes(value: nat, i: nat): nat
  {
    if i == 0 then value else ShiftBytes(value, i - 1) / 256
  }

  function Pow2(bits: nat): (p: nat)
    ensures p >= 1
  {
    if bits == 0 then 1 else 2 * Pow2(bits - 1)
  }

  /** Bitwise exclusive or of two naturals. */
  function Xor(a: nat, b: nat): nat
    decreases a + b
  {
    if a == 0 && b == 0 then 0
    else 2 * Xor(a / 2, b / 2) + (if a % 2 == b % 2 then 0 else 1)
  }

  lemma {:induction false} XorZero(a: nat)
    ensures Xor(a, 0) == a
    decreases a
  {
    if a != 0 {
      XorZero(a / 2);
    }
  }

  /** Exclusive or with the same key twice is the identity. */
  lemma {:induction false} XorTwice(a: nat, k: nat)
    ensures Xor(Xor(a, k), k) == a
    decreases a + k
  {
    if k == 0 {
      XorZero(a);
      XorZero(a);
    } else {
      var x := Xor(a, k);
      assert x / 2 == Xor(a / 2, k / 2) && x % 2 == (if a % 2 == k % 2 then 0 else 1);
      XorTwice(a / 2, k / 2);
    }
  }

  /** The exclusive or of two `bits`-bit values fits in `bits` bits. */
  lemma {:induction false} XorWidth(a: nat, b: nat, bits: nat)
    requires a < Pow2(bits) && b < Pow2(bits)
    ensures Xor(a, b) < Pow2(bits)
    decreases bits
  {
    if bits > 0 && !(a == 0 && b == 0) {
      XorWidth(a / 2, b / 2, bits - 1);
    }
  }

  /** `a ^ b` on bytes. */
  function XorB(a: byte, b: byte): (r: byte)
    ensures Xor(r, b) == a
  {
    assert Pow2(8) == 256;
    XorWidth(a, b, 8);
    XorTwice(a, b);
    Xor(a, b)
  }

  /** Applying the same key twice restores the byte. */
  lemma XorBTwice(a: byte, b: byte)
    ensures XorB(XorB(a, b), b) == a
  {
  }
}
