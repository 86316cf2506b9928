/**
 * Base64 of section 4 of RFC 4648 as `rest_base64_encode` and
 * `rest_base64_decode` compute it: a bit accumulator `val` with `valb` bits
 * pending, one six-bit digit out per step.  Both loops are proved to compute
 * group-by-group definitions over six-bit values, and decoding inverts
 * encoding.
 */
module RestAuth {
  import opened Bytes

  /** A six-bit digit value. */
  type Sextet = x: int | 0 <= x < 64

  /** `val >> k` on a non-negative accumulator, one bit at a time. */
  function Shr(v: nat, k: nat): nat
  {
    if k == 0 then v else Shr(v / 2, k - 1)
  }

  lemma HalfHalf(x: nat) ensures (x / 2) / 2 == x / 4 {}
  lemma QuarterQuarter(x: nat) ensures (x / 4) / 4 == x / 16 {}
  lemma QuarterSixteenth(x: nat) ensures (x / 4) / 16 == x / 64 {}

  /** Shifting by two more bits is shifting a quarter of the value. */
  lemma ShrTwo(v: nat, k: nat)
    ensures Shr(v, k + 2) == Shr(v / 4, k)
  {
    assert Shr(v, k + 2) == Shr(v / 2, k + 1) == Shr((v / 2) / 2, k);
    HalfHalf(v);
  }

  lemma ShrValues(v: nat)
    ensures Shr(v, 0) == v && Shr(v, 2) == v / 4 && Shr(v, 4) == v / 16 && Shr(v, 6) == v / 64
  {
    ShrTwo(v, 0);
    ShrTwo(v, 2);
    ShrTwo(v / 4, 0);
    ShrTwo(v, 4);
    ShrTwo(v / 4, 2);
    ShrTwo(v / 16, 0);
    QuarterQuarter(v);
    QuarterSixteenth(v);
    QuarterQuarter(v / 4);
  }

  // Digit extraction from a shifted accumulator: each fact below is linear
  // arithmetic with constant divisors, kept apart so that the solver sees it alone.

  /** Quotient and remainder by one of the constant divisors the accumulators use. */
  lemma DivMod(x: int, m: int, q: int, r: int)
    requires m == 4 || m == 16 || m == 64 || m == 256
    requires x == m * q + r && 0 <= r < m
    ensures x / m == q && x % m == r
  {
    if m == 4 {} else if m == 16 {} else if m == 64 {} else {}
  }
  /** The position within a group of four, one step on. */
  lemma NextMod4(n: nat)
    ensures n % 4 == 0 ==> (n + 1) % 4 == 1
    ensures n % 4 == 1 ==> (n + 1) % 4 == 2
    ensures n % 4 == 2 ==> (n + 1) % 4 == 3
    ensures n % 4 == 3 ==> (n + 1) % 4 == 0
  {
  }

  lemma EncodeFirst(val: nat, c: byte)
    ensures ((val * 256 + c) / 4) % 64 == c / 4
    ensures (val * 256 + c) % 256 == c
  {
    var x := val * 256 + c;
    DivMod(x, 4, 64 * val + c / 4, c % 4);
    DivMod(x / 4, 64, val, c / 4);
    DivMod(x, 256, val, c);
  }
  lemma EncodeSecond(val: nat, c: byte)
    ensures ((val * 256 + c) / 16) % 64 == (val % 4) * 16 + c / 16
  {
    var q, r := val / 4, val % 4;
    DivMod(val, 4, q, r);
    var x := val * 256 + c;
    DivMod(x, 16, 64 * q + 16 * r + c / 16, c % 16);
    DivMod(x / 16, 64, q, 16 * r + c / 16);
  }
  lemma EncodeThird(val: nat, c: byte)
    ensures ((val * 256 + c) / 64) % 64 == (val % 16) * 4 + c / 64
    ensures (val * 256 + c) % 64 == c % 64
  {
    var q, r := val / 16, val % 16;
    DivMod(val, 16, q, r);
    var x := val * 256 + c;
    DivMod(x, 64, 64 * q + 4 * r + c / 64, c % 64);
    DivMod(x / 64, 64, q, 4 * r + c / 64);
  }
  lemma DecodeFirst(val: nat, d: Sextet)
    ensures ((val * 64 + d) / 16) % 256 == (val % 64) * 4 + d / 16
    ensures (val * 64 + d) % 64 == d
  {
    var q, r := val / 64, val % 64;
    var x := val * 64 + d;
    DivMod(val, 64, q, r);
    DivMod(x, 16, 256 * q + 4 * r + d / 16, d % 16);
    DivMod(x / 16, 256, q, 4 * r + d / 16);
    DivMod(x, 64, val, d);
  }
  lemma DecodeSecond(val: nat, d: Sextet)
    ensures ((val * 64 + d) / 4) % 256 == (val % 16) * 16 + d / 4
    ensures (val * 64 + d) % 64 == d
  {
    var q, r := val / 16, val % 16;
    var x := val * 64 + d;
    DivMod(val, 16, q, r);
    DivMod(x, 4, 256 * q + 16 * r + d / 4, d % 4);
    DivMod(x / 4, 256, q, 16 * r + d / 4);
    DivMod(x, 64, val, d);
  }
  lemma DecodeThird(val: nat, d: Sextet)
    ensures (val * 64 + d) % 256 == (val % 4) * 64 + d
    ensures (val * 64 + d) % 64 == d
  {
    var q, r := val / 4, val % 4;
    var x := val * 64 + d;
    DivMod(val, 4, q, r);
    DivMod(x, 256, q, 64 * r + d);
    DivMod(x, 64, val, d);
  }
  lemma ModOfMod(val: nat, m: nat, k: nat)
    requires (m == 256 || m == 64) && (k == 4 || k == 16)
    ensures (val % m) % k == val % k
  {
    var q, r := val / m, val % m;
    DivMod(val, m, q, r);
    var q', r' := r / k, r % k;
    DivMod(r, k, q', r');
    DivMod(val, k, (m / k) * q + q', r');
  }

  // The same facts as the accumulator loops meet them: the low bits of `val`
  // hold the previous byte (encoding) or the previous digit value (decoding).

  lemma EncodeAccSecond(val: nat, a: byte, c: byte)
    requires val % 256 == a
    ensures Shr(val * 256 + c, 4) % 64 == (a % 4) * 16 + c / 16 && (val * 256 + c) % 256 == c
  {
    ShrValues(val * 256 + c);
    EncodeFirst(val, c);
    EncodeSecond(val, c);
    ModOfMod(val, 256, 4);
  }

  lemma EncodeAccThird(val: nat, b: byte, c: byte)
    requires val % 256 == b
    ensures Shr(val * 256 + c, 6) % 64 == (b % 16) * 4 + c / 64 && Shr(val * 256 + c, 0) % 64 == c % 64
  {
    ShrValues(val * 256 + c);
    EncodeThird(val, c);
    ModOfMod(val, 256, 16);
  }

  lemma EncodeAccTail(val: nat, a: byte)
    requires val % 256 == a
    ensures Shr(val * 256, 4) % 64 == (a % 4) * 16 && Shr(val * 256, 6) % 64 == (a % 16) * 4
  {
    ShrValues(val * 256);
    EncodeSecond(val, 0);
    EncodeThird(val, 0);
    ModOfMod(val, 256, 4);
    ModOfMod(val, 256, 16);
  }

  lemma DecodeAccSecond(val: nat, y: Sextet, x: Sextet)
    requires val % 64 == y
    ensures Shr(val * 64 + x, 4) % 256 == y * 4 + x / 16 && (val * 64 + x) % 64 == x
  {
    ShrValues(val * 64 + x);
    DecodeFirst(val, x);
  }

  lemma DecodeAccThird(val: nat, y: Sextet, x: Sextet)
    requires val % 64 == y
    ensures Shr(val * 64 + x, 2) % 256 == (y % 16) * 16 + x / 4 && (val * 64 + x) % 64 == x
  {
    ShrValues(val * 64 + x);
    DecodeSecond(val, x);
    ModOfMod(val, 64, 16);
  }

  lemma DecodeAccFourth(val: nat, y: Sextet, x: Sextet)
    requires val % 64 == y
    ensures Shr(val * 64 + x, 0) % 256 == (y % 4) * 64 + x && (val * 64 + x) % 64 == x
  {
    ShrValues(val * 64 + x);
    DecodeThird(val, x);
    ModOfMod(val, 64, 4);
  }

  // ---------------------------------------------------------------------------
  // The alphabet
  // ---------------------------------------------------------------------------

  /** The digit `base64_chars[d]`. */
  function Digit(d: Sextet): char
  {
    if d < 26 then ('A' as int + d) as char
    else if d < 52 then ('a' as int + d - 26) as char
    else if d < 62 then ('0' as int + d - 52) as char
    else if d == 62 then '+'
    else '/'
  }

  /** `base64_decode_table[c]`: the digit's value, or -1 outside the alphabet ('=' included). */
  function Value(c: char): (v: int)
    ensures -1 <= v < 64
  {
    if 'A' <= c <= 'Z' then c as int - 'A' as int
    else if 'a' <= c <= 'z' then c as int - 'a' as int + 26
    else if '0' <= c <= '9' then c as int - '0' as int + 52
    else if c == '+' then 62
    else if c == '/' then 63
    else -1
  }

  predicate InAlphabet(c: char) { Value(c) >= 0 }

  /** The table inverts the alphabet. */
  lemma ValueOfDigit(d: Sextet)
    ensures Value(Digit(d)) == d && InAlphabet(Digit(d))
  {
  }

  // ---------------------------------------------------------------------------
  // Encoding
  // ---------------------------------------------------------------------------

  /** The digits that `i` bytes complete: `8 * i / 6`, four per group of three bytes. */
  function Whole(i: nat): nat
  {
    i / 3 * 4 + i % 3
  }

  /** `Whole(i)` digits use all but the last `2 * (i % 3)` bits of `i` bytes. */
  lemma WholeBits(i: nat)
    ensures 8 * i - 6 * Whole(i) == 2 * (i % 3)
    ensures Whole(i + 1) == Whole(i) + (if i % 3 == 2 then 2 else 1)
  {
  }

  /** The digits of `n` bytes before padding: a last lone byte gives two, a last pair three. */
  function DigitCount(n: nat): (k: nat)
    ensures 8 * n <= 6 * k < 8 * n + 6
  {
    WholeBits(n);
    Whole(n) + (if n % 3 == 0 then 0 else 1)
  }

  /** A digit of `n` bytes lies in a group whose first byte exists. */
  lemma GroupStart(n: nat, j: nat)
    requires j < DigitCount(n)
    ensures 3 * (j / 4) < n
  {
    DivMod(j, 4, j / 4, j % 4);
  }

  /**
   * Digit value `j` of the encoding of `s`: the bits of its group of three
   * bytes, a byte missing from the last group counting as zero.
   */
  function SextetAt(s: seq<byte>, j: nat): Sextet
    requires j < DigitCount(|s|)
  {
    GroupStart(|s|, j);
    var g := j / 4;
    var a := s[3 * g];
    var b := if 3 * g + 1 < |s| then s[3 * g + 1] else 0;
    var c := if 3 * g + 2 < |s| then s[3 * g + 2] else 0;
    if j % 4 == 0 then a / 4
    else if j % 4 == 1 then (a % 4) * 16 + b / 16
    else if j % 4 == 2 then (b % 16) * 4 + c / 64
    else c % 64
  }

  /** The first `k` digits of the encoding of `s`. */
  function DigitsUpTo(s: seq<byte>, k: nat): (r: string)
    requires k <= DigitCount(|s|)
    ensures |r| == k
  {
    if k == 0 then [] else DigitsUpTo(s, k - 1) + [Digit(SextetAt(s, k - 1))]
  }

  /** Character `j` of the first `k` digits is the digit of `SextetAt(s, j)`. */
  lemma {:induction false} DigitsUpToAt(s: seq<byte>, k: nat)
    requires k <= DigitCount(|s|)
    ensures forall j :: 0 <= j < k ==> DigitsUpTo(s, k)[j] == Digit(SextetAt(s, j))
  {
    if k > 0 {
      DigitsUpToAt(s, k - 1);
    }
  }

  /** A run of `k` '=' characters. */
  function Equals(k: nat): (r: string)
    ensures |r| == k
  {
    if k == 0 then [] else Equals(k - 1) + ['=']
  }

  lemma {:induction false} EqualsAreEquals(k: nat)
    ensures forall i :: 0 <= i < k ==> Equals(k)[i] == '='
  {
    if k > 0 {
      EqualsAreEquals(k - 1);
    }
  }

  /** The '=' characters that bring `n` digits to a multiple of four. */
  function Padding(n: nat): (r: string)
    ensures (n + |r|) % 4 == 0 && |r| < 4
  {
    Equals((4 - n % 4) % 4)
  }

  /** Of the lengths up to the padded one, only the padded one is a multiple of four. */
  lemma PaddingGap(n: nat, e: nat)
    requires e <= |Padding(n)|
    ensures (n + e) % 4 == 0 <==> e == |Padding(n)|
  {
    var q, r := n / 4, n % 4;
    DivMod(n, 4, q, r);
    if r == 0 {
      DivMod(n + e, 4, q, e);
    } else {
      DivMod(n + e, 4, q + (r + e) / 4, (r + e) % 4);
    }
  }

  /** `rest_base64_encode`: the digits, padded with '=' to a multiple of four characters. */
  function Encode(s: seq<byte>): (r: string)
    ensures |r| % 4 == 0
  {
    var k := DigitCount(|s|);
    DigitsUpTo(s, k) + Padding(k)
  }

  /** The encoding is every digit of `SextetAt` in order, then '=' only. */
  lemma EncodeAt(s: seq<byte>)
    ensures var r, k := Encode(s), DigitCount(|s|);
      k <= |r| &&
      (forall j :: 0 <= j < k ==> r[j] == Digit(SextetAt(s, j))) &&
      (forall j :: k <= j < |r| ==> r[j] == '=')
  {
    var k := DigitCount(|s|);
    var d, p := DigitsUpTo(s, k), Padding(k);
    DigitsUpToAt(s, k);
    EqualsAreEquals(|p|);
    assert forall j :: 0 <= j < k ==> (d + p)[j] == d[j];
    assert forall j :: k <= j < |d + p| ==> (d + p)[j] == p[j - k];
  }

  /** Every character of an encoding is in the alphabet or is '='. */
  lemma EncodeAlphabet(s: seq<byte>)
    ensures forall j :: 0 <= j < |Encode(s)| ==> InAlphabet(Encode(s)[j]) || Encode(s)[j] == '='
  {
    EncodeAt(s);
    forall j | 0 <= j < DigitCount(|s|)
      ensures InAlphabet(Encode(s)[j])
    {
      ValueOfDigit(SextetAt(s, j));
    }
  }

  /** Four characters for every group of three bytes, a last partial group included. */
  lemma EncodeLength(s: seq<byte>)
    ensures |Encode(s)| == (|s| + 2) / 3 * 4
  {
    var n := |s|;
    WholeBits(n);
    var k := DigitCount(n);
    DivMod(k, 4, n / 3, n % 3 + (if n % 3 == 0 then 0 else 1));
  }

  /** The encoding before its padding is the digits. */
  lemma EncodeDigits(s: seq<byte>)
    ensures var k := DigitCount(|s|);
      k <= |Encode(s)| && Encode(s)[..k] == DigitsUpTo(s, k)
  {
    var k := DigitCount(|s|);
    assert (DigitsUpTo(s, k) + Padding(k))[..k] == DigitsUpTo(s, k);
  }

  /** One character of the encoding: a digit before `DigitCount`, '=' after it. */
  lemma EncodeChar(s: seq<byte>, j: nat)
    requires j < |Encode(s)|
    ensures j < DigitCount(|s|) ==> Encode(s)[j] == Digit(SextetAt(s, j))
    ensures j >= DigitCount(|s|) ==> Encode(s)[j] == '='
  {
    EncodeAt(s);
  }

  /** Digit `Whole(i)` is the one whose group and position byte `i` completes. */
  lemma WholeDigit(i: nat)
    ensures Whole(i) / 4 == i / 3 && Whole(i) % 4 == i % 3
    ensures i % 3 == 2 ==> (Whole(i) + 1) / 4 == i / 3 && (Whole(i) + 1) % 4 == 3
  {
    DivMod(Whole(i), 4, i / 3, i % 3);
    if i % 3 == 2 {
      DivMod(Whole(i) + 1, 4, i / 3, 3);
    }
  }

  /** The first byte of a group completes its first digit. */
  lemma PendingFirst(s: seq<byte>, i: nat, val: nat)
    requires i < |s| && i % 3 == 0
    ensures Shr(val * 256 + s[i], 2) % 64 == SextetAt(s, Whole(i))
  {
    WholeDigit(i);
    EncodeFirst(val, s[i]);
    ShrValues(val * 256 + s[i]);
  }

  /** The second byte of a group completes its second digit. */
  lemma PendingSecond(s: seq<byte>, i: nat, val: nat)
    requires i < |s| && i % 3 == 1 && val % 256 == s[i - 1]
    ensures Shr(val * 256 + s[i], 4) % 64 == SextetAt(s, Whole(i))
  {
    WholeDigit(i);
    EncodeAccSecond(val, s[i - 1], s[i]);
  }

  /** The third byte of a group completes its last two digits. */
  lemma PendingThird(s: seq<byte>, i: nat, val: nat)
    requires i < |s| && i % 3 == 2 && val % 256 == s[i - 1]
    ensures Whole(i) + 1 < DigitCount(|s|)
    ensures Shr(val * 256 + s[i], 6) % 64 == SextetAt(s, Whole(i))
    ensures Shr(val * 256 + s[i], 0) % 64 == SextetAt(s, Whole(i) + 1)
  {
    WholeDigit(i);
    WholeBits(i);
    WholeBits(i + 1);
    EncodeAccThird(val, s[i - 1], s[i]);
  }

  /** `k` digits out of `i` bytes leave fewer than six bits over exactly when `k` is `Whole(i)`. */
  lemma CountAfter(i: nat, k: nat)
    requires 0 <= 8 * i - 6 * k < 6
    ensures k == Whole(i)
  {
    WholeBits(i);
  }

  /**
   * The digit values the encoder's inner loop emits once byte `i` is in,
   * `k` digits being out and `v` the new `valb`: digit `k` from `v` bits, and
   * when `v` is 6 digit `k + 1` from the last six bits.
   */
  lemma PendingDigits(s: seq<byte>, i: nat, k: nat, val: nat)
    requires i < |s| && 0 <= 8 * i - 6 * k < 6 && (i > 0 ==> val % 256 == s[i - 1])
    ensures var w, v, r := val * 256 + s[i], 8 * i - 6 * k + 2, Encode(s);
      k < DigitCount(|s|) && w % 256 == s[i] && (v == 2 || v == 4 || v == 6) &&
      r[k] == Digit(Shr(w, v) % 64) &&
      (v == 6 ==> k + 1 < DigitCount(|s|) && r[k + 1] == Digit(Shr(w, 0) % 64))
  {
    EncodeAt(s);
    CountAfter(i, k);
    WholeBits(i);
    WholeBits(i + 1);
    EncodeFirst(val, s[i]);
    if i % 3 == 0 {
      PendingFirst(s, i, val);
    } else if i % 3 == 1 {
      PendingSecond(s, i, val);
    } else {
      PendingThird(s, i, val);
    }
  }

  /** The digit the encoder flushes from the bits of a last lone byte or pair, and the digit count. */
  lemma FlushDigit(s: seq<byte>, k: nat, val: nat, valb: int)
    requires valb == 8 * |s| - 6 * k - 6 && -6 <= valb < 0 && (|s| > 0 ==> val % 256 == s[|s| - 1])
    ensures DigitCount(|s|) == if valb == -6 then k else k + 1
    ensures valb > -6 ==> k < |Encode(s)| && Encode(s)[k] == Digit(Shr(val * 256, valb + 8) % 64)
  {
    EncodeAt(s);
    var n := |s|;
    CountAfter(n, k);
    WholeBits(n);
    if n % 3 != 0 {
      DivMod(k, 4, n / 3, n % 3);
      EncodeAccTail(val, s[n - 1]);
    }
  }

  /** The digits the inner loop emits from `val` while `valb >= 0`: six bits each, highest first. */
  function Pending(val: nat, valb: int): (r: string)
    decreases valb + 6
  {
    if valb < 0 then [] else [Digit(Shr(val, valb) % 64)] + Pending(val, valb - 6)
  }

  /**
   * Byte `i` in, `k` digits being out: the digits the inner loop emits are
   * the next ones of the encoding, and fewer than six bits are left over.
   */
  lemma NextDigits(s: seq<byte>, i: nat, k: nat, val: nat, valb: int)
    requires i < |s| && valb == 8 * i - 6 * k - 6 && -6 <= valb < 0 && (i > 0 ==> val % 256 == s[i - 1])
    ensures var w, r := val * 256 + s[i], Encode(s);
      var p := Pending(w, valb + 8);
      w % 256 == s[i] && k + |p| <= |r| && r[..k] + p == r[..k + |p|] &&
      valb + 8 - 6 * |p| == 8 * (i + 1) - 6 * (k + |p|) - 6
  {
    var w, r, v := val * 256 + s[i], Encode(s), valb + 8;
    PendingDigits(s, i, k, val);
    EncodeAt(s);
    PrefixNext(r, k);
    if v == 6 {
      PrefixNext(r, k + 1);
      assert Pending(w, v) == [r[k]] + [r[k + 1]];
      assert r[..k] + ([r[k]] + [r[k + 1]]) == r[..k] + [r[k]] + [r[k + 1]];
    } else {
      assert Pending(w, v) == [r[k]];
    }
  }

  /** The encoder's inner loop: a digit for every six bits over, `rest` the bits then left. */
  method EmitDigits(val: nat, valb: int) returns (digits: string, rest: int)
    ensures digits == Pending(val, valb)
    ensures rest == valb - 6 * |digits| && rest < 0 && (valb >= -6 ==> rest >= -6)
  {
    digits := [];
    rest := valb;
    while rest >= 0
      invariant digits + Pending(val, rest) == Pending(val, valb)
      invariant rest == valb - 6 * |digits| && (valb >= -6 ==> rest >= -6)
      decreases rest + 6
    {
      var x := Digit(Shr(val, rest) % 64);
      assert digits + Pending(val, rest) == (digits + [x]) + Pending(val, rest - 6);
      digits := digits + [x];
      rest := rest - 6;
    }
  }

  method Base64Encode(input: seq<byte>) returns (encoded: string)
    ensures encoded == Encode(input)
  {
    ghost var r := Encode(input);
    encoded := [];
    var val: nat := 0;
    var valb := -6;
    var i := 0;
    while i < |input|
      invariant 0 <= i <= |input|
      invariant valb == 8 * i - 6 * |encoded| - 6 && -6 <= valb < 0
      invariant |encoded| <= |r| && encoded == r[..|encoded|]
      invariant i > 0 ==> val % 256 == input[i - 1]
    {
      NextDigits(input, i, |encoded|, val, valb);
      val := val * 256 + input[i];
      var digits;
      digits, valb := EmitDigits(val, valb + 8);
      encoded := encoded + digits;
      i := i + 1;
    }
    FlushDigit(input, |encoded|, val, valb);
    if valb > -6 {
      PrefixNext(r, |encoded|);
      encoded := encoded + [Digit(Shr(val * 256, valb + 8) % 64)];
    }
    EncodeDigits(input);
    encoded := PadToQuad(encoded);
  }

  /** The encoder's last loop: '=' until the length is a multiple of four. */
  method PadToQuad(body: string) returns (padded: string)
    ensures padded == body + Padding(|body|)
  {
    padded := body;
    ghost var e := 0;
    while |padded| % 4 != 0
      invariant e <= |Padding(|body|)| && |padded| == |body| + e
      invariant padded == body + Equals(e)
      decreases 4 - e
    {
      PaddingGap(|body|, e);
      padded := padded + ['='];
      e := e + 1;
    }
    PaddingGap(|body|, e);
  }

  /** The prefix one element longer. */
  lemma PrefixNext<T>(r: seq<T>, k: nat)
    requires k < |r|
    ensures r[..k + 1] == r[..k] + [r[k]]
  {
  }

  // ---------------------------------------------------------------------------
  // Decoding
  // ---------------------------------------------------------------------------

  /** The first `k` characters of `s` are in the alphabet. */
  predicate DigitsBefore(s: string, k: nat)
  {
    k <= |s| && forall j :: 0 <= j < k ==> InAlphabet(s[j])
  }

  /** Where the run of alphabet characters that starts at `i` ends. */
  function DigitRun(s: string, i: nat): (n: nat)
    requires i <= |s|
    ensures i <= n <= |s|
    ensures forall j :: i <= j < n ==> InAlphabet(s[j])
    ensures n < |s| ==> !InAlphabet(s[n])
    decreases |s| - i
  {
    if i == |s| || !InAlphabet(s[i]) then i else DigitRun(s, i + 1)
  }

  /**
   * The byte the accumulator releases when the digit value `x` arrives at
   * position `phase` of its group of four, `prev` being the value before it:
   * none at the start of a group, one byte at each later position.
   */
  function Release(phase: nat, prev: Sextet, x: Sextet): seq<byte>
    requires phase < 4
  {
    if phase == 0 then []
    else if phase == 1 then [prev * 4 + x / 16]
    else if phase == 2 then [(prev % 16) * 16 + x / 4]
    else [(prev % 4) * 64 + x]
  }

  /** The bytes of the first `k` digits of `s`, the bits of each appended in turn. */
  function BytesUpTo(s: string, k: nat): seq<byte>
    requires DigitsBefore(s, k)
  {
    if k < 2 then []
    else BytesUpTo(s, k - 1) + Release((k - 1) % 4, Value(s[k - 2]), Value(s[k - 1]))
  }

  /** `rest_base64_decode`: the bytes of the digits before the first character outside the alphabet. */
  function Decode(s: string): seq<byte>
  {
    BytesUpTo(s, DigitRun(s, 0))
  }

  /** `valb` once `k` digits of the current group are in. */
  function BitsAfter(k: nat): int
    requires k < 4
  {
    if k == 0 then -8 else if k == 1 then -2 else if k == 2 then -4 else -6
  }

  /** What the accumulator and the output hold once the first `i` digits of `s` are read. */
  predicate DecodeState(s: string, i: nat, val: nat, valb: int, out: seq<byte>)
    requires DigitsBefore(s, i)
  {
    out == BytesUpTo(s, i) && valb == BitsAfter(i % 4) &&
    (i > 0 ==> val % 64 == Value(s[i - 1]))
  }

  /** One digit through the accumulator keeps `DecodeState`. */
  lemma DecodeStep(s: string, i: nat, val: nat, valb: int, out: seq<byte>)
    requires DigitsBefore(s, i + 1) && DecodeState(s, i, val, valb, out)
    ensures var w := val * 64 + Value(s[i]);
      var b := valb + 6;
      DecodeState(s, i + 1, w, if b >= 0 then b - 8 else b, if b >= 0 then out + [Shr(w, b) % 256] else out)
  {
    var x: Sextet := Value(s[i]);
    var y: Sextet := if i == 0 then 0 else Value(s[i - 1]);
    NextMod4(i);
    if i % 4 == 0 {
      DecodeFirst(val, x);
    } else if i % 4 == 1 {
      DecodeAccSecond(val, y, x);
    } else if i % 4 == 2 {
      DecodeAccThird(val, y, x);
    } else {
      DecodeAccFourth(val, y, x);
    }
  }

  method Base64Decode(input: string) returns (decoded: seq<byte>)
    ensures decoded == Decode(input)
  {
    decoded := [];
    var val: nat := 0;
    var valb := -8;
    var i := 0;
    ghost var n := DigitRun(input, 0);
    while i < |input|
      invariant 0 <= i <= n && DigitsBefore(input, i)
      invariant DecodeState(input, i, val, valb, decoded)
    {
      var d := Value(input[i]);
      if d == -1 {
        break;
      }
      DecodeStep(input, i, val, valb, decoded);
      val := val * 64 + d;
      valb := valb + 6;
      if valb >= 0 {
        decoded := decoded + [Shr(val, valb) % 256];
        valb := valb - 8;
      }
      i := i + 1;
    }
  }

  // ---------------------------------------------------------------------------
  // Properties
  // ---------------------------------------------------------------------------

  /** The three bytes of four digit values. */
  function Tri(a: Sextet, b: Sextet, c: Sextet, d: Sextet): seq<byte>
  {
    [a * 4 + b / 16, (b % 16) * 16 + c / 4, (c % 4) * 64 + d]
  }

  /** A whole group of four digits gives its three bytes. */
  lemma BytesOfGroup(s: string, k: nat)
    requires k % 4 == 0 && DigitsBefore(s, k + 4)
    ensures BytesUpTo(s, k + 4) == BytesUpTo(s, k) + Tri(Value(s[k]), Value(s[k + 1]), Value(s[k + 2]), Value(s[k + 3]))
  {
    NextMod4(k);
    NextMod4(k + 1);
    NextMod4(k + 2);
    var r := BytesUpTo(s, k);
    var a, b, c, d: Sextet := Value(s[k]), Value(s[k + 1]), Value(s[k + 2]), Value(s[k + 3]);
    var x, y, z := a * 4 + b / 16, (b % 16) * 16 + c / 4, (c % 4) * 64 + d;
    assert BytesUpTo(s, k + 1) == r by {
      if k > 0 {
        assert BytesUpTo(s, k + 1) == r + Release(0, Value(s[k - 1]), a);
      }
    }
    assert BytesUpTo(s, k + 2) == r + [x];
    assert BytesUpTo(s, k + 3) == r + [x] + [y];
    assert BytesUpTo(s, k + 4) == r + [x] + [y] + [z];
    assert r + [x] + [y] + [z] == r + [x, y, z];
  }

  /** Three bytes survive their four digit values. */
  lemma TriOfQuad(a: byte, b: byte, c: byte)
    ensures Tri(a / 4, (a % 4) * 16 + b / 16, (b % 16) * 4 + c / 64, c % 64) == [a, b, c]
  {
  }

  /** The four digit values of a whole group of three bytes. */
  lemma SextetsOfGroup(s: seq<byte>, h: nat)
    requires 3 * h + 3 <= |s|
    ensures 4 * h + 4 <= DigitCount(|s|)
    ensures var a, b, c := s[3 * h], s[3 * h + 1], s[3 * h + 2];
      SextetAt(s, 4 * h) == a / 4 && SextetAt(s, 4 * h + 1) == (a % 4) * 16 + b / 16 &&
      SextetAt(s, 4 * h + 2) == (b % 16) * 4 + c / 64 && SextetAt(s, 4 * h + 3) == c % 64
  {
    WholeBits(|s|);
    var k := 4 * h;
    DivMod(k, 4, h, 0);
    DivMod(k + 1, 4, h, 1);
    DivMod(k + 2, 4, h, 2);
    DivMod(k + 3, 4, h, 3);
  }

  /** The digits of the whole groups of three bytes decode to those bytes. */
  lemma {:induction false} WholeGroups(s: seq<byte>, g: nat)
    requires 3 * g <= |s|
    ensures 4 * g <= DigitCount(|s|) && DigitsBefore(Encode(s), 4 * g)
    ensures BytesUpTo(Encode(s), 4 * g) == s[..3 * g]
  {
    if g > 0 {
      var h := g - 1;
      WholeGroups(s, h);
      GroupBytes(s, h);
      assert s[..3 * h] + s[3 * h..3 * h + 3] == s[..3 * g];
    }
  }

  /** The group of four digits after `4 * h` gives the bytes `3 * h` to `3 * h + 3`. */
  lemma GroupBytes(s: seq<byte>, h: nat)
    requires 3 * h + 3 <= |s|
    ensures 4 * h + 4 <= DigitCount(|s|) && DigitsBefore(Encode(s), 4 * h + 4)
    ensures BytesUpTo(Encode(s), 4 * h + 4) == BytesUpTo(Encode(s), 4 * h) + s[3 * h..3 * h + 3]
  {
    var t := Encode(s);
    var k := 4 * h;
    SextetsOfGroup(s, h);
    EncodedValueAt(s, k);
    EncodedValueAt(s, k + 1);
    EncodedValueAt(s, k + 2);
    EncodedValueAt(s, k + 3);
    EncodedDigitsBefore(s, k + 4);
    var a, b, c := s[3 * h], s[3 * h + 1], s[3 * h + 2];
    BytesOfGroup(t, k);
    TriOfQuad(a, b, c);
    assert Tri(Value(t[k]), Value(t[k + 1]), Value(t[k + 2]), Value(t[k + 3])) == [a, b, c];
    assert s[3 * h..3 * h + 3] == [a, b, c];
  }

  /** Digit `j` of the encoding is an alphabet character whose value is `SextetAt(s, j)`. */
  lemma EncodedValueAt(s: seq<byte>, j: nat)
    requires j < DigitCount(|s|)
    ensures j < |Encode(s)| && InAlphabet(Encode(s)[j]) && Value(Encode(s)[j]) == SextetAt(s, j)
  {
    EncodeChar(s, j);
    ValueOfDigit(SextetAt(s, j));
  }

  /** The first `k` characters of the encoding are alphabet characters, for `k` up to the digit count. */
  lemma EncodedDigitsBefore(s: seq<byte>, k: nat)
    requires k <= DigitCount(|s|)
    ensures DigitsBefore(Encode(s), k)
  {
    forall j | 0 <= j < k
      ensures InAlphabet(Encode(s)[j])
    {
      EncodedValueAt(s, j);
    }
  }

  /** A last lone byte, and a last pair, survive their digit values. */
  lemma TailsSurvive(a: byte, b: byte)
    ensures (a / 4) * 4 + ((a % 4) * 16) / 16 == a
    ensures (a / 4) * 4 + ((a % 4) * 16 + b / 16) / 16 == a
    ensures ((((a % 4) * 16 + b / 16) % 16) * 16 + ((b % 16) * 4) / 4) == b
  {
  }

  /** Digits of the encoding decode to the input bytes. */
  lemma DigitsRoundTrip(s: seq<byte>)
    ensures DigitsBefore(Encode(s), DigitCount(|s|))
    ensures BytesUpTo(Encode(s), DigitCount(|s|)) == s
  {
    if |s| % 3 == 0 {
      RoundTripWhole(s);
    } else if |s| % 3 == 1 {
      RoundTripLone(s);
    } else {
      RoundTripPair(s);
    }
  }

  /** The round trip of the digits when the input splits into whole groups. */
  lemma RoundTripWhole(s: seq<byte>)
    requires |s| % 3 == 0
    ensures DigitsBefore(Encode(s), DigitCount(|s|))
    ensures BytesUpTo(Encode(s), DigitCount(|s|)) == s
  {
    var g := |s| / 3;
    WholeGroups(s, g);
    assert s[..3 * g] == s;
  }

  /** The round trip of the digits when a lone byte ends the input. */
  lemma RoundTripLone(s: seq<byte>)
    requires |s| % 3 == 1
    ensures DigitsBefore(Encode(s), DigitCount(|s|))
    ensures BytesUpTo(Encode(s), DigitCount(|s|)) == s
  {
    var g := |s| / 3;
    WholeGroups(s, g);
    LoneByte(s);
    Glue(BytesUpTo(Encode(s), 4 * g), s, 3 * g);
  }

  /** The round trip of the digits when a pair of bytes ends the input. */
  lemma RoundTripPair(s: seq<byte>)
    requires |s| % 3 == 2
    ensures DigitsBefore(Encode(s), DigitCount(|s|))
    ensures BytesUpTo(Encode(s), DigitCount(|s|)) == s
  {
    var g := |s| / 3;
    WholeGroups(s, g);
    LastPair(s);
    Glue(BytesUpTo(Encode(s), 4 * g), s, 3 * g);
  }

  /** A prefix and the rest make the whole. */
  lemma Glue<T>(p: seq<T>, s: seq<T>, i: nat)
    requires i <= |s| && p == s[..i]
    ensures p + s[i..] == s
  {
  }

  /** A last lone byte: two digits that give it back. */
  lemma LoneByte(s: seq<byte>)
    requires |s| % 3 == 1
    ensures var k := 4 * (|s| / 3);
      DigitCount(|s|) == k + 2 && DigitsBefore(Encode(s), k + 2) &&
      BytesUpTo(Encode(s), k + 2) == BytesUpTo(Encode(s), k) + s[|s| - 1..]
  {
    var t, m := Encode(s), |s|;
    var g := m / 3;
    var k := 4 * g;
    WholeBits(m);
    DivMod(k, 4, g, 0);
    DivMod(k + 1, 4, g, 1);
    EncodedValueAt(s, k);
    EncodedValueAt(s, k + 1);
    EncodedDigitsBefore(s, k + 2);
    TailOne(t, k, s[m - 1]);
    assert s[m - 1..] == [s[m - 1]];
  }

  /** Two digits whose values carry the byte `a` release it. */
  lemma TailOne(t: string, k: nat, a: byte)
    requires k % 4 == 0 && DigitsBefore(t, k + 2)
    requires Value(t[k]) == a / 4 && Value(t[k + 1]) == (a % 4) * 16
    ensures BytesUpTo(t, k + 2) == BytesUpTo(t, k) + [a]
  {
    NextMod4(k);
    TailsSurvive(a, 0);
  }

  /** A last pair of bytes: three digits that give them back. */
  lemma LastPair(s: seq<byte>)
    requires |s| % 3 == 2
    ensures var k := 4 * (|s| / 3);
      DigitCount(|s|) == k + 3 && DigitsBefore(Encode(s), k + 3) &&
      BytesUpTo(Encode(s), k + 3) == BytesUpTo(Encode(s), k) + s[|s| - 2..]
  {
    var t, m := Encode(s), |s|;
    var g := m / 3;
    var k := 4 * g;
    WholeBits(m);
    DivMod(k, 4, g, 0);
    DivMod(k + 1, 4, g, 1);
    DivMod(k + 2, 4, g, 2);
    EncodedValueAt(s, k);
    EncodedValueAt(s, k + 1);
    EncodedValueAt(s, k + 2);
    EncodedDigitsBefore(s, k + 3);
    TailTwo(t, k, s[m - 2], s[m - 1]);
    assert s[m - 2..] == [s[m - 2], s[m - 1]];
  }

  /** Three digits whose values carry the bytes `a` and `b` release them. */
  lemma TailTwo(t: string, k: nat, a: byte, b: byte)
    requires k % 4 == 0 && DigitsBefore(t, k + 3)
    requires Value(t[k]) == a / 4 && Value(t[k + 1]) == (a % 4) * 16 + b / 16
    requires Value(t[k + 2]) == (b % 16) * 4
    ensures BytesUpTo(t, k + 3) == BytesUpTo(t, k) + [a, b]
  {
    NextMod4(k);
    NextMod4(k + 1);
    TailsSurvive(a, b);
    assert BytesUpTo(t, k + 1) == BytesUpTo(t, k);
    assert BytesUpTo(t, k + 2) == BytesUpTo(t, k) + [a];
    assert BytesUpTo(t, k + 3) == BytesUpTo(t, k) + [a] + [b];
  }

  /** The run of alphabet characters ends at `k` when the first `k` are digits and the next one is not. */
  lemma {:induction false} RunEnds(s: string, i: nat, k: nat)
    requires i <= k && DigitsBefore(s, k) && (k < |s| ==> !InAlphabet(s[k]))
    ensures DigitRun(s, i) == k
    decreases k - i
  {
    if i < k {
      RunEnds(s, i + 1, k);
    }
  }

  /** Decoding the encoding of any bytes gives them back. */
  lemma RoundTrip(s: seq<byte>)
    ensures Decode(Encode(s)) == s
  {
    var t, n := Encode(s), DigitCount(|s|);
    DigitsRoundTrip(s);
    EncodeAt(s);
    RunEnds(t, 0, n);
  }

  /** The bytes of the first `k` digits depend on those digits only. */
  lemma {:induction false} BytesOfPrefix(s: string, t: string, k: nat)
    requires DigitsBefore(s, k) && DigitsBefore(t, k)
    requires forall j :: 0 <= j < k ==> s[j] == t[j]
    ensures BytesUpTo(s, k) == BytesUpTo(t, k)
  {
    if k >= 2 {
      BytesOfPrefix(s, t, k - 1);
    }
  }

  /** Decoding ignores everything from the first character outside the alphabet on, '=' included. */
  lemma StopsAtFirstInvalid(s: string, c: char, rest: string)
    requires !InAlphabet(c)
    ensures Decode(s + [c] + rest) == Decode(s)
  {
    var t := s + [c] + rest;
    var k := DigitRun(s, 0);
    assert forall j :: 0 <= j < |s| ==> t[j] == s[j];
    assert t[|s|] == c;
    RunEnds(t, 0, k);
    BytesOfPrefix(s, t, k);
  }
}
