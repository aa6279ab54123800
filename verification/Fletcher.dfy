/** The two-sum checksum (the 8-bit Fletcher recurrence of Appendix I of RFC 1146, kept
    canonical by reducing modulo 255) and what it detects. */
module Fletcher {
  import opened Bytes

  /** The running sums after the bytes of `m`, as step_checksum leaves them. */
  function Sum1(m: seq<byte>): (s: nat)
    ensures s < 255
  {
    if m == [] then 0 else (Sum1(m[..|m| - 1]) + m[|m| - 1]) % 255
  }

  function Sum2(m: seq<byte>): (s: nat)
    ensures s < 255
  {
    if m == [] then 0 else (Sum2(m[..|m| - 1]) + Sum1(m)) % 255
  }

  /** The 16-bit checksum: `sum2` in the high byte, `sum1` in the low one. */
  function Checksum(m: seq<byte>): nat {
    Sum2(m) * 256 + Sum1(m)
  }

  /** check_checksum's loop over the first `len` bytes of the message buffer. */
  method CheckSum(buf: array<byte>, len: nat) returns (cs: nat)
    requires len <= buf.Length
    ensures cs == Checksum(buf[..len])
  {
    var s1: nat, s2: nat := 0, 0;
    for i := 0 to len
      invariant s1 == Sum1(buf[..i]) && s2 == Sum2(buf[..i])
    {
      assert buf[..i + 1][..i] == buf[..i];
      s1 := (s1 + buf[i]) % 255;
      s2 := (s2 + s1) % 255;
    }
    cs := s2 * 256 + s1;
  }

  /** The plain sum, and the sum in which byte `i` of an `n`-byte message weighs `n - i`. */
  function Total(m: seq<byte>): nat {
    if m == [] then 0 else Total(m[..|m| - 1]) + m[|m| - 1]
  }

  function WeightedUpTo(m: seq<byte>, i: nat): nat
    requires i <= |m|
  {
    if i == 0 then 0 else WeightedUpTo(m, i - 1) + (|m| - (i - 1)) * m[i - 1]
  }

  function Weighted(m: seq<byte>): nat {
    WeightedUpTo(m, |m|)
  }

  lemma {:induction false} WeightedPrefix(m: seq<byte>, i: nat)
    requires i < |m|
    ensures WeightedUpTo(m, i) == WeightedUpTo(m[..|m| - 1], i) + Total(m[..i])
  {
    if i > 0 {
      WeightedPrefix(m, i - 1);
      assert m[..i][..i - 1] == m[..i - 1];
      var n, x := |m| - 1, m[i - 1];
      assert (n + 1 - (i - 1)) * x == (n - (i - 1)) * x + x;
    }
  }

  lemma ModuloAdd(a: nat, b: nat)
    ensures (a % 255 + b % 255) % 255 == (a + b) % 255
    ensures (a % 255 + b) % 255 == (a + b) % 255
  {
    DropMultiples(a % 255 + b, a / 255);
    DropMultiples(a % 255 + b % 255, a / 255 + b / 255);
  }

  lemma DropMultiples(x: int, q: int)
    ensures (x + 255 * q) % 255 == x % 255
  {
  }

  lemma WeightedGrows(m: seq<byte>)
    requires m != []
    ensures Weighted(m) == Weighted(m[..|m| - 1]) + Total(m)
  {
    WeightedPrefix(m, |m| - 1);
    assert WeightedUpTo(m, |m|) == WeightedUpTo(m, |m| - 1) + m[|m| - 1];
  }

  /** Closed form of both sums. */
  lemma {:induction false} ClosedForm(m: seq<byte>)
    ensures Sum1(m) == Total(m) % 255
    ensures Sum2(m) == Weighted(m) % 255
  {
    if m != [] {
      var m' := m[..|m| - 1];
      ClosedForm(m');
      WeightedGrows(m);
      ModuloAdd(Total(m'), m[|m| - 1]);
      ModuloAdd(Weighted(m'), Total(m));
    }
  }

  lemma {:induction false} TotalAfter(m: seq<byte>, i: nat, x: byte)
    requires i < |m|
    ensures Total(m[i := x]) == Total(m) + x - m[i]
  {
    var n := |m| - 1;
    if i == n {
      assert m[i := x][..n] == m[..n];
    } else {
      TotalAfter(m[..n], i, x);
      assert m[i := x][..n] == m[..n][i := x];
    }
  }

  lemma {:induction false} WeightedAfter(m: seq<byte>, i: nat, x: byte, k: nat)
    requires i < |m| && k <= |m|
    ensures WeightedUpTo(m[i := x], k) == WeightedUpTo(m, k) + if i < k then (|m| - i) * (x - m[i]) else 0
  {
    if k > 0 {
      WeightedAfter(m, i, x, k - 1);
      if i == k - 1 {
        var w, y := |m| - i, m[i];
        assert w * x == w * y + w * (x - y);
      }
    }
  }

  /** Multiples of 255. */
  predicate Zero255(d: int) {
    d % 255 == 0
  }

  lemma SameRemainder(a: int, b: int)
    ensures a % 255 == b % 255 <==> Zero255(a - b)
  {
    var q, r := a / 255, b / 255;
    assert a - b == 255 * (q - r) + (a % 255 - b % 255);
  }

  lemma SameChecksum(a: seq<byte>, b: seq<byte>)
    ensures Checksum(a) == Checksum(b) <==> Zero255(Total(a) - Total(b)) && Zero255(Weighted(a) - Weighted(b))
  {
    ClosedForm(a);
    ClosedForm(b);
    SameRemainder(Total(a), Total(b));
    SameRemainder(Weighted(a), Weighted(b));
  }

  /** Exactly when a change of two bytes (at most) escapes the checksum. */
  lemma TwoByteCriterion(m: seq<byte>, i: nat, j: nat, x: byte, y: byte)
    requires i < j < |m|
    ensures Checksum(m[i := x][j := y]) == Checksum(m)
      <==> Zero255((x - m[i]) + (y - m[j])) && Zero255((j - i) * (x - m[i]))
  {
    var m1 := m[i := x];
    var m2 := m1[j := y];
    var d, e, n := x - m[i], y - m[j], |m|;
    TotalAfter(m, i, x);
    TotalAfter(m1, j, y);
    WeightedAfter(m, i, x, n);
    WeightedAfter(m1, j, y, n);
    SameChecksum(m2, m);
    assert Total(m2) - Total(m) == d + e;
    assert Weighted(m2) - Weighted(m) == (n - i) * d + (n - j) * e;
    assert (n - i) * d + (n - j) * e == (j - i) * d + (n - j) * (d + e) by {
      MulSplit(n - i, n - j, d, e);
    }
    if Zero255(d + e) {
      MultipleStays(n - j, d + e);
      SumOfZeros((j - i) * d, (n - j) * (d + e));
    }
  }

  lemma MulSplit(a: int, b: int, d: int, e: int)
    ensures a * d + b * e == (a - b) * d + b * (d + e)
  {
  }

  lemma MultipleStays(k: int, d: int)
    requires Zero255(d)
    ensures Zero255(k * d)
  {
    var q := d / 255;
    assert d == 255 * q;
    assert k * d == 255 * (k * q);
  }

  lemma SumOfZeros(a: int, b: int)
    requires Zero255(b)
    ensures Zero255(a + b) <==> Zero255(a)
  {
    SameRemainder(a + b, a);
  }

  lemma ExchangedOrSame(x: byte, y: byte)
    ensures Zero255(x - y) <==> x == y || {x, y} == {0, 255}
  {
    if x != y && Zero255(x - y) {
      assert x - y == 255 || x - y == -255;
      assert {x, y} == {0, 255};
    }
    if x != y && {x, y} == {0, 255} {
      assert x in {0, 255} && y in {0, 255};
    }
  }

  /** A change of one byte escapes exactly when it exchanges 0x00 and 0xFF (or is no change). */
  lemma OneByteChange(m: seq<byte>, i: nat, x: byte)
    requires i < |m|
    ensures Checksum(m[i := x]) == Checksum(m) <==> x == m[i] || {x, m[i]} == {0, 255}
  {
    var n, d := |m|, x - m[i];
    TotalAfter(m, i, x);
    WeightedAfter(m, i, x, n);
    SameChecksum(m[i := x], m);
    if Zero255(d) {
      MultipleStays(n - i, d);
    }
    ExchangedOrSame(x, m[i]);
  }

  /** 255 = 3 * 5 * 17, so this is `gcd(k, 255) == 1`. */
  predicate Coprime255(k: int) {
    k % 3 != 0 && k % 5 != 0 && k % 17 != 0
  }

  lemma DivisibleByFactors(d: int)
    ensures Zero255(d) <==> d % 3 == 0 && d % 5 == 0 && d % 17 == 0
  {
    if Zero255(d) {
      var q := d / 255;
      assert d == 3 * (85 * q) == 5 * (51 * q) == 17 * (15 * q);
    }
    if d % 3 == 0 && d % 5 == 0 && d % 17 == 0 {
      var a, b, c := d / 3, d / 5, d / 17;
      assert d == 255 * (a + b - 9 * c);
    }
  }

  /** A product divisible by a prime has a factor divisible by it (for 3, 5 and 17). */
  lemma PrimeFactor(k: int, d: int, p: nat)
    requires p == 3 || p == 5 || p == 17
    requires k % p != 0 && (k * d) % p == 0
    ensures d % p == 0
  {
    var q, a, r, b := k / p, k % p, d / p, d % p;
    ExpandProduct(p, q, a, r, b);
    DropMultiple(a * b, q * (p * r + b) + a * r, p);
    SmallPrimeFactor(a, b, p);
  }

  lemma ExpandProduct(p: int, q: int, a: int, r: int, b: int)
    ensures (p * q + a) * (p * r + b) == p * (q * (p * r + b) + a * r) + a * b
  {
    var d := p * r + b;
    assert (p * q + a) * d == p * (q * d) + a * d;
    assert a * d == a * (p * r) + a * b;
    Regroup(a, p, r);
  }

  lemma DropMultiple(x: int, q: int, p: nat)
    requires p == 3 || p == 5 || p == 17
    requires (p * q + x) % p == 0
    ensures x % p == 0
  {
    var t := (p * q + x) / p;
    assert x == p * (t - q);
  }

  lemma SmallPrimeFactor(a: nat, b: nat, p: nat)
    requires p == 3 || p == 5 || p == 17
    requires 0 < a < p && b < p && (a * b) % p == 0
    ensures b == 0
  {
    if a == 1 {} else if a == 2 {} else if a == 3 {} else if a == 4 {} else if a == 5 {} else if a == 6 {}
    else if a == 7 {} else if a == 8 {} else if a == 9 {} else if a == 10 {} else if a == 11 {} else if a == 12 {}
    else if a == 13 {} else if a == 14 {} else if a == 15 {} else {}
  }

  lemma CoprimeCancels(k: int, d: int)
    requires Coprime255(k) && Zero255(k * d)
    ensures Zero255(d)
  {
    DivisibleByFactors(k * d);
    PrimeFactor(k, d, 3);
    PrimeFactor(k, d, 5);
    PrimeFactor(k, d, 17);
    DivisibleByFactors(d);
  }

  /** A change confined to two bytes whose distance is coprime to 255 escapes exactly when each of
      the two is unchanged or exchanged between 0x00 and 0xFF. Adjacent bytes are at distance 1. */
  lemma TwoByteChange(m: seq<byte>, i: nat, j: nat, x: byte, y: byte)
    requires i < j < |m| && Coprime255(j - i)
    ensures Checksum(m[i := x][j := y]) == Checksum(m)
      <==> (x == m[i] || {x, m[i]} == {0, 255}) && (y == m[j] || {y, m[j]} == {0, 255})
  {
    var d, e := x - m[i], y - m[j];
    TwoByteCriterion(m, i, j, x, y);
    if Zero255(d) {
      MultipleStays(j - i, d);
      SumOfZeros(e, d);
    } else if Zero255((j - i) * d) {
      CoprimeCancels(j - i, d);
    }
    ExchangedOrSame(x, m[i]);
    ExchangedOrSame(y, m[j]);
  }

  /** Swapping two such bytes escapes exactly when they are equal modulo 255. */
  lemma SwapDetected(m: seq<byte>, i: nat, j: nat)
    requires i < j < |m| && Coprime255(j - i)
    ensures Checksum(m[i := m[j]][j := m[i]]) == Checksum(m) <==> m[i] % 255 == m[j] % 255
  {
    TwoByteChange(m, i, j, m[j], m[i]);
    ExchangedOrSame(m[i], m[j]);
    ExchangedOrSame(m[j], m[i]);
    SameRemainder(m[i], m[j]);
    SameRemainder(m[j], m[i]);
  }

  function Inverted(b: byte, k: nat): byte
    requires k < 8
  {
    ByteSetBit(b, k, !Bit(b, k))
  }

  /** `m` with bit `p % 8` of byte `p / 8` inverted. */
  function FlipBit(m: seq<byte>, p: nat): (r: seq<byte>)
    requires p < 8 * |m|
    ensures |r| == |m|
  {
    m[p / 8 := Inverted(m[p / 8], p % 8)]
  }

  lemma PowDivides(k: nat)
    requires k < 8
    ensures Pow2(k) * Pow2(7 - k) == 128 && Pow2(k) <= 128
  {
    PowEight();
    if k == 0 {} else if k == 1 {} else if k == 2 {} else if k == 3 {}
    else if k == 4 {} else if k == 5 {} else if k == 6 {} else {}
  }

  lemma PowDistinct(k: nat, l: nat)
    requires k < l < 8
    ensures Pow2(k) < Pow2(l) <= 128
    decreases l
  {
    PowDivides(l);
    if k < l - 1 {
      PowDistinct(k, l - 1);
    }
  }

  /** How far inverting a bit moves a byte. */
  lemma FlipMoves(b: byte, k: nat) returns (d: int)
    requires k < 8
    ensures Inverted(b, k) == b + d
    ensures d == Pow2(k) || d == -Pow2(k)
    ensures !Zero255(d)
  {
    SetBitMoves(b, k, !Bit(b, k));
    PowDivides(k);
    d := if Bit(b, k) then -Pow2(k) else Pow2(k);
  }

  /** Every single-bit error is detected, in a message of any length. */
  lemma OneBitError(m: seq<byte>, p: nat)
    requires p < 8 * |m|
    ensures Checksum(FlipBit(m, p)) != Checksum(m)
  {
    var d := FlipMoves(m[p / 8], p % 8);
    OneByteChange(m, p / 8, m[p / 8] + d);
    ExchangedOrSame(m[p / 8] + d, m[p / 8]);
  }

  /** Two powers of two, each with a sign, never differ by 255. */
  lemma PowersApart(k: nat, l: nat, d: int, e: int)
    requires k < 8 && l < 8
    requires d == Pow2(k) || d == -Pow2(k)
    requires e == Pow2(l) || e == -Pow2(l)
    requires Zero255(d + e)
    ensures d + e == 0
  {
    PowDivides(k);
    PowDivides(l);
    OddOnlyOne(Pow2(k), if k == 0 then 0 else Pow2(k - 1), Pow2(l), if l == 0 then 0 else Pow2(l - 1), d, e);
  }

  lemma OddOnlyOne(a: int, a': int, b: int, b': int, d: int, e: int)
    requires 1 <= a <= 128 && (a == 1 || a == 2 * a')
    requires 1 <= b <= 128 && (b == 1 || b == 2 * b')
    requires (d == a || d == -a) && (e == b || e == -b)
    requires Zero255(d + e)
    ensures d + e == 0
  {
    assert d + e == 0 || d + e == 255 || d + e == -255;
  }

  /** A power of two times a small nonzero distance is no multiple of 255. */
  lemma PowerNotZero(k: nat, dist: int, d: int)
    requires k < 8 && 0 < dist < 255
    requires d == Pow2(k) || d == -Pow2(k)
    ensures !Zero255(dist * d)
  {
    if Zero255(dist * d) {
      PowDivides(k);
      MultipleStays(Pow2(7 - k), dist * d);
      var f := Pow2(7 - k) * d;
      assert f == 128 || f == -128;
      Regroup(Pow2(7 - k), dist, d);
      NoMultiple(dist, f);
    }
  }

  lemma NoMultiple(dist: int, f: int)
    requires 0 < dist < 255 && (f == 128 || f == -128)
    ensures !Zero255(dist * f)
  {
  }

  lemma Regroup(a: int, b: int, c: int)
    ensures a * (b * c) == b * (a * c)
  {
  }

  /** Every two-bit error in a message of at most 255 bytes, which is as long as the two header bytes
      and a body whose checksum is ever read can be, is detected. */
  lemma TwoBitError(m: seq<byte>, p: nat, q: nat)
    requires |m| <= 255
    requires p < 8 * |m| && q < 8 * |m| && p != q
    ensures Checksum(FlipBit(FlipBit(m, p), q)) != Checksum(m)
  {
    var i, j := p / 8, q / 8;
    if i == j {
      TwoBitsOfOneByte(m, i, p % 8, q % 8);
      assert FlipBit(FlipBit(m, p), q) == m[i := Inverted(Inverted(m[i], p % 8), q % 8)];
    } else if i < j {
      TwoBitsOfTwoBytes(m, i, j, p % 8, q % 8);
      assert FlipBit(FlipBit(m, p), q) == m[i := Inverted(m[i], p % 8)][j := Inverted(m[j], q % 8)];
    } else {
      TwoBitsOfTwoBytes(m, j, i, q % 8, p % 8);
      assert FlipBit(FlipBit(m, p), q) == m[j := Inverted(m[j], q % 8)][i := Inverted(m[i], p % 8)];
    }
  }

  lemma TwoBitsOfOneByte(m: seq<byte>, i: nat, k: nat, l: nat)
    requires i < |m| && k < 8 && l < 8 && k != l
    ensures Checksum(m[i := Inverted(Inverted(m[i], k), l)]) != Checksum(m)
  {
    var d := FlipMoves(m[i], k);
    var e := FlipMoves(Inverted(m[i], k), l);
    OneByteChange(m, i, m[i] + d + e);
    ExchangedOrSame(m[i] + d + e, m[i]);
    if Zero255(d + e) {
      PowersApart(k, l, d, e);
      if k < l { PowDistinct(k, l); } else { PowDistinct(l, k); }
    }
  }

  lemma TwoBitsOfTwoBytes(m: seq<byte>, i: nat, j: nat, k: nat, l: nat)
    requires i < j < |m| <= 255 && k < 8 && l < 8
    ensures Checksum(m[i := Inverted(m[i], k)][j := Inverted(m[j], l)]) != Checksum(m)
  {
    var d := FlipMoves(m[i], k);
    var e := FlipMoves(m[j], l);
    TwoByteCriterion(m, i, j, m[i] + d, m[j] + e);
    PowerNotZero(k, j - i, d);
  }
}
