/**
 64-bit words and the bit operations of the two host languages.

 A Rust `u64` is a number below 2^64 (`U64`); a GDScript `int` is a signed 64-bit
 number (`I64`) whose bit pattern is its two's complement representation. The bit
 operators are defined bit by bit on patterns; the lemmas below relate them to
 division and remainder.
 */
module Words {

  type Byte = x: nat | x < 256

  type U64 = x: nat | x < 0x1_0000_0000_0000_0000

  type I64 = x: int | -0x8000_0000_0000_0000 <= x < 0x8000_0000_0000_0000

  /** The two's complement pattern of a signed word. */
  function Pattern(x: I64): (u: U64)
    ensures u == 0 <==> x == 0
    ensures Signed(u) == x
  {
    if x < 0 then x + 0x1_0000_0000_0000_0000 else x
  }

  function Signed(u: U64): I64 {
    if u < 0x8000_0000_0000_0000 then u else u - 0x1_0000_0000_0000_0000
  }

  function Pow2(n: nat): (r: nat)
    ensures r > 0
  {
    if n == 0 then 1 else 2 * Pow2(n - 1)
  }

  // Bitwise operators on the low `k` bits of two patterns.

  function AndBits(a: nat, b: nat, k: nat): nat {
    if k == 0 then 0 else (a % 2) * (b % 2) + 2 * AndBits(a / 2, b / 2, k - 1)
  }

  function OrBits(a: nat, b: nat, k: nat): nat {
    if k == 0 then 0 else (if a % 2 + b % 2 > 0 then 1 else 0) + 2 * OrBits(a / 2, b / 2, k - 1)
  }

  function XorBits(a: nat, b: nat, k: nat): nat {
    if k == 0 then 0 else (a + b) % 2 + 2 * XorBits(a / 2, b / 2, k - 1)
  }

  lemma {:induction false} BitsBounded(a: nat, b: nat, k: nat)
    ensures AndBits(a, b, k) < Pow2(k)
    ensures OrBits(a, b, k) < Pow2(k)
    ensures XorBits(a, b, k) < Pow2(k)
  {
    if k == 0 {
    } else {
      BitsBounded(a / 2, b / 2, k - 1);
      assert (a % 2) * (b % 2) <= 1;
    }
  }

  lemma Pow2Literals()
    ensures Pow2(3) == 8 && Pow2(7) == 128 && Pow2(8) == 256
    ensures Pow2(63) == 0x8000_0000_0000_0000
    ensures Pow2(64) == 0x1_0000_0000_0000_0000
  {
    SmallPowers();
    Pow2Add(8, 8);
    Pow2Add(16, 16);
    Pow2Add(32, 31);
    Pow2Add(16, 15);
    Pow2Add(32, 32);
    Pow2Add(8, 7);
  }

  lemma SmallPowers()
    ensures Pow2(3) == 8 && Pow2(7) == 128 && Pow2(8) == 256
  {
    assert Pow2(1) == 2;
    Pow2Add(1, 1);
    Pow2Add(2, 1);
    Pow2Add(2, 2);
    Pow2Add(4, 3);
    Pow2Add(4, 4);
  }

  lemma {:induction false} Pow2Add(m: nat, n: nat)
    ensures Pow2(m + n) == Pow2(m) * Pow2(n)
  {
    if m == 0 {
    } else {
      Pow2Add(m - 1, n);
      assert 2 * (Pow2(m - 1) * Pow2(n)) == (2 * Pow2(m - 1)) * Pow2(n);
    }
  }

  // The operators of the signed 64-bit language.

  function And(x: I64, y: I64): I64 {
    BitsBounded(Pattern(x), Pattern(y), 64);
    Pow2Literals();
    Signed(AndBits(Pattern(x), Pattern(y), 64))
  }

  function Or(x: I64, y: I64): I64 {
    BitsBounded(Pattern(x), Pattern(y), 64);
    Pow2Literals();
    Signed(OrBits(Pattern(x), Pattern(y), 64))
  }

  /** `x >> n`: an arithmetic shift, which rounds toward minus infinity. */
  function ShiftRight(x: I64, n: nat): I64 {
    DivBetween(x, Pow2(n));
    x / Pow2(n)
  }

  /** `x << n`: the bits pushed beyond bit 63 are lost. */
  function ShiftLeft(x: I64, n: nat): I64 {
    Signed((Pattern(x) * Pow2(n)) % 0x1_0000_0000_0000_0000)
  }

  lemma OneMore(m: nat, n: nat)
    ensures (m + 1) * n == m * n + n
  {
  }

  lemma {:induction false} MulAtLeast(n: nat, d: nat)
    requires d > 0
    ensures n <= n * d
  {
    if n == 0 {
    } else {
      MulAtLeast(n - 1, d);
      assert n * d == (n - 1) * d + d;
    }
  }

  lemma DivBetween(x: int, d: nat)
    requires d > 0
    ensures x >= 0 ==> 0 <= x / d <= x
    ensures x < 0 ==> x <= x / d < 0
  {
    var q := x / d;
    assert x == q * d + x % d;
    if q >= 0 {
      MulAtLeast(q, d);
    } else {
      MulAtLeast(-1 - q, d);
      assert (-1 - q) * d == -(d as int) - q * d;
    }
  }

  // Masks, disjoint unions and exclusive or.

  lemma {:induction false} AndLowMask(a: nat, j: nat, k: nat)
    requires j <= k
    ensures AndBits(a, Pow2(j) - 1, k) == a % Pow2(j)
  {
    if j == 0 {
      AndZero(a, k);
    } else {
      AndLowMask(a / 2, j - 1, k - 1);
      BitAndRest(1, Pow2(j - 1) - 1);
      HalveRemainder(a, Pow2(j - 1));
    }
  }

  lemma HalveRemainder(a: nat, h: nat)
    requires h > 0
    ensures a % (2 * h) == a % 2 + 2 * ((a / 2) % h)
  {
    var q, r := a / 2 / h, (a / 2) % h;
    assert a / 2 == q * h + r;
    assert a == (2 * h) * q + (a % 2 + 2 * r);
    RemainderUnique(a, 2 * h, q, a % 2 + 2 * r);
  }

  lemma RemainderUnique(a: int, d: int, q: int, r: int)
    requires d > 0 && a == d * q + r && 0 <= r < d
    ensures a % d == r && a / d == q
  {
    var e := a / d - q;
    assert d * e == d * (a / d) - d * q;
    assert -d < d * e < d;
    SmallMultiple(d, e);
  }

  lemma SmallMultiple(d: int, e: int)
    requires -d < d * e < d
    ensures e == 0
  {
  }

  lemma {:induction false} AndZero(a: nat, k: nat)
    ensures AndBits(a, 0, k) == 0
  {
    if k == 0 {
    } else {
      AndZero(a / 2, k - 1);
    }
  }

  lemma {:induction false} OrZero(a: nat, k: nat)
    requires a < Pow2(k)
    ensures OrBits(0, a, k) == a
  {
    if k == 0 {
    } else {
      OrZero(a / 2, k - 1);
    }
  }

  /** Or is a sum when the second operand only has bits above those of the first. */
  lemma {:induction false} OrDisjoint(a: nat, c: nat, j: nat, k: nat)
    requires j <= k && a < Pow2(j) && c * Pow2(j) < Pow2(k)
    ensures OrBits(a, c * Pow2(j), k) == a + c * Pow2(j)
  {
    if j == 0 {
      OrZero(c, k);
    } else {
      var h := Pow2(j - 1);
      assert c * (2 * h) == 2 * (c * h);
      OrDisjoint(a / 2, c, j - 1, k - 1);
    }
  }

  lemma BitAndRest(bit: nat, rest: nat)
    requires bit < 2
    ensures (bit + 2 * rest) % 2 == bit && (bit + 2 * rest) / 2 == rest
  {
  }

  lemma ParityTwice(a: nat, b: nat, x: nat)
    requires x % 2 == (a + b) % 2
    ensures (x + b) % 2 == a % 2
  {
  }

  lemma {:induction false} XorInvolution(a: nat, b: nat, k: nat)
    requires a < Pow2(k)
    ensures XorBits(XorBits(a, b, k), b, k) == a
  {
    if k == 0 {
    } else {
      XorInvolution(a / 2, b / 2, k - 1);
      BitAndRest((a + b) % 2, XorBits(a / 2, b / 2, k - 1));
      ParityTwice(a, b, XorBits(a, b, k));
    }
  }

  lemma {:induction false} XorSymmetric(a: nat, b: nat, k: nat)
    ensures XorBits(a, b, k) == XorBits(b, a, k)
  {
    if k == 0 {
    } else {
      XorSymmetric(a / 2, b / 2, k - 1);
    }
  }

  /** Bit j of an exclusive or is the sum modulo two of the bits j. */
  lemma {:induction false} XorBit(a: nat, b: nat, k: nat, j: nat)
    requires j < k
    ensures XorBits(a, b, k) / Pow2(j) % 2 == (a / Pow2(j) + b / Pow2(j)) % 2
  {
    var rest := XorBits(a / 2, b / 2, k - 1);
    BitAndRest((a + b) % 2, rest);
    if j == 0 {
      assert Pow2(0) == 1;
    } else {
      XorBit(a / 2, b / 2, k - 1, j - 1);
      HalveQuotient(XorBits(a, b, k), Pow2(j - 1));
      HalveQuotient(a, Pow2(j - 1));
      HalveQuotient(b, Pow2(j - 1));
    }
  }

  lemma HalveQuotient(a: nat, h: nat)
    requires h > 0
    ensures a / (2 * h) == a / 2 / h
  {
    var q, r := a / 2 / h, (a / 2) % h;
    assert a / 2 == q * h + r;
    assert a == (2 * h) * q + (a % 2 + 2 * r);
    RemainderUnique(a, 2 * h, q, a % 2 + 2 * r);
  }

  /** An exclusive or with a byte leaves all bits above it alone. */
  lemma XorByte(s: nat, b: Byte)
    requires s < 0x1_0000_0000_0000_0000
    ensures XorBits(s, b, 64) == s - s % 256 + XorBits(s % 256, b, 8)
  {
    Pow2Literals();
    XorDisjoint(s % 256, s / 256, b, 8, 64);
    assert s % 256 + s / 256 * Pow2(8) == s;
  }

  /** Bits above both operands' first j come through unchanged. */
  lemma {:induction false} XorDisjoint(a: nat, c: nat, b: nat, j: nat, k: nat)
    requires j <= k && a < Pow2(j) && b < Pow2(j) && c * Pow2(j) < Pow2(k)
    ensures XorBits(a + c * Pow2(j), b, k) == XorBits(a, b, j) + c * Pow2(j)
  {
    if j == 0 {
      XorWhole(c, k);
    } else {
      var h := Pow2(j - 1);
      assert c * (2 * h) == 2 * (c * h);
      XorDisjoint(a / 2, c, b / 2, j - 1, k - 1);
      BitAndRest(a % 2, a / 2 + c * h);
      XorPeeled(a + c * Pow2(j), a, b, k, a / 2 + c * h);
    }
  }

  lemma XorPeeled(x: nat, a: nat, b: nat, j: nat, rest: nat)
    requires j > 0 && x % 2 == a % 2 && x / 2 == rest
    ensures XorBits(x, b, j) == (a + b) % 2 + 2 * XorBits(rest, b / 2, j - 1)
  {
  }

  lemma {:induction false} XorWhole(a: nat, k: nat)
    requires a < Pow2(k)
    ensures XorBits(a, 0, k) == a
  {
    if k == 0 {
    } else {
      XorWhole(a / 2, k - 1);
    }
  }

  // Little-endian bytes.

  function LittleEndian(u: nat, n: nat): (bs: seq<Byte>)
    ensures |bs| == n
  {
    if n == 0 then [] else [u % 256] + LittleEndian(u / 256, n - 1)
  }

  function FromLittleEndian(bs: seq<Byte>): nat {
    if bs == [] then 0 else bs[0] + 256 * FromLittleEndian(bs[1..])
  }

  /** Byte k holds bits 8 * k and up. */
  lemma {:induction false} LittleEndianByte(u: nat, n: nat, k: nat)
    requires k < n
    ensures LittleEndian(u, n)[k] == u / Pow2(8 * k) % 256
  {
    if k == 0 {
      assert Pow2(0) == 1;
    } else {
      LittleEndianByte(u / 256, n - 1, k - 1);
      Pow2Add(8, 8 * (k - 1));
      Pow2Literals();
      DivideTwice(u, 256, Pow2(8 * (k - 1)));
      assert LittleEndian(u, n)[k] == LittleEndian(u / 256, n - 1)[k - 1];
    }
  }

  lemma DivideTwice(u: nat, a: nat, b: nat)
    requires a > 0 && b > 0
    ensures a * b > 0 && u / (a * b) == u / a / b
  {
    var q, r, t := u / a / b, (u / a) % b, u % a;
    assert u == a * (b * q + r) + t;
    assert u == (a * b) * q + (a * r + t);
    assert a * r + t < a * b by { ProductBelow(a, r, b); }
    PositiveProduct(a, b);
    RemainderUnique(u, a * b, q, a * r + t);
  }

  lemma PositiveProduct(a: nat, b: nat)
    requires a > 0 && b > 0
    ensures a * b > 0
  {
  }

  lemma ProductBelow(a: nat, r: nat, b: nat)
    requires r < b
    ensures a * r + a <= a * b
  {
    assert a * (r + 1) <= a * b;
  }

  lemma {:induction false} LittleEndianRoundTrip(u: nat, n: nat)
    requires u < Pow2(8 * n)
    ensures FromLittleEndian(LittleEndian(u, n)) == u
  {
    if n == 0 {
    } else {
      Pow2Add(8, 8 * (n - 1));
      Pow2Literals();
      LittleEndianRoundTrip(u / 256, n - 1);
      assert LittleEndian(u, n)[1..] == LittleEndian(u / 256, n - 1);
    }
  }

  lemma {:induction false} FromLittleEndianBounded(bs: seq<Byte>)
    ensures FromLittleEndian(bs) < Pow2(8 * |bs|)
  {
    if bs == [] {
    } else {
      FromLittleEndianBounded(bs[1..]);
      Pow2Add(8, 8 * (|bs| - 1));
      Pow2Literals();
    }
  }
}
