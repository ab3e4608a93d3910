/**
 Base 128 varints on signed 64-bit integers.

 `EncodeVarint` and `VarintAt` state the encoding (Protocol Buffers "Encoding", section
 "Base 128 Varints") on unsigned patterns; the lemmas connect them with the signed
 shifts, masks and ors that the client's reader and writer use.
 */
module Varint {
  import opened Wrappers
  import opened Words

  function EncodeVarint(u: nat): (bs: seq<Byte>)
    ensures |bs| >= 1
  {
    if u < 128 then [u] else [128 + u % 128] + EncodeVarint(u / 128)
  }

  /** The number of groups up to the first byte without a continuation bit, at most `max`. */
  function Groups(bs: seq<Byte>, max: nat): (n: Option<nat>)
    ensures n.Some? ==> 1 <= n.value <= |bs| && n.value <= max
    ensures n.Some? ==> bs[n.value - 1] < 128 && forall i :: 0 <= i < n.value - 1 ==> bs[i] >= 128
  {
    if bs == [] || max == 0 then None
    else if bs[0] < 128 then Some(1)
    else
      var rest := Groups(bs[1..], max - 1);
      if rest.None? then None else Some(rest.value + 1)
  }

  /** Seven bits from each byte, least significant first. */
  function GroupSum(bs: seq<Byte>): nat {
    if bs == [] then 0 else GroupSum(bs[..|bs| - 1]) + bs[|bs| - 1] % 128 * Pow2(7 * (|bs| - 1))
  }

  /** The varint at the head of `bs`: its pattern and its length. A varint has at most ten bytes. */
  function VarintAt(bs: seq<Byte>): (r: Option<(U64, nat)>)
    ensures r.Some? ==> 1 <= r.value.1 <= |bs| && r.value.1 <= 10
  {
    var n := Groups(bs, 10);
    if n.None? then None else Some((GroupSum(bs[..n.value]) % 0x1_0000_0000_0000_0000, n.value))
  }

  // Encoding and decoding are inverse, whatever follows.

  lemma {:induction false} EncodeLength(u: nat, k: nat)
    requires u < Pow2(7 * k) && k >= 1
    ensures |EncodeVarint(u)| <= k
  {
    if u < 128 {
    } else {
      assert k >= 2 by { Pow2Literals(); }
      Pow2Add(7, 7 * (k - 1));
      Pow2Literals();
      EncodeLength(u / 128, k - 1);
    }
  }

  /** Ten bytes are enough for any pattern, bit 63 included. */
  lemma TenBytes(u: U64)
    ensures |EncodeVarint(u)| <= 10
  {
    Pow2Add(64, 6);
    Pow2Literals();
    EncodeLength(u, 10);
  }

  /** Byte i holds bits 7 * i and up, with the top bit set on all bytes but the last. */
  lemma {:induction false} VarintByte(u: nat, i: nat)
    requires i < |EncodeVarint(u)|
    ensures EncodeVarint(u)[i] == u / Pow2(7 * i) % 128 + if i + 1 < |EncodeVarint(u)| then 128 else 0
  {
    if i == 0 {
      assert Pow2(0) == 1;
    } else {
      VarintByte(u / 128, i - 1);
      Pow2Add(7, 7 * (i - 1));
      SmallPowers();
      DivideTwice(u, 128, Pow2(7 * (i - 1)));
    }
  }

  lemma {:induction false} GroupsOfEncoding(u: nat, rest: seq<Byte>, max: nat)
    requires |EncodeVarint(u)| <= max
    ensures Groups(EncodeVarint(u) + rest, max) == Some(|EncodeVarint(u)|)
  {
    if u < 128 {
    } else {
      GroupsOfEncoding(u / 128, rest, max - 1);
      assert (EncodeVarint(u) + rest)[1..] == EncodeVarint(u / 128) + rest;
    }
  }

  lemma GroupOneUp(g: nat, p: nat)
    ensures g * (128 * p) == 128 * (g * p)
  {
  }

  /** Prepending a group multiplies the rest by 128. */
  lemma {:induction false} GroupSumHead(b: Byte, bs: seq<Byte>)
    ensures GroupSum([b] + bs) == b % 128 + 128 * GroupSum(bs)
  {
    if bs == [] {
      assert ([b] + bs)[..0] == [] && [b] + bs == [b];
    } else {
      var n := |bs| - 1;
      GroupSumHead(b, bs[..n]);
      assert ([b] + bs)[..n + 1] == [b] + bs[..n];
      Pow2Add(7, 7 * n);
      Pow2Literals();
      GroupOneUp(bs[n] % 128, Pow2(7 * n));
    }
  }

  lemma {:induction false} SumOfEncoding(u: nat)
    ensures GroupSum(EncodeVarint(u)) == u
  {
    if u < 128 {
      GroupSumHead(u, []);
      assert [u] + [] == [u];
    } else {
      var b := 128 + u % 128;
      SumOfEncoding(u / 128);
      GroupSumHead(b, EncodeVarint(u / 128));
      assert b % 128 == u % 128;
    }
  }

  /** Reading a written varint gives back the exact pattern and stops right behind it. */
  lemma VarintRoundTrip(u: U64, rest: seq<Byte>)
    ensures VarintAt(EncodeVarint(u) + rest) == Some((u, |EncodeVarint(u)|))
  {
    TenBytes(u);
    GroupsOfEncoding(u, rest, 10);
    assert (EncodeVarint(u) + rest)[..|EncodeVarint(u)|] == EncodeVarint(u);
    SumOfEncoding(u);
  }

  // The signed operations.

  lemma LastBelow(d: nat, m: nat)
    requires d > 0 && m > 0
    ensures (d * m - 1) / d == m - 1
  {
    assert d * (m - 1) + (d - 1) == d * m - 1;
    RemainderUnique(d * m - 1, d, m - 1, d - 1);
  }

  /** `(2^63 - 1) >> (bits - 1)` masks the low 64 - bits bits. */
  lemma MaskOf(bits: nat)
    requires 1 <= bits <= 63
    ensures ShiftRight(0x7FFF_FFFF_FFFF_FFFF, bits - 1) == Pow2(64 - bits) - 1
  {
    var d, m := Pow2(bits - 1), Pow2(64 - bits);
    Pow2Add(bits - 1, 64 - bits);
    Pow2Literals();
    LastBelow(d, m);
  }

  /** Adding a multiple of the divisor adds to the quotient. */
  lemma ShiftedQuotient(x: int, d: nat, m: nat)
    requires d > 0
    ensures (x + d * m) / d == x / d + m
  {
    var q := x / d;
    assert d * (q + m) == d * q + d * m;
    RemainderUnique(x + d * m, d, q + m, x % d);
  }

  /** Both shifts give the same low bits: their quotients differ by a multiple of `m`. */
  lemma NegativeQuotient(x: int, d: nat, m: nat)
    requires d > 0 && m > 0 && -(d * m) <= x < 0
    ensures 0 <= (x + d * m) / d < m
    ensures (x / d + d * m) % m == (x + d * m) / d
  {
    var q := x / d;
    ShiftedQuotient(x, d, m);
    QuotientBelow(x + d * m, d, m);
    assert m * (d - 1) + (q + m) == q + d * m;
    RemainderUnique(q + d * m, m, d - 1, q + m);
  }

  lemma SplitWord(bits: nat)
    requires bits <= 64
    ensures Pow2(bits) * Pow2(64 - bits) == 0x1_0000_0000_0000_0000
  {
    Pow2Add(bits, 64 - bits);
    Pow2Literals();
  }

  /** The arithmetic shift agrees with the logical one on the bits the mask keeps. */
  lemma MaskedShift(x: I64, bits: nat)
    requires 1 <= bits <= 63
    ensures Pattern(ShiftRight(x, bits)) % Pow2(64 - bits) == Pattern(x) / Pow2(bits)
  {
    var d, m := Pow2(bits), Pow2(64 - bits);
    SplitWord(bits);
    if x < 0 {
      NegativeQuotient(x, d, m);
    } else {
      QuotientBelow(x, d, m);
      RemainderUnique(x / d, m, 0, x / d);
    }
  }

  lemma MulMonotone(d: nat, m: nat, q: nat)
    requires m <= q
    ensures d * m <= d * q
  {
  }

  lemma QuotientBelow(u: nat, d: nat, m: nat)
    requires d > 0 && u < d * m
    ensures 0 <= u / d < m
  {
    var q := u / d;
    assert u == d * q + u % d;
    if q >= m { MulMonotone(d, m, q); }
  }

  /** `_unsigned_shr`: the source's emulation of a logical shift. */
  function UnsignedShr(value: I64, bits: nat): I64
    requires 1 <= bits
  {
    And(ShiftRight(value, bits), ShiftRight(0x7FFF_FFFF_FFFF_FFFF, bits - 1))
  }

  /** The emulation is the logical shift, for every word and every distance from 1 to 63. */
  lemma UnsignedShrIsLogical(value: I64, bits: nat)
    requires 1 <= bits <= 63
    ensures Pattern(UnsignedShr(value, bits)) == Pattern(value) / Pow2(bits)
  {
    MaskOf(bits);
    var a := ShiftRight(value, bits);
    AndLowMask(Pattern(a), 64 - bits, 64);
    MaskedShift(value, bits);
    SignedPattern(AndBits(Pattern(a), Pow2(64 - bits) - 1, 64));
  }

  lemma SignedPattern(u: U64)
    ensures Pattern(Signed(u)) == u
  {
  }

  /** A mask of the low seven bits. */
  lemma LowSeven(value: I64)
    ensures And(value, 0x7F) == Pattern(value) % 128
  {
    Pow2Literals();
    AndLowMask(Pattern(value), 7, 64);
  }

  lemma {:induction false} OrSymmetric(a: nat, b: nat, k: nat)
    ensures OrBits(a, b, k) == OrBits(b, a, k)
  {
    if k == 0 {
    } else {
      OrSymmetric(a / 2, b / 2, k - 1);
    }
  }

  /** `byte | 0x80` on a byte below 128. */
  lemma SetContinuation(b: nat)
    requires b < 128
    ensures Or(b, 0x80) == 128 + b
  {
    Pow2Literals();
    OrDisjoint(b, 1, 7, 64);
  }

  /** The part of a shifted group that stays within 64 bits. */
  lemma ShiftedGroup(g: nat, shift: nat)
    requires shift <= 63
    ensures
      var d, c := Pow2(shift), g % Pow2(64 - shift);
      && (g * d) % 0x1_0000_0000_0000_0000 == c * d
      && c * d + d <= 0x1_0000_0000_0000_0000 == Pow2(64)
  {
    var d, m := Pow2(shift), Pow2(64 - shift);
    Pow2Add(shift, 64 - shift);
    Pow2Literals();
    ModScale(g, d, m);
    ProductBelow(g % m, m, d);
  }

  lemma ShiftLeftPattern(g: nat, shift: nat)
    requires g < 128
    ensures Pattern(ShiftLeft(g, shift)) == (g * Pow2(shift)) % 0x1_0000_0000_0000_0000
  {
    SignedPattern((g * Pow2(shift)) % 0x1_0000_0000_0000_0000);
  }

  lemma OrPattern(x: I64, y: I64)
    ensures OrBits(Pattern(x), Pattern(y), 64) < 0x1_0000_0000_0000_0000
    ensures Pattern(Or(x, y)) == OrBits(Pattern(x), Pattern(y), 64)
  {
    BitsBounded(Pattern(x), Pattern(y), 64);
    Pow2Literals();
    SignedPattern(OrBits(Pattern(x), Pattern(y), 64));
  }

  lemma OrAbove(x: I64, y: I64, shift: nat, c: nat)
    requires shift <= 63 && Pattern(x) < Pow2(shift) && Pattern(y) == c * Pow2(shift)
    ensures Pattern(Or(x, y)) == Pattern(x) + Pattern(y)
  {
    OrPattern(x, y);
    Pow2Literals();
    OrDisjoint(Pattern(x), c, shift, 64);
  }

  /** A shifted group is a multiple of 2^shift, and adding it to a smaller number wraps no further. */
  lemma ShiftedInto(sum: nat, g: nat, shift: nat) returns (c: nat)
    requires shift <= 63 && sum < Pow2(shift) && g < 128
    ensures Pattern(ShiftLeft(g, shift)) == c * Pow2(shift)
    ensures (sum + g * Pow2(shift)) % 0x1_0000_0000_0000_0000 == sum + Pattern(ShiftLeft(g, shift))
  {
    c := g % Pow2(64 - shift);
    ShiftedGroup(g, shift);
    ShiftLeftPattern(g, shift);
    ModAdd(sum, g * Pow2(shift), 0x1_0000_0000_0000_0000, c * Pow2(shift));
  }

  /** Or-ing the next group into a partial sum adds it, up to the 64th bit. */
  lemma OrGroup(partial: I64, g: nat, shift: nat)
    requires shift <= 63 && Pattern(partial) < Pow2(shift) && g < 128
    ensures Pattern(Or(partial, ShiftLeft(g, shift))) == (Pattern(partial) + g * Pow2(shift)) % 0x1_0000_0000_0000_0000
  {
    var c := ShiftedInto(Pattern(partial), g, shift);
    OrAbove(partial, ShiftLeft(g, shift), shift, c);
  }

  /** Scaling both sides of a remainder. */
  lemma ModScale(g: nat, d: nat, m: nat)
    requires d > 0 && m > 0
    ensures (g * d) % (d * m) == (g % m) * d
  {
    var q, c := g / m, g % m;
    assert g == m * q + c;
    assert g * d == (d * m) * q + c * d;
    ProductBelow(c, m, d);
    MulAtLeast(d, m);
    RemainderUnique(g * d, d * m, q, c * d);
  }

  /** With room to spare, the multiples of d below d * m leave at least d above them. */
  lemma ProductBelow(c: nat, m: nat, d: nat)
    requires c < m && d > 0
    ensures c * d + d <= d * m
  {
    assert c * d + d == (c + 1) * d;
    assert (c + 1) * d <= m * d;
  }

  lemma ModAdd(a: nat, x: nat, n: nat, r: nat)
    requires n > 0 && x % n == r && a + r < n
    ensures (a + x) % n == a + r
  {
    RemainderUnique(a + x, n, x / n, a + r);
  }
}
