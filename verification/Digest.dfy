/**
 The state digest's hash: FNV-1a with 64 bits.

 `Fnv` is the hash as a function of the bytes; `Fnv1a64` is the running hasher.
 */
module Digest {
  import opened Words

  const OFFSET_BASIS: U64 := 0xcbf29ce484222325

  /** `state ^= byte; state = state.wrapping_mul(0x100000001b3)`. */
  function Step(s: U64, b: Byte): U64 {
    (XorBits(s, b, 64) * 0x100000001b3) % 0x1_0000_0000_0000_0000
  }

  /** Undoes `Step`: 0xce965057aff6957b is the inverse of the FNV prime modulo 2^64. */
  function Unstep(t: U64, b: Byte): U64 {
    var x := (t * 0xce965057aff6957b) % 0x1_0000_0000_0000_0000;
    XorWord(x, b);
    XorBits(x, b, 64)
  }

  function Fnv(s: U64, bytes: seq<Byte>): U64 {
    if bytes == [] then s else Step(Fnv(s, bytes[..|bytes| - 1]), bytes[|bytes| - 1])
  }

  class Fnv1a64 {
    var state: U64

    constructor ()
      ensures state == OFFSET_BASIS
    {
      state := OFFSET_BASIS;
    }

    method Update(bytes: seq<Byte>)
      modifies this
      ensures state == Fnv(old(state), bytes)
    {
      var i := 0;
      while i < |bytes|
        invariant 0 <= i <= |bytes|
        invariant state == Fnv(old(state), bytes[..i])
      {
        state := Step(state, bytes[i]);
        i := i + 1;
        assert bytes[..i][..i - 1] == bytes[..i - 1];
      }
      assert bytes[..i] == bytes;
    }

    method Finish() returns (digest: U64)
      ensures digest == state
    {
      digest := state;
    }
  }

  lemma XorWord(s: U64, b: Byte)
    ensures XorBits(s, b, 64) < 0x1_0000_0000_0000_0000
    ensures XorBits(XorBits(s, b, 64), b, 64) == s
    ensures XorBits(s, b, 64) == XorBits(b, s, 64)
  {
    Pow2Literals();
    BitsBounded(s, b, 64);
    XorInvolution(s, b, 64);
    XorSymmetric(s, b, 64);
  }

  lemma PrimeTimesInverse(x: U64)
    ensures ((x * 0x100000001b3) % 0x1_0000_0000_0000_0000 * 0xce965057aff6957b) % 0x1_0000_0000_0000_0000 == x
    ensures ((x * 0xce965057aff6957b) % 0x1_0000_0000_0000_0000 * 0x100000001b3) % 0x1_0000_0000_0000_0000 == x
  {
    UndoMultiplication(x, 0x100000001b3, 0xce965057aff6957b, 0xce9650590f, 0x1_0000_0000_0000_0000);
    UndoMultiplication(x, 0xce965057aff6957b, 0x100000001b3, 0xce9650590f, 0x1_0000_0000_0000_0000);
  }

  /** If p * q == 1 modulo m, multiplying by q undoes multiplying by p. */
  lemma UndoMultiplication(x: nat, p: nat, q: nat, k: nat, m: nat)
    requires x < m && p * q == 1 + k * m
    ensures ((x * p) % m * q) % m == x
  {
    var d := x * p / m;
    calc {
      (x * p) % m * q;
      { assert x * p == d * m + (x * p) % m; }
      (x * p - d * m) * q;
      { DistributeRight(x * p, d * m, q); }
      x * p * q - d * m * q;
      { assert x * p * q == x * (p * q) == x * (1 + k * m) == x + x * (k * m); }
      x + x * (k * m) - d * m * q;
      { assert x * (k * m) == m * (x * k) && d * m * q == m * (d * q); DistributeLeft(m, x * k, d * q); }
      m * (x * k - d * q) + x;
    }
    RemainderUnique((x * p) % m * q, m, x * k - d * q, x);
  }

  lemma DistributeRight(a: int, b: int, c: int)
    ensures (a - b) * c == a * c - b * c
  {
  }

  lemma DistributeLeft(a: int, b: int, c: int)
    ensures a * (b - c) == a * b - a * c
  {
  }

  /** Each byte step is a bijection on hasher states, and `Unstep` is its inverse. */
  lemma StepBijective(s: U64, b: Byte)
    ensures Unstep(Step(s, b), b) == s
    ensures Step(Unstep(s, b), b) == s
  {
    XorWord(s, b);
    PrimeTimesInverse(XorBits(s, b, 64));
    PrimeTimesInverse(s);
    XorWord((s * 0xce965057aff6957b) % 0x1_0000_0000_0000_0000, b);
  }

  /** What determines the step: a zero byte multiplies by the FNV prime modulo 2^64 ... */
  lemma StepMultiplies(s: U64)
    ensures Step(s, 0) == (s * 0x100000001b3) % 0x1_0000_0000_0000_0000
  {
    Pow2Literals();
    XorWhole(s, 64);
  }

  /** ... and any other byte is first xored into the low eight bits, bit by bit. */
  lemma StepXorsFirst(s: U64, b: Byte)
    ensures
      var x := XorBits(s, b, 64);
      && x < 0x1_0000_0000_0000_0000 && Step(s, b) == Step(x, 0)
      && x / 256 == s / 256 && forall j: nat :: j < 8 ==> x / Pow2(j) % 2 == (s / Pow2(j) + b / Pow2(j)) % 2
  {
    var x := XorBits(s, b, 64);
    XorWord(s, b);
    StepMultiplies(x);
    UpperBytes(s, b, x);
    forall j: nat | j < 8 ensures x / Pow2(j) % 2 == (s / Pow2(j) + b / Pow2(j)) % 2 {
      XorBit(s, b, 64, j);
    }
  }

  lemma UpperBytes(s: U64, b: Byte, x: nat)
    requires x == XorBits(s, b, 64)
    ensures x / 256 == s / 256
  {
    XorByte(s, b);
    Pow2Literals();
    BitsBounded(s % 256, b, 8);
  }

  lemma OneByte(s: U64, b: Byte)
    ensures Fnv(s, [b]) == Step(s, b)
  {
    assert [b][..0] == [];
  }

  lemma XorsThenMultiplies(s: U64, b: Byte, x: nat)
    requires x == XorBits(s, b, 64)
    ensures Step(s, b) == (x * 0x100000001b3) % 0x1_0000_0000_0000_0000
  {
  }

  /** From the top bit down: 0x25 xor 0x61 is 0x44. */
  lemma LowByteOfA()
    ensures XorBits(0x25, 0x61, 8) == 0x44
  {
    assert XorBits(0, 0, 1) == 0;
    assert XorBits(0, 1, 2) == 1;
    assert XorBits(1, 3, 3) == 2;
    assert XorBits(2, 6, 4) == 4;
    assert XorBits(4, 12, 5) == 8;
    assert XorBits(9, 24, 6) == 17;
    assert XorBits(18, 48, 7) == 34;
  }

  lemma XorOfLow(s: U64, b: Byte, low: nat, x: nat)
    requires low == s % 256 && x == XorBits(low, b, 8)
    ensures XorBits(s, b, 64) == s - low + x
  {
    XorByte(s, b);
  }

  lemma XorOfA(s: U64, a: Byte, low: nat, x: nat)
    requires s == 0xcbf29ce484222325 && low == 0x25 && x == XorBits(low, a, 8) == 0x44
    ensures XorBits(s, a, 64) == 0xcbf29ce484222344
  {
    RemainderUnique(s, 256, 0xcbf29ce4842223, 0x25);
    XorOfLow(s, a, low, x);
  }

  lemma StepOfA(s: U64, a: Byte, x: nat)
    requires x == XorBits(s, a, 64) == 0xcbf29ce484222344
    ensures Step(s, a) == 0xaf63dc4c8601ec8c
  {
    XorsThenMultiplies(s, a, x);
  }

  /** The published values for the empty message and for "a". */
  lemma PublishedValues(basis: U64, a: Byte)
    requires basis == OFFSET_BASIS && a == 0x61
    ensures Fnv(basis, []) == 0xcbf29ce484222325
    ensures Fnv(basis, [a]) == 0xaf63dc4c8601ec8c
  {
    OneByte(basis, a);
    LowByteOfA();
    XorOfA(basis, a, 0x25, 0x44);
    StepOfA(basis, a, XorBits(basis, a, 64));
  }

  /** From one state, different bytes lead to different states. */
  lemma StepSeparatesBytes(s: U64, b: Byte, c: Byte)
    requires b != c
    ensures Step(s, b) != Step(s, c)
  {
    XorWord(s, b);
    XorWord(s, c);
    PrimeTimesInverse(XorBits(s, b, 64));
    PrimeTimesInverse(XorBits(s, c, 64));
    Pow2Literals();
    XorInvolution(b, s, 64);
    XorInvolution(c, s, 64);
  }

  lemma {:induction false} FnvConcat(s: U64, a: seq<Byte>, b: seq<Byte>)
    ensures Fnv(s, a + b) == Fnv(Fnv(s, a), b)
  {
    if b == [] {
      assert a + b == a;
    } else {
      var n := |b| - 1;
      FnvConcat(s, a, b[..n]);
      assert (a + b)[..|a| + n] == a + b[..n];
    }
  }

  /** Hashing any fixed bytes is injective in the starting state. */
  lemma {:induction false} FnvInjective(s: U64, t: U64, bytes: seq<Byte>)
    ensures Fnv(s, bytes) == Fnv(t, bytes) <==> s == t
  {
    if bytes == [] {
    } else {
      var n := |bytes| - 1;
      FnvInjective(s, t, bytes[..n]);
      StepBijective(Fnv(s, bytes[..n]), bytes[n]);
      StepBijective(Fnv(t, bytes[..n]), bytes[n]);
    }
  }

  /** Two messages of one length that differ in exactly one byte never collide. */
  lemma OneByteChangesHash(s: U64, a: seq<Byte>, b: seq<Byte>, i: nat)
    requires |a| == |b| && i < |a| && a[i] != b[i]
    requires forall j :: 0 <= j < |a| && j != i ==> a[j] == b[j]
    ensures Fnv(s, a) != Fnv(s, b)
  {
    assert a == a[..i] + [a[i]] + a[i + 1..];
    assert b == a[..i] + [b[i]] + a[i + 1..];
    FnvConcat(s, a[..i] + [a[i]], a[i + 1..]);
    FnvConcat(s, a[..i] + [b[i]], a[i + 1..]);
    var t := Fnv(s, a[..i]);
    assert (a[..i] + [a[i]])[..i] == a[..i] == (a[..i] + [b[i]])[..i];
    StepSeparatesBytes(t, a[i], b[i]);
    FnvInjective(Step(t, a[i]), Step(t, b[i]), a[i + 1..]);
  }
}
