/**
 f64 arithmetic.

 The simulation and the input buffer only rely on the operations being functions, so
 they are fields of an `Arith` value and every theorem holds for all of them. `bits`
 is `to_bits`; the classification predicates of IEEE 754 are read off the pattern.
 `Exact` describes arithmetic over the reals, for the results where rounding is not
 the point.
 */
module Float64 {
  import opened Words

  datatype Arith<!F> = Arith(
    ofInt: nat -> F,
    add: (F, F) -> F,
    mul: (F, F) -> F,
    div: (F, F) -> F,
    sqrt: F -> F,
    le: (F, F) -> bool,
    lt: (F, F) -> bool,
    bits: F -> U64)
  {
    function Zero(): F { ofInt(0) }

    function One(): F { ofInt(1) }

    function Origin(): Vec2<F> { Vec2(Zero(), Zero()) }

    function MagnitudeSquared(v: Vec2<F>): F {
      add(mul(v.x, v.x), mul(v.y, v.y))
    }

    predicate IsFinite(x: F) { !IsNan(bits(x)) && !IsInfinite(bits(x)) }
  }

  datatype Vec2<F> = Vec2(x: F, y: F)

  // The exponent occupies bits 52..62, the fraction bits 0..51.

  predicate IsNan(u: U64) {
    u / 0x10_0000_0000_0000 % 2048 == 2047 && u % 0x10_0000_0000_0000 != 0
  }

  predicate IsInfinite(u: U64) {
    u / 0x10_0000_0000_0000 % 2048 == 2047 && u % 0x10_0000_0000_0000 == 0
  }

  /** +0.0 and -0.0. */
  predicate IsZero(u: U64) { u % 0x8000_0000_0000_0000 == 0 }

  const QUIET_NAN: U64 := 0x7ff8_0000_0000_0000

  /** `canonicalize_f64` on the bit pattern of its argument. */
  function Canonical(u: U64): U64 {
    if IsNan(u) then QUIET_NAN else if IsZero(u) then 0 else u
  }

  /** Canonicalisation identifies the NaNs with each other, the zeros with each other, and nothing else. */
  lemma CanonicalEquivalence(u: U64, v: U64)
    ensures Canonical(u) == Canonical(v) <==> u == v || (IsNan(u) && IsNan(v)) || (IsZero(u) && IsZero(v))
    ensures Canonical(Canonical(u)) == Canonical(u)
  {
    assert IsNan(QUIET_NAN) && !IsZero(QUIET_NAN);
    assert IsZero(0) && !IsNan(0);
  }

  /** The classes of IEEE 754 section 3.4, read off the magnitude: the word without its sign bit. */
  lemma Classes(u: U64)
    ensures
      var magnitude := u % 0x8000_0000_0000_0000;
      && (IsNan(u) <==> magnitude > 0x7ff0_0000_0000_0000)
      && (IsInfinite(u) <==> magnitude == 0x7ff0_0000_0000_0000)
      && (IsZero(u) <==> magnitude == 0)
  {
    var low, sign := u % 0x8000_0000_0000_0000, u / 0x8000_0000_0000_0000;
    assert u == 0x10_0000_0000_0000 * (2048 * sign + low / 0x10_0000_0000_0000) + low % 0x10_0000_0000_0000;
    RemainderUnique(u, 0x10_0000_0000_0000, 2048 * sign + low / 0x10_0000_0000_0000, low % 0x10_0000_0000_0000);
    RemainderUnique(u / 0x10_0000_0000_0000, 2048, sign, low / 0x10_0000_0000_0000);
  }

  /** What stands for each class: the quiet NaN with no payload, plus zero, and everything else for itself. */
  lemma CanonicalPattern(u: U64)
    ensures
      var magnitude := u % 0x8000_0000_0000_0000;
      Canonical(u) == if magnitude > 0x7ff0_0000_0000_0000 then 0x7ff8_0000_0000_0000 else if magnitude == 0 then 0 else u
  {
    Classes(u);
  }

  /** Arithmetic without rounding: the reals, with a positive square root. */
  ghost predicate Exact(ar: Arith<real>) {
    && (forall n: nat :: ar.ofInt(n) == n as real)
    && (forall a, b :: ar.add(a, b) == a + b)
    && (forall a, b :: ar.mul(a, b) == a * b)
    && (forall a, b :: b != 0.0 ==> ar.div(a, b) == a / b)
    && (forall a :: a > 0.0 ==> ar.sqrt(a) > 0.0 && ar.sqrt(a) * ar.sqrt(a) == a)
    && (forall a, b :: ar.le(a, b) <==> a <= b)
    && (forall a, b :: ar.lt(a, b) <==> a < b)
  }
}
