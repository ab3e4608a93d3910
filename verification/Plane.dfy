/** The plane over the reals: lengths, the triangle inequality, and clamping to length one. */
module Plane {
  import opened Float64
  import opened Simulation

  function NormSq(v: Vec2<real>): real { v.x * v.x + v.y * v.y }

  /** `v` lies within distance r of the origin. */
  predicate Within(v: Vec2<real>, r: real) { r >= 0.0 && NormSq(v) <= r * r }

  // The triangle inequality, by way of Cauchy-Schwarz.

  lemma SquareNonNegative(x: real)
    ensures x * x >= 0.0
  {
  }

  lemma ProductMonotone(a: real, b: real, c: real, d: real)
    requires 0.0 <= a <= c && 0.0 <= b <= d
    ensures a * b <= c * d
  {
    assert a * b <= c * b;
    assert c * b <= c * d;
  }

  lemma PositiveProduct(a: real, b: real)
    requires a > 0.0 && b > 0.0
    ensures a * b > 0.0
  {
  }

  lemma SquareReflectsOrder(a: real, b: real)
    requires b >= 0.0 && a * a <= b * b
    ensures a <= b
  {
    if a > b {
      assert a * a - b * b == (a - b) * (a + b);
      PositiveProduct(a - b, a + b);
    }
  }

  lemma CauchySchwarz(u: Vec2<real>, v: Vec2<real>)
    ensures (u.x * v.x + u.y * v.y) * (u.x * v.x + u.y * v.y) <= NormSq(u) * NormSq(v)
  {
    var cross := u.x * v.y - u.y * v.x;
    SquareNonNegative(cross);
    Lagrange(u.x, u.y, v.x, v.y);
  }

  lemma Lagrange(a: real, b: real, c: real, d: real)
    ensures (a * a + b * b) * (c * c + d * d) == (a * c + b * d) * (a * c + b * d) + (a * d - b * c) * (a * d - b * c)
  {
  }

  lemma DotBound(u: Vec2<real>, v: Vec2<real>, r: real, q: real)
    requires Within(u, r) && Within(v, q)
    ensures u.x * v.x + u.y * v.y <= r * q
  {
    var dot := u.x * v.x + u.y * v.y;
    CauchySchwarz(u, v);
    SquareNonNegative(u.x);
    SquareNonNegative(u.y);
    SquareNonNegative(v.x);
    SquareNonNegative(v.y);
    ProductMonotone(NormSq(u), NormSq(v), r * r, q * q);
    assert (r * r) * (q * q) == (r * q) * (r * q);
    SquareReflectsOrder(dot, r * q);
  }

  lemma Triangle(u: Vec2<real>, v: Vec2<real>, r: real, q: real)
    requires Within(u, r) && Within(v, q)
    ensures Within(Vec2(u.x + v.x, u.y + v.y), r + q)
  {
    DotBound(u, v, r, q);
    SumSquare(u.x, v.x);
    SumSquare(u.y, v.y);
    SumSquare(r, q);
  }

  lemma SumSquare(a: real, b: real)
    ensures (a + b) * (a + b) == a * a + 2.0 * (a * b) + b * b
  {
  }

  lemma Scaled(v: Vec2<real>, r: real, s: real)
    requires Within(v, r) && s >= 0.0
    ensures Within(Vec2(v.x * s, v.y * s), r * s)
  {
    ProductSquare(v.x, s);
    ProductSquare(v.y, s);
    ProductSquare(r, s);
    SquareNonNegative(s);
    assert NormSq(v) * (s * s) <= (r * r) * (s * s);
  }

  lemma ProductSquare(a: real, s: real)
    ensures (a * s) * (a * s) == (a * a) * (s * s)
  {
  }

  // Clamping.

  lemma LongClamped<F>(ar: Arith<F>, v: Vec2<F>, scale: F)
    requires !ar.le(ar.MagnitudeSquared(v), ar.mul(ar.One(), ar.One()))
    requires scale == ar.div(ar.One(), ar.sqrt(ar.MagnitudeSquared(v)))
    ensures ClampMagnitude(ar, v, ar.One()) == Vec2(ar.mul(v.x, scale), ar.mul(v.y, scale))
  {
  }

  lemma RealRoot(ar: Arith<real>, v: Vec2<real>) returns (root: real)
    requires Exact(ar) && NormSq(v) > 1.0
    ensures root > 0.0 && root * root == NormSq(v) && root == ar.sqrt(ar.MagnitudeSquared(v))
    ensures !ar.le(ar.MagnitudeSquared(v), ar.mul(ar.One(), ar.One()))
  {
    assert ar.MagnitudeSquared(v) == NormSq(v);
    root := ar.sqrt(NormSq(v));
  }

  /** The clamp over the reals. */
  lemma ClampOverReals(ar: Arith<real>, v: Vec2<real>) returns (root: real)
    requires Exact(ar) && NormSq(v) > 1.0
    ensures root > 0.0 && root * root == NormSq(v)
    ensures ClampMagnitude(ar, v, ar.One()) == Vec2(v.x * (1.0 / root), v.y * (1.0 / root))
  {
    root := RealRoot(ar, v);
    var scale := ar.div(ar.One(), root);
    LongClamped(ar, v, scale);
    ScaleExact(ar, v, root, scale);
  }

  lemma ScaleExact(ar: Arith<real>, v: Vec2<real>, root: real, scale: real)
    requires Exact(ar) && root > 0.0 && scale == ar.div(ar.One(), root)
    ensures ar.mul(v.x, scale) == v.x * (1.0 / root) && ar.mul(v.y, scale) == v.y * (1.0 / root)
  {
    assert scale == 1.0 / root;
  }

  lemma ShortUnclamped(ar: Arith<real>, v: Vec2<real>)
    requires Exact(ar) && NormSq(v) <= 1.0
    ensures ClampMagnitude(ar, v, ar.One()) == v
  {
    assert ar.MagnitudeSquared(v) == NormSq(v);
  }

  lemma UnitScale(v: Vec2<real>, root: real)
    requires root > 0.0 && root * root == NormSq(v)
    ensures Within(Vec2(v.x * (1.0 / root), v.y * (1.0 / root)), 1.0)
  {
    var scale := 1.0 / root;
    assert root * scale == 1.0;
    ProductSquare(v.x, scale);
    ProductSquare(v.y, scale);
    ProductSquare(root, scale);
    assert NormSq(v) * (scale * scale) == 1.0;
  }

  /** Whatever the intent, the direction used has length at most one. */
  lemma ClampedUnit(ar: Arith<real>, v: Vec2<real>)
    requires Exact(ar)
    ensures Within(ClampMagnitude(ar, v, ar.One()), 1.0)
  {
    if NormSq(v) > 1.0 {
      var root := ClampOverReals(ar, v);
      UnitScale(v, root);
    } else {
      ShortUnclamped(ar, v);
    }
  }

  // Moving.

  lemma MoveOverReals(ar: Arith<real>, dt: real, c: Character<real>, intent: Vec2<real>)
    requires Exact(ar)
    ensures
      var dir, moved := ClampMagnitude(ar, intent, ar.One()), Move(ar, dt, c, intent);
      && moved.position.x == c.position.x + dir.x * 5.0 * dt
      && moved.position.y == c.position.y + dir.y * 5.0 * dt
  {
  }

  lemma NonzeroProduct(a: real, b: real)
    requires a != 0.0 && b != 0.0
    ensures a * b != 0.0
  {
  }

  /** Clamping keeps a direction that is not zero. */
  lemma ClampNonzero(ar: Arith<real>, v: Vec2<real>)
    requires Exact(ar) && v != Vec2(0.0, 0.0)
    ensures ClampMagnitude(ar, v, ar.One()) != Vec2(0.0, 0.0)
  {
    if NormSq(v) > 1.0 {
      var root := ClampOverReals(ar, v);
      var scale := 1.0 / root;
      if v.x != 0.0 {
        NonzeroProduct(v.x, scale);
      } else {
        NonzeroProduct(v.y, scale);
      }
    } else {
      ShortUnclamped(ar, v);
    }
  }

  lemma NonzeroStep(a: real, dt: real)
    requires a != 0.0 && dt > 0.0
    ensures a * 5.0 * dt != 0.0
  {
    NonzeroProduct(a * 5.0, dt);
  }

  /** An intent that is not zero moves the character somewhere else. */
  lemma NonzeroMoves(ar: Arith<real>, dt: real, c: Character<real>, intent: Vec2<real>)
    requires Exact(ar) && dt > 0.0 && intent != Vec2(0.0, 0.0)
    ensures Move(ar, dt, c, intent).position != c.position
  {
    var dir := ClampMagnitude(ar, intent, ar.One());
    ClampNonzero(ar, intent);
    MoveOverReals(ar, dt, c, intent);
    if dir.x != 0.0 {
      NonzeroStep(dir.x, dt);
    } else {
      NonzeroStep(dir.y, dt);
    }
  }
}
