/**
 Rounding: what binary64 arithmetic does to the clamp.

 `Rounds` describes arithmetic on the finite binary64 numbers, each result a nearest one as
 IEEE 754 section 4.3.1 has it; how a result halfway between two is rounded is left open.
 The two zeros are one value here, and overflow is out of range. Such arithmetic does not
 clamp idempotently: [19, 260] is shortened twice.
 */
module Binary64 {
  import opened Words
  import opened Float64
  import opened InputBuffering
  import opened ArrivalOrder
  import opened Duplicates

  const MANTISSAS: int := 0x20_0000_0000_0000
  const HALF: real := 4503599627370496.0
  const LARGEST_UP: nat := 971
  const LARGEST_DOWN: nat := 1074

  /** x is m * 2^k or m / 2^k. */
  predicate Scaled(x: real, m: int, k: nat) {
    -MANTISSAS < m < MANTISSAS &&
    ((k <= LARGEST_UP && x == m as real * Pow2(k) as real) || (k <= LARGEST_DOWN && x * Pow2(k) as real == m as real))
  }

  /** The finite binary64 numbers. */
  ghost predicate Double(x: real) { exists m: int, k: nat :: Scaled(x, m, k) }

  /** No other binary64 number is closer to x: on either side of r, x is not beyond the midpoint. */
  ghost predicate Nearest(x: real, r: real) {
    Double(r) && forall q: real :: Double(q) ==> (q < r ==> (q + r) / 2.0 <= x) && (r < q ==> x <= (q + r) / 2.0)
  }

  /** The same for the square root of x. */
  ghost predicate NearestRoot(x: real, r: real) {
    && Double(r) && r >= 0.0
    && forall q: real :: Double(q) && q >= 0.0 ==>
      (q < r ==> Square((q + r) / 2.0) <= x) && (r < q ==> x <= Square((q + r) / 2.0))
  }

  function Square(x: real): real { x * x }

  predicate InRange(x: real) { -(Pow2(1023) as real) <= x <= Pow2(1023) as real }

  ghost predicate RoundsTo(x: real, r: real) { InRange(x) ==> Nearest(x, r) }

  ghost predicate RoundsBoth(ar: Arith<real>, a: real, b: real) {
    && RoundsTo(a + b, ar.add(a, b)) && RoundsTo(a * b, ar.mul(a, b)) && (b != 0.0 ==> RoundsTo(a / b, ar.div(a, b)))
    && (ar.lt(a, b) <==> a < b)
  }

  ghost predicate RoundsOne(ar: Arith<real>, a: real) {
    ar.IsFinite(a) && (a >= 0.0 ==> NearestRoot(a, ar.sqrt(a)))
  }

  /** What this module needs of binary64 arithmetic. */
  ghost predicate Rounds(ar: Arith<real>) {
    && ar.Zero() == 0.0 && ar.One() == 1.0
    && (forall a {:trigger RoundsOne(ar, a)} :: Double(a) ==> RoundsOne(ar, a))
    && (forall a, b {:trigger RoundsBoth(ar, a, b)} :: Double(a) && Double(b) ==> RoundsBoth(ar, a, b))
  }

  // Finding the nearest number.

  lemma SmallInRange(x: real)
    requires -1048576.0 <= x <= 1048576.0
    ensures InRange(x)
  {
    Units();
    Pow2Add(20, 1003);
    assert Pow2(1023) >= 1048576;
  }

  /** The reciprocals of the units in the last place that occur below. */
  lemma Units()
    ensures Pow2(20) == 0x10_0000 && Pow2(44) == 0x1000_0000_0000 && Pow2(52) == 0x10_0000_0000_0000
    ensures Pow2(53) == 0x20_0000_0000_0000 && Pow2(56) == 0x100_0000_0000_0000 && Pow2(60) == 0x1000_0000_0000_0000
  {
    Pow2Literals();
    Pow2Add(3, 1);
    Pow2Add(60, 3);
    Pow2Add(56, 4);
    Pow2Add(53, 3);
    Pow2Add(1, 52);
    Pow2Add(44, 8);
    Pow2Add(8, 8);
    Pow2Add(16, 4);
  }

  predicate Whole(s: real, z: int) { s == z as real }

  ghost predicate IsWhole(s: real) { exists z: int :: Whole(s, z) }

  predicate Power(unit: real, k: nat) { k <= LARGEST_DOWN && unit == Pow2(k) as real }

  ghost predicate PowerOfTwo(unit: real) { exists k: nat :: Power(unit, k) }

  /** A number with a unit in the last place of one or more, or with fewer than 53 digits before the point. */
  ghost predicate OnGrid(s: real) { s < HALF || IsWhole(s) }

  lemma GridUp(r: real, n: int, a: nat, b: nat, s: real)
    requires r == n as real * a as real && s == r * b as real
    ensures OnGrid(s)
  {
    assert n as real * a as real == (n * a) as real;
    assert Whole(s, n * a * b);
  }

  lemma Regroup(x: real, a: real, b: real)
    ensures x * (a * b) == (x * a) * b
  {
  }

  lemma Rescaled(r: real, n: int, a: nat, b: nat, ab: nat, s: real)
    requires r * a as real == n as real && ab == a * b && s == r * ab as real
    ensures OnGrid(s)
  {
    Regroup(r, a as real, b as real);
    assert Whole(s, n * b);
  }

  lemma ProductAtLeast(x: real, b: real)
    requires x >= 0.0 && b >= 2.0
    ensures x * b >= x * 2.0
  {
  }

  lemma Finer(r: real, n: int, a: nat, b: nat, ab: nat, s: real)
    requires n < MANTISSAS && b >= 2 && ab == a * b && r * ab as real == n as real && s == r * a as real
    ensures s < HALF
  {
    Regroup(r, a as real, b as real);
    if s >= HALF {
      ProductAtLeast(s, b as real);
      assert false;
    }
  }

  lemma Pow2Split(j: nat, k: nat) returns (d: nat)
    requires j <= k
    ensures Pow2(k) == Pow2(j) * d && (j < k ==> d >= 2)
  {
    d := Pow2(k - j);
    Pow2Add(j, k - j);
    assert j < k ==> d == 2 * Pow2(k - j - 1);
  }

  lemma GridDown(r: real, n: int, j: nat, k: nat, a: nat, b: nat, s: real)
    requires a == Pow2(j) && b == Pow2(k) && n < MANTISSAS && r * a as real == n as real && s == r * b as real
    ensures OnGrid(s)
  {
    if j <= k {
      var d := Pow2Split(j, k);
      Rescaled(r, n, a, d, b, s);
    } else {
      var d := Pow2Split(k, j);
      Finer(r, n, b, d, a, s);
    }
  }

  lemma ScaledBy(r: real, n: int, j: nat, a: nat)
    requires Scaled(r, n, j) && a == Pow2(j)
    ensures n < MANTISSAS && (r == n as real * a as real || r * a as real == n as real)
  {
  }

  lemma DoubleOnGrid(r: real, unit: real, s: real)
    requires Double(r) && PowerOfTwo(unit) && s == r * unit
    ensures OnGrid(s)
  {
    var n: int, j: nat :| Scaled(r, n, j);
    var k: nat :| Power(unit, k);
    var a, b := Pow2(j), Pow2(k);
    ScaledBy(r, n, j, a);
    if r == n as real * a as real {
      GridUp(r, n, a, b, s);
    } else {
      GridDown(r, n, j, k, a, b, s);
    }
  }

  lemma WholeApart(m: int, z: int)
    ensures z as real == m as real || z as real <= m as real - 1.0 || z as real >= m as real + 1.0
  {
    if z < m {
      assert (m - 1) as real == m as real - 1.0;
    } else if z > m {
      assert (m + 1) as real == m as real + 1.0;
    }
  }

  /** On the grid, a whole number with 53 digits is at least one away from all others. */
  lemma Apart(m: real, s: real)
    requires m > HALF && IsWhole(m) && OnGrid(s) && s != m
    ensures s <= m - 1.0 || s >= m + 1.0
  {
    if s >= HALF {
      var z: int :| Whole(s, z);
      var n: int :| Whole(m, n);
      WholeApart(n, z);
    }
  }

  lemma ScaledMidpoint(q: real, r: real, unit: real)
    ensures (q + r) / 2.0 * unit == (q * unit + r * unit) / 2.0
  {
  }

  lemma ScaleOrder(x: real, y: real, unit: real)
    requires unit > 0.0
    ensures x < y <==> x * unit < y * unit
  {
  }

  /** Scaled numbers at least one apart have their midpoint at least a half off. */
  lemma MidpointOff(m: real, q: real, r: real, unit: real)
    requires unit > 0.0 && q * unit == m && (r * unit <= m - 1.0 || r * unit >= m + 1.0)
    ensures q < r ==> (q + r) / 2.0 * unit >= m + 0.5
    ensures r < q ==> (q + r) / 2.0 * unit <= m - 0.5
    ensures q != r
  {
    ScaleOrder(q, r, unit);
    ScaleOrder(r, q, unit);
    ScaledMidpoint(q, r, unit);
  }

  /** q is the binary64 number m / unit, with 53 digits. */
  ghost predicate Written(q: real, m: real, unit: real) {
    HALF < m < 2.0 * HALF && IsWhole(m) && PowerOfTwo(unit) && q * unit == m
  }

  lemma WrittenIsDouble(q: real, m: real, unit: real)
    requires Written(q, m, unit)
    ensures Double(q) && q >= 0.0 && unit > 0.0
  {
    var k: nat :| Power(unit, k);
    var n: int :| Whole(m, n);
    assert Scaled(q, n, k);
    ScaleOrder(q, 0.0, unit);
  }

  lemma OnOneSide(q: real, m: real, unit: real, r: real)
    requires unit > 0.0 && Written(q, m, unit) && Double(r) && r != q
    ensures r * unit <= m - 1.0 || r * unit >= m + 1.0
  {
    var s := r * unit;
    DoubleOnGrid(r, unit, s);
    ScaleOrder(q, r, unit);
    ScaleOrder(r, q, unit);
    Apart(m, s);
  }

  lemma NotBeyond(x: real, r: real, q: real)
    requires Nearest(x, r) && Double(q)
    ensures q < r ==> (q + r) / 2.0 <= x
    ensures r < q ==> x <= (q + r) / 2.0
  {
  }

  lemma TooFar(x: real, r: real, q: real, m: real, unit: real)
    requires unit > 0.0 && q * unit == m && (r * unit <= m - 1.0 || r * unit >= m + 1.0)
    requires m - 0.5 < x * unit < m + 0.5 && Double(q)
    ensures !Nearest(x, r)
  {
    MidpointOff(m, q, r, unit);
    ScaleOrder(x, (q + r) / 2.0, unit);
    ScaleOrder((q + r) / 2.0, x, unit);
    if Nearest(x, r) {
      NotBeyond(x, r, q);
      assert false;
    }
  }

  /** Less than half a unit from x lies the nearest number. */
  lemma NearestIs(x: real, r: real, q: real, m: real, unit: real)
    requires Nearest(x, r) && Written(q, m, unit) && m - 0.5 < x * unit < m + 0.5
    ensures r == q
  {
    if r != q {
      WrittenIsDouble(q, m, unit);
      OnOneSide(q, m, unit, r);
      TooFar(x, r, q, m, unit);
    }
  }

  lemma RootNotBeyond(x: real, r: real, q: real)
    requires NearestRoot(x, r) && Double(q) && q >= 0.0
    ensures r >= 0.0
    ensures q < r ==> Square((q + r) / 2.0) <= x
    ensures r < q ==> x <= Square((q + r) / 2.0)
  {
  }

  lemma SquareScaled(x: real, unit: real)
    ensures Square(x * unit) == Square(x) * Square(unit)
  {
  }

  lemma SquareOrder(x: real, y: real)
    requires 0.0 <= x <= y
    ensures Square(x) <= Square(y)
  {
  }

  lemma RootBelow(x: real, mid: real, m: real, unit: real)
    requires unit > 0.0 && m > 0.5 && mid * unit >= m + 0.5 && x * Square(unit) < Square(m + 0.5)
    ensures x < Square(mid)
  {
    SquareScaled(mid, unit);
    SquareOrder(m + 0.5, mid * unit);
    SquareOrder(0.0, unit);
    ScaleOrder(x, Square(mid), Square(unit));
  }

  lemma RootAbove(x: real, mid: real, m: real, unit: real)
    requires unit > 0.0 && mid >= 0.0 && mid * unit <= m - 0.5 && Square(m - 0.5) < x * Square(unit)
    ensures Square(mid) < x
  {
    SquareScaled(mid, unit);
    SquareOrder(mid * unit, m - 0.5);
    ScaleOrder(Square(mid), x, Square(unit));
  }

  lemma RootTooFar(x: real, r: real, q: real, m: real, unit: real)
    requires unit > 0.0 && q * unit == m > 0.5 && (r * unit <= m - 1.0 || r * unit >= m + 1.0) && q >= 0.0
    requires Square(m - 0.5) < x * Square(unit) < Square(m + 0.5) && Double(q)
    ensures !NearestRoot(x, r)
  {
    if NearestRoot(x, r) {
      var mid := (q + r) / 2.0;
      MidpointOff(m, q, r, unit);
      RootNotBeyond(x, r, q);
      if q < r {
        RootBelow(x, mid, m, unit);
      } else {
        RootAbove(x, mid, m, unit);
      }
      assert false;
    }
  }

  /** Less than half a unit from the square root of x lies the nearest number. */
  lemma RootIs(x: real, r: real, q: real, m: real, unit: real)
    requires NearestRoot(x, r) && Written(q, m, unit) && Square(m - 0.5) < x * Square(unit) < Square(m + 0.5)
    ensures r == q
  {
    if r != q {
      WrittenIsDouble(q, m, unit);
      OnOneSide(q, m, unit, r);
      RootTooFar(x, r, q, m, unit);
    }
  }

  /** A result that is a binary64 number is not rounded. */
  lemma NotRounded(x: real, r: real)
    requires Nearest(x, r) && Double(x)
    ensures r == x
  {
    NotBeyond(x, r, x);
  }

  // Clamping [19, 260] twice.

  const ROOT := 4586165146663215.0 / 17592186044416.0
  const X1 := 5251743152306736.0 / 72057594037927936.0
  const Y1 := 8983244865787839.0 / 9007199254740992.0
  const XX := 6124169202381833.0 / 1152921504606846976.0
  const YY := 8959354182847387.0 / 9007199254740992.0
  const SUM := 4503599627370498.0 / 4503599627370496.0
  const LENGTH := 4503599627370497.0 / 4503599627370496.0
  const X2 := 5251743152306735.0 / 72057594037927936.0

  /** All of them are binary64 numbers; `SUM` exceeds one by two units in the last place. */
  lemma AllWritten()
    ensures Written(ROOT, 4586165146663215.0, 17592186044416.0)
    ensures Written(X1, 5251743152306736.0, 72057594037927936.0) && Written(Y1, 8983244865787839.0, 9007199254740992.0)
    ensures Written(XX, 6124169202381833.0, 1152921504606846976.0) && Written(YY, 8959354182847387.0, 9007199254740992.0)
    ensures Written(SUM, 4503599627370498.0, 4503599627370496.0) && Written(LENGTH, 4503599627370497.0, 4503599627370496.0)
    ensures Written(X2, 5251743152306735.0, 72057594037927936.0)
  {
    Units();
    assert Power(17592186044416.0, 44) && Power(4503599627370496.0, 52) && Power(9007199254740992.0, 53);
    assert Power(72057594037927936.0, 56) && Power(1152921504606846976.0, 60);
    assert Whole(4586165146663215.0, 4586165146663215) && Whole(5251743152306736.0, 5251743152306736);
    assert Whole(8983244865787839.0, 8983244865787839) && Whole(6124169202381833.0, 6124169202381833);
    assert Whole(8959354182847387.0, 8959354182847387) && Whole(4503599627370498.0, 4503599627370498);
    assert Whole(4503599627370497.0, 4503599627370497) && Whole(5251743152306735.0, 5251743152306735);
  }

  lemma AllDoubles()
    ensures Double(ROOT) && Double(X1) && Double(Y1) && Double(XX) && Double(YY) && Double(SUM) && Double(LENGTH) && Double(X2)
  {
    AllWritten();
    WrittenIsDouble(ROOT, 4586165146663215.0, 17592186044416.0);
    WrittenIsDouble(X1, 5251743152306736.0, 72057594037927936.0);
    WrittenIsDouble(Y1, 8983244865787839.0, 9007199254740992.0);
    WrittenIsDouble(XX, 6124169202381833.0, 1152921504606846976.0);
    WrittenIsDouble(YY, 8959354182847387.0, 9007199254740992.0);
    WrittenIsDouble(SUM, 4503599627370498.0, 4503599627370496.0);
    WrittenIsDouble(LENGTH, 4503599627370497.0, 4503599627370496.0);
    WrittenIsDouble(X2, 5251743152306735.0, 72057594037927936.0);
  }

  lemma SmallIntegers()
    ensures Double(1.0) && Double(19.0) && Double(260.0) && Double(361.0) && Double(67600.0) && Double(67961.0)
  {
    assert Pow2(0) == 1;
    assert Scaled(1.0, 1, 0) && Scaled(19.0, 19, 0) && Scaled(260.0, 260, 0);
    assert Scaled(361.0, 361, 0) && Scaled(67600.0, 67600, 0) && Scaled(67961.0, 67961, 0);
  }

  // One operation at a time.

  predicate HalfUnit(x: real, m: real, unit: real) { -1048576.0 <= x <= 1048576.0 && m - 0.5 < x * unit < m + 0.5 }

  /** A result within half a unit of a number written out is that number. */
  lemma ResultIs(x: real, r: real, q: real, m: real, unit: real)
    requires RoundsTo(x, r) && Written(q, m, unit) && HalfUnit(x, m, unit)
    ensures r == q
  {
    SmallInRange(x);
    NearestIs(x, r, q, m, unit);
  }

  lemma ResultExact(x: real, r: real)
    requires RoundsTo(x, r) && -1048576.0 <= x <= 1048576.0 && Double(x)
    ensures r == x
  {
    SmallInRange(x);
    NotRounded(x, r);
  }

  lemma SumRounds(ar: Arith<real>, a: real, b: real, x: real)
    requires Rounds(ar) && Double(a) && Double(b) && x == a + b
    ensures RoundsTo(x, ar.add(a, b))
  {
    assert RoundsBoth(ar, a, b);
  }

  lemma ProductRounds(ar: Arith<real>, a: real, b: real, x: real)
    requires Rounds(ar) && Double(a) && Double(b) && x == a * b
    ensures RoundsTo(x, ar.mul(a, b))
  {
    assert RoundsBoth(ar, a, b);
  }

  lemma QuotientRounds(ar: Arith<real>, a: real, b: real, x: real)
    requires Rounds(ar) && Double(a) && Double(b) && b != 0.0 && x == a / b
    ensures RoundsTo(x, ar.div(a, b))
  {
    assert RoundsBoth(ar, a, b);
  }

  lemma RootRounds(ar: Arith<real>, a: real)
    requires Rounds(ar) && Double(a) && a >= 0.0
    ensures NearestRoot(a, ar.sqrt(a))
  {
    assert RoundsOne(ar, a);
  }

  lemma Exceeds(ar: Arith<real>, a: real)
    requires Rounds(ar) && Double(a) && Double(1.0) && a > 1.0
    ensures ar.lt(ar.One(), a)
  {
    assert RoundsBoth(ar, 1.0, a);
  }

  // The first clamp.

  lemma FirstLength(ar: Arith<real>)
    requires Rounds(ar)
    ensures ar.MagnitudeSquared(Vec2(19.0, 260.0)) == 67961.0
  {
    SmallIntegers();
    ProductRounds(ar, 19.0, 19.0, 361.0);
    ProductRounds(ar, 260.0, 260.0, 67600.0);
    SumRounds(ar, 361.0, 67600.0, 67961.0);
    ResultExact(361.0, ar.mul(19.0, 19.0));
    ResultExact(67600.0, ar.mul(260.0, 260.0));
    ResultExact(67961.0, ar.add(361.0, 67600.0));
  }

  lemma SquareBounds()
    ensures Square(4586165146663215.0 - 0.5) < 67961.0 * Square(17592186044416.0) < Square(4586165146663215.0 + 0.5)
    ensures Square(4503599627370497.0 - 0.5) < SUM * Square(4503599627370496.0) < Square(4503599627370497.0 + 0.5)
  {
  }

  lemma FirstRoot(ar: Arith<real>)
    requires Rounds(ar)
    ensures ar.sqrt(67961.0) == ROOT
  {
    SmallIntegers();
    AllWritten();
    SquareBounds();
    RootRounds(ar, 67961.0);
    RootIs(67961.0, ar.sqrt(67961.0), ROOT, 4586165146663215.0, 17592186044416.0);
  }

  lemma FirstQuotients()
    ensures HalfUnit(19.0 / ROOT, 5251743152306736.0, 72057594037927936.0)
    ensures HalfUnit(260.0 / ROOT, 8983244865787839.0, 9007199254740992.0)
  {
  }

  lemma FirstClamp(ar: Arith<real>)
    requires Rounds(ar)
    ensures ar.div(19.0, ROOT) == X1 && ar.div(260.0, ROOT) == Y1
  {
    SmallIntegers();
    AllDoubles();
    AllWritten();
    FirstQuotients();
    QuotientRounds(ar, 19.0, ROOT, 19.0 / ROOT);
    QuotientRounds(ar, 260.0, ROOT, 260.0 / ROOT);
    ResultIs(19.0 / ROOT, ar.div(19.0, ROOT), X1, 5251743152306736.0, 72057594037927936.0);
    ResultIs(260.0 / ROOT, ar.div(260.0, ROOT), Y1, 8983244865787839.0, 9007199254740992.0);
  }

  lemma ClampedOnce(ar: Arith<real>)
    requires Rounds(ar)
    ensures Clamp(ar, [19.0, 260.0]) == [X1, Y1]
  {
    SmallIntegers();
    FirstLength(ar);
    FirstRoot(ar);
    FirstClamp(ar);
    Exceeds(ar, 67961.0);
  }

  // The second clamp.

  lemma SecondResults()
    ensures HalfUnit(X1 * X1, 6124169202381833.0, 1152921504606846976.0)
    ensures HalfUnit(Y1 * Y1, 8959354182847387.0, 9007199254740992.0)
    ensures HalfUnit(XX + YY, 4503599627370498.0, 4503599627370496.0)
    ensures HalfUnit(X1 / LENGTH, 5251743152306735.0, 72057594037927936.0)
  {
  }

  lemma SecondSquares(ar: Arith<real>)
    requires Rounds(ar)
    ensures ar.mul(X1, X1) == XX && ar.mul(Y1, Y1) == YY
  {
    AllDoubles();
    AllWritten();
    SecondResults();
    ProductRounds(ar, X1, X1, X1 * X1);
    ProductRounds(ar, Y1, Y1, Y1 * Y1);
    ResultIs(X1 * X1, ar.mul(X1, X1), XX, 6124169202381833.0, 1152921504606846976.0);
    ResultIs(Y1 * Y1, ar.mul(Y1, Y1), YY, 8959354182847387.0, 9007199254740992.0);
  }

  lemma SecondLength(ar: Arith<real>)
    requires Rounds(ar)
    ensures ar.add(XX, YY) == SUM && ar.sqrt(SUM) == LENGTH
  {
    AllDoubles();
    AllWritten();
    SecondResults();
    SquareBounds();
    SumRounds(ar, XX, YY, XX + YY);
    ResultIs(XX + YY, ar.add(XX, YY), SUM, 4503599627370498.0, 4503599627370496.0);
    RootRounds(ar, SUM);
    RootIs(SUM, ar.sqrt(SUM), LENGTH, 4503599627370497.0, 4503599627370496.0);
  }

  lemma SecondClamp(ar: Arith<real>)
    requires Rounds(ar)
    ensures ar.div(X1, LENGTH) == X2
  {
    AllDoubles();
    AllWritten();
    SecondResults();
    QuotientRounds(ar, X1, LENGTH, X1 / LENGTH);
    ResultIs(X1 / LENGTH, ar.div(X1, LENGTH), X2, 5251743152306735.0, 72057594037927936.0);
  }

  lemma ClampedTwice(ar: Arith<real>)
    requires Rounds(ar)
    ensures Clamp(ar, [X1, Y1])[0] == X2
  {
    SmallIntegers();
    AllDoubles();
    SecondSquares(ar);
    SecondLength(ar);
    SecondClamp(ar);
    Exceeds(ar, SUM);
  }

  /** However halves are rounded, the clamped [19, 260] is still too long and is clamped again. */
  lemma ClampNotIdempotent(ar: Arith<real>)
    requires Rounds(ar)
    ensures Usable(ar, [19.0, 260.0]) && !ClampStable(ar, [19.0, 260.0])
  {
    SmallIntegers();
    ClampedOnce(ar);
    ClampedTwice(ar);
    assert RoundsOne(ar, 19.0) && RoundsOne(ar, 260.0);
    assert X1 != X2;
  }

  // What this does to arrival order and duplicates.

  /** Whatever the limit, only lists of at most one command are free of arrival order. */
  lemma OrderMattersExact(ar: Arith<real>, limit: nat, n: nat)
    requires Rounds(ar)
    ensures OrderIndependent(ar, limit, n) <==> n <= 1
  {
    ClampNotIdempotent(ar);
    assert Scaled(0.0, 0, 0);
    assert RoundsOne(ar, 0.0);
    OrderIndependenceExact(ar, limit, n);
  }

  /** Repeating an older command behind [19, 260] changes the direction that is selected. */
  lemma RepeatShows(ar: Arith<real>, limit: nat, tick: nat)
    requires Rounds(ar) && limit >= 3
    ensures
      var low, high := InputCmd(tick, 1, [1.0, 0.0]), InputCmd(tick, 2, [19.0, 260.0]);
      Selection(EntryAfter(ar, limit, [low, high] + [low])) != Selection(EntryAfter(ar, limit, [low, high]))
  {
    ClampNotIdempotent(ar);
    RepeatedLoserShows(ar, limit, InputCmd(tick, 1, [1.0, 0.0]), InputCmd(tick, 2, [19.0, 260.0]));
  }
}
