/**
 There is arithmetic that rounds to nearest: the finite binary64 numbers are finitely many,
 so next to every real number there is a nearest one, and likewise next to every root.
 What Binary64.dfy says of all such arithmetic is therefore said of some.
 */
module NearestNumbers {
  import opened Words
  import opened Float64
  import opened Binary64

  ghost function Up(m: int, k: nat): real { m as real * Pow2(k) as real }

  ghost function Down(m: int, k: nat): real { m as real / Pow2(k) as real }

  ghost function Doubles(): set<real> {
    (set m: int, k: nat | -MANTISSAS < m < MANTISSAS && k <= LARGEST_UP :: Up(m, k))
    + (set m: int, k: nat | -MANTISSAS < m < MANTISSAS && k <= LARGEST_DOWN :: Down(m, k))
  }

  lemma DownIs(x: real, m: int, k: nat)
    ensures x * Pow2(k) as real == m as real <==> x == Down(m, k)
  {
    DividedIs(x, m as real, Pow2(k) as real);
  }

  lemma DividedIs(x: real, m: real, a: real)
    requires a > 0.0
    ensures x * a == m <==> x == m / a
  {
  }

  lemma DoubleIn(x: real, m: int, k: nat)
    requires Scaled(x, m, k)
    ensures x in Doubles()
  {
    DownIs(x, m, k);
    if k <= LARGEST_UP && x == Up(m, k) {
      assert Up(m, k) in Doubles();
    } else {
      assert Down(m, k) in Doubles();
    }
  }

  lemma DoublesAreAll(x: real)
    ensures x in Doubles() <==> Double(x)
  {
    if Double(x) {
      var m: int, k: nat :| Scaled(x, m, k);
      DoubleIn(x, m, k);
    } else if x in Doubles() {
      var m: int, k: nat :| -MANTISSAS < m < MANTISSAS &&
        ((k <= LARGEST_UP && x == Up(m, k)) || (k <= LARGEST_DOWN && x == Down(m, k)));
      DownIs(x, m, k);
      assert Scaled(x, m, k);
    }
  }

  lemma ZeroIsDouble()
    ensures 0.0 in Doubles()
  {
    assert Scaled(0.0, 0, 0);
    DoublesAreAll(0.0);
  }

  lemma {:induction false} Greatest(s: set<real>) returns (x: real)
    requires s != {}
    ensures x in s && forall y :: y in s ==> y <= x
    decreases |s|
  {
    if forall y :: y !in s {
      assert false;
    }
    x :| x in s;
    var rest := s - {x};
    if rest == {} {
      assert s == {x};
    } else {
      var z := Greatest(rest);
      assert forall y :: y in s ==> y == x || y in rest;
      x := if x < z then z else x;
    }
  }

  lemma {:induction false} Least(s: set<real>) returns (x: real)
    requires s != {}
    ensures x in s && forall y :: y in s ==> x <= y
    decreases |s|
  {
    if forall y :: y !in s {
      assert false;
    }
    x :| x in s;
    var rest := s - {x};
    if rest == {} {
      assert s == {x};
    } else {
      var z := Least(rest);
      assert forall y :: y in s ==> y == x || y in rest;
      x := if z < x then z else x;
    }
  }

  lemma NearestExists(x: real)
    ensures exists r :: Nearest(x, r)
  {
    var below, above := set q | q in Doubles() && q <= x, set q | q in Doubles() && q > x;
    forall q: real ensures Double(q) <==> q in below || q in above {
      DoublesAreAll(q);
    }
    ZeroIsDouble();
    if above == {} {
      assert 0.0 in below;
      var lo := Greatest(below);
      assert Nearest(x, lo);
    } else if below == {} {
      var hi := Least(above);
      assert Nearest(x, hi);
    } else {
      var lo := Greatest(below);
      var hi := Least(above);
      assert Nearest(x, if x <= (lo + hi) / 2.0 then lo else hi);
    }
  }

  ghost function Round(x: real): (r: real)
    ensures Nearest(x, r)
  {
    NearestExists(x);
    var r :| Nearest(x, r);
    r
  }

  lemma LowRoot(x: real, lo: real, above: set<real>)
    requires Double(lo) && lo >= 0.0 && Square(lo) <= x
    requires forall q :: Double(q) && q > lo ==> q in above
    requires forall q :: q in above ==> x <= Square((q + lo) / 2.0)
    ensures NearestRoot(x, lo)
  {
    forall q | Double(q) && 0.0 <= q < lo ensures Square((q + lo) / 2.0) <= x {
      SquareOrder((q + lo) / 2.0, lo);
    }
  }

  lemma HighRoot(x: real, hi: real, below: set<real>)
    requires Double(hi) && hi >= 0.0 && Square(hi) > x
    requires forall q :: Double(q) && 0.0 <= q < hi ==> q in below
    requires forall q :: q in below ==> Square((q + hi) / 2.0) <= x
    ensures NearestRoot(x, hi)
  {
    forall q | Double(q) && q > hi ensures x <= Square((q + hi) / 2.0) {
      SquareOrder(hi, (q + hi) / 2.0);
    }
  }

  /** The numbers whose square does not exceed x, and the others. */
  lemma RootSides(x: real, below: set<real>, above: set<real>)
    requires x >= 0.0
    requires below == set q | q in Doubles() && q >= 0.0 && Square(q) <= x
    requires above == set q | q in Doubles() && q >= 0.0 && Square(q) > x
    ensures 0.0 in below && forall q :: Double(q) && q >= 0.0 <==> q in below || q in above
    ensures forall p, q :: p in below && q in above ==> p < q
  {
    forall q ensures Double(q) && q >= 0.0 <==> q in below || q in above {
      DoublesAreAll(q);
    }
    ZeroIsDouble();
    forall p, q | p in below && q in above ensures p < q {
      if q <= p {
        SquareOrder(q, p);
      }
    }
  }

  lemma NearestRootExists(x: real)
    requires x >= 0.0
    ensures exists r :: NearestRoot(x, r)
  {
    var below := set q | q in Doubles() && q >= 0.0 && Square(q) <= x;
    var above := set q | q in Doubles() && q >= 0.0 && Square(q) > x;
    RootSides(x, below, above);
    var lo := Greatest(below);
    if above == {} {
      LowRoot(x, lo, above);
    } else {
      var hi := Least(above);
      BetweenRoots(x, below, above, lo, hi);
    }
  }

  lemma BetweenRoots(x: real, below: set<real>, above: set<real>, lo: real, hi: real)
    requires forall q :: Double(q) && q >= 0.0 <==> q in below || q in above
    requires forall q :: q in below ==> Square(q) <= x
    requires forall q :: q in above ==> Square(q) > x
    requires lo in below && (forall q :: q in below ==> q <= lo) && hi in above && (forall q :: q in above ==> hi <= q) && lo < hi
    ensures NearestRoot(x, lo) || NearestRoot(x, hi)
  {
    var mid := (lo + hi) / 2.0;
    if x <= Square(mid) {
      forall q | q in above ensures x <= Square((q + lo) / 2.0) {
        SquareOrder(mid, (q + lo) / 2.0);
      }
      LowRoot(x, lo, above);
    } else {
      forall q | q in below ensures Square((q + hi) / 2.0) <= x {
        SquareOrder((q + hi) / 2.0, mid);
      }
      HighRoot(x, hi, below);
    }
  }

  ghost function Root(x: real): (r: real)
    ensures x >= 0.0 ==> NearestRoot(x, r)
  {
    if x < 0.0 then 0.0
    else
      NearestRootExists(x);
      var r :| NearestRoot(x, r);
      r
  }

  lemma IntegersExact()
    ensures Double(0.0) && Double(1.0)
  {
    assert Pow2(0) == 1;
    assert Scaled(0.0, 0, 0) && Scaled(1.0, 1, 0);
  }

  ghost function Product(a: real, b: real): (r: real)
    ensures RoundsTo(a * b, r)
  {
    Round(a * b)
  }

  ghost function Quotient(a: real, b: real): (r: real)
    ensures b != 0.0 ==> RoundsTo(a / b, r)
  {
    if b == 0.0 then 0.0 else Round(a / b)
  }

  /** Arithmetic that rounds every result to a nearest binary64 number. */
  ghost function Rounding(): Arith<real> {
    Arith(
      (n: nat) => n as real,
      (a: real, b: real) => Round(a + b),
      (a: real, b: real) => Product(a, b),
      (a: real, b: real) => Quotient(a, b),
      (a: real) => Root(a),
      (a: real, b: real) => a <= b,
      (a: real, b: real) => a < b,
      (a: real) => 0)
  }

  lemma RoundingOne(a: real)
    ensures RoundsOne(Rounding(), a)
  {
    assert Rounding().bits(a) == 0 && !IsNan(0) && !IsInfinite(0);
    assert Rounding().sqrt(a) == Root(a);
  }

  lemma RoundingBoth(a: real, b: real)
    ensures RoundsBoth(Rounding(), a, b)
  {
    var ar := Rounding();
    assert ar.add(a, b) == Round(a + b) && ar.mul(a, b) == Product(a, b) && ar.div(a, b) == Quotient(a, b);
    assert ar.lt(a, b) == (a < b);
  }

  /** Such arithmetic exists. */
  lemma RoundingExists()
    ensures Rounds(Rounding())
  {
    assert Rounding().Zero() == 0.0 && Rounding().One() == 1.0;
    forall a ensures RoundsOne(Rounding(), a) {
      RoundingOne(a);
    }
    forall a, b ensures RoundsBoth(Rounding(), a, b) {
      RoundingBoth(a, b);
    }
  }
}
