/** First-order expansions with a quadratic remainder, used instead of derivatives: products and
    sums of expansions, how far a function leaves its chord, and the mean value inequality. */
module Expansion {
  import opened RealMath

  /** f(x + d) is f0 + d * f1 up to m times the square of d. */
  ghost predicate Expands(f0: real, f1: real, fd: real, d: real, m: real) {
    Abs(fd - f0 - Mul(d, f1)) <= Mul(m, Square(d))
  }

  lemma ProductExpands(f0: real, f1: real, fd: real, mf: real, g0: real, g1: real, gd: real, mg: real,
                       d: real, boundF: real, boundF1: real, boundG1: real, boundGd: real, m: real)
    requires Expands(f0, f1, fd, d, mf) && Expands(g0, g1, gd, d, mg)
    requires Abs(f0) <= boundF && Abs(f1) <= boundF1 && Abs(g1) <= boundG1 && Abs(gd) <= boundGd
    requires Abs(d) <= 1.0
    requires Mul(boundF1, boundG1) + Mul(mf, boundGd) + Mul(boundF + boundF1, mg) <= m
    ensures Expands(Mul(f0, g0), Dot(f1, g0, f0, g1), Mul(fd, gd), d, m)
  {
    hide Mul, Dot, Square, Abs;
    SquareNonNeg(d);
    LineBound(f0, f1, d, boundF, boundF1);
    ProductSplit(f0, f1, fd, g0, g1, gd, d);
    RemainderBound(fd - f0 - Mul(d, f1), gd, f0 + Mul(d, f1), gd - g0 - Mul(d, g1), f1, g1, Square(d),
                   mf, mg, boundF + boundF1, boundF1, boundG1, boundGd, m);
  }

  lemma SquareNonNeg(d: real)
    ensures 0.0 <= Square(d)
  {}

  lemma ProductSplit(f0: real, f1: real, fd: real, g0: real, g1: real, gd: real, d: real)
    ensures Mul(fd, gd) - Mul(f0, g0) - Mul(d, Dot(f1, g0, f0, g1))
         == Mul(fd - f0 - Mul(d, f1), gd) + Mul(f0 + Mul(d, f1), gd - g0 - Mul(d, g1))
            + Mul(Square(d), Mul(f1, g1))
  {
    var line := f0 + d * f1;
    assert (fd - line) * gd == fd * gd - line * gd;
    assert line * (gd - g0 - d * g1) == line * gd - line * g0 - line * (d * g1);
    assert line * g0 == f0 * g0 + d * f1 * g0;
    assert line * (d * g1) == d * f0 * g1 + d * d * (f1 * g1);
    assert d * (f1 * g0 + f0 * g1) == d * f1 * g0 + d * f0 * g1;
  }

  lemma LineBound(f0: real, f1: real, d: real, boundF: real, boundF1: real)
    requires Abs(f0) <= boundF && Abs(f1) <= boundF1 && Abs(d) <= 1.0
    ensures Abs(f0 + Mul(d, f1)) <= boundF + boundF1
  {
    MulBound(d, f1, 1.0, boundF1);
  }

  lemma RemainderBound(rf: real, gd: real, line: real, rg: real, f1: real, g1: real, d2: real, mf: real,
                       mg: real, boundL: real, boundF1: real, boundG1: real, boundGd: real, m: real)
    requires 0.0 <= d2 && Abs(rf) <= Mul(mf, d2) && Abs(rg) <= Mul(mg, d2) && Abs(line) <= boundL
    requires Abs(f1) <= boundF1 && Abs(g1) <= boundG1 && Abs(gd) <= boundGd
    requires Mul(boundF1, boundG1) + Mul(mf, boundGd) + Mul(boundL, mg) <= m
    ensures Abs(Mul(rf, gd) + Mul(line, rg) + Mul(d2, Mul(f1, g1))) <= Mul(m, d2)
  {
    hide Mul;
    NamedBound(rf, gd, Mul(mf, d2), boundGd);
    NamedBound(line, rg, boundL, Mul(mg, d2));
    NamedBound(f1, g1, boundF1, boundG1);
    NamedBound(d2, Mul(f1, g1), d2, Mul(boundF1, boundG1));
    Collect(mf, boundGd, boundL, mg, boundF1, boundG1, d2);
    NamedMono(Mul(boundF1, boundG1) + Mul(mf, boundGd) + Mul(boundL, mg), m, d2);
  }

  lemma Collect(mf: real, gd: real, l: real, mg: real, f1: real, g1: real, d2: real)
    ensures Mul(Mul(mf, d2), gd) + Mul(l, Mul(mg, d2)) + Mul(d2, Mul(f1, g1))
         == Mul(Mul(f1, g1) + Mul(mf, gd) + Mul(l, mg), d2)
  {
    assert (f1 * g1 + mf * gd + l * mg) * d2 == f1 * g1 * d2 + mf * gd * d2 + l * mg * d2;
  }

  lemma SumExpands(f0: real, f1: real, fd: real, mf: real, g0: real, g1: real, gd: real, mg: real, d: real)
    requires Expands(f0, f1, fd, d, mf) && Expands(g0, g1, gd, d, mg)
    ensures Expands(f0 + g0, f1 + g1, fd + gd, d, mf + mg)
  {
    assert d * (f1 + g1) == d * f1 + d * g1;
    assert (mf + mg) * Square(d) == mf * Square(d) + mg * Square(d);
  }

  /** The expansion of k + b * f. */
  lemma AffineExpands(k: real, b: real, f0: real, f1: real, fd: real, d: real, m: real)
    requires Expands(f0, f1, fd, d, m)
    ensures Expands(k + Mul(b, f0), Mul(b, f1), k + Mul(b, fd), d, Mul(Abs(b), m))
  {
    hide Mul, Square;
    NamedBound(b, fd - f0 - Mul(d, f1), Abs(b), Mul(m, Square(d)));
    AffineSplit(b, f0, f1, fd, d, m, Square(d));
  }

  lemma AffineSplit(b: real, f0: real, f1: real, fd: real, d: real, m: real, d2: real)
    ensures Mul(b, fd - f0 - Mul(d, f1)) == Mul(b, fd) - Mul(b, f0) - Mul(d, Mul(b, f1))
    ensures Mul(Abs(b), Mul(m, d2)) == Mul(Mul(Abs(b), m), d2)
  {
    var a := Abs(b);
    assert a * (m * d2) == a * m * d2;
    assert b * (fd - f0 - d * f1) == b * fd - b * f0 - d * (b * f1);
  }

  lemma WeakerExpands(f0: real, f1: real, fd: real, d: real, m: real, weaker: real)
    requires Expands(f0, f1, fd, d, m) && m <= weaker
    ensures Expands(f0, f1, fd, d, weaker)
  {
    SquareNonNeg(d);
    NamedMono(m, weaker, Square(d));
  }

  /** Inside an interval of length h a function leaves its chord by at most 2 m h^2. */
  lemma Chord(f0: real, f1: real, fd: real, fh: real, h: real, theta: real, m: real)
    requires 0.0 <= theta <= 1.0 && 0.0 <= h && 0.0 <= m
    requires Expands(f0, f1, fd, Mul(theta, h), m) && Expands(f0, f1, fh, h, m)
    ensures Abs(fd - Lerp(theta, f0, fh)) <= 2.0 * Mul(m, Square(h))
  {
    hide Mul, Square, Lerp;
    SquareOfFraction(theta, h, m);
    ScaledBound(theta, fh - f0 - Mul(h, f1), Mul(m, Square(h)));
    ChordSplit(f0, f1, fd, fh, h, theta);
  }

  lemma ScaledBound(theta: real, x: real, bound: real)
    requires 0.0 <= theta <= 1.0 && Abs(x) <= bound
    ensures Abs(Mul(theta, x)) <= bound
  {
    MulBound(theta, x, 1.0, bound);
  }

  lemma ChordSplit(f0: real, f1: real, fd: real, fh: real, h: real, theta: real)
    ensures fd - Lerp(theta, f0, fh) == (fd - f0 - Mul(Mul(theta, h), f1)) - Mul(theta, fh - f0 - Mul(h, f1))
  {
    assert theta * (fh - f0 - h * f1) == theta * fh - theta * f0 - theta * h * f1;
  }

  lemma SquareOfFraction(theta: real, h: real, m: real)
    requires 0.0 <= theta <= 1.0 && 0.0 <= h && 0.0 <= m
    ensures Mul(m, Square(Mul(theta, h))) <= Mul(m, Square(h))
  {
    var d, d2, h2 := theta * h, (theta * h) * (theta * h), h * h;
    MulUnit(theta, h);
    MulNonNeg(theta, h);
    SquareMono(d, h);
    MulMono(d2, h2, m);
  }

  /** A point of a chord is no larger than its larger end. */
  lemma LerpBound(theta: real, x: real, y: real, bound: real)
    requires 0.0 <= theta <= 1.0 && Abs(x) <= bound && Abs(y) <= bound
    ensures Abs(Lerp(theta, x, y)) <= bound
  {
    var o := 1.0 - theta;
    MulBound(o, x, o, bound);
    MulBound(theta, y, theta, bound);
    assert o * bound + theta * bound == bound;
  }

  // ---------------------------------------------------------------- the mean value inequality

  ghost predicate StepExpands(p: real -> real, v: real -> real, m: real, x: real, y: real) {
    Expands(p(x), v(x), p(y), y - x, m)
  }

  /** On [lo, hi] the rate of p is v: every step no longer than rho expands with rate v. */
  ghost predicate HasRate(p: real -> real, v: real -> real, lo: real, hi: real, rho: real, m: real) {
    forall x, y | lo <= x <= y <= hi && y - x <= rho :: StepExpands(p, v, m, x, y)
  }

  ghost predicate RateBounded(v: real -> real, lo: real, hi: real, bound: real) {
    forall x | lo <= x <= hi :: Abs(v(x)) <= bound
  }

  lemma OneStep(p: real -> real, v: real -> real, m: real, x: real, d: real, bound: real)
    requires StepExpands(p, v, m, x, x + d) && 0.0 <= d && Abs(v(x)) <= bound
    ensures Abs(p(x + d) - p(x)) <= Mul(d, bound) + Mul(m, Square(d))
  {
    assert x + d - x == d;
    hide Mul, Square;
    NamedBound(d, v(x), d, bound);
  }

  lemma {:induction false} Steps(p: real -> real, v: real -> real, lo: real, hi: real, rho: real, m: real,
                                 bound: real, d: real, n: nat)
    requires HasRate(p, v, lo, hi, rho, m) && RateBounded(v, lo, hi, bound)
    requires 0.0 <= d <= rho && lo + Mul(n as real, d) <= hi
    ensures Abs(p(lo + Mul(n as real, d)) - p(lo)) <= Mul(n as real, Mul(d, bound) + Mul(m, Square(d)))
  {
    if n == 0 {
      assert Mul(0.0, d) == 0.0 && Mul(0.0, Mul(d, bound) + Mul(m, Square(d))) == 0.0;
    } else {
      var k := (n - 1) as real;
      var x := lo + Mul(k, d);
      OneMore(k, d);
      OneMore(k, Mul(d, bound) + Mul(m, Square(d)));
      assert n as real == k + 1.0;
      MulNonNeg(k, d);
      assert x + d == lo + Mul(n as real, d);
      hide Mul, Square;
      Steps(p, v, lo, hi, rho, m, bound, d, n - 1);
      assert StepExpands(p, v, m, x, x + d);
      OneStep(p, v, m, x, d, bound);
    }
  }

  lemma OneMore(k: real, x: real)
    ensures Mul(k + 1.0, x) == Mul(k, x) + x
  {}

  /** If the rate of p never exceeds bound, p moves by at most bound per unit. The quadratic
      remainders vanish because the interval can be cut into arbitrarily many pieces. */
  lemma MeanValue(p: real -> real, v: real -> real, lo: real, hi: real, rho: real, m: real, bound: real)
    requires HasRate(p, v, lo, hi, rho, m) && RateBounded(v, lo, hi, bound)
    requires lo <= hi && 0.0 < rho && 0.0 <= m
    ensures Abs(p(hi) - p(lo)) <= Mul(bound, hi - lo)
  {
    var length, excess := hi - lo, Abs(p(hi) - p(lo)) - Mul(bound, hi - lo);
    if 0.0 < excess {
      var n := EnoughPieces(length, rho, m, excess);
      var d := length / (n as real);
      Pieces(length, n as real, d, rho, m, bound, excess);
      hide Mul, Square;
      Steps(p, v, lo, hi, rho, m, bound, d, n);
      assert false;
    }
  }

  lemma EnoughPieces(length: real, rho: real, m: real, excess: real) returns (n: nat)
    requires 0.0 <= length && 0.0 < rho && 0.0 <= m && 0.0 < excess
    ensures 1 <= n && length <= Mul(n as real, rho) && Mul(m, Square(length)) < Mul(n as real, excess)
  {
    var a, b := length / rho, Mul(m, Square(length)) / excess;
    SquareNonNeg(length);
    MulNonNeg(m, Square(length));
    var top := if a < b then b else a;
    assert 0.0 <= top by {
      assert 0.0 <= a;
    }
    n := top.Floor + 1;
    var r := n as real;
    assert a <= r && b < r;
    MulMono(a, r, rho);
    StrictMono(b, r, excess);
  }

  lemma StrictMono(x: real, y: real, z: real)
    requires x < y && 0.0 < z
    ensures x * z < y * z
  {}

  lemma Pieces(length: real, r: real, d: real, rho: real, m: real, bound: real, excess: real)
    requires 0.0 <= length && 1.0 <= r && d == length / r && 0.0 < rho
    requires length <= Mul(r, rho) && Mul(m, Square(length)) < Mul(r, excess)
    ensures Mul(r, d) == length && 0.0 <= d <= rho
    ensures Mul(r, Mul(d, bound) + Mul(m, Square(d))) < Mul(bound, length) + excess
  {
    assert r * d == length;
    assert d <= rho by {
      if rho < d { StrictMono(rho, d, r); }
    }
    var e := m * (d * d);
    assert r * (r * e) == m * (length * length) by {
      assert length * length == r * d * (r * d);
    }
    assert r * e < excess by {
      if excess <= r * e {
        var re := r * e;
        MulMono(excess, re, r);
      }
    }
    assert r * (d * bound + e) == length * bound + r * e;
  }
}
