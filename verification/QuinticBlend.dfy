/** The quintic smoothstep of wave_math.cpp in real arithmetic: its range, its slope, the fact
    that the slope really is its derivative, and its Lipschitz constant. */
module QuinticBlend {
  import opened RealMath

  // The slope's largest value on the unit interval, taken at one half.
  const PEAK_VELOCITY_FACTOR: real := 1.875

  datatype Blend = Blend(s: real, ds: real)

  /** The blend polynomial and its derivative in the normalised time u. */
  function Poly(u: real): real {
    10.0 * u * u * u - 15.0 * u * u * u * u + 6.0 * u * u * u * u * u
  }

  function Slope(u: real): real {
    30.0 * u * u - 60.0 * u * u * u + 30.0 * u * u * u * u
  }

  function Quintic(elapsed: real, duration: real): Blend
    requires duration > 0.0
  {
    var u := Clamp(elapsed / duration, 0.0, 1.0);
    Blend(Poly(u), Slope(u) / duration)
  }

  // ---------------------------------------------------------------- algebra

  lemma Cube(x: real, y: real)
    ensures (x + y) * (x + y) * (x + y) == x * x * x + 3.0 * x * x * y + 3.0 * x * y * y + y * y * y
  {}

  lemma Quart(x: real, y: real)
    ensures (x + y) * (x + y) * (x + y) * (x + y)
         == x * x * x * x + 4.0 * x * x * x * y + 6.0 * x * x * y * y + 4.0 * x * y * y * y + y * y * y * y
  {}

  lemma Quint(x: real, y: real)
    ensures (x + y) * (x + y) * (x + y) * (x + y) * (x + y)
         == x * x * x * x * x + 5.0 * x * x * x * x * y + 10.0 * x * x * x * y * y
            + 10.0 * x * x * y * y * y + 5.0 * x * y * y * y * y + y * y * y * y * y
  {}

  /** Taylor coefficients of Poly at a. */
  function C2(a: real): real { 30.0 * a - 90.0 * a * a + 60.0 * a * a * a }
  function C3(a: real): real { 10.0 - 60.0 * a + 60.0 * a * a }
  function C4(a: real): real { -15.0 + 30.0 * a }

  lemma PolyTaylor(a: real, d: real)
    ensures Poly(a + d) == Poly(a) + d * Slope(a) + d * d * C2(a) + d * d * d * C3(a)
                           + d * d * d * d * C4(a) + 6.0 * d * d * d * d * d
  {
    Cube(a, d);
    Quart(a, d);
    Quint(a, d);
  }

  lemma SlopeRange(u: real)
    requires 0.0 <= u <= 1.0
    ensures 0.0 <= Slope(u) <= PEAK_VELOCITY_FACTOR
  {
    var p, m := u * (1.0 - u), (u - 0.5) * (u - 0.5);
    MulNonNeg(u, 1.0 - u);
    MulNonNeg(m, 0.25 + p);
    assert Slope(u) == 30.0 * (p * p);
    assert PEAK_VELOCITY_FACTOR - Slope(u) == 30.0 * (m * (0.25 + p));
  }

  /** The divided difference of the blend, written in the sum g and the difference d of the two
      times measured from the middle of the blend. */
  function DividedDifference(g: real, d: real): real {
    PEAK_VELOCITY_FACTOR - 1.25 * (3.0 * g * g + d * d)
    + 0.375 * (5.0 * g * g * g * g + 10.0 * g * g * d * d + d * d * d * d)
  }

  function Pow3(x: real): real { x * x * x }

  function Pow5(x: real): real { x * x * x * x * x }

  /** About its middle the blend is one half plus an odd quintic. */
  function Odd(x: real): real { 1.875 * x - 5.0 * Pow3(x) + 6.0 * Pow5(x) }

  function CubeQuotient(x: real, y: real): real { y * y + x * y + x * x }

  function QuintQuotient(x: real, y: real): real {
    y * y * y * y + y * y * y * x + y * y * x * x + y * x * x * x + x * x * x * x
  }

  function Quotient(x: real, y: real): real {
    1.875 - 5.0 * CubeQuotient(x, y) + 6.0 * QuintQuotient(x, y)
  }

  lemma CenteredPoly(x: real)
    ensures Poly(0.5 + x) == 0.5 + Odd(x)
  {}

  lemma CubeDifference(x: real, y: real)
    ensures Pow3(y) - Pow3(x) == (y - x) * CubeQuotient(x, y)
  {}

  lemma QuintDifference(x: real, y: real)
    ensures Pow5(y) - Pow5(x) == (y - x) * QuintQuotient(x, y)
  {}

  lemma CenteredDifference(x: real, y: real)
    ensures Odd(y) - Odd(x) == (y - x) * Quotient(x, y)
  {
    hide CubeQuotient, QuintQuotient, Pow3, Pow5;
    CubeDifference(x, y);
    QuintDifference(x, y);
    var d, c, q := y - x, CubeQuotient(x, y), QuintQuotient(x, y);
    assert d * (1.875 - 5.0 * c + 6.0 * q) == 1.875 * d - 5.0 * (d * c) + 6.0 * (d * q);
  }

  lemma DividedDifferenceForm(x: real, y: real)
    ensures DividedDifference(x + y, y - x) == Quotient(x, y)
  {
    var g, d := x + y, y - x;
    var s2, p2 := x * x + y * y, x * y;
    assert g * g == s2 + 2.0 * p2 && d * d == s2 - 2.0 * p2;
    assert g * g * g * g == s2 * s2 + 4.0 * s2 * p2 + 4.0 * p2 * p2;
    assert g * g * d * d == s2 * s2 - 4.0 * p2 * p2;
    assert d * d * d * d == s2 * s2 - 4.0 * s2 * p2 + 4.0 * p2 * p2;
    assert s2 * s2 == x * x * x * x + 2.0 * p2 * p2 + y * y * y * y;
    assert s2 * p2 == x * x * x * y + x * y * y * y;
    assert p2 * p2 == x * x * y * y;
  }

  lemma UnitSquares(h: real, d: real)
    requires 0.0 <= h && 0.0 <= d && h + d <= 1.0
    ensures h * h + d * d <= 1.0
    ensures d * d <= (1.0 - h) * (1.0 - h)
  {
    var w := 1.0 - h;
    SquareMono(d, w);
    MulUnit(h, h);
    assert w * w == 1.0 - 2.0 * h + h * h;
  }

  lemma DividedDifferenceRange(g: real, d: real)
    requires 0.0 <= d && Abs(g) + d <= 1.0
    ensures 0.0 <= DividedDifference(g, d) <= PEAK_VELOCITY_FACTOR
  {
    var g2, d2, h := g * g, d * d, Abs(g);
    assert h * h == g2;
    UnitSquares(h, d);
    assert DividedDifference(g, d)
        == PEAK_VELOCITY_FACTOR - 1.25 * (3.0 * g2 + d2) + 0.375 * (5.0 * g2 * g2 + 10.0 * g2 * d2 + d2 * d2);
    UpperSquares(g2, d2);
    LowerSquares(h, d2);
  }

  lemma UpperSquares(g2: real, d2: real)
    requires 0.0 <= g2 && 0.0 <= d2 && g2 + d2 <= 1.0
    ensures 0.375 * (5.0 * g2 * g2 + 10.0 * g2 * d2 + d2 * d2) <= 1.25 * (3.0 * g2 + d2)
  {
    var x, y, z := g2 * g2, g2 * d2, d2 * d2;
    MulUnit(g2 + d2, g2);
    MulUnit(d2, d2);
    MulUnit(d2, g2);
    assert (g2 + d2) * g2 == x + y;
    assert x + y <= g2;
    assert y <= g2 && z <= d2;
    assert 0.375 * (5.0 * g2 * g2 + 10.0 * g2 * d2 + d2 * d2) == 0.375 * (5.0 * x + 10.0 * y + z);
  }

  lemma LowerSquares(g: real, d2: real)
    requires 0.0 <= g <= 1.0 && 0.0 <= d2 <= (1.0 - g) * (1.0 - g)
    ensures var g2 := g * g;
      0.0 <= PEAK_VELOCITY_FACTOR - 1.25 * (3.0 * g2 + d2) + 0.375 * (5.0 * g2 * g2 + 10.0 * g2 * d2 + d2 * d2)
  {
    var g2, w2 := g * g, (1.0 - g) * (1.0 - g);
    MulNonNeg(g2, d2);
    MulNonNeg(d2, d2);
    assert (1.0 - g2) * (1.0 - g2) == w2 * ((1.0 + g) * (1.0 + g));
    MulMono(1.0, (1.0 + g) * (1.0 + g), w2);
  }

  lemma DividedDifferenceOf(x: real, y: real) returns (q: real)
    requires -0.5 <= x <= y <= 0.5
    ensures 0.0 <= q <= PEAK_VELOCITY_FACTOR
    ensures Poly(0.5 + y) - Poly(0.5 + x) == (y - x) * q
  {
    hide Poly, DividedDifference, Odd, Quotient;
    CenteredPoly(x);
    CenteredPoly(y);
    CenteredDifference(x, y);
    DividedDifferenceForm(x, y);
    DividedDifferenceRange(x + y, y - x);
    q := Quotient(x, y);
  }

  /** Between any two normalised times the blend rises, by at most 1.875 times their distance. */
  lemma PolyDifference(a: real, b: real)
    requires 0.0 <= a <= b <= 1.0
    ensures 0.0 <= Poly(b) - Poly(a) <= PEAK_VELOCITY_FACTOR * (b - a)
  {
    hide Poly;
    var q := DividedDifferenceOf(a - 0.5, b - 0.5);
    assert 0.5 + (a - 0.5) == a && 0.5 + (b - 0.5) == b;
    assert Poly(b) - Poly(a) == (b - a) * q;
    ScaledRange(b - a, q, Poly(b) - Poly(a));
  }

  lemma ScaledRange(d: real, q: real, diff: real)
    requires 0.0 <= d && 0.0 <= q <= PEAK_VELOCITY_FACTOR && diff == d * q
    ensures 0.0 <= diff <= PEAK_VELOCITY_FACTOR * d
  {
    MulMono(q, PEAK_VELOCITY_FACTOR, d);
    MulNonNeg(d, q);
  }

  lemma PolyRange(u: real)
    requires 0.0 <= u <= 1.0
    ensures 0.0 <= Poly(u) <= 1.0
  {
    PolyEnds();
    hide Poly;
    PolyDifference(0.0, u);
    PolyDifference(u, 1.0);
  }

  lemma PolyEnds()
    ensures Poly(0.0) == Slope(0.0) == Slope(1.0) == 0.0 && Poly(1.0) == 1.0
  {}

  // ---------------------------------------------------------------- the blend in time

  /** The blend factor runs from exactly 0 to exactly 1 and never leaves that interval; its rate
      is between 0 and 1.875 / duration and is 0 outside the blend. */
  lemma BlendRange(elapsed: real, duration: real)
    requires duration > 0.0
    ensures 0.0 <= Quintic(elapsed, duration).s <= 1.0
    ensures 0.0 <= Quintic(elapsed, duration).ds <= PEAK_VELOCITY_FACTOR / duration
    ensures elapsed <= 0.0 ==> Quintic(elapsed, duration) == Blend(0.0, 0.0)
    ensures elapsed >= duration ==> Quintic(elapsed, duration) == Blend(1.0, 0.0)
  {
    PolyEnds();
    hide Poly, Slope;
    var u := Clamp(elapsed / duration, 0.0, 1.0);
    PolyRange(u);
    SlopeRange(u);
    DivideMono(0.0, Slope(u), duration);
    DivideMono(Slope(u), PEAK_VELOCITY_FACTOR, duration);
    if elapsed <= 0.0 {
      DivideMono(elapsed, 0.0, duration);
    }
    if elapsed >= duration {
      DivideMono(duration, elapsed, duration);
    }
  }

  /** The blend never decreases, and between any two times it moves at most 1.875 / duration per
      unit of time. */
  lemma BlendLipschitz(t1: real, t2: real, duration: real)
    requires duration > 0.0 && t1 <= t2
    ensures 0.0 <= Quintic(t2, duration).s - Quintic(t1, duration).s
                <= PEAK_VELOCITY_FACTOR * (t2 - t1) / duration
  {
    hide Poly, Slope;
    var a, b := t1 / duration, t2 / duration;
    DivideMono(t1, t2, duration);
    var ca, cb := Clamp(a, 0.0, 1.0), Clamp(b, 0.0, 1.0);
    PolyDifference(ca, cb);
    assert cb - ca <= b - a;
    assert b - a == (t2 - t1) / duration by {
      assert (b - a) * duration == t2 - t1;
    }
    assert PEAK_VELOCITY_FACTOR * (t2 - t1) / duration == PEAK_VELOCITY_FACTOR * (b - a) by {
      assert PEAK_VELOCITY_FACTOR * (b - a) * duration == PEAK_VELOCITY_FACTOR * (t2 - t1);
    }
  }
}
