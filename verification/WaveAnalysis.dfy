/** Analysis of the regular-wave trajectory: its speed formula is the rate of its position, the speed
    between two samples stays near the samples, and the motion stays inside the required range. */
module WaveAnalysis {
  import opened RealMath
  import opened QuinticBlend
  import opened Trigonometry
  import opened Expansion
  import opened WaveTrajectory

  // ---------------------------------------------------------------- expansions of the factors

  /** What a quintic's expansion leaves after its first-order part. */
  function Tail(c2: real, c3: real, c4: real, c5: real, d: real): real {
    Mul(Square(d), c2 + Mul(d, c3 + Mul(d, c4 + Mul(d, c5))))
  }

  lemma TailForm(c2: real, c3: real, c4: real, c5: real, d: real)
    ensures Tail(c2, c3, c4, c5, d)
         == d * d * c2 + d * d * d * c3 + d * d * d * d * c4 + c5 * d * d * d * d * d
  {
    assert d * (c4 + d * c5) == d * c4 + d * d * c5;
    assert d * (c3 + d * c4 + d * d * c5) == d * c3 + d * d * c4 + d * d * d * c5;
    assert d * d * (c2 + d * c3 + d * d * c4 + d * d * d * c5)
        == d * d * c2 + d * d * d * c3 + d * d * d * d * c4 + c5 * d * d * d * d * d;
  }

  lemma UnitBound(d: real, x: real, b: real)
    requires Abs(d) <= 1.0 && Abs(x) <= b
    ensures Abs(Mul(d, x)) <= b
  {
    MulBound(d, x, 1.0, b);
  }

  lemma TailBound(c2: real, c3: real, c4: real, c5: real, d: real, b2: real, b3: real, b4: real, b5: real)
    requires Abs(c2) <= b2 && Abs(c3) <= b3 && Abs(c4) <= b4 && Abs(c5) <= b5 && Abs(d) <= 1.0
    ensures Abs(Tail(c2, c3, c4, c5, d)) <= Mul(b2 + b3 + b4 + b5, Square(d))
  {
    SquareNonNeg(d);
    Commute(Square(d), b2 + b3 + b4 + b5);
    hide Mul, Square;
    UnitBound(d, c5, b5);
    UnitBound(d, c4 + Mul(d, c5), b4 + b5);
    UnitBound(d, c3 + Mul(d, c4 + Mul(d, c5)), b3 + b4 + b5);
    NamedBound(Square(d), c2 + Mul(d, c3 + Mul(d, c4 + Mul(d, c5))), Square(d), b2 + b3 + b4 + b5);
  }

  lemma Commute(x: real, y: real)
    ensures Mul(x, y) == Mul(y, x)
  {}

  lemma CoefficientBounds(a: real)
    requires 0.0 <= a <= 1.0
    ensures Abs(C2(a)) <= 180.0 && Abs(C3(a)) <= 130.0 && Abs(C4(a)) <= 45.0
  {
    var a2 := a * a;
    MulUnit(a, a);
    MulNonNeg(a, a);
    MulUnit(a2, a);
    MulNonNeg(a2, a);
    assert C2(a) == 30.0 * a - 90.0 * a2 + 60.0 * (a2 * a);
    assert C3(a) == 10.0 - 60.0 * a + 60.0 * a2;
  }

  lemma PolyTail(a: real, d: real)
    ensures Poly(a + d) - Poly(a) - Mul(d, Slope(a)) == Tail(C2(a), C3(a), C4(a), 6.0, d)
  {
    hide Poly, Slope, C2, C3, C4;
    PolyTaylor(a, d);
    TailForm(C2(a), C3(a), C4(a), 6.0, d);
  }

  lemma PolyExpands(a: real, d: real)
    requires 0.0 <= a <= 1.0 && Abs(d) <= 1.0
    ensures Expands(Poly(a), Slope(a), Poly(a + d), d, 361.0)
  {
    hide Poly, Slope, C2, C3, C4, Mul, Square, Tail;
    PolyTail(a, d);
    CoefficientBounds(a);
    TailBound(C2(a), C3(a), C4(a), 6.0, d, 180.0, 130.0, 45.0, 6.0);
  }

  lemma SlopeTail(a: real, d: real)
    ensures Slope(a + d) - Slope(a) - Mul(d, 2.0 * C2(a)) == Tail(3.0 * C3(a), 4.0 * C4(a), 30.0, 0.0, d)
  {
    QuinticBlend.Cube(a, d);
    Quart(a, d);
    TailForm(3.0 * C3(a), 4.0 * C4(a), 30.0, 0.0, d);
  }

  lemma SlopeExpands(a: real, d: real)
    requires 0.0 <= a <= 1.0 && Abs(d) <= 1.0
    ensures Expands(Slope(a), 2.0 * C2(a), Slope(a + d), d, 600.0)
  {
    hide Poly, Slope, C2, C3, C4, Mul, Square, Tail;
    SlopeTail(a, d);
    CoefficientBounds(a);
    TailBound(3.0 * C3(a), 4.0 * C4(a), 30.0, 0.0, d, 390.0, 180.0, 30.0, 0.0);
  }

  lemma SineExpands(t: Trig, x: real, d: real)
    requires t.Valid() && Abs(Mul(2.0 * t.pi, d)) <= 1.0
    ensures Expands(t.sin(x), Mul(2.0 * t.pi, t.cos(x)), t.sin(x + Mul(2.0 * t.pi, d)), d, 40.0)
  {
    var k, turn := Mul(2.0 * t.pi, d), 2.0 * t.pi;
    t.SineStep(x, k);
    SquaredTurn(turn, d);
    TurnedRate(turn, d, t.sin(x), t.cos(x));
  }

  lemma SquaredTurn(turn: real, d: real)
    requires 0.0 <= turn <= 6.3
    ensures Square(Mul(turn, d)) <= Mul(40.0, Square(d))
  {
    var d2, t2 := d * d, turn * turn;
    SquareMono(turn, 6.3);
    MulMono(t2, 40.0, d2);
    assert turn * d * (turn * d) == t2 * d2;
  }

  lemma TurnedRate(turn: real, d: real, s: real, c: real)
    ensures Dot(1.0, s, Mul(turn, d), c) == s + Mul(d, Mul(turn, c))
  {}

  lemma OffsetExpands(w: Shape, u: real, d: real)
    requires w.Valid() && Abs(Mul(2.0 * w.trig.pi, d)) <= 1.0
    ensures Expands(w.Offset(u), w.OffsetRate(u), w.Offset(u + d), d, 40.0 * w.amplitude)
  {
    AngleStep(w, u, d);
    var x, turn := w.Angle(u), 2.0 * w.trig.pi;
    hide Shape.Angle;
    SineExpands(w.trig, x, d);
    AffineExpands(w.Bias(), w.Swing(), w.trig.sin(x), Mul(turn, w.trig.cos(x)), w.trig.sin(x + Mul(turn, d)), d, 40.0);
  }

  lemma AngleStep(w: Shape, u: real, d: real)
    ensures w.Angle(u + d) == w.Angle(u) + Mul(2.0 * w.trig.pi, d)
  {}

  /** The rate of OffsetRate. */
  function OffsetCurve(w: Shape, u: real): real {
    Mul(Mul(w.Swing(), 2.0 * w.trig.pi), Mul(2.0 * w.trig.pi, w.trig.cos(w.Angle(u) + w.trig.pi / 2.0)))
  }

  lemma OffsetRateExpands(w: Shape, u: real, d: real)
    requires w.Valid() && Abs(Mul(2.0 * w.trig.pi, d)) <= 1.0
    ensures Expands(w.OffsetRate(u), OffsetCurve(w, u), w.OffsetRate(u + d), d, 252.0 * w.amplitude)
  {
    AngleStep(w, u, d);
    var x, y, turn := w.Angle(u), w.Angle(u + d), 2.0 * w.trig.pi;
    hide Shape.Angle;
    var q := w.trig.pi / 2.0;
    w.trig.QuarterTurn(x);
    w.trig.QuarterTurn(y);
    assert x + q + Mul(turn, d) == y + q;
    SineExpands(w.trig, x + q, d);
    var gain := Mul(w.Swing(), turn);
    AffineExpands(0.0, gain, w.trig.sin(x + q), Mul(turn, w.trig.cos(x + q)), w.trig.sin(y + q), d, 40.0);
    Reassociate(w.Swing(), turn, w.trig.cos(x));
    Reassociate(w.Swing(), turn, w.trig.cos(y));
    GainBound(w.Swing(), turn, w.amplitude);
    WeakerExpands(w.OffsetRate(u), OffsetCurve(w, u), w.OffsetRate(u + d), d, Mul(Abs(gain), 40.0),
                  252.0 * w.amplitude);
  }

  lemma Reassociate(a: real, b: real, c: real)
    ensures Mul(Mul(a, b), c) == Mul(a, Mul(b, c))
  {}

  lemma GainBound(swing: real, turn: real, amplitude: real)
    requires Abs(swing) == amplitude && 0.0 <= turn <= 6.3
    ensures Abs(Mul(swing, turn)) <= 6.3 * amplitude
    ensures Mul(Abs(Mul(swing, turn)), 40.0) <= 252.0 * amplitude
  {
    MulBound(swing, turn, amplitude, 6.3);
  }

  // ---------------------------------------------------------------- the trajectory in one blend

  function Travel(w: Shape, u: real): real { Mul(Poly(u), w.Offset(u)) }

  lemma OffsetBounds(w: Shape, u: real)
    requires w.Valid()
    ensures Abs(w.Offset(u)) <= Abs(w.Bias()) + w.amplitude
    ensures Abs(w.OffsetRate(u)) <= 6.3 * w.amplitude
    ensures Abs(OffsetCurve(w, u)) <= 40.0 * w.amplitude
  {
    var turn, q := 2.0 * w.trig.pi, w.trig.pi / 2.0;
    var x := w.Angle(u);
    var s, c, cq := w.trig.sin(x), w.trig.cos(x), w.trig.cos(x + q);
    w.trig.Bounds(x);
    w.trig.Bounds(x + q);
    hide Mul, Shape.Angle;
    SwingBounds(w.Swing(), w.amplitude, turn, s, c, cq);
  }

  lemma SwingBounds(swing: real, a: real, turn: real, s: real, c: real, cq: real)
    requires Abs(swing) == a && 0.0 <= turn <= 6.3
    requires Abs(s) <= 1.0 && Abs(c) <= 1.0 && Abs(cq) <= 1.0
    ensures Abs(Mul(swing, s)) <= a
    ensures Abs(Mul(swing, Mul(turn, c))) <= 6.3 * a
    ensures Abs(Mul(Mul(swing, turn), Mul(turn, cq))) <= 40.0 * a
  {
    GainBound(swing, turn, a);
    Constants(a);
    hide Mul;
    NamedBound(swing, s, a, 1.0);
    NamedBound(turn, c, 6.3, 1.0);
    NamedBound(turn, cq, 6.3, 1.0);
    NamedBound(swing, Mul(turn, c), a, 6.3);
    NamedBound(Mul(swing, turn), Mul(turn, cq), 6.3 * a, 6.3);
  }

  lemma Constants(a: real)
    requires 0.0 <= a
    ensures Mul(6.3, 1.0) == 6.3 && Mul(a, 1.0) == a && Mul(a, 6.3) == 6.3 * a
    ensures Mul(6.3 * a, 6.3) <= 40.0 * a
  {}

  /** The rate of the blended position is exactly what the source samples as velocity. */
  lemma TravelExpands(w: Shape, u: real, d: real)
    requires w.Valid() && 0.0 <= u && 0.0 <= d && u + d <= 1.0 && Abs(Mul(2.0 * w.trig.pi, d)) <= 1.0
    ensures Expands(Travel(w, u), w.Rate(u), Travel(w, u + d), d, TravelCurvature(w))
  {
    TravelConstants(Abs(w.Bias()), w.amplitude);
    PolyRange(u);
    SlopeRange(u);
    OffsetBounds(w, u);
    OffsetBounds(w, u + d);
    PolyExpands(u, d);
    OffsetExpands(w, u, d);
    hide Mul, Dot, Poly, Slope, Expands, Shape.Offset, Shape.OffsetRate, Shape.Bias;
    ProductExpands(Poly(u), Slope(u), Poly(u + d), 361.0,
                   w.Offset(u), w.OffsetRate(u), w.Offset(u + d), 40.0 * w.amplitude, d,
                   1.0, 1.875, 6.3 * w.amplitude, Abs(w.Bias()) + w.amplitude, TravelCurvature(w));
  }

  function TravelCurvature(w: Shape): real { 361.0 * Abs(w.Bias()) + 500.0 * w.amplitude }

  function RateCurvature(w: Shape): real { 600.0 * Abs(w.Bias()) + 20500.0 * w.amplitude }

  lemma TravelConstants(k: real, a: real)
    requires 0.0 <= k && 0.0 <= a
    ensures Mul(1.875, 6.3 * a) + Mul(361.0, k + a) + Mul(1.0 + 1.875, 40.0 * a) <= 361.0 * k + 500.0 * a
    ensures Mul(360.0, 6.3 * a) + Mul(600.0, k + a) + Mul(1.875 + 360.0, 40.0 * a) <= 600.0 * k + 17400.0 * a
    ensures Mul(1.875, 40.0 * a) + Mul(361.0, 6.3 * a) + Mul(1.0 + 1.875, 252.0 * a) <= 3100.0 * a
  {}

  function SlopePart(w: Shape, u: real): real { Mul(Slope(u), w.Offset(u)) }

  function PolyPart(w: Shape, u: real): real { Mul(Poly(u), w.OffsetRate(u)) }

  lemma SlopePartExpands(w: Shape, u: real, d: real)
    requires w.Valid() && 0.0 <= u && 0.0 <= d && u + d <= 1.0 && Abs(Mul(2.0 * w.trig.pi, d)) <= 1.0
    ensures Expands(SlopePart(w, u), Dot(2.0 * C2(u), w.Offset(u), Slope(u), w.OffsetRate(u)),
                    SlopePart(w, u + d), d, 600.0 * Abs(w.Bias()) + 17400.0 * w.amplitude)
  {
    TravelConstants(Abs(w.Bias()), w.amplitude);
    SlopeRange(u);
    CoefficientBounds(u);
    OffsetBounds(w, u);
    OffsetBounds(w, u + d);
    SlopeExpands(u, d);
    OffsetExpands(w, u, d);
    hide Mul, Dot, C2, Slope, Expands, Shape.Offset, Shape.OffsetRate, Shape.Bias;
    ProductExpands(Slope(u), 2.0 * C2(u), Slope(u + d), 600.0,
                   w.Offset(u), w.OffsetRate(u), w.Offset(u + d), 40.0 * w.amplitude, d,
                   1.875, 360.0, 6.3 * w.amplitude, Abs(w.Bias()) + w.amplitude,
                   600.0 * Abs(w.Bias()) + 17400.0 * w.amplitude);
  }

  lemma PolyPartExpands(w: Shape, u: real, d: real)
    requires w.Valid() && 0.0 <= u && 0.0 <= d && u + d <= 1.0 && Abs(Mul(2.0 * w.trig.pi, d)) <= 1.0
    ensures Expands(PolyPart(w, u), Dot(Slope(u), w.OffsetRate(u), Poly(u), OffsetCurve(w, u)),
                    PolyPart(w, u + d), d, 3100.0 * w.amplitude)
  {
    TravelConstants(Abs(w.Bias()), w.amplitude);
    PolyRange(u);
    SlopeRange(u);
    OffsetBounds(w, u);
    OffsetBounds(w, u + d);
    PolyExpands(u, d);
    OffsetRateExpands(w, u, d);
    hide Mul, Dot, Poly, Slope, Expands, Shape.OffsetRate, OffsetCurve, Shape.Bias;
    ProductExpands(Poly(u), Slope(u), Poly(u + d), 361.0,
                   w.OffsetRate(u), OffsetCurve(w, u), w.OffsetRate(u + d), 252.0 * w.amplitude, d,
                   1.0, 1.875, 40.0 * w.amplitude, 6.3 * w.amplitude, 3100.0 * w.amplitude);
  }

  lemma RateParts(w: Shape, u: real)
    ensures w.Rate(u) == SlopePart(w, u) + PolyPart(w, u)
  {}

  function RateRate(w: Shape, u: real): real {
    Dot(2.0 * C2(u), w.Offset(u), Slope(u), w.OffsetRate(u)) + Dot(Slope(u), w.OffsetRate(u), Poly(u), OffsetCurve(w, u))
  }

  lemma RateExpands(w: Shape, u: real, d: real)
    requires w.Valid() && 0.0 <= u && 0.0 <= d && u + d <= 1.0 && Abs(Mul(2.0 * w.trig.pi, d)) <= 1.0
    ensures Expands(w.Rate(u), RateRate(w, u), w.Rate(u + d), d, RateCurvature(w))
  {
    RateParts(w, u);
    RateParts(w, u + d);
    SlopePartExpands(w, u, d);
    PolyPartExpands(w, u, d);
    hide Mul, Dot, C2, Poly, Slope, Expands, Shape.Offset, Shape.OffsetRate, OffsetCurve, Shape.Bias, Shape.Rate,
      SlopePart, PolyPart;
    SumExpands(SlopePart(w, u), Dot(2.0 * C2(u), w.Offset(u), Slope(u), w.OffsetRate(u)), SlopePart(w, u + d),
               600.0 * Abs(w.Bias()) + 17400.0 * w.amplitude,
               PolyPart(w, u), Dot(Slope(u), w.OffsetRate(u), Poly(u), OffsetCurve(w, u)), PolyPart(w, u + d),
               3100.0 * w.amplitude, d);
  }

  // ---------------------------------------------------------------- speed between samples

  const SPACING: real := 0.0001

  function WithMargin(raw: real): real { raw * (1.0 + SAMPLING_MARGIN) }

  /** The mid-blend sample limits how far the start position can be from the wave. */
  lemma BiasBound(w: Shape, raw: real)
    requires w.Valid() && Abs(w.Rate(0.5)) <= raw && Mul(2.0 * w.trig.pi, w.amplitude) <= raw
    ensures Abs(w.Bias()) <= raw && 6.28 * w.amplitude <= raw
  {
    w.trig.Bounds(w.Angle(0.5));
    OffsetBounds(w, 0.5);
    var s, rate := w.trig.sin(w.Angle(0.5)), w.OffsetRate(0.5);
    MiddleValues();
    hide Shape.Angle, Poly, Slope, Shape.OffsetRate, Mul, Dot;
    MiddleBound(w.Bias(), w.Swing(), s, rate, w.amplitude, 2.0 * w.trig.pi, raw);
  }

  lemma MiddleValues()
    ensures Slope(0.5) == 1.875 && Poly(0.5) == 0.5
  {}

  lemma MiddleBound(bias: real, swing: real, s: real, rate: real, amplitude: real, turn: real, raw: real)
    requires Abs(swing) == amplitude && Abs(s) <= 1.0 && Abs(rate) <= 6.3 * amplitude && 6.28 <= turn
    requires Abs(Dot(1.875, bias + Mul(swing, s), 0.5, rate)) <= raw && Mul(turn, amplitude) <= raw
    ensures Abs(bias) <= raw && 6.28 * amplitude <= raw
  {
    MulMono(6.28, turn, amplitude);
    MulBound(swing, s, amplitude, 1.0);
  }

  lemma MarginCovers(bias: real, amplitude: real, raw: real)
    requires bias <= raw && 6.28 * amplitude <= raw && 0.0 <= amplitude && 0.0 <= bias
    ensures 2.0 * Mul(600.0 * bias + 20500.0 * amplitude, Square(SPACING)) <= SAMPLING_MARGIN * raw
  {
    assert Square(SPACING) == 0.00000001;
  }

  /** Between sample i and the next one the rate exceeds the larger sample by less than the margin:
      the second-order change over one spacing is smaller than 1e-4 of the peak. */
  lemma RateBetweenSamples(w: Shape, i: nat, theta: real, raw: real)
    requires w.Valid() && i < BLEND_SAMPLES && 0.0 <= theta <= 1.0
    requires Abs(w.Rate(i as real * SPACING)) <= raw && Abs(w.Rate((i + 1) as real * SPACING)) <= raw
    requires Abs(w.Rate(0.5)) <= raw && Mul(2.0 * w.trig.pi, w.amplitude) <= raw
    ensures Abs(w.Rate(i as real * SPACING + Mul(theta, SPACING))) <= WithMargin(raw)
  {
    var a := i as real * SPACING;
    assert (i + 1) as real * SPACING == a + SPACING <= 1.0;
    BiasBound(w, raw);
    MarginCovers(Abs(w.Bias()), w.amplitude, raw);
    StepRoom(w, theta);
    hide Mul, Square, Lerp, Shape.Rate, Shape.Bias, Expands;
    RateExpands(w, a, Mul(theta, SPACING));
    RateExpands(w, a, SPACING);
    Chord(w.Rate(a), RateRate(w, a), w.Rate(a + Mul(theta, SPACING)), w.Rate(a + SPACING), SPACING, theta,
          RateCurvature(w));
    LerpBound(theta, w.Rate(a), w.Rate(a + SPACING), raw);
  }

  lemma StepRoom(w: Shape, theta: real)
    requires w.Valid() && 0.0 <= theta <= 1.0
    ensures 0.0 <= Mul(theta, SPACING) <= SPACING
    ensures Abs(Mul(2.0 * w.trig.pi, Mul(theta, SPACING))) <= 1.0
    ensures Abs(Mul(2.0 * w.trig.pi, SPACING)) <= 1.0
  {
    var d := theta * SPACING;
    MulBound(2.0 * w.trig.pi, d, 6.3, SPACING);
  }

  lemma SampleBelow(u: real) returns (i: nat, theta: real)
    requires 0.0 <= u <= 1.0
    ensures i < BLEND_SAMPLES && 0.0 <= theta <= 1.0
    ensures u == i as real * SPACING + Mul(theta, SPACING)
  {
    i := if u == 1.0 then BLEND_SAMPLES - 1 else (u * 10000.0).Floor;
    theta := u * 10000.0 - i as real;
  }

  // ---------------------------------------------------------------- the trajectory in time

  lemma VelocityIsRate(w: Shape, t: real)
    requires w.Valid()
    ensures 0.0 <= t < w.startup ==> w.Velocity(t) == w.Rate(t / w.startup) / w.startup
    ensures t >= w.startup ==> w.Velocity(t) == w.OffsetRate(t / w.startup) / w.startup
    ensures t < 0.0 ==> w.Velocity(t) == 0.0
  {
    w.WaveForm(t);
    var u := t / w.startup;
    if t < 0.0 {
      BlendRange(t, w.startup);
      assert w.Velocity(t) == Dot(0.0, w.WavePosition(t) - w.start, 0.0, w.WaveVelocity(t));
    } else if t < w.startup {
      NormalisedTime(t, w.startup);
      hide Poly, Slope, Shape.Offset, Shape.OffsetRate, Shape.WavePosition, Shape.WaveVelocity;
      DividedDot(Slope(u), w.Offset(u), Poly(u), w.OffsetRate(u), w.startup);
    }
  }

  lemma NormalisedTime(t: real, startup: real)
    requires 0.0 <= t < startup
    ensures 0.0 <= t / startup < 1.0 && Clamp(t / startup, 0.0, 1.0) == t / startup
  {
    DivideMono(0.0, t, startup);
    var u := t / startup;
    assert u * startup == t;
    if 1.0 <= u {
      MulMono(1.0, u, startup);
    }
  }

  lemma DividedDot(a: real, b: real, c: real, d: real, startup: real)
    requires 0.0 < startup
    ensures Dot(a / startup, b, c, d / startup) == Dot(a, b, c, d) / startup
  {
    assert a / startup * b == a * b / startup by {
      assert a / startup * b * startup == a * b;
    }
    assert c * (d / startup) == c * d / startup by {
      assert c * (d / startup) * startup == c * d;
    }
  }

  /** A sampled time of peak_velocity(). */
  function SampleTime(w: Shape, i: int): real { w.startup * i as real / (BLEND_SAMPLES as real) }

  ghost predicate SamplesBelow(w: Shape, n: int, raw: real)
    requires 0.0 < w.startup
  {
    forall i | 0 <= i < n :: Abs(w.Velocity(SampleTime(w, i))) <= raw
  }

  lemma SampledRate(w: Shape, i: nat, raw: real)
    requires w.Valid() && i <= BLEND_SAMPLES && SamplesBelow(w, BLEND_SAMPLES + 1, raw)
    ensures Abs(w.Rate(i as real * SPACING)) <= Mul(raw, w.startup)
  {
    var t, u := SampleTime(w, i), i as real * SPACING;
    assert Abs(w.Velocity(t)) <= raw;
    SampleInstant(w, i);
    VelocityIsRate(w, t);
    RateAtEnd(w);
    hide Shape.Rate, Shape.Velocity, Shape.OffsetRate, Mul, SampleTime;
    Scaled(w.Velocity(t), w.Rate(u), w.startup, raw);
  }

  lemma SampleInstant(w: Shape, i: nat)
    requires 0.0 < w.startup && i <= BLEND_SAMPLES
    ensures var t, u := SampleTime(w, i), i as real * SPACING;
      t / w.startup == u && 0.0 <= t && (if i == BLEND_SAMPLES then t == w.startup && u == 1.0 else t < w.startup)
  {
    var u := i as real * SPACING;
    assert SampleTime(w, i) == Mul(w.startup, u);
    Cancel(w.startup, u);
    assert u == 1.0 ==> Mul(w.startup, u) == w.startup;
    hide Mul;
    NamedNonNeg(w.startup, u);
    if i < BLEND_SAMPLES {
      Shrink(w.startup, u);
    }
  }

  lemma Shrink(x: real, u: real)
    requires 0.0 < x && u < 1.0
    ensures Mul(x, u) < x
  {
    StrictMono(u, 1.0, x);
  }

  lemma Cancel(x: real, u: real)
    requires 0.0 < x
    ensures Mul(x, u) / x == u
  {}

  lemma Scaled(v: real, g: real, startup: real, raw: real)
    requires 0.0 < startup && v == g / startup && Abs(v) <= raw
    ensures Abs(g) <= Mul(raw, startup)
  {
    assert g == v * startup;
    MulBound(v, startup, raw, startup);
  }

  lemma Unscaled(v: real, g: real, startup: real, raw: real)
    requires 0.0 < startup && v == g / startup && Abs(g) <= Mul(raw, startup)
    ensures Abs(v) <= raw
  {
    assert g == v * startup;
    var a := Abs(v);
    assert Abs(g) == a * startup;
    if raw < a {
      StrictMono(raw, a, startup);
    }
  }

  /** At the end of the blend its rate is the wave's own rate, so both formulas agree there. */
  lemma RateAtEnd(w: Shape)
    ensures w.Rate(1.0) == w.OffsetRate(1.0)
  {
    PolyEnds();
    hide Poly, Slope, Shape.Offset, Shape.OffsetRate;
    assert w.Rate(1.0) == Dot(0.0, w.Offset(1.0), 1.0, w.OffsetRate(1.0));
  }

  lemma WaveSpeed(w: Shape, u: real)
    requires w.Valid()
    ensures Abs(w.OffsetRate(u)) <= Mul(2.0 * w.trig.pi, w.amplitude)
  {
    var c := w.trig.cos(w.Angle(u));
    w.trig.Bounds(w.Angle(u));
    var turn := 2.0 * w.trig.pi;
    MulBound(turn, c, turn, 1.0);
    var tc := turn * c;
    MulBound(w.Swing(), tc, w.amplitude, turn);
  }

  lemma PeakInTurns(w: Shape, raw: real)
    requires w.Valid() && w.amplitude * w.omega <= raw
    ensures Mul(2.0 * w.trig.pi, w.amplitude) <= Mul(raw, w.startup)
  {
    MulMono(w.amplitude * w.omega, raw, w.startup);
    assert w.amplitude * w.omega * w.startup == w.amplitude * (w.omega * w.startup);
  }

  /** peak_velocity() samples the blend at 10001 times only, yet with its margin of 1e-4 it bounds the
      speed at every real time, for both wave forms and every start position. */
  lemma PeakCoversEveryTime(w: Shape, raw: real, t: real)
    requires w.Valid() && w.amplitude * w.omega <= raw && SamplesBelow(w, BLEND_SAMPLES + 1, raw)
    ensures Abs(w.Velocity(t)) <= WithMargin(raw)
  {
    RawNonNeg(w, raw);
    VelocityIsRate(w, t);
    if t >= w.startup {
      VelocityAfterBlend(w, raw, t);
    } else if 0.0 <= t {
      VelocityInBlend(w, raw, t);
    }
  }

  lemma RawNonNeg(w: Shape, raw: real)
    requires w.Valid() && SamplesBelow(w, BLEND_SAMPLES + 1, raw)
    ensures 0.0 <= raw <= WithMargin(raw)
  {
    assert Abs(w.Velocity(SampleTime(w, 0))) <= raw;
  }

  lemma VelocityAfterBlend(w: Shape, raw: real, t: real)
    requires w.Valid() && w.amplitude * w.omega <= raw && t >= w.startup
    ensures Abs(w.Velocity(t)) <= raw
  {
    var u := t / w.startup;
    PeakInTurns(w, raw);
    VelocityIsRate(w, t);
    WaveSpeed(w, u);
    hide Shape.OffsetRate, Shape.Velocity;
    Unscaled(w.Velocity(t), w.OffsetRate(u), w.startup, raw);
  }

  lemma RateInBlend(w: Shape, raw: real, u: real)
    requires w.Valid() && w.amplitude * w.omega <= raw && SamplesBelow(w, BLEND_SAMPLES + 1, raw)
    requires 0.0 <= u <= 1.0
    ensures Abs(w.Rate(u)) <= Mul(WithMargin(raw), w.startup)
  {
    PeakInTurns(w, raw);
    hide Shape.Rate, Mul, WithMargin;
    var i, theta := SampleBelow(u);
    SampledRate(w, i, raw);
    SampledRate(w, i + 1, raw);
    SampledRate(w, 5000, raw);
    assert 5000 as real * SPACING == 0.5;
    RateBetweenSamples(w, i, theta, Mul(raw, w.startup));
    Widen(raw, w.startup);
  }

  lemma VelocityInBlend(w: Shape, raw: real, t: real)
    requires w.Valid() && w.amplitude * w.omega <= raw && SamplesBelow(w, BLEND_SAMPLES + 1, raw)
    requires 0.0 <= t < w.startup
    ensures Abs(w.Velocity(t)) <= WithMargin(raw)
  {
    var u := t / w.startup;
    VelocityIsRate(w, t);
    NormalisedTime(t, w.startup);
    hide Shape.Rate, Shape.Velocity, Mul, WithMargin;
    RateInBlend(w, raw, u);
    Unscaled(w.Velocity(t), w.Rate(u), w.startup, WithMargin(raw));
  }

  lemma Widen(raw: real, startup: real)
    ensures WithMargin(Mul(raw, startup)) == Mul(WithMargin(raw), startup)
  {}

  // ---------------------------------------------------------------- position

  lemma WaveRange(w: Shape, t: real)
    requires w.Valid()
    ensures w.RequiredMinimum() <= w.WavePosition(t) <= w.RequiredMaximum()
  {
    var phase := Mul(w.omega, w.WaveTime(t));
    w.trig.Bounds(phase);
    hide Shape.WaveTime;
    WaveProducts(w.amplitude, w.trig.sin(phase), w.trig.cos(phase));
  }

  lemma WaveProducts(a: real, s: real, c: real)
    requires 0.0 <= a && Abs(s) <= 1.0 && Abs(c) <= 1.0
    ensures Abs(Mul(a, s)) <= a
    ensures 0.0 <= Mul(a, 1.0 - c) <= 2.0 * a
  {
    assert Mul(a, 1.0) == a && Mul(a, 2.0) == 2.0 * a;
    hide Mul;
    NamedBound(a, s, a, 1.0);
    NamedBound(a, 1.0 - c, a, 2.0);
    NamedNonNeg(a, 1.0 - c);
  }

  /** Every sampled position lies in the hull of the start position and the required range. */
  lemma PositionInHull(w: Shape, t: real)
    requires w.Valid()
    ensures Min(w.start, w.RequiredMinimum()) <= w.Position(t) <= Max(w.start, w.RequiredMaximum())
  {
    WaveRange(w, t);
    BlendRange(t, w.startup);
    hide Shape.WavePosition, Quintic, Mul;
    Between(Quintic(t, w.startup).s, w.start, w.WavePosition(t),
            Min(w.start, w.RequiredMinimum()), Max(w.start, w.RequiredMaximum()));
  }

  lemma PositionIsTravel(w: Shape, t: real)
    requires w.Valid()
    ensures 0.0 <= t < w.startup ==> w.Position(t) == w.start + Travel(w, t / w.startup)
    ensures t >= w.startup ==> w.Position(t) == w.start + w.Offset(t / w.startup)
    ensures t < 0.0 ==> w.Position(t) == w.start
  {
    w.WaveForm(t);
    if t < 0.0 {
      BlendRange(t, w.startup);
      assert Mul(0.0, w.WavePosition(t) - w.start) == 0.0;
    } else if t < w.startup {
      NormalisedTime(t, w.startup);
    }
  }

  /** At one period the blend formulas and the wave formulas give the same position and the same
      velocity, for both wave forms. */
  lemma BlendMeetsWave(w: Shape)
    requires w.Valid()
    ensures w.Position(w.startup) == w.start + Travel(w, 1.0)
    ensures w.Velocity(w.startup) == w.Rate(1.0) / w.startup
  {
    assert w.startup / w.startup == 1.0;
    RateAtEnd(w);
    TravelAtEnd(w);
    hide Poly, Slope, Travel, Shape.Rate, Shape.Offset, Shape.OffsetRate, Shape.Position, Shape.Velocity;
    PositionIsTravel(w, w.startup);
    VelocityIsRate(w, w.startup);
  }

  lemma TravelAtEnd(w: Shape)
    ensures Travel(w, 1.0) == w.Offset(1.0)
  {
    PolyEnds();
    hide Poly, Shape.Offset;
  }

  /** The position moves at most `bound` per second between any two times of one blend... */
  lemma TravelLipschitz(w: Shape, x: real, y: real, bound: real)
    requires w.Valid() && 0.0 <= x <= y <= 1.0
    requires forall u | 0.0 <= u <= 1.0 :: Abs(w.Rate(u)) <= bound
    ensures Abs(Travel(w, y) - Travel(w, x)) <= Mul(bound, y - x)
  {
    var p, v, m := u => Travel(w, u), u => w.Rate(u), TravelCurvature(w);
    forall a, b | x <= a <= b <= y && b - a <= 0.1 ensures StepExpands(p, v, m, a, b) {
      StepWithin(w, b - a);
      hide Shape.Rate, Travel, Expands;
      TravelExpands(w, a, b - a);
      assert a + (b - a) == b;
    }
    hide Shape.Rate, Travel, Mul, Expands;
    MeanValue(p, v, x, y, 0.1, m, bound);
  }

  lemma StepWithin(w: Shape, d: real)
    requires w.Valid() && 0.0 <= d <= 0.1
    ensures Abs(Mul(2.0 * w.trig.pi, d)) <= 1.0
  {
    MulBound(2.0 * w.trig.pi, d, 6.3, 0.1);
  }

  /** ... and of the wave after it. */
  lemma OffsetLipschitz(w: Shape, x: real, y: real, bound: real)
    requires w.Valid() && x <= y && Mul(2.0 * w.trig.pi, w.amplitude) <= bound
    ensures Abs(w.Offset(y) - w.Offset(x)) <= Mul(bound, y - x)
  {
    var p, v, m := u => w.Offset(u), u => w.OffsetRate(u), 40.0 * w.amplitude;
    forall a, b | x <= a <= b <= y && b - a <= 0.1 ensures StepExpands(p, v, m, a, b) {
      StepWithin(w, b - a);
      hide Shape.Offset, Shape.OffsetRate, Expands;
      OffsetExpands(w, a, b - a);
      assert a + (b - a) == b;
    }
    forall u | x <= u <= y ensures Abs(v(u)) <= bound {
      WaveSpeed(w, u);
    }
    hide Shape.Offset, Shape.OffsetRate, Mul, Expands;
    MeanValue(p, v, x, y, 0.1, m, bound);
  }

  lemma Denormalise(bound: real, startup: real, t1: real, t2: real)
    requires 0.0 < startup
    ensures Mul(Mul(bound, startup), t2 / startup - t1 / startup) == Mul(bound, t2 - t1)
  {
    var u1, u2 := t1 / startup, t2 / startup;
    assert u1 * startup == t1 && u2 * startup == t2;
    assert bound * startup * (u2 - u1) == bound * (u2 * startup - u1 * startup);
  }

  lemma UnitInterval(t1: real, t2: real, startup: real)
    requires 0.0 <= t1 <= t2 <= startup && 0.0 < startup
    ensures 0.0 <= t1 / startup <= t2 / startup <= 1.0 && startup / startup == 1.0
  {
    DivideMono(0.0, t1, startup);
    DivideMono(t1, t2, startup);
    DivideMono(t2, startup, startup);
  }

  lemma LipschitzInBlend(w: Shape, raw: real, t1: real, t2: real)
    requires w.Valid() && w.amplitude * w.omega <= raw && SamplesBelow(w, BLEND_SAMPLES + 1, raw)
    requires 0.0 <= t1 <= t2 <= w.startup
    ensures Abs(w.Position(t2) - w.Position(t1)) <= Mul(WithMargin(raw), t2 - t1)
  {
    var bound := Mul(WithMargin(raw), w.startup);
    forall u | 0.0 <= u <= 1.0 ensures Abs(w.Rate(u)) <= bound {
      RateInBlend(w, raw, u);
    }
    hide Mul, WithMargin, Shape.Rate, Shape.Position, Shape.Offset, Shape.Velocity, Travel;
    UnitInterval(t1, t2, w.startup);
    TravelAtEnd(w);
    Denormalise(WithMargin(raw), w.startup, t1, t2);
    PositionIsTravel(w, t1);
    PositionIsTravel(w, t2);
    TravelLipschitz(w, t1 / w.startup, t2 / w.startup, bound);
  }

  lemma LipschitzAfterBlend(w: Shape, raw: real, t1: real, t2: real)
    requires w.Valid() && w.amplitude * w.omega <= raw && SamplesBelow(w, BLEND_SAMPLES + 1, raw)
    requires w.startup <= t1 <= t2
    ensures Abs(w.Position(t2) - w.Position(t1)) <= Mul(WithMargin(raw), t2 - t1)
  {
    PeakInTurns(w, raw);
    RawNonNeg(w, raw);
    MulMono(raw, WithMargin(raw), w.startup);
    DivideMono(t1, t2, w.startup);
    Denormalise(WithMargin(raw), w.startup, t1, t2);
    hide Mul, WithMargin, Shape.Rate, Shape.Position, Shape.Offset, Shape.Velocity;
    PositionIsTravel(w, t1);
    PositionIsTravel(w, t2);
    OffsetLipschitz(w, t1 / w.startup, t2 / w.startup, Mul(WithMargin(raw), w.startup));
  }

  /** The commanded position never moves faster than peak_velocity(), over any two times at all: the
      speed limit that is checked when a goal is accepted really limits the commanded motion. */
  lemma PositionLipschitz(w: Shape, raw: real, t1: real, t2: real)
    requires w.Valid() && w.amplitude * w.omega <= raw && SamplesBelow(w, BLEND_SAMPLES + 1, raw)
    requires t1 <= t2
    ensures Abs(w.Position(t2) - w.Position(t1)) <= Mul(WithMargin(raw), t2 - t1)
  {
    var lo1, lo2 := Clamp(t1, 0.0, w.startup), Clamp(t2, 0.0, w.startup);
    var hi1, hi2 := Max(t1, w.startup), Max(t2, w.startup);
    RawNonNeg(w, raw);
    Spread(WithMargin(raw), lo2 - lo1, hi2 - hi1, t2 - t1);
    hide Mul, WithMargin, Shape.Rate, Shape.Position, Shape.Velocity;
    LipschitzInBlend(w, raw, lo1, lo2);
    LipschitzAfterBlend(w, raw, hi1, hi2);
    BeforeStart(w, t1);
    BeforeStart(w, t2);
  }

  lemma Spread(bound: real, x: real, y: real, z: real)
    requires 0.0 <= bound && x + y <= z
    ensures Mul(bound, x) + Mul(bound, y) <= Mul(bound, z)
  {
    var xy := x + y;
    MulMono(xy, z, bound);
    assert bound * xy == bound * x + bound * y;
  }

  lemma BeforeStart(w: Shape, t: real)
    requires w.Valid()
    ensures t < 0.0 ==> w.Position(t) == w.Position(0.0)
  {
    TravelAtStart(w);
    assert 0.0 / w.startup == 0.0;
    hide Travel, Shape.Position, Shape.Offset;
    PositionIsTravel(w, t);
    PositionIsTravel(w, 0.0);
  }

  lemma TravelAtStart(w: Shape)
    ensures Travel(w, 0.0) == 0.0
  {
    PolyEnds();
    hide Poly, Shape.Offset;
  }
}
