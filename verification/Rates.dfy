/** Velocities are rates: for the three kinds of motion the velocity computed with a position says how the
    position moves, at every time, up to an error quadratic in the step. With it the wave's range and the
    recording's samples are really reached. */
module Rates {
  import opened RealMath
  import opened QuinticBlend
  import opened Expansion
  import opened Trigonometry
  import opened Waves = WaveTrajectory
  import WaveAnalysis
  import Pregenerated

  // ---------------------------------------------------------------- the blend

  lemma NamedUnit(x: real, y: real)
    requires 0.0 <= x <= 1.0 && 0.0 <= y <= 1.0
    ensures 0.0 <= Mul(x, y) <= x && Mul(x, y) <= y
  {
    MulNonNeg(x, y);
    MulUnit(x, y);
    MulUnit(y, x);
  }

  lemma SlopeNearEnds(u: real)
    requires 0.0 <= u <= 1.0
    ensures 0.0 <= Slope(u) <= 30.0 * u && Slope(u) <= 30.0 * (1.0 - u)
  {
    var w := 1.0 - u;
    var v := Mul(u, w);
    assert Slope(u) == 30.0 * Mul(v, v);
    hide *;
    NamedUnit(u, w);
    NamedUnit(v, v);
  }

  lemma SteepOnlyInside(a: real, d: real)
    ensures var ca, cb := Clamp(a, 0.0, 1.0), Clamp(a + d, 0.0, 1.0);
      && Abs(cb - ca) <= Abs(d) && Abs(d - (cb - ca)) <= Abs(d)
      && 0.0 <= Slope(ca) && (cb - ca != d ==> Slope(ca) <= 30.0 * Abs(d))
  {
    hide Slope;
    PolyEnds();
    SlopeNearEnds(Clamp(a, 0.0, 1.0));
  }

  /** Clamping both ends costs at most another quadratic term: the slope is small near the ends. */
  lemma ClampedTangent(a: real, d: real)
    ensures var ca, cb := Clamp(a, 0.0, 1.0), Clamp(a + d, 0.0, 1.0);
      Abs(Poly(cb) - Poly(ca) - Mul(d, Slope(ca))) <= 391.0 * Square(d)
  {
    hide Poly, Slope, Mul, Square;
    SteepOnlyInside(a, d);
    var ca, cb := Clamp(a, 0.0, 1.0), Clamp(a + d, 0.0, 1.0);
    var inner := cb - ca;
    assert ca + inner == cb;
    hide Clamp;
    WaveAnalysis.PolyExpands(ca, inner);
    assert Mul(361.0, Square(inner)) == 361.0 * Square(inner) by { TimesConstant(Square(inner)); }
    CutOff(inner, d, Slope(ca));
  }

  lemma TimesConstant(x: real)
    ensures Mul(361.0, x) == 361.0 * x
  {}

  lemma CutOff(inner: real, d: real, slope: real)
    requires Abs(inner) <= Abs(d) && 0.0 <= slope && (inner != d ==> slope <= 30.0 * Abs(d)) && Abs(d - inner) <= Abs(d)
    ensures Abs(Mul(d, slope) - Mul(inner, slope)) <= 30.0 * Square(d) && Square(inner) <= Square(d)
  {
    SquareMono(Abs(inner), Abs(d));
    if inner != d {
      MulBound(d - inner, slope, Abs(d), 30.0 * Abs(d));
    }
  }

  /** The rate returned with the blend predicts it over any step, with an error quadratic in the step:
      it is the blend's derivative at every time, the two ends included. */
  lemma BlendTangent(t: real, h: real, duration: real)
    requires duration > 0.0
    ensures Abs(Quintic(t + h, duration).s - Quintic(t, duration).s - Mul(h, Quintic(t, duration).ds))
            <= 391.0 * Square(h / duration)
  {
    hide Poly, Slope;
    assert (t + h) / duration == t / duration + h / duration;
    ClampedTangent(t / duration, h / duration);
    MovedDivision(h, Slope(Clamp(t / duration, 0.0, 1.0)), duration);
  }

  lemma MovedDivision(h: real, slope: real, duration: real)
    requires duration > 0.0
    ensures Mul(h, slope / duration) == Mul(h / duration, slope)
  {
    var q := h / duration;
    assert q * duration == h && (slope / duration) * duration == slope;
  }

  // ---------------------------------------------------------------- the regular wave

  /** A bound on how fast the wave's velocity changes, per period squared. */
  function Curvature(w: Shape): real { WaveAnalysis.TravelCurvature(w) }

  lemma RateInBlend(w: Shape, t: real, h: real, d: real)
    requires w.Valid() && 0.0 <= t && 0.0 <= h && 7.0 * h <= w.startup && d == h / w.startup && t + h < w.startup
    ensures Abs(w.Position(t + h) - w.Position(t) - Mul(h, w.Velocity(t))) <= Mul(Curvature(w), Square(d))
  {
    var u := t / w.startup;
    assert (t + h) / w.startup == u + d;
    ShortStep(w.trig.pi, h, d, w.startup);
    WaveAnalysis.NormalisedTime(t, w.startup);
    WaveAnalysis.NormalisedTime(t + h, w.startup);
    hide Shape.Position, Shape.Velocity, Shape.Rate, WaveAnalysis.Travel, WaveAnalysis.TravelCurvature, Mul, Square;
    WaveAnalysis.PositionIsTravel(w, t);
    WaveAnalysis.PositionIsTravel(w, t + h);
    WaveAnalysis.VelocityIsRate(w, t);
    WaveAnalysis.TravelExpands(w, u, d);
    MovedDivision(h, w.Rate(u), w.startup);
  }

  lemma RateAfterBlend(w: Shape, t: real, h: real, d: real)
    requires w.Valid() && w.startup <= t && 0.0 <= h && 7.0 * h <= w.startup && d == h / w.startup
    ensures Abs(w.Position(t + h) - w.Position(t) - Mul(h, w.Velocity(t))) <= Mul(Curvature(w), Square(d))
  {
    var u := t / w.startup;
    assert (t + h) / w.startup == u + d;
    ShortStep(w.trig.pi, h, d, w.startup);
    Wider(w, d);
    hide Shape.Position, Shape.Velocity, Shape.Offset, Shape.OffsetRate, WaveAnalysis.TravelCurvature, Mul, Square;
    WaveAnalysis.PositionIsTravel(w, t);
    WaveAnalysis.PositionIsTravel(w, t + h);
    WaveAnalysis.VelocityIsRate(w, t);
    WaveAnalysis.OffsetExpands(w, u, d);
    MovedDivision(h, w.OffsetRate(u), w.startup);
  }

  /** Within the blend, and from its end on, the velocity of a regular wave is the rate of its position. */
  lemma WaveVelocityIsTheRate(w: Shape, t: real, h: real)
    requires w.Valid() && 0.0 <= t && 0.0 <= h && 7.0 * h <= w.startup
    requires t + h < w.startup || w.startup <= t
    ensures Abs(w.Position(t + h) - w.Position(t) - Mul(h, w.Velocity(t))) <= Mul(Curvature(w), Square(h / w.startup))
  {
    hide Shape.Position, Shape.Velocity, Curvature, Mul, Square;
    if t + h < w.startup {
      RateInBlend(w, t, h, h / w.startup);
    } else {
      RateAfterBlend(w, t, h, h / w.startup);
    }
  }

  lemma ShortStep(pi: real, h: real, d: real, startup: real)
    requires 3.14 < pi < 3.15 && 0.0 < startup && d == h / startup && 0.0 <= h && 7.0 * h <= startup
    ensures 0.0 <= d && Abs(Mul(2.0 * pi, d)) <= 1.0
  {
    DivideMono(0.0, h, startup);
    assert d * startup == h;
    if 1.0 < 7.0 * d {
      StrictMono(1.0, 7.0 * d, startup);
    }
    NamedBound(2.0 * pi, d, 7.0, 1.0 / 7.0);
  }

  lemma Wider(w: Shape, d: real)
    requires w.Valid()
    ensures Mul(40.0 * w.amplitude, Square(d)) <= Mul(Curvature(w), Square(d))
  {
    NamedMono(40.0 * w.amplitude, Curvature(w), Square(d));
  }

  /** From the end of the blend on the wave repeats itself every period, and reaches both ends of its range:
      about upright at a quarter and three quarters of a period, above it at the start and half-way. */
  lemma WaveReachesItsRange(w: Shape, t: real)
    requires w.Valid()
    ensures w.startup <= t ==> w.Position(t + w.startup) == w.Position(t)
    ensures var low := if w.uprightIsMinimum then w.startup else w.startup + 0.75 * w.startup;
      var high := if w.uprightIsMinimum then w.startup + 0.5 * w.startup else w.startup + 0.25 * w.startup;
      w.Position(low) == w.RequiredMinimum() && w.Position(high) == w.RequiredMaximum()
    ensures w.RequiredMinimum() == (if w.uprightIsMinimum then w.upright else w.upright - w.amplitude)
    ensures w.RequiredMaximum() == w.upright + (if w.uprightIsMinimum then w.amplitude + w.amplitude else w.amplitude)
  {
    if w.startup <= t {
      Repeats(w, t);
    }
    QuarterPhases(w);
    w.trig.HalfTurn(0.0);
    w.trig.HalfTurn(w.trig.pi / 2.0);
    assert 0.0 + w.trig.pi == w.trig.pi;
    var a := w.amplitude;
    assert Mul(a, 1.0 - 1.0) == 0.0 && Mul(a, 1.0 - -1.0) == a + a && Mul(a, 1.0) == a && Mul(a, -1.0) == -a;
  }

  lemma QuarterPhases(w: Shape)
    requires w.Valid()
    ensures Mul(w.omega, w.startup - w.startup) == 0.0
    ensures Mul(w.omega, w.startup + 0.25 * w.startup - w.startup) == w.trig.pi / 2.0
    ensures Mul(w.omega, w.startup + 0.5 * w.startup - w.startup) == w.trig.pi
    ensures Mul(w.omega, w.startup + 0.75 * w.startup - w.startup) == w.trig.pi / 2.0 + w.trig.pi
  {
    Part(w.omega, w.startup, 0.25);
    Part(w.omega, w.startup, 0.5);
    Part(w.omega, w.startup, 0.75);
  }

  lemma Part(omega: real, startup: real, f: real)
    ensures Mul(omega, startup + f * startup - startup) == f * Mul(omega, startup)
    ensures Mul(omega, startup - startup) == 0.0
  {}

  lemma Repeats(w: Shape, t: real)
    requires w.Valid() && w.startup <= t
    ensures w.Position(t + w.startup) == w.Position(t)
  {
    w.trig.FullTurn(Mul(w.omega, t - w.startup));
    OneTurnLater(w.omega, w.startup, t);
  }

  lemma OneTurnLater(omega: real, startup: real, t: real)
    ensures Mul(omega, t + startup - startup) == Mul(omega, t - startup) + Mul(omega, startup)
  {}

  // ---------------------------------------------------------------- the recording

  /** The recording passes through every sample at its time, and between two of them moves in a straight line
      at the velocity reported. */
  lemma PlaysEverySample(p: Pregenerated.Playback, k: nat)
    requires p.Valid() && k < |p.positions|
    ensures p.Position(p.blend + Mul(p.interval, k as real)) == p.positions[k]
    ensures p.Duration() == p.blend + Mul(p.interval, (|p.positions| - 1) as real)
  {
    var x := k as real;
    NamedNonNeg(p.interval, x);
    SampleIndex(p.interval, x);
    Pregenerated.PlaysRecording(p, p.blend + Mul(p.interval, x));
    assert (p.blend + Mul(p.interval, x) - p.blend) / p.interval == x;
    if k < p.Segments() {
      assert x.Floor == k;
      assert Mul(x - k as real, p.positions[k + 1] - p.positions[k]) == 0.0;
    }
  }

  lemma SampleIndex(interval: real, x: real)
    requires 0.0 < interval
    ensures Mul(interval, x) / interval == x
  {}

  lemma PlaysStraight(p: Pregenerated.Playback, k: nat, x: real, y: real)
    requires p.Valid() && k + 1 < |p.positions| && k as real <= x < (k + 1) as real && k as real <= y < (k + 1) as real
    ensures var s, t := p.blend + Mul(p.interval, x), p.blend + Mul(p.interval, y);
      && 0.0 <= s && 0.0 <= t && p.Velocity(s) == (p.positions[k + 1] - p.positions[k]) / p.interval
      && p.Position(t) - p.Position(s) == Mul(t - s, p.Velocity(s))
  {
    AtSample(p, k, x);
    AtSample(p, k, y);
    Straight(p.positions[k + 1] - p.positions[k], p.interval, x, y, k as real);
  }

  lemma AtSample(p: Pregenerated.Playback, k: nat, x: real)
    requires p.Valid() && k + 1 < |p.positions| && k as real <= x < (k + 1) as real
    ensures var t, d := p.blend + Mul(p.interval, x), p.positions[k + 1] - p.positions[k];
      0.0 <= t && p.Position(t) == p.positions[k] + Mul(x - k as real, d) && p.Velocity(t) == d / p.interval
  {
    var t := p.blend + Mul(p.interval, x);
    NamedNonNeg(p.interval, x);
    SampleIndex(p.interval, x);
    assert (t - p.blend) / p.interval == x && x.Floor == k;
    Pregenerated.PlaysRecording(p, t);
    Pregenerated.SampleTime(p, t);
    hide Mul;
  }

  lemma Straight(d: real, interval: real, x: real, y: real, k: real)
    requires 0.0 < interval
    ensures Mul(y - k, d) - Mul(x - k, d) == Mul(Mul(interval, y) - Mul(interval, x), d / interval)
  {
    var q := d / interval;
    assert q * interval == d;
    assert (interval * y - interval * x) * q == (y - x) * (interval * q);
  }

  /** In its blend the velocity is the rate of the position too. */
  lemma PlaybackBlendRate(p: Pregenerated.Playback, t: real, h: real)
    requires p.Valid() && 0.0 <= t && 0.0 <= h && t + h < p.blend
    ensures Abs(p.Position(t + h) - p.Position(t) - Mul(h, p.Velocity(t)))
            <= Mul(391.0 * Square(h / p.blend), Abs(p.positions[0] - p.start))
  {
    var b1, b2, d := Quintic(t, p.blend), Quintic(t + h, p.blend), p.positions[0] - p.start;
    BlendTangent(t, h, p.blend);
    hide Quintic, Mul, Square;
    Factored(b2.s, b1.s, h, b1.ds, d);
    NamedBound(b2.s - b1.s - Mul(h, b1.ds), d, 391.0 * Square(h / p.blend), Abs(d));
  }

  lemma Factored(s2: real, s1: real, h: real, ds: real, d: real)
    ensures Mul(s2, d) - Mul(s1, d) - Mul(h, Mul(ds, d)) == Mul(s2 - s1 - Mul(h, ds), d)
  {}
}
