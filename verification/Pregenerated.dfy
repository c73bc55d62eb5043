/** Playing back a recording: the paddle first eases to where the recording begins, then follows the
    polyline through its samples and stops on the last one. */
module Pregenerated {
  import opened RealMath
  import opened QuinticBlend
  import opened Expansion

  datatype Playback = Playback(positions: seq<real>, interval: real, start: real, blend: real) {

    predicate Valid() { positions != [] && 0.0 < interval && 0.0 <= blend }

    function Segments(): nat
      requires Valid()
    {
      |positions| - 1
    }

    function Duration(): real
      requires Valid()
    {
      blend + Mul(interval, Segments() as real)
    }

    function Last(): real
      requires Valid()
    {
      positions[|positions| - 1]
    }

    /** The segment that a sample time below the end falls in. */
    function Index(sample: real): (k: nat)
      requires Valid() && 0.0 <= sample < Segments() as real
      ensures k < Segments() && k as real <= sample <= (k + 1) as real
    {
      sample.Floor
    }

    /** Position after `sample` intervals of the recording. */
    function Line(sample: real): real
      requires Valid() && 0.0 <= sample
    {
      if Segments() as real <= sample then Last()
      else
        var k := Index(sample);
        positions[k] + Mul(sample - k as real, positions[k + 1] - positions[k])
    }

    function Position(elapsed: real): real
      requires Valid() && 0.0 <= elapsed
    {
      if elapsed < blend then start + Mul(Quintic(elapsed, blend).s, positions[0] - start)
      else if Duration() <= elapsed then Last()
      else
        Line((elapsed - blend) / interval)
    }

    function Velocity(elapsed: real): real
      requires Valid() && 0.0 <= elapsed
    {
      if elapsed < blend then Mul(Quintic(elapsed, blend).ds, positions[0] - start)
      else if Duration() <= elapsed then 0.0
      else
        var sample := (elapsed - blend) / interval;
        if 0.0 <= sample < Segments() as real then
          var k := Index(sample);
          (positions[k + 1] - positions[k]) / interval
        else 0.0
    }

    predicate Complete(elapsed: real)
      requires Valid() && 0.0 <= elapsed
    {
      blend <= elapsed && Duration() <= elapsed
    }

    /** peak bounds the blend's peak speed and every segment's speed. */
    ghost predicate Bounds(peak: real)
      requires Valid()
    {
      && 0.0 <= peak
      && (0.0 < blend ==> PEAK_VELOCITY_FACTOR * Abs(positions[0] - start) <= Mul(peak, blend))
      && SegmentsBelow(|positions|, peak)
    }

    ghost predicate SegmentsBelow(n: int, peak: real)
      requires Valid() && n <= |positions|
    {
      forall i | 1 <= i < n :: Abs(positions[i] - positions[i - 1]) <= Mul(peak, interval)
    }
  }

  // ---------------------------------------------------------------- the recording

  lemma SampleTime(p: Playback, elapsed: real)
    requires p.Valid() && p.blend <= elapsed
    ensures 0.0 <= (elapsed - p.blend) / p.interval
    ensures elapsed < p.Duration() <==> (elapsed - p.blend) / p.interval < p.Segments() as real
    ensures Mul(p.interval, (elapsed - p.blend) / p.interval) == elapsed - p.blend
  {
    var x, n := (elapsed - p.blend) / p.interval, p.Segments() as real;
    assert x * p.interval == elapsed - p.blend;
    DivideMono(0.0, elapsed - p.blend, p.interval);
    if x < n {
      StrictMono(x, n, p.interval);
    } else {
      MulMono(n, x, p.interval);
    }
  }

  lemma {:induction false} KnotDistance(p: Playback, i: nat, j: nat, step: real)
    requires p.Valid() && i <= j < |p.positions|
    requires forall k | 1 <= k < |p.positions| :: Abs(p.positions[k] - p.positions[k - 1]) <= step
    ensures Abs(p.positions[j] - p.positions[i]) <= Mul(step, (j - i) as real)
  {
    if i < j {
      KnotDistance(p, i, j - 1, step);
      var m := (j - 1 - i) as real;
      assert (j - i) as real == m + 1.0;
      assert Mul(step, m + 1.0) == Mul(step, m) + step;
    }
  }

  lemma InSegment(p: Playback, x: real, k: nat, step: real)
    requires p.Valid() && k < p.Segments() && k as real <= x <= (k + 1) as real
    requires Abs(p.positions[k + 1] - p.positions[k]) <= step
    ensures var y := p.positions[k] + Mul(x - k as real, p.positions[k + 1] - p.positions[k]);
      && Abs(y - p.positions[k]) <= Mul(step, x - k as real)
      && Abs(p.positions[k + 1] - y) <= Mul(step, (k + 1) as real - x)
  {
    var f, d := x - k as real, p.positions[k + 1] - p.positions[k];
    SegmentSplit(f, d, step);
    hide Mul;
    NamedBound(f, d, f, step);
    NamedBound(1.0 - f, d, 1.0 - f, step);
  }

  lemma SegmentSplit(f: real, d: real, step: real)
    ensures d - Mul(f, d) == Mul(1.0 - f, d)
    ensures Mul(f, step) == Mul(step, f) && Mul(1.0 - f, step) == Mul(step, 1.0 - f)
  {}

  /** A point of the recording and a knot at or after it. */
  lemma ToKnot(p: Playback, x: real, j: nat, step: real)
    requires p.Valid() && 0.0 <= x <= j as real && j < |p.positions|
    requires forall k | 1 <= k < |p.positions| :: Abs(p.positions[k] - p.positions[k - 1]) <= step
    ensures Abs(p.positions[j] - p.Line(x)) <= Mul(step, j as real - x)
  {
    if x < p.Segments() as real {
      var k := p.Index(x);
      assert Abs(p.positions[k + 1] - p.positions[k + 1 - 1]) <= step;
      hide Mul;
      InSegment(p, x, k, step);
      if k + 1 <= j {
        KnotDistance(p, k + 1, j, step);
        Join(step, (k + 1) as real - x, (j - (k + 1)) as real, j as real - x);
      }
    } else {
      assert Mul(step, 0.0) == 0.0;
    }
  }

  lemma Join(step: real, x: real, y: real, z: real)
    requires x + y == z
    ensures Mul(step, x) + Mul(step, y) == Mul(step, z)
  {}

  lemma LineLipschitz(p: Playback, x: real, y: real, step: real)
    requires p.Valid() && 0.0 <= x <= y && 0.0 <= step
    requires forall k | 1 <= k < |p.positions| :: Abs(p.positions[k] - p.positions[k - 1]) <= step
    ensures Abs(p.Line(y) - p.Line(x)) <= Mul(step, y - x)
  {
    var n := p.Segments();
    if n as real <= x {
      NamedNonNeg(step, y - x);
    } else if n as real <= y {
      ToKnot(p, x, n, step);
      Longer(step, n as real - x, y - x);
    } else {
      var i, j := p.Index(x), p.Index(y);
      assert Abs(p.positions[j + 1] - p.positions[j + 1 - 1]) <= step;
      if i == j {
        SameSegment(y - j as real, x - j as real, p.positions[j + 1] - p.positions[j], step);
      } else {
        hide Mul;
        InSegment(p, y, j, step);
        assert i < j by {
          assert i as real <= x <= y <= (j + 1) as real;
        }
        ToKnot(p, x, j, step);
        Join(step, j as real - x, y - j as real, y - x);
      }
    }
  }

  lemma Longer(step: real, x: real, y: real)
    requires 0.0 <= step && x <= y
    ensures Mul(step, x) <= Mul(step, y)
  {
    MulMono(x, y, step);
  }

  lemma SameSegment(g: real, f: real, d: real, step: real)
    requires f <= g && Abs(d) <= step
    ensures Abs(Mul(g, d) - Mul(f, d)) <= Mul(step, g - f)
  {
    var e := g - f;
    MulBound(e, d, e, step);
    assert g * d - f * d == e * d;
  }

  lemma LineInHull(p: Playback, x: real, lo: real, hi: real)
    requires p.Valid() && 0.0 <= x && forall k | 0 <= k < |p.positions| :: lo <= p.positions[k] <= hi
    ensures lo <= p.Line(x) <= hi
  {
    if x < p.Segments() as real {
      var k := p.Index(x);
      RealMath.Between(x - k as real, p.positions[k], p.positions[k + 1], lo, hi);
    }
  }

  // ---------------------------------------------------------------- the whole playback

  /** Once the blend is over the position is the recording's, also past its end. */
  lemma PlaysRecording(p: Playback, elapsed: real)
    requires p.Valid() && 0.0 <= elapsed && p.blend <= elapsed
    ensures 0.0 <= (elapsed - p.blend) / p.interval
    ensures p.Position(elapsed) == p.Line((elapsed - p.blend) / p.interval)
  {
    SampleTime(p, elapsed);
  }

  /** It starts where the paddle is when it blends, and at the first sample otherwise; it ends exactly
      on the last sample, at rest, and reports completion from then on and never earlier. */
  lemma Endpoints(p: Playback, elapsed: real)
    requires p.Valid() && 0.0 <= elapsed
    ensures p.Position(0.0) == if 0.0 < p.blend then p.start else p.positions[0]
    ensures p.Complete(elapsed) <==> p.Duration() <= elapsed
    ensures p.Complete(elapsed) ==> p.Position(elapsed) == p.Last() && p.Velocity(elapsed) == 0.0
  {
    NamedNonNeg(p.interval, p.Segments() as real);
    if 0.0 < p.blend {
      BlendRange(0.0, p.blend);
      assert Mul(0.0, p.positions[0] - p.start) == 0.0;
    } else {
      assert 0.0 / p.interval == 0.0;
      assert p.Segments() > 0 ==> Mul(0.0, p.positions[1] - p.positions[0]) == 0.0;
      PlaysRecording(p, 0.0);
    }
  }

  lemma PositionInHull(p: Playback, elapsed: real, lo: real, hi: real)
    requires p.Valid() && 0.0 <= elapsed
    requires lo <= p.start <= hi && forall k | 0 <= k < |p.positions| :: lo <= p.positions[k] <= hi
    ensures lo <= p.Position(elapsed) <= hi
  {
    if elapsed < p.blend {
      BlendRange(elapsed, p.blend);
      RealMath.Between(Quintic(elapsed, p.blend).s, p.start, p.positions[0], lo, hi);
    } else {
      PlaysRecording(p, elapsed);
      LineInHull(p, (elapsed - p.blend) / p.interval, lo, hi);
    }
  }

  lemma BlendSpeed(p: Playback, elapsed: real, peak: real)
    requires p.Valid() && p.Bounds(peak) && 0.0 <= elapsed < p.blend
    ensures Abs(p.Velocity(elapsed)) <= peak
  {
    var ds, d := Quintic(elapsed, p.blend).ds, p.positions[0] - p.start;
    BlendRange(elapsed, p.blend);
    hide Quintic, Mul;
    SlopeBound(ds, d, p.blend, peak);
  }

  lemma SlopeBound(ds: real, d: real, blend: real, peak: real)
    requires 0.0 < blend && 0.0 <= ds <= PEAK_VELOCITY_FACTOR / blend
    requires PEAK_VELOCITY_FACTOR * Abs(d) <= Mul(peak, blend)
    ensures Abs(Mul(ds, d)) <= peak
  {
    var a, top := Abs(d), PEAK_VELOCITY_FACTOR / blend;
    assert top * blend == PEAK_VELOCITY_FACTOR;
    MulBound(ds, d, top, a);
    var ta := top * a;
    assert ta * blend == PEAK_VELOCITY_FACTOR * a;
    if peak < ta {
      StrictMono(peak, ta, blend);
    }
  }

  lemma VelocityBounded(p: Playback, elapsed: real, peak: real)
    requires p.Valid() && p.Bounds(peak) && 0.0 <= elapsed
    ensures Abs(p.Velocity(elapsed)) <= peak
  {
    if elapsed < p.blend {
      BlendSpeed(p, elapsed, peak);
    } else if elapsed < p.Duration() {
      SampleTime(p, elapsed);
      var k := p.Index((elapsed - p.blend) / p.interval);
      var d := p.positions[k + 1] - p.positions[k];
      assert Abs(p.positions[k + 1] - p.positions[k + 1 - 1]) <= Mul(peak, p.interval);
      QuotientBound(d, p.interval, peak);
    }
  }

  lemma QuotientBound(d: real, interval: real, peak: real)
    requires 0.0 < interval && Abs(d) <= Mul(peak, interval)
    ensures Abs(d / interval) <= peak
  {
    var q := d / interval;
    assert q * interval == d;
    if peak < Abs(q) {
      StrictMono(peak, Abs(q), interval);
    }
  }

  lemma BlendLipschitzIn(p: Playback, t1: real, t2: real, peak: real)
    requires p.Valid() && p.Bounds(peak) && 0.0 < p.blend && t1 <= t2
    ensures Abs(Mul(Quintic(t2, p.blend).s, p.positions[0] - p.start)
                - Mul(Quintic(t1, p.blend).s, p.positions[0] - p.start)) <= Mul(peak, t2 - t1)
  {
    var s1, s2, d := Quintic(t1, p.blend).s, Quintic(t2, p.blend).s, p.positions[0] - p.start;
    BlendLipschitz(t1, t2, p.blend);
    hide Quintic, Mul;
    BlendStep(s2 - s1, d, t2 - t1, p.blend, peak);
    Difference(s2, s1, d);
  }

  lemma Difference(x: real, y: real, d: real)
    ensures Mul(x - y, d) == Mul(x, d) - Mul(y, d)
  {}

  lemma BlendStep(ds: real, d: real, dt: real, blend: real, peak: real)
    requires 0.0 < blend && 0.0 <= dt && 0.0 <= ds <= PEAK_VELOCITY_FACTOR * dt / blend
    requires PEAK_VELOCITY_FACTOR * Abs(d) <= Mul(peak, blend)
    ensures Abs(Mul(ds, d)) <= Mul(peak, dt)
  {
    var a, q := Abs(d), dt / blend;
    assert PEAK_VELOCITY_FACTOR * dt / blend == PEAK_VELOCITY_FACTOR * q;
    assert q * blend == dt;
    DivideMono(0.0, dt, blend);
    MulBound(ds, d, PEAK_VELOCITY_FACTOR * q, a);
    var fa, pb := PEAK_VELOCITY_FACTOR * a, peak * blend;
    MulMono(fa, pb, q);
    assert pb * q == peak * dt;
    assert PEAK_VELOCITY_FACTOR * q * a == fa * q;
  }

  lemma RecordingLipschitz(p: Playback, t1: real, t2: real, peak: real)
    requires p.Valid() && p.Bounds(peak) && 0.0 <= t1 <= t2 && p.blend <= t1
    ensures Abs(p.Position(t2) - p.Position(t1)) <= Mul(peak, t2 - t1)
  {
    var x1, x2 := (t1 - p.blend) / p.interval, (t2 - p.blend) / p.interval;
    PlaysRecording(p, t1);
    PlaysRecording(p, t2);
    SampleTime(p, t1);
    SampleTime(p, t2);
    DivideMono(t1 - p.blend, t2 - p.blend, p.interval);
    NamedNonNeg(peak, p.interval);
    assert Mul(Mul(peak, p.interval), x2 - x1) == Mul(peak, t2 - t1) by {
      Rescale(peak, p.interval, x1, x2, t1 - p.blend, t2 - p.blend);
    }
    hide Mul;
    LineLipschitz(p, x1, x2, Mul(peak, p.interval));
  }

  lemma Rescale(peak: real, interval: real, x1: real, x2: real, t1: real, t2: real)
    requires Mul(interval, x1) == t1 && Mul(interval, x2) == t2
    ensures Mul(Mul(peak, interval), x2 - x1) == Mul(peak, t2 - t1)
  {
    assert peak * interval * (x2 - x1) == peak * (interval * x2) - peak * (interval * x1);
  }

  /** The commanded position never moves faster than the peak, over any two times: across the blend,
      the joint, every segment and the end. */
  lemma PositionLipschitz(p: Playback, t1: real, t2: real, peak: real)
    requires p.Valid() && p.Bounds(peak) && 0.0 <= t1 <= t2
    ensures Abs(p.Position(t2) - p.Position(t1)) <= Mul(peak, t2 - t1)
  {
    if p.blend <= t1 {
      RecordingLipschitz(p, t1, t2, peak);
    } else if t2 < p.blend {
      BlendLipschitzIn(p, t1, t2, peak);
    } else {
      BlendLipschitzIn(p, t1, p.blend, peak);
      BlendRange(p.blend, p.blend);
      JointPosition(p);
      assert p.Position(t1) == p.start + Mul(Quintic(t1, p.blend).s, p.positions[0] - p.start);
      Join(peak, p.blend - t1, t2 - p.blend, t2 - t1);
      assert Mul(1.0, p.positions[0] - p.start) == p.positions[0] - p.start;
      hide Mul, Quintic, Playback.Position, Playback.Bounds;
      RecordingLipschitz(p, p.blend, t2, peak);
    }
  }

  lemma JointPosition(p: Playback)
    requires p.Valid()
    ensures p.Position(p.blend) == p.positions[0]
  {
    assert 0.0 / p.interval == 0.0;
    assert p.Segments() > 0 ==> Mul(0.0, p.positions[1] - p.positions[0]) == 0.0;
    PlaysRecording(p, p.blend);
  }

  // ---------------------------------------------------------------- the object

  class PregeneratedWaveTrajectory {
    var positions: seq<real>
    var interval: real
    var start: real
    var blend: real

    function Contents(): Playback
      reads this
    {
      Playback(positions, interval, start, blend)
    }

    constructor ()
      ensures Contents() == Playback([], 0.0, 0.0, 0.0)
    {
      positions, interval, start, blend := [], 0.0, 0.0, 0.0;
    }

    method Configure(newPositions: seq<real>, sampleInterval: real, startPosition: real, blendDuration: real)
      modifies this
      ensures Contents() == Playback(newPositions, sampleInterval, startPosition, blendDuration)
    {
      positions, interval, start, blend := newPositions, sampleInterval, startPosition, blendDuration;
    }

    method Sample(elapsed: real) returns (complete: bool, position: real, velocity: real)
      requires Contents().Valid() && 0.0 <= elapsed
      ensures complete <==> Contents().Duration() <= elapsed
      ensures position == Contents().Position(elapsed) && velocity == Contents().Velocity(elapsed)
    {
      var p := Contents();
      Endpoints(p, elapsed);
      complete := p.Complete(elapsed);
      position, velocity := p.Position(elapsed), p.Velocity(elapsed);
    }

    /** The result bounds the speed at every time and the movement between any two times. */
    method PeakVelocity() returns (peak: real)
      requires Contents().Valid()
      ensures forall t | 0.0 <= t :: Abs(Contents().Velocity(t)) <= peak
      ensures forall t1, t2 | 0.0 <= t1 <= t2 ::
        Abs(Contents().Position(t2) - Contents().Position(t1)) <= Mul(peak, t2 - t1)
      ensures peak == 0.0 || exists t :: 0.0 <= t && Abs(Contents().Velocity(t)) == peak
    {
      hide Playback.Velocity, Playback.Position, Mul;
      var p := Contents();
      peak := 0.0;
      if 0.0 < blend {
        peak := PEAK_VELOCITY_FACTOR * Abs(positions[0] - start) / blend;
        BlendPeak(p, peak);
      }
      for i := 1 to |positions|
        invariant 0.0 <= peak
        invariant 0.0 < blend ==> PEAK_VELOCITY_FACTOR * Abs(positions[0] - start) <= Mul(peak, blend)
        invariant p.SegmentsBelow(i, peak)
        invariant peak == 0.0 || Reached(p, peak)
      {
        var speed := Abs(positions[i] - positions[i - 1]) / interval;
        SegmentPeak(p, i, speed);
        ghost var before := peak;
        peak := Max(peak, speed);
        NamedMono(before, peak, interval);
        NamedMono(before, peak, blend);
        NamedMono(speed, peak, interval);
      }
      forall t | 0.0 <= t ensures Abs(p.Velocity(t)) <= peak {
        VelocityBounded(p, t, peak);
      }
      forall t1, t2 | 0.0 <= t1 <= t2 ensures Abs(p.Position(t2) - p.Position(t1)) <= Mul(peak, t2 - t1) {
        PositionLipschitz(p, t1, t2, peak);
      }
    }
  }

  ghost predicate Reached(p: Playback, speed: real)
    requires p.Valid()
  {
    exists t :: 0.0 <= t && Abs(p.Velocity(t)) == speed
  }

  lemma BlendPeak(p: Playback, peak: real)
    requires p.Valid() && 0.0 < p.blend && peak == PEAK_VELOCITY_FACTOR * Abs(p.positions[0] - p.start) / p.blend
    ensures 0.0 <= peak && PEAK_VELOCITY_FACTOR * Abs(p.positions[0] - p.start) <= Mul(peak, p.blend)
    ensures Reached(p, peak)
  {
    var t, d := p.blend / 2.0, p.positions[0] - p.start;
    assert t / p.blend == 0.5;
    assert Slope(0.5) == 1.875;
    DivideMono(0.0, PEAK_VELOCITY_FACTOR * Abs(d), p.blend);
    assert Abs(p.Velocity(t)) == peak by {
      hide Slope;
      assert Quintic(t, p.blend).ds == 1.875 / p.blend;
      SlopeTimes(d, p.blend);
    }
  }

  lemma SlopeTimes(d: real, blend: real)
    requires 0.0 < blend
    ensures Abs(Mul(1.875 / blend, d)) == 1.875 * Abs(d) / blend
  {
    var r := 1.875 / blend;
    assert r * blend == 1.875;
    assert Abs(r * d) == r * Abs(d) by {
      DivideMono(0.0, 1.875, blend);
      MulBound(r, d, r, Abs(d));
    }
    assert r * Abs(d) * blend == 1.875 * Abs(d);
  }

  lemma SegmentPeak(p: Playback, i: nat, speed: real)
    requires p.Valid() && 1 <= i < |p.positions|
    requires speed == Abs(p.positions[i] - p.positions[i - 1]) / p.interval
    ensures Reached(p, speed) && 0.0 <= speed
    ensures Mul(speed, p.interval) == Abs(p.positions[i] - p.positions[i - 1])
  {
    var k := i - 1;
    var x, d := k as real, p.positions[i] - p.positions[k];
    var t := p.blend + Mul(p.interval, x);
    KnotTime(p.interval, x, p.Segments() as real);
    SpeedOf(d, p.interval, speed);
    hide Mul;
    assert (t - p.blend) / p.interval == x;
    assert p.Velocity(t) == d / p.interval;
  }

  lemma KnotTime(interval: real, x: real, n: real)
    requires 0.0 < interval && 0.0 <= x < n
    ensures 0.0 <= Mul(interval, x) < Mul(interval, n) && Mul(interval, x) / interval == x
  {
    MulNonNeg(interval, x);
    StrictMono(x, n, interval);
  }

  lemma SpeedOf(d: real, interval: real, speed: real)
    requires 0.0 < interval && speed == Abs(d) / interval
    ensures Abs(d / interval) == speed && 0.0 <= speed && Mul(speed, interval) == Abs(d)
  {
    assert speed * interval == Abs(d);
    if 0.0 <= d {
      DivideMono(0.0, d, interval);
    } else {
      DivideMono(d, 0.0, interval);
      assert (-d) / interval == -(d / interval);
    }
  }

  /** The blend duration that prepare_goal chooses. */
  function BlendDuration(first: real, startPosition: real, tolerance: real, maxVelocity: real, minDuration: real): real
    requires 0.0 < maxVelocity
  {
    var distance := Abs(first - startPosition);
    if distance <= tolerance then 0.0
    else Max(PEAK_VELOCITY_FACTOR * distance / maxVelocity, minDuration)
  }

  /** With that duration the blend to the first sample never exceeds the return speed limit. */
  lemma BlendWithinReturnSpeed(p: Playback, tolerance: real, maxVelocity: real, minDuration: real, elapsed: real)
    requires p.Valid() && 0.0 < maxVelocity && 0.0 < minDuration
    requires p.blend == BlendDuration(p.positions[0], p.start, tolerance, maxVelocity, minDuration)
    requires 0.0 <= elapsed < p.blend
    ensures Abs(p.Velocity(elapsed)) <= maxVelocity
  {
    var scaled := PEAK_VELOCITY_FACTOR * Abs(p.positions[0] - p.start);
    assert scaled <= maxVelocity * p.blend by {
      var shortest := scaled / maxVelocity;
      assert shortest * maxVelocity == scaled;
      MulMono(shortest, p.blend, maxVelocity);
    }
    var only := p.(positions := [p.positions[0]]);
    assert only.Velocity(elapsed) == p.Velocity(elapsed);
    BlendSpeed(only, elapsed, maxVelocity);
  }
}
