/** The WaveTrajectory object: configured per goal, sampled by the control loop, and asked once for
    the peak speed that decides whether the goal is accepted. */
module RegularWave {
  import opened RealMath
  import opened Trigonometry
  import Waves = WaveTrajectory
  import opened WaveAnalysis

  datatype Geometry = Geometry(flap: bool, waterDepth: real, attachmentHeight: real, upright: real,
                               uprightIsMinimum: bool, transferGain: real, hingeHeight: real) {
    /** What on_configure has checked before any goal is prepared. */
    predicate Checked() {
      0.0 < waterDepth && 0.0 < transferGain
      && (flap ==> 0.0 <= hingeHeight < waterDepth <= attachmentHeight)
    }

    /** Amplitude at the actuator for a linear-theory stroke at the still-water level. */
    function Amplitude(theoreticalStroke: real): real
      requires Checked()
    {
      var half := theoreticalStroke / transferGain / 2.0;
      if flap then half * ((attachmentHeight - hingeHeight) / (waterDepth - hingeHeight)) else half
    }
  }

  lemma QuotientNonNeg(x: real, y: real)
    requires 0.0 <= x && 0.0 < y
    ensures 0.0 <= x / y
  {}

  lemma AmplitudeNonNeg(g: Geometry, theoreticalStroke: real)
    requires g.Checked() && 0.0 <= theoreticalStroke
    ensures 0.0 <= g.Amplitude(theoreticalStroke)
  {
    QuotientNonNeg(theoreticalStroke, g.transferGain);
    if g.flap {
      QuotientNonNeg(g.attachmentHeight - g.hingeHeight, g.waterDepth - g.hingeHeight);
      MulNonNeg(theoreticalStroke / g.transferGain / 2.0,
                (g.attachmentHeight - g.hingeHeight) / (g.waterDepth - g.hingeHeight));
    }
  }

  /** The stroke a configured amplitude gives: twice it and the transfer gain, carried for a flap from the
      height where the actuator pulls down to the still water, is the stroke asked for. */
  lemma StrokeAtStillWater(g: Geometry, theoreticalStroke: real)
    requires g.Checked()
    ensures var paddle := Mul(2.0 * g.Amplitude(theoreticalStroke), g.transferGain);
      if g.flap then Mul(paddle, g.waterDepth - g.hingeHeight) == Mul(theoreticalStroke, g.attachmentHeight - g.hingeHeight)
      else paddle == theoreticalStroke
  {
    var a := g.Amplitude(theoreticalStroke);
    Undivided(theoreticalStroke, g.transferGain);
    if g.flap {
      var half := theoreticalStroke / g.transferGain / 2.0;
      Lever(half, g.attachmentHeight - g.hingeHeight, g.waterDepth - g.hingeHeight, g.transferGain);
    }
  }

  lemma Undivided(x: real, y: real)
    requires 0.0 < y
    ensures Mul(2.0 * (x / y / 2.0), y) == x
  {}

  lemma Lever(half: real, arm: real, depth: real, gain: real)
    requires 0.0 < depth
    ensures Mul(Mul(2.0 * (half * (arm / depth)), gain), depth) == Mul(Mul(2.0 * half, gain), arm)
  {
    var q := arm / depth;
    assert q * depth == arm;
  }

  ghost predicate Attained(w: Waves.Shape, raw: real)
    requires 0.0 < w.startup
  {
    exists t :: Abs(w.Velocity(t)) == raw
  }

  /** The peak speed of the wave after the blend is reached: at its first crossing when the paddle
      oscillates about upright, a quarter period later when upright is its minimum. */
  lemma WavePeakAttained(w: Waves.Shape)
    requires w.Valid() && 0.0 <= w.amplitude * w.omega
    ensures Attained(w, w.amplitude * w.omega)
  {
    var t := if w.uprightIsMinimum then w.startup + w.startup / 4.0 else w.startup;
    var phase := Mul(w.omega, w.WaveTime(t));
    if w.uprightIsMinimum {
      assert w.omega * (w.startup / 4.0) == w.omega * w.startup / 4.0;
      assert phase == w.trig.pi / 2.0;
    } else {
      assert phase == 0.0;
    }
    assert w.Velocity(t) == Mul(Mul(w.amplitude, w.omega), 1.0) == w.amplitude * w.omega;
    assert Abs(w.Velocity(t)) == w.amplitude * w.omega;
  }

  lemma FrequencyPositive(w: Waves.Shape)
    requires w.Valid()
    ensures 0.0 < w.omega && 0.0 <= w.amplitude * w.omega
  {
    if w.omega <= 0.0 {
      MulNonNeg(-w.omega, w.startup);
    }
    MulNonNeg(w.amplitude, w.omega);
  }

  lemma ConfiguredStartup(w: Waves.Shape)
    requires w.Valid()
    ensures 0.0 < w.startup && w.trig.Valid()
  {}

  class WaveTrajectory {
    const trig: Trig
    var upright: real
    var uprightIsMinimum: bool
    var amplitude: real
    var omega: real
    var start: real
    var startup: real

    constructor (trig: Trig)
      ensures this.trig == trig
    {
      this.trig := trig;
      upright, uprightIsMinimum, amplitude, omega, start, startup := 0.0, false, 0.0, 0.0, 0.0, 0.0;
    }

    function Contents(): Waves.Shape
      reads this
    {
      Waves.Shape(trig, upright, uprightIsMinimum, amplitude, omega, start, startup)
    }

    ghost predicate Configured()
      reads this
    {
      Contents().Valid()
    }

    method Configure(g: Geometry, theoreticalStroke: real, period: real, startPosition: real)
      requires g.Checked() && 0.0 <= theoreticalStroke && 0.0 < period && trig.Valid()
      modifies this
      ensures Configured()
      ensures upright == g.upright && uprightIsMinimum == g.uprightIsMinimum
      ensures amplitude == g.Amplitude(theoreticalStroke) && start == startPosition && startup == period
      ensures var paddle := Mul(2.0 * amplitude, g.transferGain);
        if g.flap then Mul(paddle, g.waterDepth - g.hingeHeight) == Mul(theoreticalStroke, g.attachmentHeight - g.hingeHeight)
        else paddle == theoreticalStroke
    {
      StrokeAtStillWater(g, theoreticalStroke);
      omega := 2.0 * trig.pi / period;
      assert Mul(omega, period) == 2.0 * trig.pi;
      var stroke := theoreticalStroke / g.transferGain;
      amplitude := stroke / 2.0;
      if g.flap {
        amplitude := amplitude * ((g.attachmentHeight - g.hingeHeight) / (g.waterDepth - g.hingeHeight));
      }
      AmplitudeNonNeg(g, theoreticalStroke);
      upright := g.upright;
      uprightIsMinimum := g.uprightIsMinimum;
      start := startPosition;
      startup := period;
    }

    method Sample(elapsed: real) returns (position: real, velocity: real)
      requires Configured()
      ensures position == Contents().Position(elapsed) && velocity == Contents().Velocity(elapsed)
      ensures var w := Contents();
        Min(start, w.RequiredMinimum()) <= position <= Max(start, w.RequiredMaximum())
    {
      position, velocity := Contents().Position(elapsed), Contents().Velocity(elapsed);
      PositionInHull(Contents(), elapsed);
    }

    /** The result bounds the speed at every real time, bounds how far the position moves between any
        two times, and exceeds a speed that really occurs by the sampling margin only. */
    method PeakVelocity() returns (peak: real)
      requires Configured()
      ensures forall t :: Abs(Contents().Velocity(t)) <= peak
      ensures forall t1, t2 | t1 <= t2 ::
        Abs(Contents().Position(t2) - Contents().Position(t1)) <= Mul(peak, t2 - t1)
      ensures exists raw :: Attained(Contents(), raw) && peak == WithMargin(raw)
    {
      hide Waves.Shape.Velocity, Waves.Shape.Position, Waves.Shape.Valid, Mul, WithMargin, SampleTime;
      ghost var w := Contents();
      ConfiguredStartup(w);
      var raw := amplitude * omega;
      FrequencyPositive(w);
      WavePeakAttained(w);
      for i := 0 to Waves.BLEND_SAMPLES + 1
        invariant amplitude * omega <= raw
        invariant SamplesBelow(w, i, raw)
        invariant Attained(w, raw)
      {
        var velocity := Contents().Velocity(SampleTime(Contents(), i));
        raw := Max(raw, Abs(velocity));
      }
      peak := WithMargin(raw);
      forall t ensures Abs(w.Velocity(t)) <= peak {
        PeakCoversEveryTime(w, raw, t);
      }
      forall t1, t2 | t1 <= t2 ensures Abs(w.Position(t2) - w.Position(t1)) <= Mul(peak, t2 - t1) {
        PositionLipschitz(w, raw, t1, t2);
      }
    }
  }
}
