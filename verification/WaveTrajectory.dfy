/** The regular-wave trajectory as formulas: for one period the sinusoid is faded in over the resting
    paddle, from then on it is followed as it is. */
module WaveTrajectory {
  import opened RealMath
  import opened QuinticBlend
  import opened Trigonometry

  const BLEND_SAMPLES: int := 10000
  const SAMPLING_MARGIN: real := 0.0001

  /** The fields of a configured trajectory. */
  datatype Shape = Shape(trig: Trig, upright: real, uprightIsMinimum: bool, amplitude: real,
                         omega: real, start: real, startup: real) {

    ghost predicate Valid() {
      trig.Valid() && 0.0 <= amplitude && 0.0 < startup && Mul(omega, startup) == 2.0 * trig.pi
    }

    function RequiredMinimum(): real {
      if uprightIsMinimum then upright else upright - amplitude
    }

    function RequiredMaximum(): real {
      upright + amplitude * (if uprightIsMinimum then 2.0 else 1.0)
    }

    function WaveTime(elapsed: real): real {
      if uprightIsMinimum && elapsed < startup then elapsed else elapsed - startup
    }

    function WavePosition(elapsed: real): real {
      var phase := Mul(omega, WaveTime(elapsed));
      if uprightIsMinimum then upright + Mul(amplitude, 1.0 - trig.cos(phase))
      else upright + Mul(amplitude, trig.sin(phase))
    }

    function WaveVelocity(elapsed: real): real {
      var phase := Mul(omega, WaveTime(elapsed));
      Mul(Mul(amplitude, omega), if uprightIsMinimum then trig.sin(phase) else trig.cos(phase))
    }

    function Position(elapsed: real): real
      requires 0.0 < startup
    {
      if elapsed < startup then
        start + Mul(Quintic(elapsed, startup).s, WavePosition(elapsed) - start)
      else WavePosition(elapsed)
    }

    function Velocity(elapsed: real): real
      requires 0.0 < startup
    {
      if elapsed < startup then
        var b := Quintic(elapsed, startup);
        Dot(b.ds, WavePosition(elapsed) - start, b.s, WaveVelocity(elapsed))
      else WaveVelocity(elapsed)
    }

    // -------------------------------------------------------------- normalised form
    // Both wave forms are bias + swing * sin(x) for a suitable bias, signed swing and angle; with
    // u = elapsed / startup the whole trajectory is start + Poly(u) * Offset(u).

    function Bias(): real { if uprightIsMinimum then upright - start + amplitude else upright - start }

    function Swing(): real { if uprightIsMinimum then -amplitude else amplitude }

    function Angle(u: real): real {
      2.0 * trig.pi * u + (if uprightIsMinimum then trig.pi / 2.0 else -2.0 * trig.pi)
    }

    function Offset(u: real): real { Bias() + Mul(Swing(), trig.sin(Angle(u))) }

    function OffsetRate(u: real): real { Mul(Swing(), Mul(2.0 * trig.pi, trig.cos(Angle(u)))) }

    function Rate(u: real): real { Dot(Slope(u), Offset(u), Poly(u), OffsetRate(u)) }

    lemma PhaseAngle(elapsed: real)
      requires Valid()
      ensures var phase, x := Mul(omega, WaveTime(elapsed)), Angle(elapsed / startup);
        if uprightIsMinimum then trig.sin(x) == trig.cos(phase) && trig.cos(x) == -trig.sin(phase)
        else trig.sin(x) == trig.sin(phase) && trig.cos(x) == trig.cos(phase)
    {
      var u, turn := elapsed / startup, 2.0 * trig.pi;
      PhaseTurns(elapsed, u);
      var phase := Mul(omega, WaveTime(elapsed));
      if uprightIsMinimum {
        trig.QuarterTurn(phase);
        if elapsed >= startup {
          trig.FullTurn(phase + trig.pi / 2.0);
          assert Angle(u) == phase + trig.pi / 2.0 + turn;
        } else {
          assert Angle(u) == phase + trig.pi / 2.0;
        }
      } else {
        assert Angle(u) == phase;
      }
    }

    lemma PhaseTurns(elapsed: real, u: real)
      requires Valid() && u == elapsed / startup
      ensures var turn := 2.0 * trig.pi;
        Mul(omega, WaveTime(elapsed))
        == if uprightIsMinimum && elapsed < startup then turn * u else turn * u - turn
    {
      var turn := 2.0 * trig.pi;
      assert u * startup == elapsed;
      assert omega * elapsed == omega * startup * u;
      assert omega * (elapsed - startup) == omega * elapsed - omega * startup;
    }

    /** The sampled wave in normalised form. */
    lemma WaveForm(elapsed: real)
      requires Valid()
      ensures WavePosition(elapsed) - start == Offset(elapsed / startup)
      ensures WaveVelocity(elapsed) == OffsetRate(elapsed / startup) / startup
    {
      PhaseAngle(elapsed);
      var phase, x := Mul(omega, WaveTime(elapsed)), Angle(elapsed / startup);
      hide Angle, WaveTime;
      var s, c, sx, cx := trig.sin(phase), trig.cos(phase), trig.sin(x), trig.cos(x);
      VelocityForm(amplitude, omega, startup, trig.pi, if uprightIsMinimum then s else c);
      SignedProducts(amplitude, c, trig.pi, if uprightIsMinimum then s else c);
    }
  }

  lemma VelocityForm(a: real, omega: real, startup: real, pi: real, trigValue: real)
    requires 0.0 < startup && Mul(omega, startup) == 2.0 * pi
    ensures Mul(Mul(a, omega), trigValue) == Mul(a, Mul(2.0 * pi, trigValue)) / startup
  {
    assert a * omega * trigValue * startup == a * (2.0 * pi * trigValue) by {
      assert a * omega * trigValue * startup == a * trigValue * (omega * startup);
    }
  }

  lemma SignedProducts(a: real, c: real, pi: real, s: real)
    ensures Mul(a, 1.0 - c) == a + Mul(-a, c)
    ensures Mul(-a, Mul(2.0 * pi, -s)) == Mul(a, Mul(2.0 * pi, s))
  {
    assert 2.0 * pi * -s == -(2.0 * pi * s);
  }
}
