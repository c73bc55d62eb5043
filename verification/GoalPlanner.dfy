/** prepare_goal(): which goals are accepted, and what acceptance promises about every setpoint that the
    goal will ever produce. */
module GoalPlanner {
  import opened RealMath
  import opened Setpoints
  import Pregenerated
  import Regular = RegularWave
  import Waves = WaveTrajectory
  import WaveAnalysis

  /** Promised of a sampled point: clamping moves it by at most the start tolerance, its speed is within
      the cap sent with it, and an angular drive that can turn at 0.1 rpm takes the setpoint. */
  predicate Promised(n: Node, cap: real, position: real, velocity: real)
    requires n.Checked()
  {
    && Abs(n.Clamped(position) - position) <= n.tolerance
    && Abs(velocity) <= cap <= n.actuator.MaxVelocity()
    && (n.actuator.angular ==> (n.Fits(position, cap) <==> 0.1 <= n.actuator.maxRpm))
  }

  lemma PromiseKept(n: Node, start: real, lo: real, hi: real, peak: real, position: real, velocity: real)
    requires n.Checked() && n.StartAllowed(start) && n.Minimum() <= lo && hi <= n.Maximum()
    requires n.WithinSpeedLimit(peak) && Abs(velocity) <= peak && Min(start, lo) <= position <= Max(start, hi)
    ensures Promised(n, n.VelocityCap(peak), position, velocity)
  {
    hide Node.VelocityCap, Node.Fits;
    ClampMovesAtMostTolerance(n, start, lo, hi, position);
    CapCovers(n, peak, velocity);
    if n.actuator.angular {
      AngularSetpointFitsIff(n, position, n.VelocityCap(peak));
    }
  }

  /** The wave really reaches a speed that, with the sampling margin, is above the drive's maximum. */
  ghost predicate TooFast(n: Node, w: Waves.Shape)
    requires 0.0 < w.startup
  {
    exists raw :: Regular.Attained(w, raw) && !n.WithinSpeedLimit(WaveAnalysis.WithMargin(raw))
  }

  predicate InRange(n: Node, positions: seq<real>) {
    forall k | 0 <= k < |positions| :: n.Minimum() <= positions[k] <= n.Maximum()
  }

  /** The recording asks for a speed above the drive's maximum at some time. */
  ghost predicate PlaysTooFast(n: Node, p: Pregenerated.Playback)
    requires p.Valid()
  {
    exists t :: 0.0 <= t && !n.WithinSpeedLimit(Abs(p.Velocity(t)))
  }

  class Planner {
    const node: Node
    const pregeneratedMode: bool
    const trajectory: Regular.WaveTrajectory
    const pregenerated: Pregenerated.PregeneratedWaveTrajectory
    var velocityCap: real

    constructor (n: Node, mode: bool, t: Regular.WaveTrajectory, p: Pregenerated.PregeneratedWaveTrajectory)
      ensures node == n && pregeneratedMode == mode && trajectory == t && pregenerated == p && velocityCap == 0.0
    {
      node, pregeneratedMode, trajectory, pregenerated, velocityCap := n, mode, t, p, 0.0;
    }

    /** The peak speed is checked against the drive and becomes the goal's cap. */
    method AcceptPeakVelocity(peak: real) returns (accepted: bool)
      modifies this`velocityCap
      ensures accepted <==> node.WithinSpeedLimit(peak)
      ensures velocityCap == if accepted then node.VelocityCap(peak) else old(velocityCap)
    {
      accepted := peak <= node.actuator.MaxVelocity();
      if accepted {
        velocityCap := Min(Mul(peak, node.margin), node.actuator.MaxVelocity());
      }
    }

    /** A goal for a regular wave. `stroke` is what linear wavemaker theory asks for; the gain in
        `geometry` is the one looked up for the period. */
    method PrepareWave(start: real, geometry: Regular.Geometry, height: real, period: real, stroke: real,
                       positions: seq<real>) returns (accepted: bool)
      requires node.Checked() && !pregeneratedMode && geometry.Checked() && 0.0 <= stroke && trajectory.trig.Valid()
      modifies this`velocityCap, trajectory
      ensures accepted ==> node.StartAllowed(start) && positions == [] && 0.0 < height && 0.0 < period
      ensures accepted ==> trajectory.Configured() && trajectory.start == start && trajectory.startup == period
      ensures accepted ==> forall t: real ::
        Promised(node, velocityCap, trajectory.Contents().Position(t), trajectory.Contents().Velocity(t))
      ensures !accepted ==> velocityCap == old(velocityCap)
      ensures node.StartAllowed(start) && positions == [] && 0.0 < height && 0.0 < period && !accepted ==>
              var w := trajectory.Contents();
              w.RequiredMinimum() < node.Minimum() || node.Maximum() < w.RequiredMaximum()
              || (0.0 < w.startup && TooFast(node, w))
    {
      if start < node.Minimum() - node.tolerance || start > node.Maximum() + node.tolerance || positions != [] {
        return false;
      }
      if height <= 0.0 || period <= 0.0 {
        return false;
      }
      trajectory.Configure(geometry, stroke, period, start);
      var w := trajectory.Contents();
      var lo, hi := w.RequiredMinimum(), w.RequiredMaximum();
      if lo < node.Minimum() || hi > node.Maximum() {
        return false;
      }
      hide Waves.Shape.Velocity, Waves.Shape.Position, Promised, Node.VelocityCap, Waves.Shape.Valid;
      var peak := trajectory.PeakVelocity();
      accepted := AcceptPeakVelocity(peak);
      if accepted {
        forall t: real ensures Promised(node, velocityCap, w.Position(t), w.Velocity(t)) {
          WaveAnalysis.PositionInHull(w, t);
          PromiseKept(node, start, lo, hi, peak, w.Position(t), w.Velocity(t));
        }
      }
    }

    /** A goal that plays recorded positions, after a blend from where the paddle is. */
    method PreparePlayback(start: real, positions: seq<real>, interval: real) returns (accepted: bool)
      requires node.Checked() && pregeneratedMode
      modifies this`velocityCap, pregenerated
      ensures accepted ==> node.StartAllowed(start) && positions != [] && 0.0 < interval
      ensures accepted ==> InRange(node, positions)
      ensures accepted ==> pregenerated.Contents().Valid() && pregenerated.Contents().start == start
      ensures accepted ==> forall t: real | 0.0 <= t ::
        Promised(node, velocityCap, pregenerated.Contents().Position(t), pregenerated.Contents().Velocity(t))
      ensures accepted ==> forall t: real | 0.0 <= t < pregenerated.Contents().blend ::
        Abs(pregenerated.Contents().Velocity(t)) <= node.returnVelocity
      ensures !accepted ==> velocityCap == old(velocityCap)
      ensures node.StartAllowed(start) && positions != [] && 0.0 < interval && !accepted ==>
              !InRange(node, positions) || (pregenerated.Contents().Valid() && PlaysTooFast(node, pregenerated.Contents()))
    {
      if start < node.Minimum() - node.tolerance || start > node.Maximum() + node.tolerance {
        return false;
      }
      if positions == [] || interval <= 0.0 {
        return false;
      }
      var allowed := PositionsAllowed(positions);
      if !allowed {
        return false;
      }
      var blend := Pregenerated.BlendDuration(positions[0], start, node.tolerance, node.returnVelocity, node.minDuration);
      BlendNonNegative(positions[0], start, node);
      pregenerated.Configure(positions, interval, start, blend);
      accepted := AcceptPlayback();
    }

    method AcceptPlayback() returns (accepted: bool)
      requires node.Checked() && pregenerated.Contents().Valid() && node.StartAllowed(pregenerated.start)
      requires InRange(node, pregenerated.positions)
      requires pregenerated.blend
               == Pregenerated.BlendDuration(pregenerated.positions[0], pregenerated.start, node.tolerance,
                                             node.returnVelocity, node.minDuration)
      modifies this`velocityCap
      ensures accepted ==> forall t: real | 0.0 <= t ::
        Promised(node, velocityCap, pregenerated.Contents().Position(t), pregenerated.Contents().Velocity(t))
      ensures accepted ==> forall t: real | 0.0 <= t < pregenerated.Contents().blend ::
        Abs(pregenerated.Contents().Velocity(t)) <= node.returnVelocity
      ensures !accepted ==> velocityCap == old(velocityCap) && PlaysTooFast(node, pregenerated.Contents())
    {
      LimitPositive(node);
      hide Pregenerated.Playback.Velocity, Pregenerated.Playback.Position, Pregenerated.BlendDuration, Mul;
      hide Promised, Node.VelocityCap, Node.Minimum, Node.Maximum, Node.Checked, Pregenerated.Playback.Valid;
      var p := pregenerated.Contents();
      var peak := pregenerated.PeakVelocity();
      assert p == pregenerated.Contents();
      accepted := AcceptPeakVelocity(peak);
      if accepted {
        forall t: real | 0.0 <= t ensures Promised(node, velocityCap, p.Position(t), p.Velocity(t)) {
          PlaybackPromised(node, p, peak, t);
        }
        forall t: real | 0.0 <= t < p.blend ensures Abs(p.Velocity(t)) <= node.returnVelocity {
          BlendSlow(node, p, t);
        }
      }
    }

    method PositionsAllowed(positions: seq<real>) returns (allowed: bool)
      ensures allowed <==> InRange(node, positions)
    {
      for k := 0 to |positions|
        invariant forall j | 0 <= j < k :: node.Minimum() <= positions[j] <= node.Maximum()
      {
        if positions[k] < node.Minimum() || positions[k] > node.Maximum() {
          return false;
        }
      }
      allowed := true;
    }
  }

  lemma PlaybackPromised(n: Node, p: Pregenerated.Playback, peak: real, t: real)
    requires n.Checked() && n.StartAllowed(p.start) && p.Valid() && 0.0 <= t && n.WithinSpeedLimit(peak)
    requires InRange(n, p.positions)
    requires Abs(p.Velocity(t)) <= peak
    ensures Promised(n, n.VelocityCap(peak), p.Position(t), p.Velocity(t))
  {
    hide Pregenerated.Playback.Velocity, Pregenerated.Playback.Position, Promised, Node.VelocityCap;
    Pregenerated.PositionInHull(p, t, Min(p.start, n.Minimum()), Max(p.start, n.Maximum()));
    PromiseKept(n, p.start, n.Minimum(), n.Maximum(), peak, p.Position(t), p.Velocity(t));
  }

  lemma BlendSlow(n: Node, p: Pregenerated.Playback, t: real)
    requires n.Checked() && p.Valid() && 0.0 <= t < p.blend
    requires p.blend == Pregenerated.BlendDuration(p.positions[0], p.start, n.tolerance, n.returnVelocity, n.minDuration)
    ensures Abs(p.Velocity(t)) <= n.returnVelocity
  {
    Pregenerated.BlendWithinReturnSpeed(p, n.tolerance, n.returnVelocity, n.minDuration, t);
  }

  lemma LimitPositive(n: Node)
    requires n.Checked()
    ensures n.WithinSpeedLimit(0.0)
  {}

  lemma BlendNonNegative(first: real, start: real, n: Node)
    requires n.Checked()
    ensures 0.0 <= Pregenerated.BlendDuration(first, start, n.tolerance, n.returnVelocity, n.minDuration)
  {}
}
