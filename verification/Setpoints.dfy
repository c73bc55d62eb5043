/** From a paddle position and a speed cap in metres to what the drive is asked for: the clamp to the
    configured limits, the conversion to actuator units, and the drive's own checks. */
module Setpoints {
  import opened RealMath
  import IndraDrive

  /** Actuator parameters as its constructor has checked them. */
  datatype Actuator = Actuator(angular: bool, lead: real, uprightAngle: real, offset: real,
                               minPosition: real, maxPosition: real, maxRpm: real, holdRpm: real) {
    predicate Checked() {
      && minPosition < maxPosition && 0.0 < maxRpm && 0.0 < holdRpm <= maxRpm
      && (angular ==> 0.0 < lead && minPosition <= uprightAngle <= maxPosition)
    }

    function Limits(): IndraDrive.Config { IndraDrive.Config(0, minPosition, maxPosition, maxRpm) }

    function ToActuatorPosition(position: real): real
      requires Checked()
    {
      if angular then uprightAngle + (position - offset) / lead else position
    }

    function ToActuatorVelocity(velocity: real): real
      requires Checked()
    {
      if angular then velocity / lead else velocity
    }

    function ActualPosition(drivePosition: real): real {
      if angular then offset + Mul(drivePosition - uprightAngle, lead) else drivePosition
    }

    function MaxVelocity(): real { if angular then Mul(maxRpm * 6.0, lead) else maxRpm * 6.0 }

    /** The positioning speed of a setpoint: never below 0.1 rpm. */
    function Rpm(velocity: real): real
      requires Checked()
    {
      Max(0.1, Abs(ToActuatorVelocity(velocity)) / 6.0)
    }
  }

  /** Node parameters as on_configure has checked them. */
  datatype Node = Node(actuator: Actuator, linearMinimum: real, linearMaximum: real, margin: real, tolerance: real,
                       returnVelocity: real, minDuration: real, timeoutMargin: real) {
    predicate Checked() {
      && actuator.Checked() && 1.0 <= margin && 0.0 < tolerance
      && 0.0 < returnVelocity <= actuator.MaxVelocity() && 0.0 < minDuration && 0.0 < timeoutMargin
      && (!actuator.angular ==> linearMinimum < linearMaximum && linearMinimum <= actuator.offset <= linearMaximum)
    }

    function Minimum(): real {
      if actuator.angular then actuator.ActualPosition(actuator.minPosition) else linearMinimum
    }

    function Maximum(): real {
      if actuator.angular then actuator.ActualPosition(actuator.maxPosition) else linearMaximum
    }

    predicate StartAllowed(start: real) { Minimum() - tolerance <= start <= Maximum() + tolerance }

    function Clamped(position: real): real
      requires Checked()
    {
      LimitsOrdered(this);
      Clamp(position, Minimum(), Maximum())
    }

    function VelocityCap(peak: real): real { Min(Mul(peak, margin), actuator.MaxVelocity()) }

    predicate WithinSpeedLimit(peak: real) { peak <= actuator.MaxVelocity() }

    /** The drive would take this setpoint: move_to()'s position and velocity checks pass. */
    predicate Fits(position: real, cap: real)
      requires Checked()
    {
      IndraDrive.InLimits(actuator.Limits(), actuator.ToActuatorPosition(Clamped(position)), actuator.Rpm(cap))
    }
  }

  // ---------------------------------------------------------------- units

  lemma LimitsOrdered(n: Node)
    requires n.Checked()
    ensures n.Minimum() < n.Maximum() && n.Minimum() <= n.actuator.offset <= n.Maximum()
  {
    var a := n.actuator;
    if a.angular {
      StrictScale(a.minPosition - a.uprightAngle, a.maxPosition - a.uprightAngle, a.lead);
      NamedMono(a.minPosition - a.uprightAngle, 0.0, a.lead);
      NamedMono(0.0, a.maxPosition - a.uprightAngle, a.lead);
    }
  }

  lemma StrictScale(x: real, y: real, s: real)
    requires x < y && 0.0 < s
    ensures Mul(x, s) < Mul(y, s)
  {}

  lemma Unscale(x: real, s: real)
    requires s != 0.0
    ensures Mul(x, s) / s == x && Mul(x / s, s) == x
  {}

  /** Reading the drive's position is the inverse of commanding one. */
  lemma PositionRoundTrip(a: Actuator, position: real, drivePosition: real)
    requires a.Checked()
    ensures a.ActualPosition(a.ToActuatorPosition(position)) == position
    ensures a.ToActuatorPosition(a.ActualPosition(drivePosition)) == drivePosition
  {
    if a.angular {
      Unscale(position - a.offset, a.lead);
      Unscale(drivePosition - a.uprightAngle, a.lead);
    }
  }

  /** Upright is the drive's upright angle, and a degree of the drive is `lead` metres of the paddle, upwards;
      a linear drive works in metres already. */
  lemma UnitsOfTheDrive(a: Actuator, x: real, y: real)
    requires a.Checked()
    ensures a.angular ==> a.ToActuatorPosition(a.offset) == a.uprightAngle && a.ActualPosition(a.uprightAngle) == a.offset
    ensures a.ActualPosition(y) - a.ActualPosition(x) == if a.angular then Mul(y - x, a.lead) else y - x
    ensures !a.angular ==> a.ToActuatorPosition(x) == x == a.ActualPosition(x)
  {
    if a.angular {
      assert a.ToActuatorPosition(a.offset) == a.uprightAngle + 0.0 / a.lead;
      DriveSteps(x - a.uprightAngle, y - a.uprightAngle, a.lead);
    }
  }

  lemma DriveSteps(x: real, y: real, s: real)
    ensures Mul(y, s) - Mul(x, s) == Mul(y - x, s) && Mul(0.0, s) == 0.0
  {}

  lemma DriveOrder(a: Actuator, p: real, q: real)
    requires a.Checked() && p <= q
    ensures a.ToActuatorPosition(p) <= a.ToActuatorPosition(q)
  {
    if a.angular {
      DivideMono(p - a.offset, q - a.offset, a.lead);
    }
  }

  /** An angular drive's limits, carried to metres and back, are exactly its own. */
  lemma ClampedInDriveLimits(n: Node, position: real)
    requires n.Checked() && n.actuator.angular
    ensures n.actuator.minPosition <= n.actuator.ToActuatorPosition(n.Clamped(position)) <= n.actuator.maxPosition
  {
    LimitsOrdered(n);
    var a := n.actuator;
    PositionRoundTrip(a, 0.0, a.minPosition);
    PositionRoundTrip(a, 0.0, a.maxPosition);
    hide Mul;
    DriveOrder(a, n.Minimum(), n.Clamped(position));
    DriveOrder(a, n.Clamped(position), n.Maximum());
  }

  lemma AbsQuotient(x: real, s: real)
    requires 0.0 < s
    ensures Abs(x / s) == Abs(x) / s
  {
    if x >= 0.0 {
      DivideMono(0.0, x, s);
    } else {
      DivideMono(x, 0.0, s);
      assert (-x) / s == -(x / s);
    }
  }

  /** The speed a drive turning at this many rpm gives the paddle: six degrees a second for each rpm. */
  function PaddleSpeed(a: Actuator, rpm: real): real {
    if a.angular then Mul(rpm * 6.0, a.lead) else rpm * 6.0
  }

  /** The rpm asked for covers the speed it was asked for, and above 0.1 rpm gives exactly that speed. */
  lemma RpmCovers(a: Actuator, velocity: real)
    requires a.Checked()
    ensures 0.1 <= a.Rpm(velocity)
    ensures Abs(velocity) <= PaddleSpeed(a, a.Rpm(velocity))
    ensures PaddleSpeed(a, 0.1) <= Abs(velocity) ==> PaddleSpeed(a, a.Rpm(velocity)) == Abs(velocity)
    ensures PaddleSpeed(a, a.maxRpm) == a.MaxVelocity()
  {
    if a.angular {
      AbsQuotient(velocity, a.lead);
      Unscale(Abs(velocity), a.lead);
      Unscale(0.6, a.lead);
      var w := Abs(velocity) / a.lead;
      if w <= 0.6 {
        NamedMono(w, 0.6, a.lead);
      } else {
        StrictScale(0.6, w, a.lead);
      }
    }
  }

  /** A cap no faster than the drive's maximum asks for a legal speed exactly when 0.1 rpm is legal. */
  lemma RpmLegalIff(a: Actuator, cap: real)
    requires a.Checked() && Abs(cap) <= a.MaxVelocity()
    ensures 0.0 < a.Rpm(cap) <= a.maxRpm <==> 0.1 <= a.maxRpm
  {
    if a.angular {
      AbsQuotient(cap, a.lead);
      DivideMono(Abs(cap), a.MaxVelocity(), a.lead);
      Unscale(a.maxRpm * 6.0, a.lead);
    }
  }

  /** Every setpoint of an angular drive passes move_to()'s checks, for any trajectory position and any
      cap up to the drive's maximum, exactly when max_velocity_rpm is at least 0.1: below that every
      single one is refused. */
  lemma AngularSetpointFitsIff(n: Node, position: real, cap: real)
    requires n.Checked() && n.actuator.angular && Abs(cap) <= n.actuator.MaxVelocity()
    ensures n.Fits(position, cap) <==> 0.1 <= n.actuator.maxRpm
  {
    ClampedInDriveLimits(n, position);
    RpmLegalIff(n.actuator, cap);
  }

  ghost predicate AlwaysFits(n: Node, cap: real)
    requires n.Checked()
  {
    forall position: real :: n.Fits(position, cap)
  }

  /** A linear drive's limits are a second pair of parameters: its setpoints always fit exactly when the
      node's range lies inside the drive's. */
  lemma LinearSetpointsFitIff(n: Node, cap: real)
    requires n.Checked() && !n.actuator.angular && Abs(cap) <= n.actuator.MaxVelocity()
    ensures AlwaysFits(n, cap)
            <==> 0.1 <= n.actuator.maxRpm && n.actuator.minPosition <= n.linearMinimum
                 && n.linearMaximum <= n.actuator.maxPosition
  {
    RpmLegalIff(n.actuator, cap);
    if AlwaysFits(n, cap) {
      assert n.Fits(n.linearMinimum, cap) && n.Fits(n.linearMaximum, cap);
    }
  }

  /** Holding is always within the drive's limits, wherever the last target was. */
  lemma HoldFits(a: Actuator, target: real)
    requires a.Checked()
    ensures IndraDrive.InLimits(a.Limits(), Clamp(target, a.minPosition, a.maxPosition), a.holdRpm)
  {}

  // ---------------------------------------------------------------- clamping and caps

  /** From an allowed start, the clamp moves a setpoint inside the hull by at most the start tolerance. */
  lemma ClampMovesAtMostTolerance(n: Node, start: real, lo: real, hi: real, position: real)
    requires n.Checked() && n.StartAllowed(start) && n.Minimum() <= lo && hi <= n.Maximum()
    requires Min(start, lo) <= position <= Max(start, hi)
    ensures Abs(n.Clamped(position) - position) <= n.tolerance
  {
    LimitsOrdered(n);
  }

  /** The speed the drive is capped to is never below what the accepted trajectory needs, and never above
      what the drive can do. */
  lemma CapCovers(n: Node, peak: real, velocity: real)
    requires n.Checked() && n.WithinSpeedLimit(peak) && Abs(velocity) <= peak
    ensures Abs(velocity) <= n.VelocityCap(peak) <= n.actuator.MaxVelocity()
    ensures Abs(n.VelocityCap(peak)) <= n.actuator.MaxVelocity()
  {
    NamedMono(1.0, n.margin, peak);
    Commute(peak, n.margin);
  }

  /** A start is allowed exactly when the clamp would move it by no more than the tolerance, and a peak exactly
      when the drive gives the paddle that speed at its maximum rpm. */
  lemma AcceptedIff(n: Node, start: real, peak: real)
    requires n.Checked()
    ensures n.StartAllowed(start) <==> Abs(n.Clamped(start) - start) <= n.tolerance
    ensures n.WithinSpeedLimit(peak) <==> peak <= PaddleSpeed(n.actuator, n.actuator.maxRpm)
  {
    LimitsOrdered(n);
    hide Node.Minimum, Node.Maximum;
  }

  /** The cap is the margin times the peak, cut only at the drive's maximum. */
  lemma CapIsTight(n: Node, peak: real)
    requires n.Checked() && 0.0 <= peak
    ensures n.VelocityCap(peak) <= peak * n.margin && n.VelocityCap(peak) <= n.actuator.MaxVelocity()
    ensures n.VelocityCap(peak) < n.actuator.MaxVelocity() ==> n.VelocityCap(peak) == peak * n.margin
  {
    hide Actuator.MaxVelocity;
  }

  lemma Commute(x: real, y: real)
    ensures Mul(x, y) == Mul(y, x) && Mul(1.0, x) == x
  {}
}
