/** The actuator object in front of the drive: setpoints in actuator units become move commands, and a
    halt holds the last commanded target. */
module IndraDriveActuator {
  import opened RealMath
  import opened Steps = IndraDrive
  import opened Bits = IndraDriveBits
  import opened IndraDriveObject
  import Setpoints
  import Tags

  class IndraDriveActuator {
    const actuator: Setpoints.Actuator
    const drive: IndraDrive
    var lastTarget: real
    var hasTarget: bool

    constructor (a: Setpoints.Actuator, d: IndraDrive)
      ensures actuator == a && drive == d && !hasTarget
    {
      actuator, drive, lastTarget, hasTarget := a, d, 0.0, false;
    }

    /** The drive enforces the actuator's limits. */
    ghost predicate Valid()
      reads this, drive
    {
      && actuator.Checked() && drive.Valid() && drive.at == Idle
      && drive.config.minPosition == actuator.minPosition && drive.config.maxPosition == actuator.maxPosition
      && drive.config.maxVelocity == actuator.maxRpm
    }

    /** A write within the limits fails only if the drive is not enabled or is faulted. */
    method WriteSetpoint(position: real, velocity: real, between: seq<Action>) returns (ok: bool)
      requires Valid() && AllBackground(between)
      modifies this, drive
      ensures Valid()
      ensures ok <==> old(drive.enabled) && !old(drive.fault)
                      && InLimits(actuator.Limits(), position, Max(0.1, Abs(velocity) / 6.0))
      ensures ok ==> hasTarget && lastTarget == position
      ensures ok ==> drive.target == Staged(TARGET_POSITION, position)
                     && drive.velocity == Staged(POS_VELOCITY, Max(0.1, Abs(velocity) / 6.0))
      ensures ok && Representable(position) ==> Abs(drive.target as real * 0.0001 - position) <= 0.00005
      ensures ok && Representable(Max(0.1, Abs(velocity) / 6.0))
              ==> Abs(drive.velocity as real * 0.0001 - Max(0.1, Abs(velocity) / 6.0)) <= 0.00005
      ensures !ok ==> hasTarget == old(hasTarget) && lastTarget == old(lastTarget)
                      && drive.State() == old(drive.State())
    {
      hide Run, Staged;
      var rpm := Max(0.1, Abs(velocity) / 6.0);
      ok := drive.MoveTo(position, rpm, between);
      if ok {
        lastTarget, hasTarget := position, true;
      }
    }

    /** The last commanded target; before any command, where the drive is. */
    function HoldTarget(): real
      reads this, drive
    {
      if hasTarget then lastTarget else Tags.Engineering(POSITION, drive.position)
    }

    /** Holds position at a speed and place the drive always takes: it only does nothing while the drive
        is not enabled or is faulted. Drive Halt is never used, so the next setpoint moves the paddle. */
    method Halt(between: seq<Action>)
      requires Valid() && AllBackground(between)
      modifies drive
      ensures Valid()
      ensures old(drive.enabled) && !old(drive.fault) ==>
              && drive.target
                 == Staged(TARGET_POSITION, Clamp(old(HoldTarget()), actuator.minPosition, actuator.maxPosition))
              && drive.velocity == Staged(POS_VELOCITY, actuator.holdRpm)
              && (Representable(actuator.holdRpm) ==> Abs(drive.velocity as real * 0.0001 - actuator.holdRpm) <= 0.00005)
      ensures old(drive.enabled) && !old(drive.fault) && hasTarget && Representable(lastTarget)
              && actuator.minPosition <= lastTarget <= actuator.maxPosition
              ==> Abs(drive.target as real * 0.0001 - lastTarget) <= 0.00005
      ensures old(drive.enabled) && !old(drive.fault) && !hasTarget
              && actuator.minPosition <= old(drive.position) as real * 0.0001 <= actuator.maxPosition
              ==> drive.target == old(drive.position)
      ensures !old(drive.enabled) || old(drive.fault) ==> drive.State() == old(drive.State())
    {
      hide Run, Staged;
      if drive.fault {
        return;
      }
      var target := HoldTarget();
      if !hasTarget {
        StagedReading(drive.position);
      }
      Setpoints.HoldFits(actuator, target);
      var held := drive.MoveTo(Clamp(target, actuator.minPosition, actuator.maxPosition), actuator.holdRpm, between);
    }
  }

  /** The control loop's last step: clamp, convert and write. With a cap up to the drive's maximum, an
      angular drive whose maximum is at least 0.1 rpm takes every setpoint: a write fails only if the
      drive is not enabled or is faulted. */
  method PublishAndWriteSetpoint(n: Setpoints.Node, a: IndraDriveActuator, position: real, cap: real, between: seq<Action>)
    returns (ok: bool)
    requires n.Checked() && a.Valid() && a.actuator == n.actuator && AllBackground(between)
    requires Abs(cap) <= n.actuator.MaxVelocity()
    modifies a, a.drive
    ensures a.Valid()
    ensures ok <==> old(a.drive.enabled) && !old(a.drive.fault) && n.Fits(position, cap)
    ensures n.actuator.angular && 0.1 <= n.actuator.maxRpm ==> (ok <==> old(a.drive.enabled) && !old(a.drive.fault))
    ensures ok ==> a.lastTarget == n.actuator.ToActuatorPosition(n.Clamped(position))
    ensures ok && n.actuator.angular ==> n.actuator.ActualPosition(a.lastTarget) == n.Clamped(position)
    ensures ok && n.actuator.angular && Representable(n.actuator.minPosition) && Representable(n.actuator.maxPosition)
            ==> Abs(n.actuator.ActualPosition(a.drive.target as real * 0.0001) - n.Clamped(position))
                <= Mul(0.00005, n.actuator.lead)
    ensures ok && Representable(n.actuator.maxRpm)
            ==> Abs(cap) <= Setpoints.PaddleSpeed(n.actuator, a.drive.velocity as real * 0.0001 + 0.00005)
  {
    hide Staged, Mul;
    Setpoints.RpmCovers(n.actuator, cap);
    if n.actuator.angular {
      Setpoints.AngularSetpointFitsIff(n, position, cap);
    }
    Setpoints.PositionRoundTrip(n.actuator, n.Clamped(position), 0.0);
    ok := a.WriteSetpoint(n.actuator.ToActuatorPosition(n.Clamped(position)), n.actuator.ToActuatorVelocity(cap), between);
    if ok && n.actuator.angular {
      NearInMetres(n.actuator, a.drive.target as real * 0.0001, a.lastTarget);
    }
    if ok {
      FasterPaddle(n.actuator, n.actuator.Rpm(cap), a.drive.velocity as real * 0.0001 + 0.00005);
    }
  }

  lemma NearInMetres(a: Setpoints.Actuator, x: real, y: real)
    requires a.Checked() && a.angular
    ensures Abs(x - y) <= 0.00005 ==> Abs(a.ActualPosition(x) - a.ActualPosition(y)) <= Mul(0.00005, a.lead)
  {
    Setpoints.UnitsOfTheDrive(a, y, x);
    if Abs(x - y) <= 0.00005 {
      NamedBound(x - y, a.lead, 0.00005, a.lead);
    }
  }

  lemma FasterPaddle(a: Setpoints.Actuator, x: real, y: real)
    requires a.Checked()
    ensures x <= y ==> Setpoints.PaddleSpeed(a, x) <= Setpoints.PaddleSpeed(a, y)
  {
    if a.angular && x <= y {
      NamedMono(x * 6.0, y * 6.0, a.lead);
    }
  }
}
