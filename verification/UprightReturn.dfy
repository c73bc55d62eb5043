/** move_to_upright(): the paddle's way back, as a control loop over whatever the environment shows it at
    each tick. */
module UprightReturn {
  import opened RealMath
  import opened QuinticBlend
  import opened Setpoints
  import Pregenerated
  import Rates

  datatype ReturnStatus = Success | Fault | Stopped | Timeout | PositionInvalid

  /** What one pass of the loop meets: a lifecycle stop, the soft stop, a latched fault, the time since
      the start, whether the drive takes the setpoint, and the position measured afterwards. */
  datatype Tick = Tick(stopRequested: bool, softStop: bool, faulted: bool, elapsed: real, taken: bool, measured: real)

  datatype Setpoint = Setpoint(position: real, velocity: real, cap: real)

  function Distance(n: Node, start: real): real { n.actuator.offset - start }

  function Duration(n: Node, start: real): (d: real)
    requires n.Checked()
    ensures 0.0 < d
  {
    Max(PEAK_VELOCITY_FACTOR * Abs(Distance(n, start)) / n.returnVelocity, n.minDuration)
  }

  function Deadline(n: Node, start: real): real
    requires n.Checked()
  {
    Duration(n, start) + n.timeoutMargin
  }

  function PeakSpeed(n: Node, start: real): real
    requires n.Checked()
  {
    PEAK_VELOCITY_FACTOR * Abs(Distance(n, start)) / Duration(n, start)
  }

  /** The setpoint sent at a given time. */
  function SetpointAt(n: Node, start: real, t: real): Setpoint
    requires n.Checked()
  {
    var b := Quintic(t, Duration(n, start));
    Setpoint(n.Clamped(start + Mul(b.s, Distance(n, start))), Mul(b.ds, Distance(n, start)),
             n.VelocityCap(PeakSpeed(n, start)))
  }

  /** p lies between `from` and `to`, in either direction. */
  predicate OnTheWay(from: real, p: real, to: real) { Min(from, to) <= p <= Max(from, to) }

  // ---------------------------------------------------------------- the path

  lemma Quotient(x: real, y: real, z: real)
    requires 0.0 <= x && 0.0 < y && 0.0 < z
    ensures Mul(x / y, y) == x && 0.0 <= x / y
    ensures x / y <= z ==> x <= Mul(y, z)
    ensures Mul(y, z) == Mul(z, y)
  {
    QuotientOf(x, y, x / y);
    NamedMono(x / y, if x / y <= z then z else x / y, y);
  }

  lemma QuotientOf(x: real, y: real, q: real)
    requires 0.0 <= x && 0.0 < y && q == x / y
    ensures Mul(q, y) == x && 0.0 <= q
  {}

  /** The trajectory never exceeds the return limit, and its cap covers it and is legal. */
  lemma SpeedBounded(n: Node, start: real, t: real)
    requires n.Checked()
    ensures var p := SetpointAt(n, start, t);
      && Abs(p.velocity) <= n.returnVelocity
      && Abs(p.velocity) <= p.cap <= n.actuator.MaxVelocity() && Abs(p.cap) <= n.actuator.MaxVelocity()
  {
    var d, blend := Distance(n, start), Duration(n, start);
    var b, travel := Quintic(t, blend), PEAK_VELOCITY_FACTOR * Abs(d);
    BlendRange(t, blend);
    Quotient(travel, blend, blend);
    Quotient(travel, n.returnVelocity, blend);
    hide Mul, Quintic;
    Pregenerated.SlopeBound(b.ds, d, blend, travel / blend);
    Pregenerated.SlopeBound(b.ds, d, blend, n.returnVelocity);
    PeakBelow(travel, blend, n.returnVelocity);
    CapCovers(n, PeakSpeed(n, start), Mul(b.ds, d));
  }

  lemma PeakBelow(travel: real, blend: real, limit: real)
    requires 0.0 < blend && travel <= Mul(limit, blend)
    ensures travel / blend <= limit
  {
    DivideMono(travel, Mul(limit, blend), blend);
    Unscale(limit, blend);
  }

  /** Setpoints move monotonically from the clamped start to upright, and stay there. */
  lemma PathMonotone(n: Node, start: real, t1: real, t2: real)
    requires n.Checked() && t1 <= t2
    ensures var p, q := SetpointAt(n, start, t1).position, SetpointAt(n, start, t2).position;
      && OnTheWay(n.Clamped(start), p, n.actuator.offset) && OnTheWay(p, q, n.actuator.offset)
      && (Duration(n, start) <= t1 ==> p == n.actuator.offset)
  {
    var d, blend := Distance(n, start), Duration(n, start);
    BlendRange(t1, blend);
    BlendRange(t2, blend);
    BlendLipschitz(t1, t2, blend);
    LimitsOrdered(n);
    hide Quintic;
    Travelled(0.0, Quintic(t1, blend).s, d);
    Travelled(Quintic(t1, blend).s, Quintic(t2, blend).s, d);
    Travelled(Quintic(t2, blend).s, 1.0, d);
  }

  lemma Travelled(s1: real, s2: real, d: real)
    requires s1 <= s2
    ensures 0.0 <= d ==> Mul(s1, d) <= Mul(s2, d)
    ensures d <= 0.0 ==> Mul(s2, d) <= Mul(s1, d)
    ensures Mul(0.0, d) == 0.0 && Mul(1.0, d) == d
  {}

  /** The first setpoint, sent at time 0, is the clamped start; the last is upright. */
  lemma StartsWhereItIs(n: Node, start: real)
    requires n.Checked()
    ensures SetpointAt(n, start, 0.0).position == n.Clamped(start) && SetpointAt(n, start, 0.0).velocity == 0.0
  {
    var blend := Duration(n, start);
    BlendRange(0.0, blend);
    hide Quintic;
    Travelled(0.0, 0.0, Distance(n, start));
  }

  /** Between any two times the setpoint moves no further than the return limit allows. */
  lemma KeepsReturnSpeed(n: Node, start: real, t1: real, t2: real)
    requires n.Checked() && t1 <= t2
    ensures Abs(SetpointAt(n, start, t2).position - SetpointAt(n, start, t1).position) <= Mul(n.returnVelocity, t2 - t1)
  {
    var d, blend := Distance(n, start), Duration(n, start);
    var s1, s2 := Quintic(t1, blend).s, Quintic(t2, blend).s;
    BlendLipschitz(t1, t2, blend);
    Quotient(PEAK_VELOCITY_FACTOR * Abs(d), n.returnVelocity, blend);
    LimitsOrdered(n);
    hide Quintic, Mul;
    Pregenerated.BlendStep(s2 - s1, d, t2 - t1, blend, n.returnVelocity);
    Pregenerated.Difference(s2, s1, d);
  }

  /** Inside the limits the velocity sent is the rate at which the setpoint moves: it predicts the movement
      of any step up to an error quadratic in the step. */
  lemma VelocityIsTheRate(n: Node, start: real, t: real, h: real)
    requires n.Checked() && n.Minimum() <= start <= n.Maximum()
    ensures var p, q := SetpointAt(n, start, t), SetpointAt(n, start, t + h);
      Abs(q.position - p.position - Mul(h, p.velocity))
      <= Mul(391.0 * Square(h / Duration(n, start)), Abs(Distance(n, start)))
  {
    var d, blend := Distance(n, start), Duration(n, start);
    var b1, b2 := Quintic(t, blend), Quintic(t + h, blend);
    BlendRange(t, blend);
    BlendRange(t + h, blend);
    Rates.BlendTangent(t, h, blend);
    LimitsOrdered(n);
    Between(b1.s, start, n.actuator.offset, n.Minimum(), n.Maximum());
    Between(b2.s, start, n.actuator.offset, n.Minimum(), n.Maximum());
    hide Quintic, Mul, Square;
    Rates.Factored(b2.s, b1.s, h, b1.ds, d);
    NamedBound(b2.s - b1.s - Mul(h, b1.ds), d, 391.0 * Square(h / blend), Abs(d));
  }

  /** The return takes no longer than its limits ask: it lasts the minimum duration, or its fastest
      setpoint, halfway, moves at the return limit. */
  lemma NoSlowerThanNeeded(n: Node, start: real)
    requires n.Checked()
    ensures n.minDuration <= Duration(n, start)
    ensures n.minDuration < Duration(n, start)
            ==> Abs(SetpointAt(n, start, Duration(n, start) / 2.0).velocity) == n.returnVelocity
  {
    var d, blend := Distance(n, start), Duration(n, start);
    Halfway(blend);
    if n.minDuration < blend {
      FastestHalfway(PEAK_VELOCITY_FACTOR / blend, d, blend, n.returnVelocity);
    }
  }

  lemma Halfway(blend: real)
    requires 0.0 < blend
    ensures Quintic(blend / 2.0, blend).ds == PEAK_VELOCITY_FACTOR / blend
  {
    assert blend / 2.0 / blend == 0.5;
  }

  lemma FastestHalfway(ds: real, d: real, blend: real, limit: real)
    requires 0.0 < blend && 0.0 < limit && ds == PEAK_VELOCITY_FACTOR / blend
    requires blend == PEAK_VELOCITY_FACTOR * Abs(d) / limit
    ensures Abs(Mul(ds, d)) == limit
  {
    assert ds * blend == PEAK_VELOCITY_FACTOR && blend * limit == PEAK_VELOCITY_FACTOR * Abs(d);
    assert ds * (blend * limit) == PEAK_VELOCITY_FACTOR * limit;
    MulBound(ds, d, Abs(ds), Abs(d));
  }

  /** The cap sent is the highest speed of the path times the margin, cut at the drive's maximum. */
  lemma CapIsPeakWithMargin(n: Node, start: real, t: real)
    requires n.Checked()
    ensures var peak := Abs(SetpointAt(n, start, Duration(n, start) / 2.0).velocity);
      SetpointAt(n, start, t).cap == Min(Mul(peak, n.margin), n.actuator.MaxVelocity())
  {
    var d, blend := Distance(n, start), Duration(n, start);
    Halfway(blend);
    SameQuotient(d, blend);
  }

  lemma SameQuotient(d: real, blend: real)
    requires 0.0 < blend
    ensures Abs(Mul(PEAK_VELOCITY_FACTOR / blend, d)) == PEAK_VELOCITY_FACTOR * Abs(d) / blend
  {
    var q := PEAK_VELOCITY_FACTOR / blend;
    MulBound(q, d, q, Abs(d));
    QuotientOf(PEAK_VELOCITY_FACTOR * Abs(d), blend, PEAK_VELOCITY_FACTOR * Abs(d) / blend);
    assert q * blend == PEAK_VELOCITY_FACTOR;
    assert q * Abs(d) * blend == PEAK_VELOCITY_FACTOR * Abs(d);
  }

  // ---------------------------------------------------------------- the loop

  predicate TimeRuns(ticks: seq<Tick>) {
    forall i, j | 0 <= i < j < |ticks| :: ticks[i].elapsed <= ticks[j].elapsed
  }

  ghost predicate Follows(n: Node, start: real, ticks: seq<Tick>, sent: seq<Setpoint>)
    requires n.Checked()
  {
    && |sent| <= |ticks|
    && forall k | 0 <= k < |sent| :: sent[k] == SetpointAt(n, start, ticks[k].elapsed)
  }

  /** Setpoints leave the clamped start at time 0 and move no faster than the return limit, from there and
      from each other. */
  ghost predicate Paced(n: Node, start: real, ticks: seq<Tick>, sent: seq<Setpoint>)
    requires n.Checked() && |sent| <= |ticks|
  {
    && (forall k | 0 <= k < |sent| && 0.0 <= ticks[k].elapsed ::
          Abs(sent[k].position - n.Clamped(start)) <= Mul(n.returnVelocity, ticks[k].elapsed))
    && (forall j, k | 0 <= j <= k < |sent| ::
          Abs(sent[k].position - sent[j].position) <= Mul(n.returnVelocity, ticks[k].elapsed - ticks[j].elapsed))
  }

  lemma FollowingIsPaced(n: Node, start: real, ticks: seq<Tick>, sent: seq<Setpoint>)
    requires n.Checked() && TimeRuns(ticks) && Follows(n, start, ticks, sent)
    ensures Paced(n, start, ticks, sent)
  {
    hide SetpointAt, Mul, Node.Clamped;
    forall k | 0 <= k < |sent| && 0.0 <= ticks[k].elapsed
      ensures Abs(sent[k].position - n.Clamped(start)) <= Mul(n.returnVelocity, ticks[k].elapsed)
    {
      StartsWhereItIs(n, start);
      KeepsReturnSpeed(n, start, 0.0, ticks[k].elapsed);
    }
    forall j, k | 0 <= j <= k < |sent|
      ensures Abs(sent[k].position - sent[j].position) <= Mul(n.returnVelocity, ticks[k].elapsed - ticks[j].elapsed)
    {
      KeepsReturnSpeed(n, start, ticks[j].elapsed, ticks[k].elapsed);
    }
  }

  /** Every earlier tick was before the deadline. */
  predicate BeforeDeadline(n: Node, start: real, ticks: seq<Tick>, count: nat)
    requires n.Checked() && count <= |ticks|
  {
    forall k | 0 <= k < count :: ticks[k].elapsed < Deadline(n, start)
  }

  /** Nothing at this tick tells the loop to end before it writes. */
  predicate MayWrite(t: Tick) { !t.stopRequested && !t.softStop && !t.faulted }

  /** After the write, the paddle is home. */
  predicate Arrived(n: Node, start: real, tolerance: real, t: Tick)
    requires n.Checked()
  {
    Duration(n, start) <= t.elapsed && Abs(t.measured - n.actuator.offset) <= tolerance
  }

  /** The loop went on past every earlier tick: each was written, taken and not yet home, before the deadline. */
  predicate WentOn(n: Node, start: real, tolerance: real, ticks: seq<Tick>, count: nat)
    requires n.Checked() && count <= |ticks|
  {
    && BeforeDeadline(n, start, ticks, count)
    && forall k | 0 <= k < count :: MayWrite(ticks[k]) && ticks[k].taken && !Arrived(n, start, tolerance, ticks[k])
  }

  /** Why the loop ended after `count` setpoints: the last write was refused, arrived or came at or past the
      deadline; or, that not being so, the next tick forbade a write. */
  predicate Ends(n: Node, start: real, tolerance: real, ticks: seq<Tick>, count: nat, status: ReturnStatus)
    requires n.Checked() && count <= |ticks|
  {
    if count > 0 && !ticks[count - 1].taken then status == Fault
    else if count > 0 && Arrived(n, start, tolerance, ticks[count - 1]) then status == Success
    else if count > 0 && Deadline(n, start) <= ticks[count - 1].elapsed then status == Timeout
    else if count == |ticks| || ticks[count].stopRequested || ticks[count].softStop then status == Stopped
    else ticks[count].faulted && status == Fault
  }

  /** When the list of ticks runs out the loop is told to stop. `halts` counts the halt commands. */
  method MoveToUpright(n: Node, start: real, tolerance: real, ticks: seq<Tick>)
    returns (status: ReturnStatus, final: real, sent: seq<Setpoint>, halts: nat)
    requires n.Checked() && 0.0 <= tolerance && TimeRuns(ticks)
    ensures status == PositionInvalid <==> !n.StartAllowed(start)
    ensures halts == if status == PositionInvalid then 0 else 1
    ensures status == Success ==> Abs(final - n.actuator.offset) <= tolerance
    ensures !n.StartAllowed(start) || Abs(Distance(n, start)) <= tolerance ==> sent == [] && final == start
    ensures Follows(n, start, ticks, sent) && Paced(n, start, ticks, sent)
    ensures sent != [] ==> WentOn(n, start, tolerance, ticks, |sent| - 1) && MayWrite(ticks[|sent| - 1])
    ensures n.StartAllowed(start) && Abs(Distance(n, start)) > tolerance ==>
            Ends(n, start, tolerance, ticks, |sent|, status)
    ensures sent != [] && ticks[|sent| - 1].taken ==> final == ticks[|sent| - 1].measured
  {
    hide Quintic, Mul, PeakSpeed, Node.VelocityCap, Node.Clamped, Paced;
    forall s: seq<Setpoint> | Follows(n, start, ticks, s) ensures Paced(n, start, ticks, s) {
      FollowingIsPaced(n, start, ticks, s);
    }
    status, final, sent, halts := PositionInvalid, start, [], 0;
    if start < n.Minimum() - n.tolerance || start > n.Maximum() + n.tolerance {
      return;
    }
    var target := n.actuator.offset;
    var delta := target - start;
    if Abs(delta) <= tolerance {
      return Success, start, [], 1;
    }
    var duration := Duration(n, start);
    var deadline := duration + n.timeoutMargin;
    var i := 0;
    while i < |ticks| && !ticks[i].stopRequested
      invariant i <= |ticks| && |sent| == i && halts == 0
      invariant Follows(n, start, ticks, sent) && WentOn(n, start, tolerance, ticks, i)
      invariant final == if i == 0 then start else ticks[i - 1].measured
    {
      if ticks[i].softStop {
        halts := halts + 1;
        return Stopped, final, sent, halts;
      }
      if ticks[i].faulted {
        halts := halts + 1;
        return Fault, final, sent, halts;
      }
      var t := ticks[i].elapsed;
      sent := sent + [SetpointAt(n, start, t)];
      if !ticks[i].taken {
        halts := halts + 1;
        return Fault, final, sent, halts;
      }
      final := ticks[i].measured;
      if t >= duration && Abs(final - target) <= tolerance {
        halts := halts + 1;
        return Success, final, sent, halts;
      }
      if t >= deadline {
        halts := halts + 1;
        return Timeout, final, sent, halts;
      }
      i := i + 1;
    }
    halts := halts + 1;
    status := Stopped;
  }

  /** What it means to follow the path: every setpoint lies between the one before and upright, the first
      between the clamped start and upright, none faster than the return limit, and each is one the
      drive takes (for an angular drive whose maximum is at least 0.1 rpm). */
  lemma ReturnIsMonotoneAndSlow(n: Node, start: real, ticks: seq<Tick>, sent: seq<Setpoint>, k: nat)
    requires n.Checked() && TimeRuns(ticks) && Follows(n, start, ticks, sent) && k < |sent|
    ensures Paced(n, start, ticks, sent)
    ensures OnTheWay(if k == 0 then n.Clamped(start) else sent[k - 1].position, sent[k].position, n.actuator.offset)
    ensures Abs(sent[k].velocity) <= n.returnVelocity && Abs(sent[k].velocity) <= sent[k].cap
    ensures Duration(n, start) <= ticks[k].elapsed ==> sent[k].position == n.actuator.offset
    ensures n.actuator.angular && 0.1 <= n.actuator.maxRpm ==> n.Fits(sent[k].position, sent[k].cap)
  {
    hide SetpointAt, Node.Fits, Duration, Paced;
    FollowingIsPaced(n, start, ticks, sent);
    PathMonotone(n, start, ticks[k].elapsed, ticks[k].elapsed);
    if k > 0 {
      PathMonotone(n, start, ticks[k - 1].elapsed, ticks[k].elapsed);
    }
    SpeedBounded(n, start, ticks[k].elapsed);
    if n.actuator.angular {
      AngularSetpointFitsIff(n, sent[k].position, sent[k].cap);
    }
  }
}
