/** The driver's calls from begin to end, read off the wire: which status bits carry enable(), disable() and
    clear_errors() forward, which control bits each stage sends, and what target and velocity go with them. */
module IndraDriveCalls {
  import opened Options
  import opened Bytes
  import opened RealMath
  import opened Tags
  import opened Steps = IndraDrive
  import opened IndraDriveBits
  import opened IndraDriveSafety

  /** The control word is made of exactly these bits. */
  ghost predicate Carries(control: Word, bits: set<nat>) {
    forall b: nat :: BitOf(control, b) <==> b in bits
  }

  lemma ControlWordsSend()
    ensures Carries(OPERATING_MODE, {1}) && Carries(OPERATING_MODE + DRIVE_ON, {1, 15})
    ensures Carries(OPERATING_MODE + DRIVE_ON + DRIVE_START, {1, 13, 15}) && Carries(0, {})
  {
    hide BitOf;
    forall b: nat {
      ControlWordBits(b);
    }
    forall b: nat {
      ZeroBits(b);
    }
  }

  // ---------------------------------------------------------------- waiting

  /** The status bits that each wait is for. */
  ghost predicate Shows(status: Word, at: Waiting) {
    match at
    case ForOperatingMode => BitOf(status, 1) && !BitOf(status, 0)
    case ForPowerReady => BitOf(status, 15)
    case ForTorque => BitOf(status, 15) && BitOf(status, 14)
    case ForFollowing => !BitOf(status, 7)
    case ForStandstill => BitOf(status, 3)
    case ForTorqueOff => !(BitOf(status, 15) && BitOf(status, 14))
    case ForNoError(_) => !BitOf(status, 13)
    case _ => false
  }

  predicate Enabling(at: Waiting) {
    at == ForOperatingMode || at == ForPowerReady || at == ForTorque || at == ForFollowing
  }

  /** Only shutting down keeps waiting after an abort or a fault. */
  predicate Stoppable(at: Waiting) { Enabling(at) || at.ForNoError? }

  /** Something ends the wait unfulfilled. */
  ghost predicate GivesUp(d: Drive, timedOut: bool) {
    || (Stoppable(d.at) && (d.abort || d.fault))
    || !d.online
    || (timedOut && !Shows(d.status, d.at))
  }

  /** A wait that neither sees its bits nor has a reason to give up changes nothing. */
  lemma KeepsWaiting(c: Config, d: Drive, timedOut: bool)
    requires d.at != Idle && !d.at.SecondWrite? && !GivesUp(d, timedOut) && !Shows(d.status, d.at)
    ensures Next(c, d, Continue(timedOut)) == d
  {
    StatusBits(d.status);
    hide BitOf, InOperatingMode, PowerReady, WithTorque, Following, Standstill, Class1Error, Staged;
    match d.at
    case ForOperatingMode => case ForPowerReady => case ForTorque => case ForFollowing => case ForStandstill =>
    case ForTorqueOff => case ForNoError(_) =>
  }

  /** enable() gives up by taking everything back but operating mode. */
  lemma EnablingGivesUp(c: Config, d: Drive, timedOut: bool)
    requires Enabling(d.at) && GivesUp(d, timedOut)
    ensures var e := Next(c, d, Continue(timedOut));
      e == d.(enabled := false, control := e.control, at := Idle) && Carries(e.control, {1})
  {
    StatusBits(d.status);
    ControlWordsSend();
    hide BitOf, InOperatingMode, PowerReady, WithTorque, Following, Standstill, Class1Error, Staged, Carries;
    match d.at
    case ForOperatingMode => case ForPowerReady => case ForTorque => case ForFollowing =>
  }

  /** And goes on as soon as it sees its bits, even if the deadline has passed meanwhile: first without a
      change, then with Drive On, then with the target on the position just read and Drive Start. */
  lemma EnablingGoesOn(c: Config, d: Drive, timedOut: bool)
    requires Enabling(d.at) && !GivesUp(d, timedOut) && Shows(d.status, d.at)
    ensures var e := Next(c, d, Continue(timedOut));
      && (d.at == ForOperatingMode ==> e == d.(at := ForPowerReady))
      && (d.at == ForPowerReady ==>
            e == d.(enabled := true, control := e.control, at := ForTorque) && Carries(e.control, {1, 15}))
      && (d.at == ForTorque ==>
            && e == d.(target := d.position, control := e.control, at := ForFollowing, issued := e.issued)
            && Carries(e.control, {1, 13, 15}) && e.issued == d.issued + [Command(d.position, d.velocity)])
      && (d.at == ForFollowing ==> e == d.(at := Idle))
  {
    StatusBits(d.status);
    ControlWordsSend();
    StagedReading(d.position);
    hide BitOf, InOperatingMode, PowerReady, WithTorque, Following, Standstill, Class1Error, Staged, Carries;
    match d.at
    case ForOperatingMode => case ForPowerReady => case ForTorque => case ForFollowing =>
  }

  // ---------------------------------------------------------------- enable()

  /** The call is refused untouched unless the gateway answers and the slave is live; with a class 1 error it
      only forgets the old fault; else it parks the target on the position and asks for operating mode. */
  lemma EnableBegins(c: Config, d: Drive)
    requires d.at == Idle
    ensures var e := Next(c, d, BeginEnable);
      && (!(d.online && SlaveLive(c.address, true, d.registers)) ==> e == d)
      && (d.online && SlaveLive(c.address, true, d.registers) && BitOf(d.status, 13) ==> e == d.(fault := false))
      && (d.online && Healthy(c.address, d.status, d.registers) ==>
            && e == d.(fault := false, target := d.position, velocity := e.velocity, control := e.control,
                       issued := e.issued, at := ForOperatingMode)
            && Carries(e.control, {1}) && e.issued == d.issued + [Command(d.position, e.velocity)]
            && (Representable(Min(10.0, c.maxVelocity)) ==>
                  Abs(e.velocity as real * 0.0001 - Min(10.0, c.maxVelocity)) <= 0.00005))
  {
    LiveIffHealthy(c.address, d.online, d.status, d.registers);
    LiveIffHealthy(c.address, true, d.status, d.registers);
    StatusBits(d.status);
    ControlWordsSend();
    StagedReading(d.position);
    if Representable(Min(10.0, c.maxVelocity)) {
      StagedNear(POS_VELOCITY, Min(10.0, c.maxVelocity));
    }
    OfflineIsNotLive(c.address, d.registers);
    hide BitOf, Healthy, SlaveLive, Class1Error, Staged, Carries;
  }

  lemma OfflineIsNotLive(address: nat, registers: seq<Word>)
    ensures !SlaveLive(address, false, registers)
  {}

  /** What a drive reports in one good cycle. */
  datatype Report = Report(status: Word, position: Int32, registers: seq<Word>)

  function Polled(r: Report): Action { Poll(Succeeded(r.status, r.position, r.registers)) }

  function Reported(d: Drive, r: Report): Drive {
    d.(status := r.status, position := r.position, registers := r.registers, online := true)
  }

  /** A report changes only the inputs of a drive that is not enabled, or that it shows to be well. */
  lemma ReportTakenOver(c: Config, d: Drive, r: Report)
    requires d.enabled ==> Healthy(c.address, r.status, r.registers)
    ensures Next(c, d, Polled(r)) == Reported(d, r)
  {
    GoodCycle(c, d, r.status, r.position, r.registers);
    hide Healthy, PollCycle;
  }

  /** One report and the wait check after it. */
  function Round(c: Config, d: Drive, r: Report, late: bool): Drive {
    Next(c, Next(c, d, Polled(r)), Continue(late))
  }

  /** The whole call: with the slave live and the drive reporting, one after the other, operating mode, power
      ready, torque and following, it ends enabled and running, however late each report came. The target
      is the position reported with torque; nothing moves before. */
  lemma EnableSucceeds(c: Config, d: Drive, mode: Report, power: Report, torque: Report, follows: Report,
                       l1: bool, l2: bool, l3: bool, l4: bool)
    requires d.at == Idle && d.online && !d.abort && Healthy(c.address, d.status, d.registers)
    requires d.enabled ==> Healthy(c.address, mode.status, mode.registers) && Healthy(c.address, power.status, power.registers)
    requires Healthy(c.address, torque.status, torque.registers) && Healthy(c.address, follows.status, follows.registers)
    requires Shows(mode.status, ForOperatingMode) && Shows(power.status, ForPowerReady)
    requires Shows(torque.status, ForTorque) && Shows(follows.status, ForFollowing)
    ensures var asked := Next(c, d, BeginEnable);
      var moded := Round(c, asked, mode, l1);
      var powered := Round(c, moded, power, l2);
      var started := Round(c, powered, torque, l3);
      var end := Round(c, started, follows, l4);
      && Carries(asked.control, {1}) && Carries(moded.control, {1}) && Carries(powered.control, {1, 15})
      && Carries(started.control, {1, 13, 15}) && Carries(end.control, {1, 13, 15})
      && asked.target == moded.target == powered.target == d.position
      && end.target == started.target == torque.position && end.velocity == asked.velocity
      && end.enabled && !end.fault && end.at == Idle
  {
    hide Carries, Shows, Healthy, Next;
    EnableBegins(c, d);
    var asked := Next(c, d, BeginEnable);
    ReportTakenOver(c, asked, mode);
    Continues(c, Reported(asked, mode), l1);
    var moded := Round(c, asked, mode, l1);
    ReportTakenOver(c, moded, power);
    Continues(c, Reported(moded, power), l2);
    var powered := Round(c, moded, power, l2);
    ReportTakenOver(c, powered, torque);
    Continues(c, Reported(powered, torque), l3);
    var started := Round(c, powered, torque, l3);
    ReportTakenOver(c, started, follows);
    Continues(c, Reported(started, follows), l4);
  }

  lemma Continues(c: Config, d: Drive, late: bool)
    requires Enabling(d.at) && d.online && !d.abort && !d.fault && Shows(d.status, d.at)
    ensures !GivesUp(d, late)
    ensures var e := Next(c, d, Continue(late));
      && (d.at == ForOperatingMode ==> e == d.(at := ForPowerReady))
      && (d.at == ForPowerReady ==>
            e == d.(enabled := true, control := e.control, at := ForTorque) && Carries(e.control, {1, 15}))
      && (d.at == ForTorque ==>
            && e == d.(target := d.position, control := e.control, at := ForFollowing, issued := e.issued)
            && Carries(e.control, {1, 13, 15}))
      && (d.at == ForFollowing ==> e == d.(at := Idle))
  {
    assert !GivesUp(d, late);
    hide Shows, Carries, Next, GivesUp;
    EnablingGoesOn(c, d, late);
  }

  // ---------------------------------------------------------------- disable(), halt(), shutdown()

  /** disable() on a running drive halts it, then waits for standstill; otherwise it removes the torque at
      once. */
  lemma DisableBegins(c: Config, d: Drive)
    requires d.at == Idle
    ensures var e := Next(c, d, BeginDisable);
      if d.enabled && d.online then e == d.(control := e.control, at := ForStandstill) && Carries(e.control, {1, 15})
      else e == d.(enabled := false, control := e.control, at := if d.online then ForTorqueOff else Idle)
           && Carries(e.control, {1})
  {
    ControlWordsSend();
    hide Carries;
  }

  /** Standstill, its timeout or a lost link remove the torque; the call returns when the torque is off, or
      when that wait gives up. */
  lemma DisableGoesOn(c: Config, d: Drive, timedOut: bool)
    requires d.at == ForStandstill || d.at == ForTorqueOff
    requires Shows(d.status, d.at) || GivesUp(d, timedOut)
    ensures var e := Next(c, d, Continue(timedOut));
      && (d.at == ForStandstill ==>
            e == d.(enabled := false, control := e.control, at := if d.online then ForTorqueOff else Idle)
            && Carries(e.control, {1}))
      && (d.at == ForTorqueOff ==> e == d.(at := Idle))
  {
    StatusBits(d.status);
    ControlWordsSend();
    hide BitOf, InOperatingMode, PowerReady, WithTorque, Following, Standstill, Class1Error, Staged, Carries;
  }

  /** halt() keeps the drive on and clears Drive Start, on an enabled drive only; shutdown() clears the word. */
  lemma HaltAndShutdown(c: Config, d: Drive)
    requires d.at == Idle
    ensures d.enabled ==>
              var e := Next(c, d, CallHalt); e == d.(control := e.control) && Carries(e.control, {1, 15})
    ensures !d.enabled ==> Next(c, d, CallHalt) == d
    ensures var e := Next(c, d, CallShutdown); e == d.(enabled := false, control := e.control) && Carries(e.control, {})
  {
    ControlWordsSend();
    hide Carries;
  }

  // ---------------------------------------------------------------- move_to() and clear_errors()

  /** An allowed move stages the velocity, then the target, each to the nearest ten-thousandth, and nothing
      else; any other is refused untouched. */
  lemma MoveStagesBoth(c: Config, d: Drive, position: real, rpm: real, timedOut: bool)
    requires d.at == Idle
    ensures d.enabled && !d.fault && c.minPosition <= position <= c.maxPosition && 0.0 < rpm <= c.maxVelocity ==>
              var half := Next(c, d, BeginMove(position, rpm));
              var whole := Next(c, half, Continue(timedOut));
              && half == d.(velocity := half.velocity, at := half.at, issued := half.issued) && half.at != Idle
              && whole == half.(target := whole.target, at := Idle)
              && (Representable(rpm) ==> Abs(half.velocity as real * 0.0001 - rpm) <= 0.00005)
              && (Representable(position) ==> Abs(whole.target as real * 0.0001 - position) <= 0.00005)
    ensures !(d.enabled && !d.fault && c.minPosition <= position <= c.maxPosition && 0.0 < rpm <= c.maxVelocity) ==>
              Next(c, d, BeginMove(position, rpm)) == d
  {
    if Representable(rpm) {
      StagedNear(POS_VELOCITY, rpm);
    }
    if Representable(position) {
      StagedNear(TARGET_POSITION, position);
    }
    hide Staged;
  }

  /** clear_errors() raises bit 5, and lowers it again when the error bit is gone or the wait gives up; no
      other bit changes. */
  lemma ClearPulsesOneBit(c: Config, d: Drive, later: Drive, timedOut: bool, b: nat)
    requires d.at == Idle
    ensures var e := Next(c, d, BeginClear);
      && e == d.(control := e.control, at := e.at) && e.at.ForNoError?
      && (BitOf(e.control, b) <==> b == 5 || BitOf(d.control, b))
      && (later.at == e.at && (Shows(later.status, later.at) || GivesUp(later, timedOut)) ==>
            var f := Next(c, later, Continue(timedOut));
            && f == later.(control := f.control, at := Idle)
            && (BitOf(f.control, b) <==> b != 5 && BitOf(d.control, b)))
  {
    ClearWordBits(d.control, b);
    StatusBits(later.status);
    hide BitOf, InOperatingMode, PowerReady, WithTorque, Following, Standstill, Class1Error, Staged, WithoutClear;
  }

  // ---------------------------------------------------------------- after a fault, in bits

  /** The cycle failed, or read something that an enabled drive must not go on with. */
  ghost predicate Alarming(c: Config, cycle: Cycle) {
    cycle.Failed? || !Healthy(c.address, cycle.status, cycle.registers)
  }

  lemma AlarmLatches(c: Config, d: Drive, cycle: Cycle)
    ensures Latches(c, d, cycle) <==> d.enabled && Alarming(c, cycle)
  {
    match cycle
    case Succeeded(status, position, registers) => GoodCycle(c, d, status, position, registers);
    case Failed(_, _) => BadCycle(c, d, cycle);
  }

  /** After an alarming cycle on an enabled drive, a control word with bit 13 or 15 on the wire means that a
      new enable(), begun after it, has itself read operating mode and power ready, in that order. */
  lemma NoRunBitsAfterAlarm(c: Config, states: seq<Drive>, actions: seq<Action>, i: nat, j: nat, control: Word)
    returns (a: nat, b: nat, k: nat)
    requires Run(c, states, actions) && i < j < |actions| && ClearsWhileOff(states, actions, j)
    requires actions[i].Poll? && states[i].enabled && Alarming(c, actions[i].cycle)
    requires Flushes(states, actions, j, control) && (BitOf(control, 15) || BitOf(control, 13))
    ensures i < a < b < k < j && actions[a] == BeginEnable && forall n | a < n <= k :: states[n].at != Idle
    ensures states[b].at == ForOperatingMode && Shows(states[b].status, ForOperatingMode) && actions[b].Continue?
    ensures states[k].at == ForPowerReady && Shows(states[k].status, ForPowerReady) && actions[k].Continue?
    ensures states[k].online && !states[k].fault && !states[k].abort
  {
    AlarmLatches(c, states[i], actions[i].cycle);
    ControlBits(control);
    hide Run, Alarming, Healthy, Latches, BitOf, HasOn, HasStart, ClearsWhileOff;
    a, b, k := NoRunCommandAfterFault(c, states, actions, i, j, control);
    StatusBits(states[b].status);
    StatusBits(states[k].status);
  }
}
