/** The drive's command side on top of the cyclic exchange. A poll thread sends the staged outputs,
    reads the inputs and runs on_cycle(), all in one step; one command thread stages control words and
    waits for status bits, one step from a passed wait check to the next wait. `Drive` is the state
    between two steps. */
module IndraDrive {
  import opened Options
  import opened Bytes
  import opened RealMath
  import opened Tags

  type Int32 = x: int | -0x8000_0000 <= x < 0x8000_0000

  // ---------------------------------------------------------------- words and tags

  const OPERATING_MODE: Word := 0x0002
  const CLEAR_ERRORS: Word := 0x0020
  const DRIVE_START: Word := 0x2000
  const DRIVE_ON: Word := 0x8000

  predicate HasClear(control: Word) { control / 0x20 % 2 == 1 }
  predicate HasStart(control: Word) { control / 0x2000 % 2 == 1 }
  predicate HasOn(control: Word) { control / 0x8000 == 1 }

  function WithoutClear(control: Word): Word {
    if HasClear(control) then control - CLEAR_ERRORS else control
  }

  predicate InOperatingMode(status: Word) { status % 4 == 2 }
  predicate PowerReady(status: Word) { status / 0x4000 >= 2 }
  predicate WithTorque(status: Word) { status / 0x4000 == 3 }
  predicate Following(status: Word) { status / 0x80 % 2 == 0 }
  predicate Standstill(status: Word) { status / 0x08 % 2 == 1 }
  predicate Class1Error(status: Word) { status / 0x2000 % 2 == 1 }

  const POSITION: Tag := Tag(I32, 2, 0, 0, BigEndian, 0.0001, 0.0)
  const TARGET_POSITION: Tag := Tag(I32, 2, 0, 0, BigEndian, 0.0001, 0.0)
  const POS_VELOCITY: Tag := Tag(I32, 6, 0, 0, BigEndian, 0.0001, 0.0)

  /** The raw integer a scaled write leaves in an I32 output tag. */
  function Staged(t: Tag, value: real): (raw: Int32)
    requires t.kind == I32
  {
    WrappedMeaning(t.kind, Rounded(RawValue(t, value)));
    Wrapped(t.kind, Rounded(RawValue(t, value)))
  }

  datatype Config = Config(address: nat, minPosition: real, maxPosition: real, maxVelocity: real)

  /** Bits 1:0 of the first status register are set, and so is the live-list bit of the drive's
      PROFIBUS address; the live list starts at byte 2 of the status area. */
  predicate SlaveLive(address: nat, online: bool, registers: seq<Word>) {
    var b := 2 + address / 8;
    && online && registers != [] && registers[0] % 4 == 3
    && b / 2 < |registers|
    && BitOf(if b % 2 == 0 then HighByte(registers[b / 2]) else LowByte(registers[b / 2]), address % 8)
  }

  // ---------------------------------------------------------------- state

  /** What the command thread is waiting for; SecondWrite lies between the two writes of move_to(). */
  datatype Waiting =
    | Idle
    | ForOperatingMode
    | ForPowerReady
    | ForTorque
    | ForFollowing
    | ForStandstill
    | ForTorqueOff
    | ForNoError(base: Word)
    | SecondWrite(next: Int32)

  datatype Command = Command(target: Int32, velocity: Int32)

  /** Staged outputs, flags, the inputs last read, and the list of every command ever staged. */
  datatype Drive = Drive(
    control: Word, target: Int32, velocity: Int32,
    enabled: bool, fault: bool, abort: bool, online: bool,
    status: Word, position: Int32, registers: seq<Word>,
    at: Waiting, issued: seq<Command>)

  const FRESH: Drive :=
    Drive(0, 0, 0, false, false, false, false, 0, 0, [], Idle, [Command(0, 0)])

  predicate Live(c: Config, d: Drive) { SlaveLive(c.address, d.online, d.registers) }

  // ---------------------------------------------------------------- the poll thread

  /** One cycle. A failed one may or may not have sent the outputs and read the inputs before failing. */
  datatype Cycle =
    | Succeeded(status: Word, position: Int32, registers: seq<Word>)
    | Failed(flushed: bool, inputs: Option<(Word, Int32)>)

  function LatchFault(d: Drive): Drive { d.(control := 0, enabled := false, fault := true) }

  function OnCycle(c: Config, d: Drive, ok: bool): Drive {
    if !ok then
      var e := d.(control := 0);
      if d.enabled then LatchFault(e) else e
    else if !d.enabled then d
    else if !Live(c, d) || Class1Error(d.status) then LatchFault(d)
    else d
  }

  function PollCycle(c: Config, d: Drive, cycle: Cycle): Drive {
    match cycle
    case Succeeded(status, position, registers) =>
      OnCycle(c, d.(status := status, position := position, registers := registers, online := true), true)
    case Failed(_, Some(inputs)) => OnCycle(c, d.(status := inputs.0, position := inputs.1, online := false), false)
    case Failed(_, None) => OnCycle(c, d.(online := false), false)
  }

  predicate Latches(c: Config, d: Drive, cycle: Cycle) {
    d.enabled && !PollCycle(c, d, cycle).enabled
  }

  predicate Sends(cycle: Cycle) { cycle.Succeeded? || cycle.flushed }

  // ---------------------------------------------------------------- the command thread

  datatype Check = Passed | Refused | Pending

  /** One round of wait_for(). */
  function WaitCheck(d: Drive, holds: bool, stoppable: bool, timedOut: bool): Check {
    if stoppable && (d.abort || d.fault) then Refused
    else if !d.online then Refused
    else if holds then Passed
    else if timedOut then Refused
    else Pending
  }

  function Issue(d: Drive, target: Int32, velocity: Int32): Drive {
    d.(issued := d.issued + [Command(target, velocity)])
  }

  function ParkedTarget(d: Drive): Int32 { Staged(TARGET_POSITION, Engineering(POSITION, d.position)) }

  function EnableBegin(c: Config, d: Drive): Drive {
    if !d.online || !Live(c, d) then d
    else if Class1Error(d.status) then d.(fault := false)
    else
      var velocity := Staged(POS_VELOCITY, Min(10.0, c.maxVelocity));
      Issue(d, ParkedTarget(d), velocity).(fault := false, velocity := velocity, target := ParkedTarget(d),
                                           control := OPERATING_MODE, at := ForOperatingMode)
  }

  function AbortEnable(d: Drive): Drive { d.(enabled := false, control := OPERATING_MODE, at := Idle) }

  function TorqueOff(d: Drive): Drive {
    d.(enabled := false, control := OPERATING_MODE, at := if d.online then ForTorqueOff else Idle)
  }

  function DisableBegin(d: Drive): Drive {
    if d.enabled && d.online then d.(control := OPERATING_MODE + DRIVE_ON, at := ForStandstill) else TorqueOff(d)
  }

  function ClearBegin(d: Drive): Drive {
    d.(control := WithoutClear(d.control) + CLEAR_ERRORS, at := ForNoError(WithoutClear(d.control)))
  }

  function Halt(d: Drive): Drive {
    if d.enabled then d.(control := OPERATING_MODE + DRIVE_ON) else d
  }

  function Shutdown(d: Drive): Drive { d.(enabled := false, control := 0) }

  predicate InLimits(c: Config, position: real, rpm: real) {
    c.minPosition <= position <= c.maxPosition && 0.0 < rpm <= c.maxVelocity
  }

  predicate MoveAllowed(c: Config, d: Drive, position: real, rpm: real) {
    d.enabled && !d.fault && InLimits(c, position, rpm)
  }

  /** The velocity goes out first. */
  function MoveBegin(c: Config, d: Drive, position: real, rpm: real): Drive {
    if !MoveAllowed(c, d, position, rpm) then d
    else
      var target, velocity := Staged(TARGET_POSITION, position), Staged(POS_VELOCITY, rpm);
      Issue(d, target, velocity).(velocity := velocity, at := SecondWrite(target))
  }

  function Repark(d: Drive): Drive {
    Issue(d, ParkedTarget(d), d.velocity).(target := ParkedTarget(d), at := ForFollowing,
                                           control := OPERATING_MODE + DRIVE_ON + DRIVE_START)
  }

  /** A wait check, and what the call does next once the check is decided. */
  function Resume(d: Drive, timedOut: bool): Drive {
    match d.at
    case Idle => d
    case ForOperatingMode =>
      (match WaitCheck(d, InOperatingMode(d.status), true, timedOut)
       case Passed => d.(at := ForPowerReady)
       case Refused => AbortEnable(d)
       case Pending => d)
    case ForPowerReady =>
      (match WaitCheck(d, PowerReady(d.status), true, timedOut)
       case Passed => d.(enabled := true, control := OPERATING_MODE + DRIVE_ON, at := ForTorque)
       case Refused => AbortEnable(d)
       case Pending => d)
    case ForTorque =>
      (match WaitCheck(d, WithTorque(d.status), true, timedOut)
       case Passed => Repark(d)
       case Refused => AbortEnable(d)
       case Pending => d)
    case ForFollowing =>
      (match WaitCheck(d, Following(d.status), true, timedOut)
       case Passed => d.(at := Idle)
       case Refused => AbortEnable(d)
       case Pending => d)
    case ForStandstill =>
      if WaitCheck(d, Standstill(d.status), false, timedOut) == Pending then d else TorqueOff(d)
    case ForTorqueOff =>
      if WaitCheck(d, !WithTorque(d.status), false, timedOut) == Pending then d else d.(at := Idle)
    case ForNoError(base) =>
      if WaitCheck(d, !Class1Error(d.status), true, timedOut) == Pending then d else d.(control := base, at := Idle)
    case SecondWrite(next) => d.(target := next, at := Idle)
  }

  // ---------------------------------------------------------------- actions

  datatype Action =
    | Poll(cycle: Cycle)
    | RequestAbort
    | BeginEnable
    | BeginDisable
    | BeginClear
    | CallHalt
    | CallShutdown
    | BeginMove(position: real, rpm: real)
    | Continue(timedOut: bool)

  /** Commands come from one thread, so a call begins only when the last one has returned. */
  predicate Enabled(d: Drive, a: Action) {
    match a
    case Poll(_) => true
    case RequestAbort => true
    case Continue(_) => d.at != Idle
    case _ => d.at == Idle
  }

  function Next(c: Config, d: Drive, a: Action): Drive {
    match a
    case Poll(cycle) => PollCycle(c, d, cycle)
    case RequestAbort => d.(abort := true)
    case BeginEnable => EnableBegin(c, d)
    case BeginDisable => DisableBegin(d)
    case BeginClear => ClearBegin(d)
    case CallHalt => Halt(d)
    case CallShutdown => Shutdown(d)
    case BeginMove(position, rpm) => MoveBegin(c, d, position, rpm)
    case Continue(timedOut) => Resume(d, timedOut)
  }

  ghost predicate Run(c: Config, states: seq<Drive>, actions: seq<Action>) {
    && |states| == |actions| + 1
    && states[0] == FRESH
    && forall i | 0 <= i < |actions| :: Enabled(states[i], actions[i]) && states[i + 1] == Next(c, states[i], actions[i])
  }

  /** Step j of the run puts this control word on the wire. */
  ghost predicate Flushes(states: seq<Drive>, actions: seq<Action>, j: nat, control: Word) {
    j < |actions| && j < |states| && actions[j].Poll? && Sends(actions[j].cycle) && states[j].control == control
  }
}
