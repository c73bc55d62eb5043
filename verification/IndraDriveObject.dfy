/** The drive object with its blocking calls, proved to produce only runs of the steps in module
    IndraDrive, so that everything proved about runs holds of the object. */
module IndraDriveObject {
  import opened Bytes
  import opened RealMath
  import opened Tags
  import opened Steps = IndraDrive
  import opened IndraDriveBits
  import opened IndraDriveSafety

  lemma RunGrows(c: Config, states: seq<Drive>, actions: seq<Action>, a: Action, d: Drive)
    requires Run(c, states, actions) && Enabled(states[|actions|], a) && d == Next(c, states[|actions|], a)
    ensures Run(c, states + [d], actions + [a])
  {}

  predicate Background(a: Action) { a.Poll? || a.RequestAbort? }

  predicate AllBackground(others: seq<Action>) {
    forall i | 0 <= i < |others| :: Background(others[i])
  }

  predicate Sleeps(sleeps: seq<seq<Action>>) {
    forall i | 0 <= i < |sleeps| :: AllBackground(sleeps[i])
  }

  /** All that happens during the sleeps, in order. */
  function During(sleeps: seq<seq<Action>>): seq<Action> {
    if sleeps == [] then [] else During(sleeps[..|sleeps| - 1]) + sleeps[|sleeps| - 1]
  }

  /** The other threads never touch what was commanded, except to drop it on a fault. */
  predicate Undisturbed(d: Drive, e: Drive) {
    && e.at == d.at && e.issued == d.issued && e.target == d.target && e.velocity == d.velocity
    && (d.fault ==> e.fault) && (e.enabled ==> d.enabled)
    && (e.control == d.control || e.control == 0)
    && (d.enabled && !e.fault ==> e.control == d.control && e.enabled)
  }

  lemma BackgroundUndisturbed(c: Config, d: Drive, a: Action)
    requires Background(a)
    ensures Undisturbed(d, Next(c, d, a))
  {
    hide SlaveLive, Class1Error;
  }

  /** The driver object. Its history is ghost: `Valid` says that it is a run of the steps above ending
      in the current fields, so whatever holds of every run holds of the object. A blocking call takes
      what happens on the other threads during its waits: one list of poll cycles and abort requests
      for every sleep between two checks; when the list runs out, the deadline has passed. */
  class IndraDrive {
    const config: Config
    var control: Word
    var target: Int32
    var velocity: Int32
    var enabled: bool
    var fault: bool
    var abort: bool
    var online: bool
    var status: Word
    var position: Int32
    var registers: seq<Word>
    ghost var at: Waiting
    ghost var issued: seq<Command>
    ghost var states: seq<Drive>
    ghost var actions: seq<Action>

    ghost function State(): Drive
      reads this
    {
      Drive(control, target, velocity, enabled, fault, abort, online, status, position, registers, at, issued)
    }

    ghost predicate Valid()
      reads this
    {
      Run(config, states, actions) && State() == states[|actions|]
    }

    /** The history so far is kept, and new steps are added to it. */
    twostate predicate Continues()
      reads this
    {
      old(states) <= states && old(actions) <= actions
    }

    /** The first step recorded since is this one. */
    ghost predicate Begins(before: seq<Action>, a: Action)
      reads this
    {
      |before| < |actions| && actions[|before|] == a
    }

    constructor (c: Config)
      ensures Valid() && State() == FRESH && config == c
    {
      config := c;
      control, target, velocity := 0, 0, 0;
      enabled, fault, abort, online := false, false, false, false;
      status, position, registers := 0, 0, [];
      at, issued := Idle, [Command(0, 0)];
      states, actions := [FRESH], [];
    }

    ghost method Record(a: Action)
      requires Run(config, states, actions) && Enabled(states[|actions|], a)
      requires State() == Next(config, states[|actions|], a)
      modifies this`states, this`actions
      ensures Valid() && states == old(states) + [State()] && actions == old(actions) + [a]
    {
      RunGrows(config, states, actions, a, State());
      states, actions := states + [State()], actions + [a];
    }

    predicate IsLive()
      reads this
    {
      SlaveLive(config.address, online, registers)
    }

    method LatchAFault()
      modifies this
      ensures State() == LatchFault(old(State())) && states == old(states) && actions == old(actions)
    {
      control := 0;
      enabled := false;
      fault := true;
    }

    /** A failed cycle clears the control word; on an enabled drive it also latches the fault, and so does a
        successful one whose bits are not all well. Otherwise nothing changes. */
    method CycleDone(ok: bool)
      modifies this
      ensures State() == OnCycle(config, old(State()), ok) && states == old(states) && actions == old(actions)
      ensures old(enabled) && !(ok && online && Healthy(config.address, status, registers))
              ==> State() == old(State()).(control := 0, enabled := false, fault := true)
      ensures old(enabled) && ok && online && Healthy(config.address, status, registers) ==> State() == old(State())
      ensures !old(enabled) ==> State() == if ok then old(State()) else old(State()).(control := 0)
    {
      hide Healthy, SlaveLive, Class1Error;
      LiveIffHealthy(config.address, online, status, registers);
      if !ok {
        control := 0;
        if enabled {
          LatchAFault();
        }
        return;
      }
      if !enabled {
        return;
      }
      if !IsLive() {
        LatchAFault();
      } else if Class1Error(status) {
        LatchAFault();
      }
    }

    method PollOnce(cycle: Cycle)
      modifies this
      ensures State() == PollCycle(config, old(State()), cycle) && states == old(states) && actions == old(actions)
    {
      match cycle
      case Succeeded(s, p, r) =>
        status, position, registers, online := s, p, r, true;
        CycleDone(true);
      case Failed(_, inputs) =>
        if inputs.Some? {
          status, position := inputs.value.0, inputs.value.1;
        }
        online := false;
        CycleDone(false);
    }

    /** One step of another thread. */
    method Elsewhere(a: Action)
      requires Valid() && Background(a)
      modifies this
      ensures Valid() && Continues() && Undisturbed(old(State()), State()) && actions == old(actions) + [a]
    {
      hide PollCycle, Run, Undisturbed;
      BackgroundUndisturbed(config, State(), a);
      match a
      case RequestAbort =>
        abort := true;
        Record(a);
      case Poll(cycle) =>
        PollOnce(cycle);
        Record(a);
    }

    method Sleep(others: seq<Action>)
      requires Valid() && AllBackground(others)
      modifies this
      ensures Valid() && Continues() && Undisturbed(old(State()), State()) && actions == old(actions) + others
    {
      hide Run, Background;
      for i := 0 to |others|
        invariant Valid() && Continues() && Undisturbed(old(State()), State())
        invariant actions == old(actions) + others[..i]
      {
        Elsewhere(others[i]);
        assert others[..i + 1] == others[..i] + [others[i]];
      }
      assert others[..|others|] == others;
    }

    predicate Holds(goal: Waiting)
      reads this
    {
      match goal
      case ForOperatingMode => InOperatingMode(status)
      case ForPowerReady => PowerReady(status)
      case ForTorque => WithTorque(status)
      case ForFollowing => Following(status)
      case ForStandstill => Standstill(status)
      case ForTorqueOff => !WithTorque(status)
      case ForNoError(_) => !Class1Error(status)
      case _ => false
    }

    /** Returns with the check decided: true when it passed. The other threads have then run through the
        sleeps so far, and through all of them exactly when the deadline had passed. */
    method WaitFor(goal: Waiting, stoppable: bool, sleeps: seq<seq<Action>>) returns (ok: bool, ghost timedOut: bool)
      requires Valid() && at == goal && Sleeps(sleeps)
      modifies this
      ensures Valid() && Continues() && Undisturbed(old(State()), State())
      ensures WaitCheck(State(), Holds(goal), stoppable, timedOut) == if ok then Passed else Refused
      ensures exists n :: 0 <= n <= |sleeps| && actions == old(actions) + During(sleeps[..n]) && timedOut == (n == |sleeps|)
    {
      hide Run, Holds;
      assert During(sleeps[..0]) == [] && old(actions) + [] == old(actions);
      for i := 0 to |sleeps|
        invariant Valid() && Continues() && Undisturbed(old(State()), State())
        invariant actions == old(actions) + During(sleeps[..i])
      {
        timedOut := false;
        if (stoppable && (abort || fault)) || !online {
          return false, timedOut;
        }
        if Holds(goal) {
          return true, timedOut;
        }
        Sleep(sleeps[i]);
        DuringOneMore(sleeps, i);
      }
      timedOut := true;
      assert sleeps[..|sleeps|] == sleeps;
      ok := !((stoppable && (abort || fault)) || !online) && Holds(goal);
    }

    method AbortEnabling(ghost timedOut: bool)
      requires Valid() && Enabled(State(), Continue(timedOut))
      requires AbortEnable(State()) == Next(config, State(), Continue(timedOut))
      modifies this
      ensures Valid() && Continues() && State() == AbortEnable(old(State()))
    {
      hide Run, Next, Enabled;
      enabled := false;
      control := OPERATING_MODE;
      at := Idle;
      Record(Continue(timedOut));
    }

    /** The first half of enable(): up to the request for operating mode. */
    method StartEnabling() returns (begun: bool)
      requires Valid() && at == Idle
      modifies this
      ensures Valid() && Continues() && State() == EnableBegin(config, old(State()))
      ensures Begins(old(actions), BeginEnable)
      ensures begun <==> at == ForOperatingMode
      ensures !begun ==> at == Idle && control == old(control) && enabled == old(enabled) && issued == old(issued)
    {
      hide Run, Staged, SlaveLive;
      if !online || !IsLive() {
        Record(BeginEnable);
        return false;
      }
      fault := false;
      if Class1Error(status) {
        Record(BeginEnable);
        return false;
      }
      velocity := Staged(POS_VELOCITY, Min(10.0, config.maxVelocity));
      target := Staged(TARGET_POSITION, Engineering(POSITION, position));
      issued := issued + [Command(target, velocity)];
      control := OPERATING_MODE;
      at := ForOperatingMode;
      Record(BeginEnable);
      begun := true;
    }

    method AwaitOperatingMode(sleeps: seq<seq<Action>>) returns (ok: bool)
      requires Valid() && at == ForOperatingMode && Sleeps(sleeps)
      modifies this
      ensures Valid() && Continues()
      ensures ok ==> at == ForPowerReady
      ensures !ok ==> at == Idle && !enabled && control == OPERATING_MODE
    {
      hide Run, InOperatingMode, Staged, Next, Enabled;
      ghost var timedOut;
      ok, timedOut := WaitFor(ForOperatingMode, true, sleeps);
      Decided(config, State(), timedOut);
      if !ok {
        AbortEnabling(timedOut);
        return;
      }
      at := ForPowerReady;
      Record(Continue(timedOut));
    }

    method AwaitPowerReady(sleeps: seq<seq<Action>>) returns (ok: bool)
      requires Valid() && at == ForPowerReady && Sleeps(sleeps)
      modifies this
      ensures Valid() && Continues()
      ensures ok ==> at == ForTorque && enabled && control == OPERATING_MODE + DRIVE_ON
      ensures !ok ==> at == Idle && !enabled && control == OPERATING_MODE
    {
      hide Run, PowerReady, Staged, Next, Enabled;
      ghost var timedOut;
      ok, timedOut := WaitFor(ForPowerReady, true, sleeps);
      Decided(config, State(), timedOut);
      if !ok {
        AbortEnabling(timedOut);
        return;
      }
      enabled := true;
      control := OPERATING_MODE + DRIVE_ON;
      at := ForTorque;
      Record(Continue(timedOut));
    }

    method AwaitTorque(sleeps: seq<seq<Action>>) returns (ok: bool)
      requires Valid() && at == ForTorque && Sleeps(sleeps) && enabled
      modifies this
      ensures Valid() && Continues()
      ensures ok ==> at == ForFollowing && enabled && control == OPERATING_MODE + DRIVE_ON + DRIVE_START
      ensures !ok ==> at == Idle && !enabled && control == OPERATING_MODE
    {
      hide Run, WithTorque, Staged, Next, Enabled;
      ghost var timedOut;
      ok, timedOut := WaitFor(ForTorque, true, sleeps);
      Decided(config, State(), timedOut);
      if !ok {
        AbortEnabling(timedOut);
        return;
      }
      target := Staged(TARGET_POSITION, Engineering(POSITION, position));
      issued := issued + [Command(target, velocity)];
      control := OPERATING_MODE + DRIVE_ON + DRIVE_START;
      at := ForFollowing;
      Record(Continue(timedOut));
    }

    method AwaitFollowing(sleeps: seq<seq<Action>>) returns (ok: bool)
      requires Valid() && at == ForFollowing && Sleeps(sleeps) && enabled
      modifies this
      ensures Valid() && Continues()
      ensures ok ==> at == Idle && enabled && !fault && control == old(control) && Following(status)
      ensures !ok ==> at == Idle && !enabled && control == OPERATING_MODE
    {
      hide Run, Following, Staged, Next, Enabled;
      ghost var timedOut;
      ok, timedOut := WaitFor(ForFollowing, true, sleeps);
      Decided(config, State(), timedOut);
      if !ok {
        AbortEnabling(timedOut);
        return;
      }
      at := Idle;
      Record(Continue(timedOut));
    }

    /** True only when the drive was left following command values. False leaves it not enabled, or as it
        was: a call that is refused at once stops nothing. */
    method Enable(first: seq<seq<Action>>, second: seq<seq<Action>>, third: seq<seq<Action>>, fourth: seq<seq<Action>>)
      returns (ok: bool)
      requires Valid() && at == Idle && Sleeps(first) && Sleeps(second) && Sleeps(third) && Sleeps(fourth)
      modifies this
      ensures Valid() && Continues() && at == Idle
      ensures ok ==> enabled && !fault && control == OPERATING_MODE + DRIVE_ON + DRIVE_START && Following(status)
      ensures Begins(old(actions), BeginEnable)
      ensures !ok ==> (!enabled && control == OPERATING_MODE)
                      || (control == old(control) && enabled == old(enabled) && issued == old(issued))
    {
      hide Run, Following, EnableBegin;
      ok := StartEnabling();
      if ok {
        ok := AwaitOperatingMode(first);
        if ok {
          ok := AwaitPowerReady(second);
        }
        if ok {
          ok := AwaitTorque(third);
        }
        if ok {
          ok := AwaitFollowing(fourth);
        }
      }
    }

    /** Refused exactly when the drive is not enabled, is faulted, or the command is out of its limits;
        otherwise both values are staged, whatever the poll thread does in between. */
    method MoveTo(position: real, rpm: real, between: seq<Action>) returns (ok: bool)
      requires Valid() && at == Idle && AllBackground(between)
      modifies this
      ensures Valid() && Continues() && at == Idle
      ensures ok <==> MoveAllowed(config, old(State()), position, rpm)
      ensures ok ==> target == Staged(TARGET_POSITION, position) && velocity == Staged(POS_VELOCITY, rpm)
      ensures ok && Representable(position) ==> Abs(target as real * 0.0001 - position) <= 0.00005
      ensures ok && Representable(rpm) ==> Abs(velocity as real * 0.0001 - rpm) <= 0.00005
      ensures ok ==> issued == old(issued) + [Command(target, velocity)]
      ensures !ok ==> State() == old(State())
    {
      hide Run, Staged;
      if Representable(position) {
        StagedNear(TARGET_POSITION, position);
      }
      if Representable(rpm) {
        StagedNear(POS_VELOCITY, rpm);
      }
      if !enabled || fault || position < config.minPosition || position > config.maxPosition
         || !(rpm > 0.0) || rpm > config.maxVelocity {
        return false;
      }
      StageVelocity(position, rpm);
      Sleep(between);
      StageTarget(position);
      ok := true;
    }

    method StageVelocity(ghost position: real, rpm: real)
      requires Valid() && at == Idle && MoveAllowed(config, State(), position, rpm)
      modifies this
      ensures Valid() && Continues() && State() == MoveBegin(config, old(State()), position, rpm)
    {
      hide Run, Staged;
      velocity := Staged(POS_VELOCITY, rpm);
      issued := issued + [Command(Staged(TARGET_POSITION, position), velocity)];
      at := SecondWrite(Staged(TARGET_POSITION, position));
      Record(BeginMove(position, rpm));
    }

    method StageTarget(position: real)
      requires Valid() && at == SecondWrite(Staged(TARGET_POSITION, position))
      modifies this
      ensures Valid() && Continues() && target == Staged(TARGET_POSITION, position)
      ensures at == Idle && velocity == old(velocity) && issued == old(issued)
    {
      hide Run, Staged;
      target := Staged(TARGET_POSITION, position);
      at := Idle;
      Record(Continue(false));
    }

    method HaltDrive()
      requires Valid() && at == Idle
      modifies this
      ensures Valid() && Continues() && State() == Halt(old(State()))
    {
      hide Run;
      if enabled {
        control := OPERATING_MODE + DRIVE_ON;
      }
      Record(CallHalt);
    }

    method ShutdownDrive()
      requires Valid() && at == Idle
      modifies this
      ensures Valid() && Continues() && State() == Shutdown(old(State()))
    {
      hide Run;
      enabled := false;
      control := 0;
      Record(CallShutdown);
    }

    /** The torque-off half of disable(). */
    method RemoveTorque(ghost a: Action, sleeps: seq<seq<Action>>) returns (ok: bool)
      requires Valid() && Enabled(State(), a) && Next(config, State(), a) == TorqueOff(State()) && Sleeps(sleeps)
      modifies this
      ensures Valid() && Continues() && at == Idle && !enabled && (control == OPERATING_MODE || control == 0)
      ensures ok && old(online) ==> !WithTorque(status)
      ensures Begins(old(actions), a)
    {
      hide Run, WithTorque, Next, Enabled;
      enabled := false;
      control := OPERATING_MODE;
      at := if online then ForTorqueOff else Idle;
      Record(a);
      ok := true;
      if online {
        ok := AwaitTorqueOff(sleeps);
      }
    }

    method AwaitTorqueOff(sleeps: seq<seq<Action>>) returns (ok: bool)
      requires Valid() && at == ForTorqueOff && !enabled && Sleeps(sleeps)
      modifies this
      ensures Valid() && Continues() && at == Idle && !enabled && (control == old(control) || control == 0)
      ensures ok ==> !WithTorque(status)
    {
      hide Run, WithTorque, Next, Enabled;
      ghost var timedOut;
      ok, timedOut := WaitFor(ForTorqueOff, false, sleeps);
      Decided(config, State(), timedOut);
      at := Idle;
      Record(Continue(timedOut));
    }

    /** Afterwards the drive is not enabled and Drive On is clear, whether or not the waits succeeded. */
    method Disable(first: seq<seq<Action>>, second: seq<seq<Action>>) returns (ok: bool)
      requires Valid() && at == Idle && Sleeps(first) && Sleeps(second)
      modifies this
      ensures Valid() && Continues() && at == Idle && !enabled && (control == OPERATING_MODE || control == 0)
      ensures Begins(old(actions), BeginDisable)
    {
      hide Run, Standstill, WithTorque;
      if enabled && online {
        control := OPERATING_MODE + DRIVE_ON;
        at := ForStandstill;
        Record(BeginDisable);
        ghost var timedOut;
        ok, timedOut := WaitFor(ForStandstill, false, first);
        var off := RemoveTorque(Continue(timedOut), second);
        ok := off && ok;
      } else {
        ok := RemoveTorque(BeginDisable, second);
      }
    }

    /** The clear-errors bit is pulsed and everything else put back, even over a failed cycle: called with
        Drive On staged, it puts that back too (IndraDriveSafety.ClearIsSafeIff). */
    method ClearDriveErrors(sleeps: seq<seq<Action>>) returns (ok: bool)
      requires Valid() && at == Idle && Sleeps(sleeps)
      modifies this
      ensures Valid() && Continues() && at == Idle && control == WithoutClear(old(control)) && (enabled ==> old(enabled))
      ensures ok ==> !Class1Error(status)
      ensures Begins(old(actions), BeginClear)
    {
      hide Run, Class1Error, WithoutClear;
      ClearBitOnly(control);
      var base := WithoutClear(control);
      control := base + CLEAR_ERRORS;
      at := ForNoError(base);
      Record(BeginClear);
      ok := AwaitNoError(base, sleeps);
    }

    method AwaitNoError(base: Word, sleeps: seq<seq<Action>>) returns (ok: bool)
      requires Valid() && at == ForNoError(base) && Sleeps(sleeps)
      modifies this
      ensures Valid() && Continues() && at == Idle && control == base && (enabled ==> old(enabled))
      ensures ok ==> !Class1Error(status)
    {
      hide Run, Class1Error, Next, Enabled;
      ghost var timedOut;
      ok, timedOut := WaitFor(ForNoError(base), true, sleeps);
      Decided(config, State(), timedOut);
      control := base;
      at := Idle;
      Record(Continue(timedOut));
    }
  }

  lemma DuringOneMore(sleeps: seq<seq<Action>>, i: nat)
    requires i < |sleeps|
    ensures During(sleeps[..i + 1]) == During(sleeps[..i]) + sleeps[i]
    ensures forall before: seq<Action> :: before + During(sleeps[..i + 1]) == (before + During(sleeps[..i])) + sleeps[i]
  {
    assert sleeps[..i + 1][..i] == sleeps[..i];
  }

  lemma Decided(c: Config, d: Drive, timedOut: bool)
    requires d.at != Idle
    ensures Enabled(d, Continue(timedOut)) && Next(c, d, Continue(timedOut)) == Resume(d, timedOut)
  {}
}
