/** What the drive layer keeps through every interleaving of poll cycles and commands: after a fault no
    run command reaches the wire until a new enable() has seen the drive ready, and no target is ever
    sent with an older velocity. */
module IndraDriveSafety {
  import opened Options
  import opened Bytes
  import opened Tags
  import opened IndraDrive

  // ---------------------------------------------------------------- the invariant

  /** Drive On staged implies enabled, and enabled implies not faulted. */
  predicate Safe(control: Word, enabled: bool, fault: bool, at: Waiting) {
    && (HasOn(control) ==> enabled)
    && (HasStart(control) ==> HasOn(control))
    && (enabled ==> !fault)
    && (at == ForTorque || at == ForFollowing ==> enabled || fault)
    && (at.ForNoError? ==> !HasOn(at.base) && !HasStart(at.base))
  }

  predicate SafeDrive(d: Drive) { Safe(d.control, d.enabled, d.fault, d.at) }

  lemma ControlWords()
    ensures !HasOn(OPERATING_MODE) && !HasStart(OPERATING_MODE) && !HasOn(0) && !HasStart(0)
    ensures HasOn(OPERATING_MODE + DRIVE_ON) && !HasStart(OPERATING_MODE + DRIVE_ON)
    ensures HasOn(OPERATING_MODE + DRIVE_ON + DRIVE_START) && HasStart(OPERATING_MODE + DRIVE_ON + DRIVE_START)
  {}

  lemma ClearBitOnly(control: Word)
    ensures WithoutClear(control) + CLEAR_ERRORS < 65536
    ensures HasOn(WithoutClear(control)) == HasOn(WithoutClear(control) + CLEAR_ERRORS) == HasOn(control)
    ensures HasStart(WithoutClear(control)) == HasStart(WithoutClear(control) + CLEAR_ERRORS) == HasStart(control)
  {}

  lemma StepKeepsSafe(c: Config, d: Drive, a: Action)
    requires SafeDrive(d) && Enabled(d, a) && (a == BeginClear ==> !HasOn(d.control))
    ensures SafeDrive(Next(c, d, a))
  {
    ControlWords();
    ClearBitOnly(d.control);
    hide HasOn, HasStart, WithoutClear, SlaveLive, Staged;
    match a
    case Poll(cycle) =>
    case Continue(timedOut) => ResumeKeepsSafe(d, timedOut);
    case _ =>
  }

  lemma ResumeKeepsSafe(d: Drive, timedOut: bool)
    requires SafeDrive(d)
    ensures SafeDrive(Resume(d, timedOut))
  {
    ControlWords();
    hide HasOn, HasStart, Staged;
    match d.at
    case Idle =>
    case ForOperatingMode =>
    case ForPowerReady =>
    case ForTorque =>
    case ForFollowing =>
    case ForStandstill =>
    case ForTorqueOff =>
    case ForNoError(base) =>
    case SecondWrite(next) =>
  }

  /** clear_errors() is never called with Drive On staged, up to step i. It puts back the control word it
      found, so such a call is unsafe: see ClearIsSafeIff. */
  ghost predicate ClearsWhileOff(states: seq<Drive>, actions: seq<Action>, i: nat)
    requires i <= |actions| && i <= |states|
  {
    forall n | 0 <= n < i && actions[n] == BeginClear :: !HasOn(states[n].control)
  }

  lemma {:induction false} RunKeepsSafe(c: Config, states: seq<Drive>, actions: seq<Action>, i: nat)
    requires Run(c, states, actions) && i < |states| && ClearsWhileOff(states, actions, i)
    ensures SafeDrive(states[i])
  {
    if i > 0 {
      RunKeepsSafe(c, states, actions, i - 1);
      StepKeepsSafe(c, states[i - 1], actions[i - 1]);
    }
  }

  lemma RunStep(c: Config, states: seq<Drive>, actions: seq<Action>, i: nat)
    requires Run(c, states, actions) && i < |actions|
    ensures Enabled(states[i], actions[i]) && states[i + 1] == Next(c, states[i], actions[i])
  {}

  // ---------------------------------------------------------------- where each state came from

  /** The wait check that passes at this step. */
  predicate Sees(d: Drive, a: Action, at: Waiting, holds: bool) {
    a.Continue? && d.at == at && holds && d.online && !d.fault && !d.abort
  }

  lemma EnabledStep(c: Config, d: Drive, a: Action)
    requires Enabled(d, a) && !d.enabled && Next(c, d, a).enabled
    ensures Sees(d, a, ForPowerReady, PowerReady(d.status))
  {
    hide HasOn, HasStart, SlaveLive, Staged;
    match a
    case Continue(_) =>
      match d.at {
        case Idle => case ForOperatingMode => case ForPowerReady => case ForTorque => case ForFollowing =>
        case ForStandstill => case ForTorqueOff => case ForNoError(_) => case SecondWrite(_) =>
      }
    case _ =>
  }

  /** An enabled drive was enabled by a wait that saw the power section ready. */
  lemma {:induction false} EnabledSince(c: Config, states: seq<Drive>, actions: seq<Action>, j: nat) returns (k: nat)
    requires Run(c, states, actions) && j < |states| && states[j].enabled
    ensures k < j && Sees(states[k], actions[k], ForPowerReady, PowerReady(states[k].status))
    ensures forall n | k < n <= j :: states[n].enabled
    decreases j
  {
    hide Run, Next, Enabled, Sees;
    RunShape(c, states, actions);
    RunStep(c, states, actions, j - 1);
    if states[j - 1].enabled {
      k := EnabledSince(c, states, actions, j - 1);
    } else {
      EnabledStep(c, states[j - 1], actions[j - 1]);
      k := j - 1;
    }
  }

  lemma RunShape(c: Config, states: seq<Drive>, actions: seq<Action>)
    requires Run(c, states, actions)
    ensures |states| == |actions| + 1 && states[0] == FRESH
  {}

  /** Which step enters a waiting state. */
  lemma EntryStep(c: Config, d: Drive, a: Action)
    requires Enabled(d, a) && d.at != Next(c, d, a).at
    ensures Next(c, d, a).at == ForOperatingMode ==> a == BeginEnable
    ensures Next(c, d, a).at == ForPowerReady ==> Sees(d, a, ForOperatingMode, InOperatingMode(d.status))
    ensures Next(c, d, a).at == ForTorque ==> Sees(d, a, ForPowerReady, PowerReady(d.status))
  {
    hide HasOn, HasStart, SlaveLive, Staged;
    match a
    case Continue(_) =>
      match d.at {
        case Idle => case ForOperatingMode => case ForPowerReady => case ForTorque => case ForFollowing =>
        case ForStandstill => case ForTorqueOff => case ForNoError(_) => case SecondWrite(_) =>
      }
    case _ =>
  }

  /** Go back to the step that entered the waiting state of step j. */
  lemma {:induction false} WaitingSince(c: Config, states: seq<Drive>, actions: seq<Action>, j: nat) returns (k: nat)
    requires Run(c, states, actions) && j < |states| && states[j].at != Idle
    ensures k < j && states[k].at != states[j].at
    ensures forall n | k < n <= j :: states[n].at == states[j].at
    decreases j
  {
    RunShape(c, states, actions);
    if states[j - 1].at == states[j].at {
      k := WaitingSince(c, states, actions, j - 1);
    } else {
      k := j - 1;
    }
  }

  /** enable() reached the wait for power ready: it began at `a` and saw operating mode at `b`. */
  lemma EnableCall(c: Config, states: seq<Drive>, actions: seq<Action>, j: nat) returns (a: nat, b: nat)
    requires Run(c, states, actions) && j < |states| && states[j].at == ForPowerReady
    ensures a < b < j && actions[a] == BeginEnable
    ensures Sees(states[b], actions[b], ForOperatingMode, InOperatingMode(states[b].status))
    ensures forall n | a < n <= j :: states[n].at != Idle
  {
    hide Run, Next, Enabled;
    RunShape(c, states, actions);
    b := WaitingSince(c, states, actions, j);
    RunStep(c, states, actions, b);
    EntryStep(c, states[b], actions[b]);
    a := WaitingSince(c, states, actions, b);
    RunStep(c, states, actions, a);
    EntryStep(c, states[a], actions[a]);
  }

  // ---------------------------------------------------------------- after a fault

  lemma FaultStep(c: Config, d: Drive, a: Action)
    requires d.fault && a != BeginEnable
    ensures Next(c, d, a).fault
  {
    hide HasOn, HasStart, SlaveLive, Staged;
    match a
    case Continue(_) =>
      match d.at {
        case Idle => case ForOperatingMode => case ForPowerReady => case ForTorque => case ForFollowing =>
        case ForStandstill => case ForTorqueOff => case ForNoError(_) => case SecondWrite(_) =>
      }
    case _ =>
  }

  lemma {:induction false} FaultSticks(c: Config, states: seq<Drive>, actions: seq<Action>, i: nat, k: nat)
    requires Run(c, states, actions) && i <= k < |states| && states[i].fault
    requires forall n | i <= n < k :: actions[n] != BeginEnable
    ensures states[k].fault
  {
    if i < k {
      FaultSticks(c, states, actions, i, k - 1);
      RunStep(c, states, actions, k - 1);
      FaultStep(c, states[k - 1], actions[k - 1]);
    }
  }

  lemma LatchedStep(c: Config, d: Drive, cycle: Cycle)
    requires Latches(c, d, cycle)
    ensures !PollCycle(c, d, cycle).enabled && PollCycle(c, d, cycle).fault && PollCycle(c, d, cycle).control == 0
  {}

  /** After a fault is latched at step i, every control word sent has Drive On and Drive Start clear,
      across any failed cycles and reconnects, until a new enable(), begun after the fault, has itself
      seen operating mode and power ready, in that order and in the same call. */
  lemma NoRunCommandAfterFault(c: Config, states: seq<Drive>, actions: seq<Action>, i: nat, j: nat, control: Word)
    returns (a: nat, b: nat, k: nat)
    requires Run(c, states, actions) && i < j < |actions| && ClearsWhileOff(states, actions, j)
    requires actions[i].Poll? && Latches(c, states[i], actions[i].cycle)
    requires Flushes(states, actions, j, control) && (HasOn(control) || HasStart(control))
    ensures i < a < b < k < j && actions[a] == BeginEnable
    ensures Sees(states[b], actions[b], ForOperatingMode, InOperatingMode(states[b].status))
    ensures Sees(states[k], actions[k], ForPowerReady, PowerReady(states[k].status))
    ensures forall n | a < n <= k :: states[n].at != Idle
  {
    RunStep(c, states, actions, i);
    LatchedStep(c, states[i], actions[i].cycle);
    RunKeepsSafe(c, states, actions, j);
    k := EnabledSince(c, states, actions, j);
    a, b := EnableCall(c, states, actions, k);
    if a <= i {
      forall n | i < n < k ensures actions[n] != BeginEnable {
        RunStep(c, states, actions, n);
      }
      FaultSticks(c, states, actions, i + 1, k);
      assert false;
    }
  }

  lemma FailedStep(c: Config, d: Drive, cycle: Cycle)
    requires cycle.Failed?
    ensures !PollCycle(c, d, cycle).enabled && PollCycle(c, d, cycle).control == 0
  {}

  /** A reconnect never sends the last run command: after any failed cycle, a run command on the wire
      was staged by a wait that has since seen the power section ready. */
  lemma ReconnectNeverRestarts(c: Config, states: seq<Drive>, actions: seq<Action>, i: nat, j: nat, control: Word)
    returns (k: nat)
    requires Run(c, states, actions) && i < j < |actions| && ClearsWhileOff(states, actions, j)
    requires actions[i].Poll? && actions[i].cycle.Failed?
    requires Flushes(states, actions, j, control) && (HasOn(control) || HasStart(control))
    ensures i < k < j && Sees(states[k], actions[k], ForPowerReady, PowerReady(states[k].status))
  {
    RunStep(c, states, actions, i);
    FailedStep(c, states[i], actions[i].cycle);
    RunKeepsSafe(c, states, actions, j);
    k := EnabledSince(c, states, actions, j);
  }

  // ---------------------------------------------------------------- Drive Start

  lemma StartStep(c: Config, d: Drive, a: Action)
    requires SafeDrive(d) && Enabled(d, a) && !HasStart(d.control) && HasStart(Next(c, d, a).control)
    ensures Sees(d, a, ForTorque, WithTorque(d.status)) && Next(c, d, a) == Repark(d)
  {
    ControlWords();
    ClearBitOnly(d.control);
    hide HasOn, HasStart, WithoutClear, SlaveLive, Staged;
    match a
    case Continue(_) =>
      match d.at {
        case Idle => case ForOperatingMode => case ForPowerReady => case ForTorque => case ForFollowing =>
        case ForStandstill => case ForTorqueOff => case ForNoError(_) => case SecondWrite(_) =>
      }
    case _ =>
  }

  lemma {:induction false} StartSince(c: Config, states: seq<Drive>, actions: seq<Action>, j: nat) returns (k: nat)
    requires Run(c, states, actions) && j < |states| && ClearsWhileOff(states, actions, j)
    requires HasStart(states[j].control)
    ensures k < j && Sees(states[k], actions[k], ForTorque, WithTorque(states[k].status))
    ensures !HasStart(states[k].control) && states[k + 1] == Repark(states[k])
    ensures forall n | k < n <= j :: HasStart(states[n].control)
    decreases j
  {
    hide Run, Next, Enabled, Sees, HasOn, HasStart, Repark;
    RunShape(c, states, actions);
    ControlWords();
    RunStep(c, states, actions, j - 1);
    if HasStart(states[j - 1].control) {
      k := StartSince(c, states, actions, j - 1);
    } else {
      RunKeepsSafe(c, states, actions, j - 1);
      StartStep(c, states[j - 1], actions[j - 1]);
      k := j - 1;
    }
  }

  /** A scaled write of a scaled read stages the very same integer. */
  lemma ParkedOnPosition(d: Drive)
    ensures ParkedTarget(d) == d.position
  {
    RawOfEngineering(TARGET_POSITION, d.position);
    WrappedMeaning(I32, d.position);
    assert Engineering(POSITION, d.position) == Engineering(TARGET_POSITION, d.position);
  }

  /** In bytes: the target field of the outputs becomes the position field of the inputs. */
  lemma ParkedBytes(inputs: seq<Byte>, outputs: seq<Byte>)
    requires ReadScaled(inputs, POSITION).Ok? && Fits(|outputs|, TARGET_POSITION)
    ensures var r := WriteScaled(outputs, TARGET_POSITION, ReadScaled(inputs, POSITION).value);
      r.Ok? && Field(r.value, TARGET_POSITION) == Field(inputs, POSITION)
  {
    hide Rounded, RawValue;
    var raw := ReadTag(inputs, POSITION).value;
    RawOfEngineering(TARGET_POSITION, raw);
    GetThenSet(inputs, POSITION);
    var written := WriteTag(inputs, POSITION, raw).value;
    assert Field(written, POSITION) == Encoded(POSITION, raw);
    var staged := WriteTag(outputs, TARGET_POSITION, raw).value;
    assert Field(staged, TARGET_POSITION) == Encoded(TARGET_POSITION, raw);
  }

  /** Drive Start is staged only by an enable() call that has seen operating mode, power ready and
      torque, in that order, and together with a target equal to the position read once torque was on. */
  lemma StartNeedsTorque(c: Config, states: seq<Drive>, actions: seq<Action>, j: nat)
    returns (a: nat, b: nat, k: nat, t: nat)
    requires Run(c, states, actions) && j < |states| && ClearsWhileOff(states, actions, j)
    requires HasStart(states[j].control)
    ensures a < b < k < t < j && actions[a] == BeginEnable && forall n | a < n <= t :: states[n].at != Idle
    ensures Sees(states[b], actions[b], ForOperatingMode, InOperatingMode(states[b].status))
    ensures Sees(states[k], actions[k], ForPowerReady, PowerReady(states[k].status))
    ensures Sees(states[t], actions[t], ForTorque, WithTorque(states[t].status))
    ensures !HasStart(states[t].control)
    ensures states[t + 1].target == states[t].position
    ensures forall n | t < n <= j :: HasStart(states[n].control)
  {
    hide Run, Next, Enabled, HasStart, InOperatingMode, PowerReady, WithTorque;
    RunShape(c, states, actions);
    t := StartSince(c, states, actions, j);
    ParkedOnPosition(states[t]);
    k := WaitingSince(c, states, actions, t);
    RunStep(c, states, actions, k);
    EntryStep(c, states[k], actions[k]);
    a, b := EnableCall(c, states, actions, k);
  }

  // ---------------------------------------------------------------- clear_errors() on a running drive

  /** Whatever the next cycle brings, giving up the wait for the errors to clear leaves the drive safe
      exactly when Drive On was not staged at the call. */
  lemma ClearIsSafeIff(c: Config, d: Drive)
    requires SafeDrive(d) && d.at == Idle
    ensures (forall cycle: Cycle :: SafeDrive(Resume(PollCycle(c, ClearBegin(d), cycle), true))) <==> !HasOn(d.control)
  {
    ClearBitOnly(d.control);
    if HasOn(d.control) {
      RestoredAfterLatch(c, d);
    } else {
      forall cycle: Cycle ensures SafeDrive(Resume(PollCycle(c, ClearBegin(d), cycle), true)) {
        StepKeepsSafe(c, d, BeginClear);
        StepKeepsSafe(c, ClearBegin(d), Poll(cycle));
        ResumeKeepsSafe(PollCycle(c, ClearBegin(d), cycle), true);
      }
    }
  }

  /** The link fails during the wait: the fault is latched and the control word dropped, then the call puts
      the run command back. */
  lemma RestoredAfterLatch(c: Config, d: Drive)
    requires SafeDrive(d) && d.at == Idle && HasOn(d.control)
    ensures Latches(c, ClearBegin(d), Failed(false, None))
    ensures var e := Resume(PollCycle(c, ClearBegin(d), Failed(false, None)), true);
      e.fault && !e.enabled && HasOn(e.control) && e.at == Idle
  {
    ClearBitOnly(d.control);
    hide HasOn, HasStart, WithoutClear, SlaveLive;
  }

  const LIVE: Cycle := Succeeded(0xC002, 0, [3, 256])

  lemma LiveStatus()
    ensures InOperatingMode(0xC002) && PowerReady(0xC002) && WithTorque(0xC002) && Following(0xC002)
    ensures !Class1Error(0xC002) && SlaveLive(0, true, [3, 256])
  {
    assert BitOf(1, 0);
  }

  /** An ordinary run: one good cycle, then enable() finds every status bit as it wants it. */
  lemma EnabledRun(c: Config) returns (states: seq<Drive>, actions: seq<Action>)
    requires c.address == 0
    ensures Run(c, states, actions) && |actions| == 6 && states[6].at == Idle
    ensures states[6].enabled && !states[6].fault && states[6].control == OPERATING_MODE + DRIVE_ON + DRIVE_START
    ensures forall n | 0 <= n < 6 :: actions[n] != BeginClear
  {
    LiveStatus();
    hide InOperatingMode, PowerReady, WithTorque, Following, Class1Error, SlaveLive, Staged;
    var s1 := Next(c, FRESH, Poll(LIVE));
    var s2 := Next(c, s1, BeginEnable);
    var s3 := Next(c, s2, Continue(false));
    var s4 := Next(c, s3, Continue(false));
    var s5 := Next(c, s4, Continue(false));
    var s6 := Next(c, s5, Continue(false));
    states := [FRESH, s1, s2, s3, s4, s5, s6];
    actions := [Poll(LIVE), BeginEnable, Continue(false), Continue(false), Continue(false), Continue(false)];
  }

  /** Such a run, clear_errors() called on the running drive, and a link that fails during its wait: the run
      command is on the wire again after the fault, with no enable() in between. */
  lemma ClearWhileRunningRestarts(c: Config) returns (states: seq<Drive>, actions: seq<Action>)
    requires c.address == 0
    ensures Run(c, states, actions) && |actions| == 10 && actions[6] == BeginClear
    ensures actions[7].Poll? && Latches(c, states[7], actions[7].cycle)
    ensures HasOn(states[9].control) && Flushes(states, actions, 9, states[9].control)
    ensures forall n | 7 <= n < 10 :: actions[n] != BeginEnable
  {
    states, actions := EnabledRun(c);
    RunKeepsSafe(c, states, actions, 6);
    ControlWords();
    RestoredAfterLatch(c, states[6]);
    hide HasOn, HasStart, WithoutClear, SlaveLive, LatchFault;
    states, actions := Extend(c, states, actions, BeginClear);
    states, actions := Extend(c, states, actions, Poll(Failed(false, None)));
    states, actions := Extend(c, states, actions, Continue(true));
    states, actions := Extend(c, states, actions, Poll(LIVE));
  }

  lemma Extend(c: Config, states: seq<Drive>, actions: seq<Action>, a: Action) returns (longer: seq<Drive>, more: seq<Action>)
    requires Run(c, states, actions) && Enabled(states[|actions|], a)
    ensures longer == states + [Next(c, states[|actions|], a)] && more == actions + [a] && Run(c, longer, more)
  {
    longer, more := states + [Next(c, states[|actions|], a)], actions + [a];
  }

  // ---------------------------------------------------------------- target and velocity pairs

  /** The staged velocity is the newest command's; the staged target too, except between the two
      writes of a move, when it is the command's before. */
  predicate Paired(target: Int32, velocity: Int32, at: Waiting, issued: seq<Command>) {
    var n := |issued| - 1;
    && n >= 0 && velocity == issued[n].velocity
    && (if at.SecondWrite? then n >= 1 && target == issued[n - 1].target && at.next == issued[n].target
        else target == issued[n].target)
  }

  lemma StepKeepsPaired(c: Config, d: Drive, a: Action)
    requires Paired(d.target, d.velocity, d.at, d.issued) && Enabled(d, a)
    ensures var e := Next(c, d, a); Paired(e.target, e.velocity, e.at, e.issued)
  {
    hide HasOn, HasStart, WithoutClear, SlaveLive, Staged;
    match a
    case BeginEnable =>
    case BeginMove(_, _) =>
    case Continue(timedOut) => ResumeKeepsPaired(d, timedOut);
    case _ =>
  }

  lemma ResumeKeepsPaired(d: Drive, timedOut: bool)
    requires Paired(d.target, d.velocity, d.at, d.issued)
    ensures var e := Resume(d, timedOut); Paired(e.target, e.velocity, e.at, e.issued)
  {
    hide HasOn, HasStart, Staged, WaitCheck;
    match d.at
    case ForTorque =>
    case SecondWrite(_) =>
    case _ =>
  }

  lemma {:induction false} RunKeepsPaired(c: Config, states: seq<Drive>, actions: seq<Action>, i: nat)
    requires Run(c, states, actions) && i < |states|
    ensures Paired(states[i].target, states[i].velocity, states[i].at, states[i].issued)
  {
    if i > 0 {
      RunKeepsPaired(c, states, actions, i - 1);
      RunStep(c, states, actions, i - 1);
      StepKeepsPaired(c, states[i - 1], actions[i - 1]);
    }
  }

  /** Every staged image pairs the target of command k with the velocity of command k or k + 1, and
      nothing newer has been issued: a new target never goes out with an older velocity. */
  lemma TargetNeverOutrunsVelocity(c: Config, states: seq<Drive>, actions: seq<Action>, j: nat) returns (k: nat)
    requires Run(c, states, actions) && j < |states|
    ensures var issued := states[j].issued;
      && |issued| <= k + 2 && k < |issued| && states[j].target == issued[k].target
      && states[j].velocity == issued[|issued| - 1].velocity
  {
    RunKeepsPaired(c, states, actions, j);
    k := |states[j].issued| - if states[j].at.SecondWrite? then 2 else 1;
  }

  // ---------------------------------------------------------------- the live list

  /** The live-list bit is the one of byte 2 + address / 8 of the gateway's status area. */
  lemma LiveListBit(address: nat, registers: seq<Word>)
    requires registers != [] && registers[0] % 4 == 3
    ensures var bytes := RegisterBytes(registers);
      SlaveLive(address, true, registers) <==> 2 + address / 8 < |bytes| && BitOf(bytes[2 + address / 8], address % 8)
  {}
}
