/** What holds of the bridge in every reachable state: no goal is ever lost track of, a stop always
    takes effect, and neither Stopping nor an unattended wave lasts. */
module BridgeSafety {
  import opened Options
  import opened Bridge

  // ---------------------------------------------------------------- the invariant

  predicate PhaseInv(phase: Phase, requested: bool, handle: Option<nat>, cancelOnAccept: bool, generation: nat,
                     stopDue: Option<real>) {
    && (phase == Stopping <==> stopDue.Some?)
    && (requested ==> phase == Starting || cancelOnAccept)
    && (phase == Starting ==> requested || handle == Some(generation))
    && (phase == Stopping ==> requested || handle.Some?)
    && (phase == Running ==> handle == Some(generation))
    && (requested ==> handle != Some(generation))
  }

  predicate OwnInv(c: Core) {
    && (c.requested <==> c.generation in c.goals && c.goals[c.generation].answer == Unanswered)
    && (c.handle.Some? ==> c.handle.value in c.goals && c.goals[c.handle.value].answer == Accepted)
    && (c.handle.Some? && c.handle.value != c.generation ==> c.goals[c.handle.value].cancelSent)
    && (c.handle == Some(c.generation) && c.phase != Running ==> c.goals[c.generation].cancelSent)
    && (c.phase == Running ==> c.generation in c.goals && !c.goals[c.generation].stopped)
    && (c.requested && c.goals[c.generation].stopped ==> c.cancelOnAccept)
  }

  /** Every goal the bridge ever sent is in one of these cases. */
  predicate Accounted(c: Core, g: nat)
    requires g in c.goals
  {
    var goal := c.goals[g];
    || (g == c.generation && (c.requested || c.handle == Some(g)))
    || goal.ended
    || goal.answer == Rejected
    || goal.cancelSent
    || goal.unreachable
    || WillBeCancelled(c, g)
  }

  /** Still unanswered, and an acceptance would be answered with a cancel. */
  predicate WillBeCancelled(c: Core, g: nat)
    requires g in c.goals
  {
    c.goals[g].answer == Unanswered && (g != c.generation || c.cancelOnAccept)
  }

  ghost predicate GoalsInv(c: Core) {
    forall g | g in c.goals :: g <= c.generation && Accounted(c, g)
  }

  ghost predicate Inv(c: Core) {
    && PhaseInv(c.phase, c.requested, c.handle, c.cancelOnAccept, c.generation, c.stopDue)
    && OwnInv(c)
    && GoalsInv(c)
  }

  // ---------------------------------------------------------------- every callback keeps it

  lemma StartKeeps(c: Core, now: real, timeout: real, valuesOk: bool, serverReady: bool)
    requires Inv(c)
    ensures Inv(Start(c, now, timeout, valuesOk, serverReady))
  {}

  lemma AbandonKeeps(c: Core, d: Core, unreachable: bool)
    requires Inv(c) && d == c.(cancelOnAccept := d.cancelOnAccept, phase := d.phase, goals := d.goals, stopDue := d.stopDue)
    requires d.goals.Keys == c.goals.Keys && forall g | g in c.goals :: d.goals[g] == c.goals[g].(stopped := d.goals[g].stopped)
    requires !unreachable && c.handle == Some(c.generation) ==> c.phase != Running
    ensures Inv(Abandon(d, unreachable))
  {}

  lemma StopKeeps(c: Core, now: real, serverReady: bool)
    requires Inv(c)
    ensures Inv(Stop(c, now, serverReady))
  {
    if !c.hasClient || !serverReady {
      if Ours(c) {
        AbandonKeeps(c, StopRequested(c, now), true);
      }
    } else {
      CancelKeeps(c, now);
    }
  }

  lemma CancelKeeps(c: Core, now: real)
    requires Inv(c)
    ensures var d := StopRequested(c, now); Inv(d.(goals := CancelAll(d.goals)))
  {}

  lemma ResponseKeeps(c: Core, g: nat, accepted: bool)
    requires Inv(c) && g in c.goals && c.goals[g].answer == Unanswered
    ensures Inv(OnGoalResponse(c, g, accepted))
  {}

  lemma ResultKeeps(c: Core, g: nat)
    requires Inv(c) && g in c.goals && c.goals[g].answer == Accepted
    ensures Inv(OnGoalResult(c, g))
  {}

  lemma LeaveKeeps(c: Core, now: real, serverReady: bool)
    requires Inv(c)
    ensures Inv(Leave(c, now, serverReady))
  {
    StopKeeps(c, now, serverReady);
    AfterStop(c, now, serverReady);
  }

  /** A stop leaves the bridge's own goal cancelled, cancelled on acceptance, or given up. */
  lemma AfterStop(c: Core, now: real, serverReady: bool)
    requires Inv(c)
    ensures var d := Stop(c, now, serverReady);
      && (d.requested ==> d.cancelOnAccept)
      && d.phase != Starting && d.phase != Running
  {}

  lemma StepKeepsInv(c: Core, e: Event, now: real, timeout: real)
    requires Inv(c) && Enabled(c, e, now)
    ensures Inv(Next(c, e, now, timeout))
  {
    match e
    case StartCommand(valuesOk, serverReady) => StartKeeps(c, now, timeout, valuesOk, serverReady);
    case StopCommand(serverReady) => StopKeeps(c, now, serverReady);
    case GoalResponse(g, accepted) => ResponseKeeps(c, g, accepted);
    case GoalResult(g) => ResultKeeps(c, g);
    case WatchTick(serverReady) => StopKeeps(c.(lastWatch := now), now, serverReady);
    case Heartbeat =>
    case StopTimer => AbandonKeeps(c, c, false);
    case ConfigureNode =>
    case ActivateNode =>
    case DeactivateNode(serverReady) => LeaveKeeps(c, now, serverReady);
    case CleanupNode =>
  }

  lemma {:induction false} RunKeepsInv(states: seq<Core>, events: seq<Event>, times: seq<real>, timeout: real, i: nat)
    requires Run(states, events, times, timeout) && i < |states|
    ensures Inv(states[i])
  {
    if i > 0 {
      RunKeepsInv(states, events, times, timeout, i - 1);
      StepKeepsInv(states[i - 1], events[i - 1], times[i - 1], timeout);
    }
  }

  // ---------------------------------------------------------------- no goal is lost

  /** Every goal ever sent is, at every moment, the current one, ended or rejected, already sent a
      cancel, given up because the server was unreachable at the stop, or still unanswered and certain
      to be cancelled should its acceptance arrive. */
  lemma EveryGoalAccounted(states: seq<Core>, events: seq<Event>, times: seq<real>, timeout: real, i: nat, g: nat)
    requires Run(states, events, times, timeout) && i < |states| && g in states[i].goals
    ensures Accounted(states[i], g)
  {
    RunKeepsInv(states, events, times, timeout, i);
  }

  /** The last case means what it says: the acceptance is answered with a cancel at once. */
  lemma LateAcceptanceIsCancelled(c: Core, g: nat)
    requires Inv(c) && g in c.goals && WillBeCancelled(c, g)
    ensures OnGoalResponse(c, g, true).goals[g].cancelSent
    ensures OnGoalResponse(c, g, true).phase != Running || c.phase == Running
  {}

  lemma StoppedStep(c: Core, e: Event, now: real, timeout: real, g: nat)
    requires Inv(c) && Enabled(c, e, now) && g in c.goals && c.goals[g].stopped
    ensures var d := Next(c, e, now, timeout); g in d.goals && d.goals[g].stopped
  {
    match e
    case StopCommand(serverReady) => StopMarks(c, now, serverReady, g);
    case WatchTick(serverReady) => StopMarks(c.(lastWatch := now), now, serverReady, g);
    case DeactivateNode(serverReady) => StopMarks(c, now, serverReady, g);
    case _ =>
  }

  lemma StopMarks(c: Core, now: real, serverReady: bool, g: nat)
    requires g in c.goals
    ensures var d := Stop(c, now, serverReady);
      g in d.goals && (c.goals[g].stopped || Own(c, g) ==> d.goals[g].stopped)
  {}

  lemma {:induction false} StaysStopped(states: seq<Core>, events: seq<Event>, times: seq<real>, timeout: real,
                                        i: nat, j: nat, g: nat)
    requires Run(states, events, times, timeout) && i <= j < |states|
    requires g in states[i].goals && states[i].goals[g].stopped
    ensures g in states[j].goals && states[j].goals[g].stopped
  {
    if i < j {
      StaysStopped(states, events, times, timeout, i, j - 1, g);
      RunKeepsInv(states, events, times, timeout, j - 1);
      StoppedStep(states[j - 1], events[j - 1], times[j - 1], timeout, g);
    }
  }

  predicate IsStop(c: Core, e: Event, now: real, timeout: real) {
    e.StopCommand? || e.DeactivateNode?
    || (e.WatchTick? && (c.phase == Starting || c.phase == Running) && !Alive(c, now, timeout))
  }

  /** A stop issued while a goal is starting (or running) is final: that goal never reaches Running
      afterwards, whatever order the server's replies take. */
  lemma StopIsFinal(states: seq<Core>, events: seq<Event>, times: seq<real>, timeout: real, i: nat, j: nat)
    requires Run(states, events, times, timeout) && i < j < |states|
    requires states[i].phase == Starting || states[i].phase == Running
    requires IsStop(states[i], events[i], times[i], timeout)
    ensures states[j].phase == Running ==> states[j].generation != states[i].generation
  {
    var c, g := states[i], states[i].generation;
    RunKeepsInv(states, events, times, timeout, i);
    RunKeepsInv(states, events, times, timeout, j);
    var e := events[i];
    assert Own(c, g);
    StopMarks(c, times[i], e.serverReady, g);
    StopMarks(c.(lastWatch := times[i]), times[i], e.serverReady, g);
    StaysStopped(states, events, times, timeout, i + 1, j, g);
  }

  // ---------------------------------------------------------------- what an accepted goal becomes

  /** The goal sent with this cancel flag still waits for its answer, or has had it. */
  predicate Awaiting(c: Core, g: nat, cancel: bool) {
    && g in c.goals
    && (c.goals[g].answer != Unanswered
        || (c.phase == Starting && c.requested && c.generation == g && c.cancelOnAccept == cancel))
  }

  lemma AwaitingStep(c: Core, e: Event, now: real, timeout: real, g: nat, cancel: bool)
    requires Inv(c) && Enabled(c, e, now) && Awaiting(c, g, cancel) && !IsStop(c, e, now, timeout)
    ensures Awaiting(Next(c, e, now, timeout), g, cancel)
  {
    match e
    case StopTimer => AnswerStays(c, g);
    case StartCommand(_, _) =>
    case GoalResponse(_, _) =>
    case GoalResult(_) =>
    case WatchTick(serverReady) => WatchAnswers(c, now, timeout, serverReady, g);
    case _ =>
  }

  lemma AnswerStays(c: Core, g: nat)
    requires g in c.goals
    ensures g in Abandon(c, false).goals && Abandon(c, false).goals[g] == c.goals[g]
  {}

  lemma WatchAnswers(c: Core, now: real, timeout: real, serverReady: bool, g: nat)
    requires g in c.goals
    ensures var d := Watch(c, now, timeout, serverReady); g in d.goals && d.goals[g].answer == c.goals[g].answer
  {}

  lemma {:induction false} AwaitingRun(states: seq<Core>, events: seq<Event>, times: seq<real>, timeout: real,
                                       i: nat, k: nat, g: nat, cancel: bool)
    requires Run(states, events, times, timeout) && i <= k < |states| && Awaiting(states[i], g, cancel)
    requires forall n | i <= n < k :: !IsStop(states[n], events[n], times[n], timeout)
    ensures Awaiting(states[k], g, cancel)
  {
    hide Run, IsStop, Awaiting, Inv, Enabled, Next;
    if i < k {
      RunShape(states, events, times, timeout);
      AwaitingRun(states, events, times, timeout, i, k - 1, g, cancel);
      RunStep(states, events, times, timeout, k - 1);
      AwaitingStep(states[k - 1], events[k - 1], times[k - 1], timeout, g, cancel);
    }
  }

  lemma RunShape(states: seq<Core>, events: seq<Event>, times: seq<real>, timeout: real)
    requires Run(states, events, times, timeout)
    ensures |states| == |events| + 1 == |times| + 1
  {}

  /** The start command really sent a goal. */
  predicate Sends(c: Core, e: Event, now: real, timeout: real) {
    && e.StartCommand? && c.phase == Idle && e.valuesOk && e.serverReady && c.hasClient && Alive(c, now, timeout)
  }

  lemma AcceptedStep(c: Core, now: real, timeout: real, cancel: bool)
    requires Inv(c) && Awaiting(c, c.generation, cancel) && Enabled(c, GoalResponse(c.generation, true), now)
    ensures var d := Next(c, GoalResponse(c.generation, true), now, timeout);
      if cancel then d.phase == Starting && d.stopDue.None? && d.goals[c.generation].cancelSent else d.phase == Running
  {}

  lemma SentStep(c: Core, e: Event, now: real, timeout: real)
    requires Enabled(c, e, now) && Sends(c, e, now, timeout)
    ensures var d := Next(c, e, now, timeout);
      d.generation == c.generation + 1 && Awaiting(d, d.generation, c.cancelOnAccept)
  {}

  /** A goal accepted with no stop since it was sent reaches Running exactly when no earlier stop had left
      the cancel flag set at its start; otherwise it is cancelled at once and the bridge stays Starting,
      with no timer armed. */
  lemma AcceptedRunsIff(states: seq<Core>, events: seq<Event>, times: seq<real>, timeout: real, i: nat, j: nat)
    requires Run(states, events, times, timeout) && i < j < |events|
    requires Sends(states[i], events[i], times[i], timeout)
    requires forall n | i < n < j :: !IsStop(states[n], events[n], times[n], timeout)
    requires events[j] == GoalResponse(states[i].generation + 1, true)
    ensures states[j + 1].phase == Running <==> !states[i].cancelOnAccept
    ensures states[i].cancelOnAccept ==>
            && states[j + 1].phase == Starting && states[j + 1].stopDue.None?
            && states[j + 1].goals[states[i].generation + 1].cancelSent
  {
    var g, cancel := states[i].generation + 1, states[i].cancelOnAccept;
    RunShape(states, events, times, timeout);
    RunStep(states, events, times, timeout, i);
    SentStep(states[i], events[i], times[i], timeout);
    AwaitingRun(states, events, times, timeout, i + 1, j, g, cancel);
    RunStep(states, events, times, timeout, j);
    AnswersCurrent(states[j], g, times[j], cancel);
    AcceptedStep(states[j], times[j], timeout, cancel);
  }

  lemma AnswersCurrent(c: Core, g: nat, now: real, cancel: bool)
    requires Awaiting(c, g, cancel) && Enabled(c, GoalResponse(g, true), now)
    ensures g == c.generation
  {}

  const FIRST: Goal := Goal(Unanswered, false, false, false, false, 1)

  /** Started, then deactivated before the answer, then activated again: idle, with the flag still set. */
  const REACTIVATED: Core :=
    Core(Idle, true, None, true, 1, None, Some(0.0), 0.0, true, 1, map[1 := FIRST.(stopped := true)])

  lemma LeftWithFlag(timeout: real) returns (states: seq<Core>, events: seq<Event>, times: seq<real>)
    requires 0.0 < timeout
    ensures Run(states, events, times, timeout) && |events| == 6 && states[6] == REACTIVATED
    ensures forall i | 0 <= i < 6 :: times[i] == 0.0
  {
    var s3 := FRESH.(hasClient := true, client := 1, phase := Idle, heartbeat := Some(0.0));
    var s4 := s3.(generation := 1, requested := true, phase := Starting, goals := map[1 := FIRST]);
    var left := map[1 := FIRST.(stopped := true)];
    var s5 := s4.(cancelOnAccept := true, phase := Inactive, goals := left);
    LeavingKeepsFlag(s4, left, s5);
    hide Leave, Stop;
    states := [FRESH, FRESH.(hasClient := true, client := 1), s3.(heartbeat := None), s3, s4, s5, s5.(phase := Idle)];
    events := [ConfigureNode, ActivateNode, Heartbeat, StartCommand(true, true), DeactivateNode(true), ActivateNode];
    times := [0.0, 0.0, 0.0, 0.0, 0.0, 0.0];
  }

  /** The flag can be left set: the second goal, never stopped by anyone, is cancelled when it is accepted. */
  lemma CancelIsInherited(timeout: real) returns (states: seq<Core>, events: seq<Event>, times: seq<real>)
    requires 0.0 < timeout
    ensures Run(states, events, times, timeout) && |events| == 8
    ensures Sends(states[6], events[6], times[6], timeout) && events[7] == GoalResponse(2, true)
    ensures states[8].phase == Starting && states[8].stopDue.None?
    ensures 2 in states[8].goals && states[8].goals[2].cancelSent && !states[8].goals[2].stopped
  {
    states, events, times := LeftWithFlag(timeout);
    var c := REACTIVATED;
    var d := c.(generation := 2, phase := Starting, goals := c.goals[2 := FIRST]);
    var e := d.(requested := false, handle := Some(2), cancelOnAccept := false,
                goals := d.goals[2 := Goal(Accepted, false, true, false, false, 1)]);
    assert d == Next(c, StartCommand(true, true), 0.0, timeout);
    assert e == Next(d, GoalResponse(2, true), 0.0, timeout);
    hide Next;
    RunGrows(states, events, times, timeout, StartCommand(true, true), 0.0, d);
    states, events, times := states + [d], events + [StartCommand(true, true)], times + [0.0];
    RunGrows(states, events, times, timeout, GoalResponse(2, true), 0.0, e);
    states, events, times := states + [e], events + [GoalResponse(2, true)], times + [0.0];
  }

  lemma LeavingKeepsFlag(c: Core, goals: map<nat, Goal>, d: Core)
    requires c.phase == Starting && c.requested && c.handle.None? && c.hasClient && c.stopDue.None? && c.generation == 1
    requires c.goals == map[1 := Goal(Unanswered, false, false, false, false, 1)]
    requires goals == map[1 := Goal(Unanswered, false, false, false, true, 1)]
    requires d == c.(cancelOnAccept := true, phase := Inactive, goals := goals)
    ensures Leave(c, 0.0, true) == d
  {
    assert MarkStopped(c) == goals;
    assert CancelAll(goals) == goals;
  }

  // ---------------------------------------------------------------- stopping ends

  /** Stopping is the same thing as an armed stop timer. */
  lemma StoppingHasTimer(states: seq<Core>, events: seq<Event>, times: seq<real>, timeout: real, i: nat)
    requires Run(states, events, times, timeout) && i < |states|
    ensures states[i].phase == Stopping <==> states[i].stopDue.Some?
  {
    RunKeepsInv(states, events, times, timeout, i);
  }

  lemma TimerStep(c: Core, e: Event, now: real, timeout: real)
    requires Inv(c) && Enabled(c, e, now)
    ensures var d := Next(c, e, now, timeout);
      d.phase == Stopping ==> d.stopDue == if c.phase == Stopping then c.stopDue else Some(now + STOP_TIMEOUT)
  {
    StepKeepsInv(c, e, now, timeout);
    match e
    case StopCommand(_) =>
    case WatchTick(_) =>
    case _ =>
  }

  lemma RunStep(states: seq<Core>, events: seq<Event>, times: seq<real>, timeout: real, j: nat)
    requires Run(states, events, times, timeout) && j < |events|
    ensures Inv(states[j]) && Enabled(states[j], events[j], times[j])
    ensures states[j + 1] == Next(states[j], events[j], times[j], timeout)
  {
    RunKeepsInv(states, events, times, timeout, j);
  }

  lemma TimerFires(c: Core, due: real, timeout: real)
    requires c.stopDue == Some(due)
    ensures Enabled(c, StopTimer, due) && Next(c, StopTimer, due, timeout).phase != Stopping
  {}

  /** Repeated stops never re-arm the timer: throughout a stay in Stopping it is due two seconds after
      the stop that entered it, and when it fires the bridge leaves Stopping. */
  lemma {:induction false} StoppingEnds(states: seq<Core>, events: seq<Event>, times: seq<real>, timeout: real,
                                        i: nat, j: nat)
    requires Run(states, events, times, timeout) && i < j < |states|
    requires states[i].phase != Stopping && forall k | i < k <= j :: states[k].phase == Stopping
    ensures states[j].stopDue == Some(times[i] + STOP_TIMEOUT)
    ensures Enabled(states[j], StopTimer, times[i] + STOP_TIMEOUT)
    ensures Next(states[j], StopTimer, times[i] + STOP_TIMEOUT, timeout).phase != Stopping
  {
    hide Next, Enabled, Inv;
    RunStep(states, events, times, timeout, j - 1);
    if i + 1 < j {
      StoppingEnds(states, events, times, timeout, i, j - 1);
    }
    TimerStep(states[j - 1], events[j - 1], times[j - 1], timeout);
    TimerFires(states[j], times[i] + STOP_TIMEOUT, timeout);
  }

  // ---------------------------------------------------------------- the heartbeat

  predicate Moving(c: Core) { c.phase == Starting || c.phase == Running }

  /** A wave that is starting or running had a live client at the last watch tick. */
  predicate WatchedInv(c: Core, now: real, timeout: real) {
    && c.lastWatch <= now
    && (c.heartbeat.Some? ==> c.heartbeat.value <= now)
    && (Moving(c) ==> c.heartbeat.Some? && c.lastWatch - c.heartbeat.value < timeout)
  }

  lemma WatchedStep(c: Core, e: Event, before: real, now: real, timeout: real)
    requires Inv(c) && Enabled(c, e, now) && WatchedInv(c, before, timeout) && before <= now
    ensures WatchedInv(Next(c, e, now, timeout), now, timeout)
  {
    match e
    case StopCommand(serverReady) => AfterStop(c, now, serverReady);
    case WatchTick(serverReady) => AfterStop(c.(lastWatch := now), now, serverReady);
    case DeactivateNode(serverReady) => AfterStop(c, now, serverReady);
    case _ =>
  }

  lemma {:induction false} WatchedRun(states: seq<Core>, events: seq<Event>, times: seq<real>, timeout: real, i: nat)
    requires Run(states, events, times, timeout) && i < |states|
    ensures WatchedInv(states[i], if i == 0 then 0.0 else times[i - 1], timeout)
  {
    if i > 0 {
      WatchedRun(states, events, times, timeout, i - 1);
      RunKeepsInv(states, events, times, timeout, i - 1);
      WatchedStep(states[i - 1], events[i - 1], if i == 1 then 0.0 else times[i - 2], times[i - 1], timeout);
    }
  }

  /** With watch ticks on time, Starting or Running never persists beyond the heartbeat timeout plus
      one watch period after the last heartbeat. */
  lemma UnattendedWaveStops(states: seq<Core>, events: seq<Event>, times: seq<real>, timeout: real, i: nat,
                            now: real, period: real)
    requires Run(states, events, times, timeout) && i < |states|
    requires now <= states[i].lastWatch + period && Moving(states[i])
    ensures states[i].heartbeat.Some? && now < states[i].heartbeat.value + timeout + period
  {
    WatchedRun(states, events, times, timeout, i);
  }
}
