/** What the bridge does for its operator: a start that may be sent is sent, an attended wave keeps running,
    and every way a goal can end makes the bridge idle again. */
module BridgeService {
  import opened Options
  import opened Bridge
  import opened BridgeSafety

  // ---------------------------------------------------------------- starting

  /** A start has an effect exactly when the bridge is idle, height and period are valid, a heartbeat came
      less than the timeout ago and the server is ready. */
  lemma StartHasEffectIff(c: Core, now: real, timeout: real, valuesOk: bool, serverReady: bool)
    requires Enabled(c, StartCommand(valuesOk, serverReady), now)
    ensures Next(c, StartCommand(valuesOk, serverReady), now, timeout) != c
            <==> c.phase == Idle && valuesOk && c.heartbeat.Some? && now - c.heartbeat.value < timeout
                 && c.hasClient && serverReady
  {}

  /** And then it sends a goal that no earlier one is, and changes nothing else. */
  lemma StartSendsNewGoal(c: Core, now: real, timeout: real)
    requires Inv(c) && Enabled(c, StartCommand(true, true), now) && Next(c, StartCommand(true, true), now, timeout) != c
    ensures var d, g := Next(c, StartCommand(true, true), now, timeout), c.generation + 1;
      && g !in c.goals && d.goals == c.goals[g := Goal(Unanswered, false, false, false, false, c.client)]
      && d.phase == Starting && d.requested && d.generation == g
      && d.handle == c.handle && d.cancelOnAccept == c.cancelOnAccept && d.stopDue == c.stopDue
      && d.heartbeat == c.heartbeat && d.lastWatch == c.lastWatch && d.hasClient && d.client == c.client
      && Enabled(d, GoalResponse(g, true), now) && Enabled(d, GoalResponse(g, false), now)
  {}

  // ---------------------------------------------------------------- a wave that runs

  /** A watch tick with a live heartbeat, or with no wave to watch, only notes its time. */
  lemma HealthyWatchIsHarmless(c: Core, now: real, timeout: real, serverReady: bool)
    requires Enabled(c, WatchTick(serverReady), now)
    requires (c.heartbeat.Some? && now - c.heartbeat.value < timeout) || (c.phase != Starting && c.phase != Running)
    ensures Next(c, WatchTick(serverReady), now, timeout) == c.(lastWatch := now)
  {}

  /** A heartbeat only renews its time. */
  lemma HeartbeatRenews(c: Core, now: real, timeout: real)
    requires Enabled(c, Heartbeat, now)
    ensures Next(c, Heartbeat, now, timeout) == c.(heartbeat := Some(now))
  {}

  /** Nobody stops the wave at this step: no stop, no deactivation, no result of its goal, and a heartbeat
      fresh enough for the watch. */
  predicate Undisturbed(c: Core, e: Event, now: real, timeout: real) {
    match e
    case StopCommand(_) => false
    case DeactivateNode(_) => false
    case GoalResult(g) => g != c.generation
    case WatchTick(_) => c.heartbeat.Some? && now - c.heartbeat.value < timeout
    case _ => true
  }

  lemma RunningStep(c: Core, e: Event, now: real, timeout: real)
    requires Inv(c) && Enabled(c, e, now) && c.phase == Running && Undisturbed(c, e, now, timeout)
    ensures var d := Next(c, e, now, timeout);
      && d.phase == Running && d.generation == c.generation && d.handle == c.handle && d.stopDue == c.stopDue
      && c.generation in c.goals && c.generation in d.goals && d.goals[c.generation] == c.goals[c.generation]
  {
    match e
    case StartCommand(_, _) =>
    case GoalResponse(_, _) =>
    case GoalResult(_) =>
    case WatchTick(serverReady) => HealthyWatchIsHarmless(c, now, timeout, serverReady);
    case Heartbeat =>
    case _ =>
  }

  lemma RunsWithGoal(c: Core)
    requires Inv(c) && c.phase == Running
    ensures c.handle == Some(c.generation) && c.stopDue.None? && c.generation in c.goals
  {}

  /** A running wave that nobody stops keeps running, through heartbeats, watch ticks, refused starts and
      whatever the server still says of earlier goals. */
  lemma {:induction false} AttendedWaveKeepsRunning(states: seq<Core>, events: seq<Event>, times: seq<real>, timeout: real,
                                                    i: nat, j: nat)
    requires Run(states, events, times, timeout) && i <= j < |states| && states[i].phase == Running
    requires forall n | i <= n < j :: Undisturbed(states[n], events[n], times[n], timeout)
    ensures states[j].phase == Running && states[j].generation == states[i].generation
    ensures states[j].handle == Some(states[i].generation) && states[j].stopDue.None?
    ensures var g := states[i].generation;
      g in states[i].goals && g in states[j].goals && states[j].goals[g] == states[i].goals[g]
  {
    hide Run, Inv, Next, Enabled, Undisturbed;
    RunShape(states, events, times, timeout);
    RunKeepsInv(states, events, times, timeout, i);
    RunsWithGoal(states[i]);
    if i < j {
      AttendedWaveKeepsRunning(states, events, times, timeout, i, j - 1);
      RunStep(states, events, times, timeout, j - 1);
      RunningStep(states[j - 1], events[j - 1], times[j - 1], timeout);
    }
  }

  // ---------------------------------------------------------------- ways to end

  /** Idle again, unless the bridge has left the active state: no goal claimed, no timer. */
  predicate Freed(c: Core, d: Core) {
    && d.phase == (if c.phase == Inactive then Inactive else Idle)
    && d.stopDue.None? && !d.requested && d.handle.None? && !d.cancelOnAccept
    && d.heartbeat == c.heartbeat && d.lastWatch == c.lastWatch && d.hasClient == c.hasClient && d.client == c.client
  }

  /** The current goal's answer or result, whichever comes last, frees the bridge. */
  lemma ResultFrees(c: Core, now: real, timeout: real)
    requires Inv(c) && Enabled(c, GoalResult(c.generation), now) && c.handle == Some(c.generation) && !c.cancelOnAccept
    ensures var d := Next(c, GoalResult(c.generation), now, timeout);
      && Freed(c, d) && d.generation == c.generation
      && d.goals == c.goals[c.generation := c.goals[c.generation].(ended := true)]
  {}

  lemma RejectionFrees(c: Core, now: real, timeout: real)
    requires Inv(c) && Enabled(c, GoalResponse(c.generation, false), now) && c.handle.None?
    ensures var d := Next(c, GoalResponse(c.generation, false), now, timeout);
      && Freed(c, d) && d.generation == c.generation
      && d.goals == c.goals[c.generation := c.goals[c.generation].(answer := Rejected)]
  {}

  /** The stop timer gives the goal up: its answer, when it comes, no longer counts. */
  lemma ExpiryFrees(c: Core, now: real, timeout: real)
    requires Inv(c) && Enabled(c, StopTimer, now)
    ensures var d := Next(c, StopTimer, now, timeout);
      Freed(c, d) && d.generation == c.generation + 1 && d.goals == c.goals
  {}

  /** What the server says of any other goal is only noted, and answered with a cancel if it accepts. */
  lemma StaleRepliesAreNoted(c: Core, g: nat, now: real, timeout: real)
    requires g in c.goals && g != c.generation
    ensures Enabled(c, GoalResult(g), now)
            ==> Next(c, GoalResult(g), now, timeout) == c.(goals := c.goals[g := c.goals[g].(ended := true)])
    ensures Enabled(c, GoalResponse(g, true), now)
            ==> Next(c, GoalResponse(g, true), now, timeout)
                == c.(goals := c.goals[g := c.goals[g].(answer := Accepted, cancelSent := true)])
    ensures Enabled(c, GoalResponse(g, false), now)
            ==> Next(c, GoalResponse(g, false), now, timeout) == c.(goals := c.goals[g := c.goals[g].(answer := Rejected)])
  {}

  // ---------------------------------------------------------------- stopping

  /** A stop of a starting or running wave that reaches the server: Stopping, two seconds on the timer, a
      cancel sent to every goal the server has accepted, and one promised to the goal still unanswered. */
  lemma StopReachesServer(c: Core, now: real, timeout: real)
    requires Inv(c) && c.hasClient && (c.phase == Starting || c.phase == Running)
    ensures var d := Next(c, StopCommand(true), now, timeout);
      && d.phase == Stopping && d.stopDue == Some(now + 2.0) && d.generation == c.generation && d.handle == c.handle
      && d.requested == c.requested && (c.requested ==> d.cancelOnAccept)
      && d.goals.Keys == c.goals.Keys && c.generation in c.goals && d.goals[c.generation].stopped
      && (forall g | g in c.goals ::
            && d.goals[g].answer == c.goals[g].answer && d.goals[g].ended == c.goals[g].ended
            && (c.goals[g].answer == Accepted ==> d.goals[g].cancelSent))
  {}

  /** One that does not reach it gives the goal up at once. */
  lemma StopUnreachable(c: Core, now: real, timeout: real)
    requires Inv(c) && (c.phase == Starting || c.phase == Running)
    ensures var d := Next(c, StopCommand(false), now, timeout);
      && Freed(c, d) && d.generation == c.generation + 1 && d.goals.Keys == c.goals.Keys
      && c.generation in c.goals && d.goals[c.generation].stopped
      && (c.handle == Some(c.generation) ==> d.goals[c.generation].unreachable)
  {}

  /** With no goal of its own a stop leaves the bridge as it is, and still cancels whatever the server runs. */
  lemma StopWithoutGoal(c: Core, now: real, timeout: real, serverReady: bool)
    requires Inv(c) && c.phase != Inactive && !c.requested && c.handle.None?
    ensures var d := Next(c, StopCommand(serverReady), now, timeout);
      && d == c.(goals := d.goals) && d.goals.Keys == c.goals.Keys
      && (c.hasClient && serverReady ==> forall g | g in c.goals && c.goals[g].answer == Accepted :: d.goals[g].cancelSent)
  {}

  // ---------------------------------------------------------------- the lifecycle

  /** Leaving the active state stops the wave first, whatever it is, and leaves no timer behind. */
  lemma LeavingStops(c: Core, now: real, timeout: real, serverReady: bool)
    requires Inv(c)
    ensures var d := Next(c, DeactivateNode(serverReady), now, timeout);
      && d.phase == Inactive && d.stopDue.None? && d.goals.Keys == c.goals.Keys
      && (c.hasClient && serverReady ==> forall g | g in c.goals && c.goals[g].answer == Accepted :: d.goals[g].cancelSent)
      && (d.requested ==> d.cancelOnAccept && d.generation == c.generation)
  {}

  /** An inactive bridge stays inactive, whatever replies still arrive, until it is activated. */
  lemma InactiveStays(c: Core, e: Event, now: real, timeout: real)
    requires Inv(c) && Enabled(c, e, now) && c.phase == Inactive && e != ActivateNode
    ensures Next(c, e, now, timeout).phase == Inactive
    ensures !e.StartCommand? && !e.StopCommand? && !e.WatchTick? && !e.Heartbeat?
  {
    match e
    case GoalResponse(_, _) =>
    case GoalResult(_) =>
    case DeactivateNode(_) =>
    case _ =>
  }

  // ---------------------------------------------------------------- the ledger

  /** What is known of a goal is never forgotten. */
  predicate Kept(before: Goal, after: Goal) {
    && after.client == before.client
    && (before.answer != Unanswered ==> after.answer == before.answer)
    && (before.ended ==> after.ended) && (before.cancelSent ==> after.cancelSent)
    && (before.unreachable ==> after.unreachable) && (before.stopped ==> after.stopped)
  }

  lemma StopKeepsLedger(c: Core, now: real, serverReady: bool, g: nat)
    requires g in c.goals
    ensures var d := Stop(c, now, serverReady); g in d.goals && Kept(c.goals[g], d.goals[g])
  {
    var d := StopRequested(c, now);
    assert d.generation == c.generation && d.handle == c.handle && d.requested == c.requested;
    assert g in d.goals && Kept(c.goals[g], d.goals[g]) by { MarkKeeps(c, g); }
    hide StopRequested, MarkStopped;
    if !c.hasClient || !serverReady {
      GivenUpKeeps(d, g);
    } else {
      CancelKeepsGoal(d.goals, g);
    }
  }

  lemma MarkKeeps(c: Core, g: nat)
    requires g in c.goals
    ensures var goals := MarkStopped(c); g in goals && Kept(c.goals[g], goals[g])
  {}

  lemma CancelKeepsGoal(goals: map<nat, Goal>, g: nat)
    requires g in goals
    ensures g in CancelAll(goals) && Kept(goals[g], CancelAll(goals)[g])
  {}

  lemma GivenUpKeeps(c: Core, g: nat)
    requires g in c.goals
    ensures var d := Abandon(c, true); g in d.goals && Kept(c.goals[g], d.goals[g])
  {}

  lemma AbandonKeepsLedger(c: Core, g: nat)
    requires g in c.goals
    ensures var d := Abandon(c, false); g in d.goals && d.goals[g] == c.goals[g]
  {}

  lemma LedgerStep(c: Core, e: Event, now: real, timeout: real, g: nat)
    requires Inv(c) && Enabled(c, e, now) && g in c.goals
    ensures var d := Next(c, e, now, timeout); g in d.goals && Kept(c.goals[g], d.goals[g])
  {
    match e
    case StartCommand(_, _) =>
    case StopCommand(serverReady) => StopKeepsLedger(c, now, serverReady, g);
    case GoalResponse(_, _) =>
    case GoalResult(_) =>
    case WatchTick(serverReady) => StopKeepsLedger(c.(lastWatch := now), now, serverReady, g);
    case StopTimer => AbandonKeepsLedger(c, g);
    case DeactivateNode(serverReady) => StopKeepsLedger(c, now, serverReady, g);
    case _ =>
  }

  /** Every goal was sent by a client that exists or existed, and no later one answers for it. */
  lemma {:induction false} GoalsOfClients(states: seq<Core>, events: seq<Event>, times: seq<real>, timeout: real,
                                          i: nat, g: nat)
    requires Run(states, events, times, timeout) && i < |states| && g in states[i].goals
    ensures states[i].goals[g].client <= states[i].client
  {
    NoGoalsAtFirst(states, events, times, timeout);
    hide Run, Inv, Next, Enabled;
    if i > 0 {
      RunStep(states, events, times, timeout, i - 1);
      if g in states[i - 1].goals {
        GoalsOfClients(states, events, times, timeout, i - 1, g);
        LedgerStep(states[i - 1], events[i - 1], times[i - 1], timeout, g);
      }
      ClientStep(states[i - 1], events[i - 1], times[i - 1], timeout, g);
    }
  }

  lemma NoGoalsAtFirst(states: seq<Core>, events: seq<Event>, times: seq<real>, timeout: real)
    requires Run(states, events, times, timeout)
    ensures |states| == |events| + 1 == |times| + 1 && states[0].goals == map[]
  {}

  lemma StopSendsNothing(c: Core, now: real, serverReady: bool)
    ensures Stop(c, now, serverReady).goals.Keys == c.goals.Keys && Stop(c, now, serverReady).client == c.client
  {}

  /** Only a start adds a goal, and it is the current client's. */
  lemma ClientStep(c: Core, e: Event, now: real, timeout: real, g: nat)
    requires Inv(c) && Enabled(c, e, now)
    ensures var d := Next(c, e, now, timeout);
      && c.client <= d.client && (e == ConfigureNode ==> c.client < d.client)
      && (g in d.goals && g !in c.goals ==> d.goals[g].client == c.client)
  {
    hide Inv, Stop;
    match e
    case StartCommand(_, _) =>
    case StopCommand(serverReady) => StopSendsNothing(c, now, serverReady);
    case GoalResponse(_, _) =>
    case GoalResult(_) =>
    case WatchTick(serverReady) => StopSendsNothing(c.(lastWatch := now), now, serverReady);
    case StopTimer =>
    case DeactivateNode(serverReady) => StopSendsNothing(c, now, serverReady);
    case _ =>
  }

  lemma {:induction false} ClientsGrow(states: seq<Core>, events: seq<Event>, times: seq<real>, timeout: real,
                                       i: nat, j: nat, g: nat)
    requires Run(states, events, times, timeout) && i <= j < |states| && g in states[i].goals
    ensures g in states[j].goals && states[j].goals[g].client == states[i].goals[g].client
    ensures states[i].client <= states[j].client
    ensures (exists k :: i <= k < j && events[k] == ConfigureNode) ==> states[i].client < states[j].client
  {
    hide Run, Inv, Next, Enabled;
    if i < j {
      RunShape(states, events, times, timeout);
      ClientsGrow(states, events, times, timeout, i, j - 1, g);
      RunStep(states, events, times, timeout, j - 1);
      LedgerStep(states[j - 1], events[j - 1], times[j - 1], timeout, g);
      ClientStep(states[j - 1], events[j - 1], times[j - 1], timeout, g);
    }
  }

  /** After the node has been configured anew no reply to an earlier goal reaches it any more. */
  lemma OldRepliesNeverArrive(states: seq<Core>, events: seq<Event>, times: seq<real>, timeout: real,
                              i: nat, k: nat, j: nat, g: nat, now: real)
    requires Run(states, events, times, timeout) && i <= k < j < |states| && g in states[i].goals
    requires events[k] == ConfigureNode
    ensures g in states[j].goals
    ensures !Enabled(states[j], GoalResult(g), now)
    ensures !Enabled(states[j], GoalResponse(g, true), now) && !Enabled(states[j], GoalResponse(g, false), now)
  {
    GoalsOfClients(states, events, times, timeout, i, g);
    ClientsGrow(states, events, times, timeout, i, j, g);
  }
}
