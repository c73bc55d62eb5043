/** The WavemakerBridge node: operator commands in, action goals out. Its single-threaded executor
    runs one callback at a time, so every callback is one step; `Core` is the state between two
    callbacks and carries, besides the node's own fields, a ledger of every goal it ever sent. */
module Bridge {
  import opened Options

  datatype Phase = Inactive | Idle | Starting | Running | Stopping

  datatype Answer = Unanswered | Rejected | Accepted

  /** What became of one goal. `stopped`: a stop was issued while it was the bridge's own goal;
      `unreachable`: it was given up because the server could not be reached at the stop. */
  datatype Goal = Goal(answer: Answer, ended: bool, cancelSent: bool, unreachable: bool, stopped: bool,
                       client: nat)

  const STOP_TIMEOUT: real := 2.0

  datatype Core = Core(
    phase: Phase, requested: bool, handle: Option<nat>, cancelOnAccept: bool, generation: nat,
    stopDue: Option<real>, heartbeat: Option<real>, lastWatch: real, hasClient: bool, client: nat,
    goals: map<nat, Goal>)

  const FRESH: Core :=
    Core(Inactive, false, None, false, 0, None, None, 0.0, false, 0, map[])

  // ---------------------------------------------------------------- the callbacks

  predicate Alive(c: Core, now: real, timeout: real) {
    c.heartbeat.Some? && now - c.heartbeat.value < timeout
  }

  function IdleUnlessInactive(c: Core): Phase {
    if c.phase == Inactive then Inactive else Idle
  }

  function Start(c: Core, now: real, timeout: real, valuesOk: bool, serverReady: bool): Core {
    if c.phase != Idle || !valuesOk || !Alive(c, now, timeout) || !c.hasClient || !serverReady then c
    else
      var g := c.generation + 1;
      c.(generation := g, requested := true, phase := Starting,
         goals := c.goals[g := Goal(Unanswered, false, false, false, false, c.client)])
  }

  predicate Ours(c: Core) { c.requested || c.handle.Some? }

  /** The bridge's own goals at a stop: the one it is waiting for and the one it holds. */
  predicate Own(c: Core, g: nat) {
    (c.requested && g == c.generation) || c.handle == Some(g)
  }

  function MarkStopped(c: Core): map<nat, Goal> {
    map g | g in c.goals :: if Own(c, g) then c.goals[g].(stopped := true) else c.goals[g]
  }

  function CancelAll(goals: map<nat, Goal>): map<nat, Goal> {
    map g | g in goals :: if goals[g].answer == Accepted then goals[g].(cancelSent := true) else goals[g]
  }

  function Abandon(c: Core, unreachable: bool): Core {
    c.(generation := c.generation + 1, handle := None, requested := false, cancelOnAccept := false,
       phase := IdleUnlessInactive(c), stopDue := None,
       goals := if unreachable && c.handle.Some? && c.handle.value in c.goals
                then c.goals[c.handle.value := c.goals[c.handle.value].(unreachable := true)] else c.goals)
  }

  /** The part of stop() before the server is asked. */
  function StopRequested(c: Core, now: real): Core {
    if Ours(c) then
      c.(cancelOnAccept := c.cancelOnAccept || c.requested, phase := Stopping, goals := MarkStopped(c),
         stopDue := if c.stopDue.None? then Some(now + STOP_TIMEOUT) else c.stopDue)
    else c
  }

  function Stop(c: Core, now: real, serverReady: bool): Core {
    var d := StopRequested(c, now);
    if !c.hasClient || !serverReady then
      if Ours(c) then Abandon(d, true) else c
    else d.(goals := CancelAll(d.goals))
  }

  function FinishStop(c: Core): Core { c.(stopDue := None) }

  function OnGoalResponse(c: Core, g: nat, accepted: bool): Core
    requires g in c.goals
  {
    var goal := c.goals[g].(answer := if accepted then Accepted else Rejected);
    if g != c.generation then
      c.(goals := c.goals[g := if accepted then goal.(cancelSent := true) else goal])
    else if !accepted then
      FinishStop(c.(requested := false, cancelOnAccept := false, phase := IdleUnlessInactive(c),
                    goals := c.goals[g := goal]))
    else if c.cancelOnAccept then
      c.(requested := false, handle := Some(g), cancelOnAccept := false,
         goals := c.goals[g := goal.(cancelSent := true)])
    else
      c.(requested := false, handle := Some(g), phase := Running, goals := c.goals[g := goal])
  }

  function OnGoalResult(c: Core, g: nat): Core
    requires g in c.goals
  {
    var d := c.(goals := c.goals[g := c.goals[g].(ended := true)]);
    if g != c.generation then d
    else FinishStop(d.(handle := None, phase := IdleUnlessInactive(c)))
  }

  function Watch(c: Core, now: real, timeout: real, serverReady: bool): Core {
    var d := c.(lastWatch := now);
    if (c.phase == Starting || c.phase == Running) && !Alive(c, now, timeout) then Stop(d, now, serverReady) else d
  }

  /** cleanup_helper(), shared by deactivation, shutdown and error handling. */
  function Leave(c: Core, now: real, serverReady: bool): Core {
    FinishStop(Stop(c, now, serverReady)).(phase := Inactive)
  }

  // ---------------------------------------------------------------- events

  datatype Event =
    | StartCommand(valuesOk: bool, serverReady: bool)
    | StopCommand(serverReady: bool)
    | GoalResponse(goal: nat, accepted: bool)
    | GoalResult(goal: nat)
    | WatchTick(serverReady: bool)
    | Heartbeat
    | StopTimer
    | ConfigureNode
    | ActivateNode
    | DeactivateNode(serverReady: bool)
    | CleanupNode

  /** When the event can reach the node: commands only while it is active, replies only from the
      action client that sent the goal, the stop timer only when armed and due. */
  predicate Enabled(c: Core, e: Event, now: real) {
    match e
    case StartCommand(_, _) => c.phase != Inactive
    case StopCommand(_) => c.phase != Inactive
    case GoalResponse(g, _) => ReplyExpected(c, g) && c.goals[g].answer == Unanswered
    case GoalResult(g) => ReplyExpected(c, g) && c.goals[g].answer == Accepted && !c.goals[g].ended
    case WatchTick(_) => c.phase != Inactive
    case Heartbeat => c.phase != Inactive
    case StopTimer => c.stopDue.Some? && c.stopDue.value <= now
    case ConfigureNode => c.phase == Inactive
    case ActivateNode => c.phase == Inactive && c.hasClient
    case DeactivateNode(_) => true
    case CleanupNode => c.phase == Inactive && c.hasClient
  }

  predicate ReplyExpected(c: Core, g: nat) {
    c.hasClient && g in c.goals && c.goals[g].client == c.client
  }

  function Next(c: Core, e: Event, now: real, timeout: real): Core
    requires Enabled(c, e, now)
  {
    match e
    case StartCommand(valuesOk, serverReady) => Start(c, now, timeout, valuesOk, serverReady)
    case StopCommand(serverReady) => Stop(c, now, serverReady)
    case GoalResponse(g, accepted) => OnGoalResponse(c, g, accepted)
    case GoalResult(g) => OnGoalResult(c, g)
    case WatchTick(serverReady) => Watch(c, now, timeout, serverReady)
    case Heartbeat => c.(heartbeat := Some(now))
    case StopTimer => Abandon(c, false)
    case ConfigureNode => c.(hasClient := true, client := c.client + 1)
    case ActivateNode => c.(phase := Idle, lastWatch := now)
    case DeactivateNode(serverReady) => Leave(c, now, serverReady)
    case CleanupNode => c.(hasClient := false)
  }

  /** states[0] is a node just created; event i happens at times[i], and time never runs back. */
  ghost predicate Run(states: seq<Core>, events: seq<Event>, times: seq<real>, timeout: real) {
    && |states| == |events| + 1 == |times| + 1
    && states[0] == FRESH
    && (forall i | 0 <= i < |events| ::
          Enabled(states[i], events[i], times[i]) && states[i + 1] == Next(states[i], events[i], times[i], timeout))
    && (forall i | 0 <= i < |times| :: 0.0 <= times[i])
    && (forall i, j | 0 <= i < j < |times| :: times[i] <= times[j])
  }

  // ---------------------------------------------------------------- the object

  lemma RunGrows(states: seq<Core>, events: seq<Event>, times: seq<real>, timeout: real, e: Event, now: real, d: Core)
    requires Run(states, events, times, timeout) && Enabled(states[|events|], e, now)
    requires d == Next(states[|events|], e, now, timeout) && NotBefore(times, now)
    ensures Run(states + [d], events + [e], times + [now], timeout)
  {}

  /** The clock has not run back. */
  predicate NotBefore(times: seq<real>, now: real) {
    0.0 <= now && forall i | 0 <= i < |times| :: times[i] <= now
  }

  /** The node's fields and callbacks. Times come from the steady clock as arguments; the ledger, the time
      of the last watch tick and the history are ghost. `Valid` says that the history is a run of the
      callbacks above ending in the current fields, so whatever holds of every run holds of the object.
      The methods named On... are the callbacks; the others are what they share. */
  class WavemakerBridge {
    var phase: Phase
    var goalRequested: bool
    var goalHandle: Option<nat>
    var cancelOnAccept: bool
    var goalGeneration: nat
    var stopTimeout: Option<real>
    var lastHeartbeat: Option<real>
    var actionClient: bool
    ghost var lastWatch: real
    ghost var client: nat
    ghost var goals: map<nat, Goal>
    const heartbeatTimeout: real
    ghost var states: seq<Core>
    ghost var events: seq<Event>
    ghost var times: seq<real>

    ghost function State(): Core
      reads this
    {
      Core(phase, goalRequested, goalHandle, cancelOnAccept, goalGeneration, stopTimeout, lastHeartbeat, lastWatch,
           actionClient, client, goals)
    }

    ghost predicate Valid()
      reads this
    {
      Run(states, events, times, heartbeatTimeout) && State() == states[|events|]
    }

    twostate predicate SameHistory()
      reads this
    {
      states == old(states) && events == old(events) && times == old(times)
    }

    /** The event can happen now. */
    ghost predicate Ready(e: Event, now: real)
      reads this
    {
      Valid() && Enabled(State(), e, now) && NotBefore(times, now)
    }

    /** The callback ran: its step is the last of the history. */
    twostate predicate Happened(e: Event, now: real)
      requires old(Ready(e, now))
      reads this
    {
      && Valid() && State() == Next(old(State()), e, now, heartbeatTimeout)
      && states == old(states) + [State()] && events == old(events) + [e] && times == old(times) + [now]
    }

    ghost method Record(e: Event, now: real)
      requires Run(states, events, times, heartbeatTimeout) && Enabled(states[|events|], e, now) && NotBefore(times, now)
      requires State() == Next(states[|events|], e, now, heartbeatTimeout)
      modifies this`states, this`events, this`times
      ensures Valid() && states == old(states) + [State()] && events == old(events) + [e] && times == old(times) + [now]
    {
      RunGrows(states, events, times, heartbeatTimeout, e, now, State());
      states, events, times := states + [State()], events + [e], times + [now];
    }

    constructor (timeout: real)
      ensures Valid() && State() == FRESH && heartbeatTimeout == timeout
    {
      heartbeatTimeout := timeout;
      states, events, times := [FRESH], [], [];
      phase, goalRequested, goalHandle, cancelOnAccept := Inactive, false, None, false;
      goalGeneration, stopTimeout, lastHeartbeat, actionClient := 0, None, None, false;
      lastWatch, client, goals := 0.0, 0, map[];
    }

    method HeartbeatAlive(now: real, timeout: real) returns (alive: bool)
      ensures alive <==> Alive(State(), now, timeout)
    {
      alive := lastHeartbeat.Some? && now - lastHeartbeat.value < timeout;
    }

    method StartWave(now: real, timeout: real, valuesOk: bool, serverReady: bool)
      modifies this
      ensures State() == Start(old(State()), now, timeout, valuesOk, serverReady)
      ensures SameHistory()
    {
      if phase != Idle || !valuesOk {
        return;
      }
      var alive := HeartbeatAlive(now, timeout);
      if !alive || !actionClient || !serverReady {
        return;
      }
      goalGeneration := goalGeneration + 1;
      goalRequested := true;
      goals := goals[goalGeneration := Goal(Unanswered, false, false, false, false, client)];
      phase := Starting;
    }

    method AbandonGoal(ghost unreachable: bool)
      modifies this
      ensures State() == Abandon(old(State()), unreachable)
      ensures SameHistory()
    {
      goals := Abandon(State(), unreachable).goals;
      goalGeneration := goalGeneration + 1;
      goalHandle, goalRequested, cancelOnAccept := None, false, false;
      phase := if phase == Inactive then Inactive else Idle;
      StopFinished();
    }

    method StopFinished()
      modifies this
      ensures State() == FinishStop(old(State()))
      ensures SameHistory()
    {
      stopTimeout := None;
    }

    method StopWave(now: real, serverReady: bool)
      modifies this
      ensures State() == Stop(old(State()), now, serverReady)
      ensures SameHistory()
    {
      ghost var before := State();
      if goalRequested {
        cancelOnAccept := true;
      }
      var ours := goalRequested || goalHandle.Some?;
      if ours {
        phase := Stopping;
        goals := MarkStopped(before);
        if stopTimeout.None? {
          stopTimeout := Some(now + STOP_TIMEOUT);
        }
      }
      assert State() == StopRequested(before, now);
      if !actionClient || !serverReady {
        if ours {
          AbandonGoal(true);
        }
        return;
      }
      goals := CancelAll(goals);
    }

    method GoalResponded(g: nat, accepted: bool)
      requires g in goals
      modifies this
      ensures State() == OnGoalResponse(old(State()), g, accepted)
      ensures SameHistory()
    {
      ghost var answered := goals[g].(answer := if accepted then Accepted else Rejected);
      if g != goalGeneration {
        goals := goals[g := if accepted then answered.(cancelSent := true) else answered];
        return;
      }
      goals := goals[g := answered];
      goalRequested := false;
      if !accepted {
        cancelOnAccept := false;
        phase := if phase == Inactive then Inactive else Idle;
        StopFinished();
        return;
      }
      goalHandle := Some(g);
      if cancelOnAccept {
        cancelOnAccept := false;
        goals := goals[g := answered.(cancelSent := true)];
        return;
      }
      phase := Running;
    }

    method GoalEnded(g: nat)
      requires g in goals
      modifies this
      ensures State() == OnGoalResult(old(State()), g)
      ensures SameHistory()
    {
      goals := goals[g := goals[g].(ended := true)];
      if g == goalGeneration {
        goalHandle := None;
        phase := if phase == Inactive then Inactive else Idle;
        StopFinished();
      }
    }

    method WatchClient(now: real, timeout: real, serverReady: bool)
      modifies this
      ensures State() == Watch(old(State()), now, timeout, serverReady)
      ensures SameHistory()
    {
      lastWatch := now;
      var alive := HeartbeatAlive(now, timeout);
      if (phase == Starting || phase == Running) && !alive {
        StopWave(now, serverReady);
      }
    }

    method CleanupHelper(now: real, serverReady: bool)
      modifies this
      ensures State() == Leave(old(State()), now, serverReady)
      ensures SameHistory()
    {
      StopWave(now, serverReady);
      StopFinished();
      phase := Inactive;
    }

    method OnStartCommand(now: real, valuesOk: bool, serverReady: bool)
      requires Ready(StartCommand(valuesOk, serverReady), now)
      modifies this
      ensures Happened(StartCommand(valuesOk, serverReady), now)
    {
      hide Run, Start, Stop, OnGoalResponse, OnGoalResult, Watch, Leave, Abandon;
      StartWave(now, heartbeatTimeout, valuesOk, serverReady);
      Record(StartCommand(valuesOk, serverReady), now);
    }

    method OnStopCommand(now: real, serverReady: bool)
      requires Ready(StopCommand(serverReady), now)
      modifies this
      ensures Happened(StopCommand(serverReady), now)
    {
      hide Run, Start, Stop, OnGoalResponse, OnGoalResult, Watch, Leave, Abandon;
      StopWave(now, serverReady);
      Record(StopCommand(serverReady), now);
    }

    method OnGoalAnswer(now: real, g: nat, accepted: bool)
      requires Ready(GoalResponse(g, accepted), now)
      modifies this
      ensures Happened(GoalResponse(g, accepted), now)
    {
      hide Run, Start, Stop, OnGoalResponse, OnGoalResult, Watch, Leave, Abandon;
      GoalResponded(g, accepted);
      Record(GoalResponse(g, accepted), now);
    }

    method OnResult(now: real, g: nat)
      requires Ready(GoalResult(g), now)
      modifies this
      ensures Happened(GoalResult(g), now)
    {
      hide Run, Start, Stop, OnGoalResponse, OnGoalResult, Watch, Leave, Abandon;
      GoalEnded(g);
      Record(GoalResult(g), now);
    }

    method OnWatchTimer(now: real, serverReady: bool)
      requires Ready(WatchTick(serverReady), now)
      modifies this
      ensures Happened(WatchTick(serverReady), now)
    {
      hide Run, Start, Stop, OnGoalResponse, OnGoalResult, Watch, Leave, Abandon;
      WatchClient(now, heartbeatTimeout, serverReady);
      Record(WatchTick(serverReady), now);
    }

    method OnHeartbeat(now: real)
      requires Ready(Heartbeat, now)
      modifies this
      ensures Happened(Heartbeat, now)
    {
      hide Run, Start, Stop, OnGoalResponse, OnGoalResult, Watch, Leave, Abandon;
      lastHeartbeat := Some(now);
      Record(Heartbeat, now);
    }

    method OnStopTimer(now: real)
      requires Ready(StopTimer, now)
      modifies this
      ensures Happened(StopTimer, now)
    {
      hide Run, Start, Stop, OnGoalResponse, OnGoalResult, Watch, Leave, Abandon;
      AbandonGoal(false);
      Record(StopTimer, now);
    }

    method OnConfigure(now: real)
      requires Ready(ConfigureNode, now)
      modifies this
      ensures Happened(ConfigureNode, now)
    {
      hide Run, Start, Stop, OnGoalResponse, OnGoalResult, Watch, Leave, Abandon;
      actionClient := true;
      client := client + 1;
      Record(ConfigureNode, now);
    }

    method OnActivate(now: real)
      requires Ready(ActivateNode, now)
      modifies this
      ensures Happened(ActivateNode, now)
    {
      hide Run, Start, Stop, OnGoalResponse, OnGoalResult, Watch, Leave, Abandon;
      phase := Idle;
      lastWatch := now;
      Record(ActivateNode, now);
    }

    method OnDeactivate(now: real, serverReady: bool)
      requires Ready(DeactivateNode(serverReady), now)
      modifies this
      ensures Happened(DeactivateNode(serverReady), now)
    {
      hide Run, Start, Stop, OnGoalResponse, OnGoalResult, Watch, Leave, Abandon;
      CleanupHelper(now, serverReady);
      Record(DeactivateNode(serverReady), now);
    }

    method OnCleanup(now: real)
      requires Ready(CleanupNode, now)
      modifies this
      ensures Happened(CleanupNode, now)
    {
      hide Run, Start, Stop, OnGoalResponse, OnGoalResult, Watch, Leave, Abandon;
      actionClient := false;
      Record(CleanupNode, now);
    }
  }
}
