/** The controller's promises about its worker threads, over every run of the transition system. */
module ControllerTheorems {
  import opened Options
  import opened Controller
  import opened ControllerSafety

  // ---------------------------------------------------------------- frames

  lemma StartFrame(s: State, who: Owner, at: StartPc, task: Task)
    ensures var t := StartStep(s, who, at, task).0;
      && t == s.(exec := t.exec, stopFlag := t.stopFlag, handle := t.handle, workers := t.workers,
                 nextWorker := t.nextWorker)
      && (at != Spawn ==> t.nextWorker == s.nextWorker)
      && (at != Spawn && at != Join ==> t.handle == s.handle && t.workers == s.workers)
      && (at == Join ==> t.handle.None?)
  {
    match at
    case Spawn =>
    case _ =>
  }

  lemma AbortFrame(s: State, goal: Option<nat>)
    ensures AbortGoal(s, goal) == s.(active := AbortGoal(s, goal).active)
  {}

  lemma StopFrame(s: State)
    requires s.life.Stopping?
    ensures var t := StopNext(s, s.life.at, s.life.release);
      t.config == s.config && t.nextWorker == s.nextWorker
  {
    if s.life.at.AbortTaken? {
      AbortFrame(s, s.life.at.goal);
    }
    hide AbortGoal;
    match s.life.at
    case CloseGate =>
    case TakeGoal =>
    case AbortTaken(_) =>
    case StopLock =>
    case StopFlag =>
    case StopJoin =>
    case StopUnlock =>
    case StopDrive =>
  }

  lemma StopKeepsWorker(s: State)
    requires s.life.Stopping? && s.life.at != StopJoin
    ensures var t := StopNext(s, s.life.at, s.life.release);
      t.handle == s.handle && t.workers == s.workers
  {
    if s.life.at.AbortTaken? {
      AbortFrame(s, s.life.at.goal);
    }
    hide AbortGoal;
    match s.life.at
    case CloseGate =>
    case TakeGoal =>
    case AbortTaken(_) =>
    case StopLock =>
    case StopFlag =>
    case StopUnlock =>
    case StopDrive =>
  }

  lemma StopWorkerFrame(s: State)
    requires s.life.Stopping?
    ensures var t := StopNext(s, s.life.at, s.life.release);
      (t.handle == s.handle && t.workers == s.workers) || t.handle.None?
  {
    if s.life.at != StopJoin {
      hide StopNext;
      StopKeepsWorker(s);
    }
  }

  lemma WorkerFrame(s: State, w: Worker)
    ensures var t := WorkerEffect(s, w);
      t.config == s.config && t.nextWorker == s.nextWorker && t.handle == s.handle && t.life == s.life
      && t.mode == s.mode
  {
    match w.pc
    case Reset => { if w.task.Wave? { ResetFrame(s, w.task); } }
    case Fail => { if w.task.Wave? { ResetFrame(s.(accepting := false), w.task); } }
    case _ =>
  }

  lemma ResetFrame(s: State, task: Task)
    requires task.Wave?
    ensures var t := ResetGoal(s, task.goal);
      t.config == s.config && t.nextWorker == s.nextWorker && t.handle == s.handle && t.life == s.life
      && t.mode == s.mode
  {}

  // ---------------------------------------------------------------- one worker

  predicate Running(s: State, id: nat) { id in s.workers && s.workers[id].pc != Done }

  /** Whatever the interleaving, two worker threads never run at the same time; and a thread object
      that still owns a thread is never assigned a new one. */
  lemma AtMostOneWorker(states: seq<State>, actions: seq<Action>, i: nat, id1: nat, id2: nat)
    requires Run(states, actions) && i < |states|
    ensures Running(states[i], id1) && Running(states[i], id2) ==> id1 == id2
    ensures i < |actions| && states[i + 1].nextWorker != states[i].nextWorker
      ==> states[i].handle.None? && states[i].workers == map[]
  {
    RunKeepsInv(states, actions, i);
    var s := states[i];
    if i < |actions| && states[i + 1].nextWorker != s.nextWorker {
      SpawnStep(s, actions[i]);
      NoWorkers(s);
    }
  }

  predicate Spawns(s: State, a: Action) {
    (a == GoalStart && s.action.StartingGoal? && s.action.at == Spawn)
    || (a == ReturnStart && s.ret.StartingReturn? && s.ret.at == Spawn)
  }

  lemma SpawnStep(s: State, a: Action)
    requires Enabled(s, a) && Next(s, a).nextWorker != s.nextWorker
    ensures Spawns(s, a)
  {
    FrameOf(s, a);
  }

  /** Only a thread start uses up a worker number, and only goal_callback configures a trajectory. */
  lemma FrameOf(s: State, a: Action)
    requires Enabled(s, a)
    ensures !Spawns(s, a) ==> Next(s, a).nextWorker == s.nextWorker
    ensures !a.GoalPrepared? ==> Next(s, a).config == s.config
  {
    hide StartStep, StopNext, WorkerEffect, WorkerPcAfter;
    if a.GoalStart? {
      StartFrame(s, ActionGroup, s.action.at, Wave(s.action.goal));
    } else if a.ReturnStart? {
      StartFrame(s, ReturnService, s.ret.at, Return);
    } else if a.StopStep? {
      StopFrame(s);
    } else if a.WorkerStep? {
      WorkerFrame(s, s.workers[a.id]);
    } else {
      ShortFrame(s, a);
    }
  }

  lemma ShortFrame(s: State, a: Action)
    requires Enabled(s, a) && !a.GoalStart? && !a.ReturnStart? && !a.StopStep? && !a.WorkerStep?
    ensures Next(s, a).nextWorker == s.nextWorker
    ensures !a.GoalPrepared? ==> Next(s, a).config == s.config
  {
    match a
    case GoalArrives(_) =>
    case GoalPrepared(_) =>
    case GoalTaken =>
    case GoalDropped =>
    case GoalAborted =>
    case ReturnRequested(_) =>
    case ReturnDropped =>
    case Configure =>
    case StartDrive =>
    case GateOpened =>
    case ActivateDone =>
    case StopBegins(_) =>
    case DriverFault =>
    case FaultTimer =>
    case FaultStep => {
      if s.life.FaultAbort? {
        AbortFrame(s, s.life.goal);
      }
      hide AbortGoal;
    }
  }

  // ---------------------------------------------------------------- stopping

  lemma SettledStep(s: State, a: Action)
    requires Inv(s) && Enabled(s, a) && Settled(s.life, s.mode) && a != GateOpened
    ensures Settled(Next(s, a).life, Next(s, a).mode)
  {
    hide StartStep, WorkerEffect, WorkerPcAfter, Inv, Settled;
    match a
    case GoalStart => StartFrame(s, ActionGroup, s.action.at, Wave(s.action.goal));
    case ReturnStart => StartFrame(s, ReturnService, s.ret.at, Return);
    case StopStep => SettledStop(s);
    case WorkerStep(id, choice) => WorkerFrame(s, s.workers[id]);
    case _ => SettledShort(s, a);
  }

  lemma SettledStop(s: State)
    requires Inv(s) && Enabled(s, StopStep) && Settled(s.life, s.mode)
    ensures Settled(Next(s, StopStep).life, Next(s, StopStep).mode)
  {
    hide WorkersInv, GoalInv, FlagInv, ClearInv, EmptyInv, HandleInv, ExecInv;
    match s.life.at { case StopDrive => case _ => }
  }

  lemma SettledShort(s: State, a: Action)
    requires Inv(s) && Enabled(s, a) && Settled(s.life, s.mode) && a != GateOpened
    requires !a.GoalStart? && !a.ReturnStart? && !a.StopStep? && !a.WorkerStep?
    ensures Settled(Next(s, a).life, Next(s, a).mode)
  {
    hide WorkersInv, GoalInv, FlagInv, ClearInv, EmptyInv, HandleInv, ExecInv, AbortGoal;
    match a
    case GoalArrives(_) =>
    case GoalPrepared(_) =>
    case GoalTaken =>
    case GoalDropped =>
    case GoalAborted => AbortFrame(s, Some(s.action.goal));
    case ReturnRequested(_) =>
    case ReturnDropped =>
    case Configure =>
    case StartDrive =>
    case ActivateDone =>
    case StopBegins(_) =>
    case DriverFault =>
    case FaultTimer =>
    case FaultStep => { match s.life { case FaultAbort(goal) => AbortFrame(s, goal); case _ => } }
  }

  lemma {:induction false} StaysSettled(states: seq<State>, actions: seq<Action>, i: nat, j: nat)
    requires Run(states, actions) && i <= j < |states| && Settled(states[i].life, states[i].mode)
    requires forall k | i <= k < j :: actions[k] != GateOpened
    ensures Settled(states[j].life, states[j].mode)
  {
    if i < j {
      StaysSettled(states, actions, i, j - 1);
      RunKeepsInv(states, actions, j - 1);
      SettledStep(states[j - 1], actions[j - 1]);
    }
  }

  /** Once stop_execution() inside stop_activity() has joined, no worker exists, and none can be
      started by any thread, however late its start_execution() call, until the lifecycle thread sets
      accepting_goals_ again. */
  lemma StoppedStaysStopped(states: seq<State>, actions: seq<Action>, i: nat, j: nat)
    requires Run(states, actions) && i < j < |states|
    requires actions[i] == StopStep && states[i].life.at == StopJoin
    requires forall k | i < k < j :: actions[k] != GateOpened
    ensures states[j].workers == map[] && states[j].handle.None?
  {
    assert Enabled(states[i], actions[i]) && states[i + 1] == Next(states[i], actions[i]);
    StaysSettled(states, actions, i + 1, j);
    RunKeepsInv(states, actions, j);
    NoWorkers(states[j]);
  }

  /** The drive object outlives every worker: whenever a worker exists the actuator does too. */
  lemma ActuatorOutlivesWorkers(states: seq<State>, actions: seq<Action>, i: nat, id: nat)
    requires Run(states, actions) && i < |states|
    ensures id in states[i].workers || states[i].accepting ==> states[i].actuator
  {
    RunKeepsInv(states, actions, i);
  }

  // ---------------------------------------------------------------- the trajectory

  /** The trajectory fields change only while no worker can still sample them. */
  lemma NoReconfigurationUnderSampling(states: seq<State>, actions: seq<Action>, i: nat, id: nat)
    requires Run(states, actions) && i < |actions|
    requires states[i + 1].config != states[i].config || states[i].action.Preparing?
    ensures id in states[i].workers ==> !MaySample(states[i].workers[id], states[i].active)
  {
    RunKeepsInv(states, actions, i);
    var s := states[i];
    FrameOf(s, actions[i]);
    if id in s.workers {
      InvOf(s, id);
    }
  }

  /** Every sample a worker takes is of the trajectory that was prepared for its own goal. */
  lemma SamplesOwnTrajectory(states: seq<State>, actions: seq<Action>, i: nat, id: nat)
    requires Run(states, actions) && i < |states| && id in states[i].workers
    requires states[i].workers[id].task.Wave? && states[i].workers[id].pc == Sample
    ensures states[i].config == Some(states[i].workers[id].task.goal)
  {
    RunKeepsInv(states, actions, i);
    InvOf(states[i], id);
  }

  // ---------------------------------------------------------------- progress

  /** Everything that can be in the middle of something. */
  datatype Thread = Actions | Returns | Transitions | Work(id: nat)

  predicate Unfinished(s: State, t: Thread) {
    match t
    case Actions => s.action != ActionIdle
    case Returns => s.ret != ReturnIdle
    case Transitions => s.life != LifeIdle
    case Work(id) => id in s.workers && s.workers[id].pc != Done
  }

  /** The thread's own next step. */
  function StepOf(s: State, t: Thread): Action
    requires Unfinished(s, t)
  {
    match t
    case Actions =>
      (match s.action
       case Preparing(_) => GoalPrepared(true)
       case Accepted(_) => GoalTaken
       case Dropping(_) => GoalDropped
       case Aborting(_) => GoalAborted
       case _ => GoalStart)
    case Returns => if s.ret == DroppingReturn then ReturnDropped else ReturnStart
    case Transitions =>
      (match s.life
       case OpenGate => GateOpened
       case Activated => ActivateDone
       case Stopping(_, _) => StopStep
       case _ => FaultStep)
    case Work(id) => WorkerStep(id, Proceed)
  }

  datatype Need = Nothing | ExecutionLock | GoalLock | Joined

  function StartNeed(at: StartPc): Need {
    match at
    case Lock => ExecutionLock
    case Join => Joined
    case Check => GoalLock
    case _ => Nothing
  }

  /** What the next step has to wait for. */
  function NeedOf(s: State, t: Thread): Need
    requires Unfinished(s, t)
  {
    match t
    case Actions => if s.action.StartingGoal? then StartNeed(s.action.at) else Nothing
    case Returns => if s.ret == DroppingReturn then GoalLock else StartNeed(s.ret.at)
    case Transitions =>
      (match s.life
       case OpenGate => GoalLock
       case FaultCloseGate => GoalLock
       case FaultTakeGoal => GoalLock
       case Stopping(CloseGate, _) => GoalLock
       case Stopping(TakeGoal, _) => GoalLock
       case Stopping(StopLock, _) => ExecutionLock
       case Stopping(StopJoin, _) => Joined
       case _ => Nothing)
    case Work(id) => if NeedsGoalMutex(s.workers[id].pc) then GoalLock else Nothing
  }

  /** Who holds what the thread waits for: the owner of the lock, the callback preparing a goal, or the
      worker to be joined. */
  function BlockedBy(s: State, t: Thread): Option<Thread>
    requires Unfinished(s, t)
  {
    match NeedOf(s, t)
    case Nothing => None
    case GoalLock => if GoalMutexFree(s) then None else Some(Actions)
    case Joined => if Joinable(s) then None else Some(Work(s.handle.value))
    case ExecutionLock =>
      match s.exec
      case NoOne => None
      case ActionGroup => Some(Actions)
      case ReturnService => Some(Returns)
      case Lifecycle => Some(Transitions)
  }

  /** A thread can take its own next step exactly when nobody holds what it waits for. */
  lemma CanStepIff(s: State, t: Thread)
    requires Unfinished(s, t)
    ensures Enabled(s, StepOf(s, t)) <==> BlockedBy(s, t).None?
  {
    match t
    case Actions => match s.action { case StartingGoal(_, at) => StartBlocked(s, at); case _ => }
    case Returns => match s.ret { case StartingReturn(at) => StartBlocked(s, at); case _ => }
    case Transitions => match s.life { case Stopping(at, _) => StopBlocked(s, at); case _ => }
    case Work(_) =>
  }

  lemma StartBlocked(s: State, at: StartPc)
    ensures StartEnabled(s, at)
            <==> match StartNeed(at)
                 case Nothing => true
                 case GoalLock => GoalMutexFree(s)
                 case Joined => Joinable(s)
                 case ExecutionLock => s.exec == NoOne
  {}

  lemma StopBlocked(s: State, at: StopPc)
    requires s.life.Stopping? && s.life.at == at
    ensures StopEnabled(s, at)
            <==> match NeedOf(s, Transitions)
                 case Nothing => true
                 case GoalLock => GoalMutexFree(s)
                 case Joined => Joinable(s)
                 case ExecutionLock => s.exec == NoOne
  {}

  /** How far a thread can be from the end of a chain of waiting. */
  function Depth(s: State, t: Thread): nat
    requires Unfinished(s, t)
  {
    match NeedOf(s, t)
    case Nothing => 0
    case GoalLock => 1
    case Joined => 2
    case ExecutionLock => 3
  }

  /** Waiting is never circular: whoever is waited for is itself unfinished and nearer the end. */
  lemma BlockerIsNearer(s: State, t: Thread)
    requires Inv(s) && Unfinished(s, t) && BlockedBy(s, t).Some?
    ensures Unfinished(s, BlockedBy(s, t).value) && Depth(s, BlockedBy(s, t).value) < Depth(s, t)
  {
    hide WorkersInv, GoalInv, FlagInv, ClearInv, GateInv, EmptyInv;
    match NeedOf(s, t)
    case Nothing =>
    case GoalLock =>
    case Joined =>
    case ExecutionLock =>
      match s.exec {
        case NoOne =>
        case ActionGroup =>
        case ReturnService =>
        case Lifecycle =>
      }
  }

  /** From t along who waits for whom. */
  ghost predicate WaitChain(s: State, chain: seq<Thread>) {
    && chain != [] && (forall k | 0 <= k < |chain| :: Unfinished(s, chain[k]))
    && (forall k | 0 <= k < |chain| - 1 :: BlockedBy(s, chain[k]) == Some(chain[k + 1]))
  }

  lemma {:induction false} FollowBlockers(s: State, t: Thread) returns (chain: seq<Thread>)
    requires Inv(s) && Unfinished(s, t)
    ensures WaitChain(s, chain) && chain[0] == t && |chain| <= Depth(s, t) + 1
    ensures Enabled(s, StepOf(s, chain[|chain| - 1]))
    decreases Depth(s, t)
  {
    CanStepIff(s, t);
    hide Inv, Enabled, StepOf, BlockedBy, Unfinished, Depth;
    if BlockedBy(s, t).None? {
      chain := [t];
    } else {
      BlockerIsNearer(s, t);
      var rest := FollowBlockers(s, BlockedBy(s, t).value);
      chain := [t] + rest;
    }
  }

  /** No deadlock, not even a partial one: in every reachable state, for every unfinished callback and
      worker, following who waits for whom leads after at most three links to a thread that can take its
      own next step. */
  lemma NoDeadlock(states: seq<State>, actions: seq<Action>, i: nat, t: Thread) returns (chain: seq<Thread>)
    requires Run(states, actions) && i < |states| && Unfinished(states[i], t)
    ensures WaitChain(states[i], chain) && chain[0] == t && |chain| <= 4
    ensures Enabled(states[i], StepOf(states[i], chain[|chain| - 1]))
  {
    RunKeepsInv(states, actions, i);
    chain := FollowBlockers(states[i], t);
  }

  // ---------------------------------------------------------------- joins end

  predicate Joining(s: State) { JoinPending(s.action, s.ret, s.life) }

  /** How many more steps a worker can take once it is told to stop. */
  function Rank(pc: WorkerPc): nat {
    match pc
    case Done => 0
    case Finish => 1
    case Reset => 2
    case StopDriveNow => 2
    case Halt => 3
    case Succeed => 3
    case NoteFault => 3
    case Fail => 4
    case Loop => 5
    case Begin => 6
    case Write => 6
    case Sample => 7
    case Guard => 8
  }

  function Remaining(s: State): nat {
    if s.handle.Some? && s.handle.value in s.workers then Rank(s.workers[s.handle.value].pc) else 0
  }

  lemma WorkerAdvances(s: State, id: nat, choice: Choice)
    requires Enabled(s, WorkerStep(id, choice)) && s.stopFlag
    ensures Rank(WorkerPcAfter(s, s.workers[id], choice)) < Rank(s.workers[id].pc)
  {}

  /** While some thread waits in join(), the stop flag stays set, no new worker appears, and each step
      of the worker brings it closer to its end. */
  lemma JoinStep(s: State, a: Action)
    requires Inv(s) && Enabled(s, a) && Joining(s) && Joining(Next(s, a))
    ensures Remaining(Next(s, a)) <= Remaining(s)
    ensures a.WorkerStep? ==> Remaining(Next(s, a)) < Remaining(s)
  {
    if a.WorkerStep? {
      WorkerHandle(s, a.id, a.choice);
      JoinersSetFlag(s);
      WorkerAdvances(s, a.id, a.choice);
    } else {
      OthersLeaveWorker(s, a);
    }
  }

  lemma JoinersSetFlag(s: State)
    requires Inv(s) && Joining(s)
    ensures s.stopFlag
  {}

  lemma OnlyOneInside(s: State)
    requires Inv(s) && Joining(s)
    ensures s.action.StartingGoal? ==> s.action.at != Spawn
    ensures s.ret.StartingReturn? ==> s.ret.at != Spawn
  {}

  lemma SameWorker(s: State, t: State)
    requires (t.handle == s.handle && t.workers == s.workers) || t.handle.None?
    ensures Remaining(t) <= Remaining(s)
  {}

  lemma OthersLeaveWorker(s: State, a: Action)
    requires Inv(s) && Enabled(s, a) && Joining(s) && !a.WorkerStep?
    ensures Remaining(Next(s, a)) <= Remaining(s)
  {
    hide Remaining, StartStep, StopNext, WorkerEffect, WorkerPcAfter;
    OnlyOneInside(s);
    hide Inv, Joining, AbortGoal;
    match a {
      case GoalStart => StartFrame(s, ActionGroup, s.action.at, Wave(s.action.goal));
      case ReturnStart => StartFrame(s, ReturnService, s.ret.at, Return);
      case StopStep => StopWorkerFrame(s);
      case GoalAborted => AbortFrame(s, Some(s.action.goal));
      case FaultStep => { match s.life { case FaultAbort(goal) => AbortFrame(s, goal); case _ => } }
      case GoalArrives(_) =>
      case GoalPrepared(_) =>
      case GoalTaken =>
      case GoalDropped =>
      case _ =>
    }
    SameWorker(s, Next(s, a));
  }

  lemma WorkerHandle(s: State, id: nat, choice: Choice)
    requires Inv(s) && Enabled(s, WorkerStep(id, choice))
    ensures Remaining(s) == Rank(s.workers[id].pc)
    ensures Remaining(Next(s, WorkerStep(id, choice))) == Rank(WorkerPcAfter(s, s.workers[id], choice))
  {
    hide WorkerEffect, WorkerPcAfter, Rank;
    OnlyWorker(s, id);
    WorkerFrame(s, s.workers[id]);
  }

  function WorkerSteps(actions: seq<Action>, i: nat, j: nat): nat
    requires i <= j <= |actions|
  {
    if i == j then 0 else WorkerSteps(actions, i, j - 1) + (if actions[j - 1].WorkerStep? then 1 else 0)
  }

  lemma RunStep(states: seq<State>, actions: seq<Action>, k: nat)
    requires Run(states, actions) && k < |actions|
    ensures Enabled(states[k], actions[k]) && states[k + 1] == Next(states[k], actions[k])
  {}

  lemma RemainingBound(s: State)
    ensures Remaining(s) <= 8
  {}

  /** A join never waits long: over any stretch of a run in which a thread waits in join(), the worker
      takes at most eight steps, and it needs no lock that the waiting thread holds. */
  lemma {:induction false} JoinIsShort(states: seq<State>, actions: seq<Action>, i: nat, j: nat)
    requires Run(states, actions) && i <= j < |states|
    requires forall k | i <= k <= j :: Joining(states[k])
    ensures WorkerSteps(actions, i, j) + Remaining(states[j]) <= Remaining(states[i]) <= 8
  {
    RemainingBound(states[i]);
    if i < j {
      JoinIsShort(states, actions, i, j - 1);
      RunKeepsInv(states, actions, j - 1);
      RunStep(states, actions, j - 1);
      assert Joining(states[j - 1]) && Joining(states[j]);
      hide Joining, Remaining, Inv, Enabled, Run;
      JoinStep(states[j - 1], actions[j - 1]);
    }
  }
}
