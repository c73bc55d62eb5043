/** What holds in every reachable state of the controller's threads. */
module ControllerSafety {
  import opened Options
  import opened Controller

  // ---------------------------------------------------------------- vocabulary
  // Each predicate names exactly the shared variables it depends on.

  /** The worker can still read the trajectory fields. */
  predicate MaySample(w: Worker, active: set<nat>) {
    w.task.Wave? &&
    (w.pc == Loop || w.pc == Guard || w.pc == Sample || w.pc == Write || (w.pc == Begin && w.task.goal in active))
  }

  /** stop_execution() inside stop_activity() has joined, or the node was already stopped. */
  predicate Settled(life: LifePc, mode: Mode) {
    (life.Stopping? && (life.at == StopUnlock || life.at == StopDrive)) || (mode != Active && life != Activated)
  }

  /** The lifecycle thread has taken this goal out of goal_handle_ and is about to abort it. */
  predicate LifeHolds(life: LifePc, goal: nat) {
    life == FaultAbort(Some(goal)) || (life.Stopping? && life.at == AbortTaken(Some(goal)))
  }

  /** A goal callback has begun and its worker has not been started (yet). */
  predicate GoalInProgress(action: ActionPc) {
    match action
    case ActionIdle => false
    case StartingGoal(_, at) => at != Unlock(true)
    case _ => true
  }

  predicate Admitted(at: StartPc) { at == Clear || at == Spawn }

  predicate Emptied(at: StartPc) { at == Check || Admitted(at) || at == Unlock(false) }

  predicate Flagged(at: StartPc) { at == Join || at == Check || at == Clear }

  predicate MayBeTaken(goal: nat, active: set<nat>, held: Option<nat>, life: LifePc) {
    goal in active ==> held == Some(goal) || LifeHolds(life, goal)
  }

  // ---------------------------------------------------------------- the invariant

  predicate ExecInv(exec: Owner, action: ActionPc, ret: ReturnPc, life: LifePc) {
    && (exec == ActionGroup <==> action.StartingGoal? && action.at != Lock)
    && (exec == ReturnService <==> ret.StartingReturn? && ret.at != Lock)
    && (exec == Lifecycle <==> life.Stopping? && (life.at == StopFlag || life.at == StopJoin || life.at == StopUnlock))
  }

  predicate HandleInv(handle: Option<nat>, ids: set<nat>) {
    ids == if handle.Some? then {handle.value} else {}
  }

  predicate EmptyInv(handle: Option<nat>, action: ActionPc, ret: ReturnPc, life: LifePc, mode: Mode) {
    && (action.StartingGoal? && Emptied(action.at) ==> handle.None?)
    && (ret.StartingReturn? && Emptied(ret.at) ==> handle.None?)
    && (Settled(life, mode) ==> handle.None?)
    && (Settled(life, mode) && action.StartingGoal? ==> !Admitted(action.at))
    && (Settled(life, mode) && ret.StartingReturn? ==> !Admitted(ret.at))
  }

  predicate GateInv(accepting: bool, life: LifePc, mode: Mode, actuator: bool) {
    && (accepting ==>
          life == Activated
          || (mode == Active && (life == LifeIdle || life == FaultCloseGate
                                 || (life.Stopping? && life.at == CloseGate))))
    && (life == OpenGate || life == Activated ==> mode == Inactive)
    && (life == FaultTakeGoal || life.FaultAbort? ==> mode == Active)
    && (life.Stopping? && !life.release ==> mode == Active)
    && (mode != Unconfigured ==> actuator)
  }

  predicate FlagInv(stopFlag: bool, action: ActionPc, ret: ReturnPc, life: LifePc) {
    && (action.StartingGoal? && Flagged(action.at) ==> stopFlag)
    && (ret.StartingReturn? && Flagged(ret.at) ==> stopFlag)
    && (life.Stopping? && (life.at == StopJoin || life.at == StopUnlock) ==> stopFlag)
  }

  /** Some thread waits in join(). */
  predicate JoinPending(action: ActionPc, ret: ReturnPc, life: LifePc) {
    || (action.StartingGoal? && action.at == Join)
    || (ret.StartingReturn? && ret.at == Join)
    || (life.Stopping? && life.at == StopJoin)
  }

  /** A worker finds the flag set only while somebody waits for it; a new one is started with it clear. */
  predicate ClearInv(stopFlag: bool, handle: Option<nat>, action: ActionPc, ret: ReturnPc, life: LifePc) {
    && (stopFlag && handle.Some? ==> JoinPending(action, ret, life))
    && (action.StartingGoal? && action.at == Spawn ==> !stopFlag)
    && (ret.StartingReturn? && ret.at == Spawn ==> !stopFlag)
  }

  predicate GoalInv(action: ActionPc, nextGoal: nat, config: Option<nat>, active: set<nat>, held: Option<nat>,
                    life: LifePc) {
    && (action != ActionIdle ==> action.goal < nextGoal)
    && (action.Accepted? || action.StartingGoal? ==> config == Some(action.goal))
    && (action.StartingGoal? && action.at != Unlock(true) ==> MayBeTaken(action.goal, active, held, life))
  }

  predicate WorkerInv(w: Worker, action: ActionPc, nextGoal: nat, config: Option<nat>, accepting: bool,
                      active: set<nat>, held: Option<nat>, life: LifePc) {
    && (w.task.Wave? ==> w.task.goal < nextGoal)
    && (w.task.Wave? && GoalInProgress(action) ==> w.task.goal < action.goal)
    && (MaySample(w, active) ==>
          && config == Some(w.task.goal)
          && (accepting ==> w.task.goal in active)
          && MayBeTaken(w.task.goal, active, held, life)
          && !GoalInProgress(action))
  }

  ghost predicate WorkersInv(s: State) {
    forall id | id in s.workers ::
      WorkerInv(s.workers[id], s.action, s.nextGoal, s.config, s.accepting, s.active, s.held, s.life)
  }

  ghost predicate Inv(s: State) {
    && ExecInv(s.exec, s.action, s.ret, s.life)
    && HandleInv(s.handle, s.workers.Keys)
    && EmptyInv(s.handle, s.action, s.ret, s.life, s.mode)
    && GateInv(s.accepting, s.life, s.mode, s.actuator)
    && FlagInv(s.stopFlag, s.action, s.ret, s.life)
    && ClearInv(s.stopFlag, s.handle, s.action, s.ret, s.life)
    && GoalInv(s.action, s.nextGoal, s.config, s.active, s.held, s.life)
    && WorkersInv(s)
  }

  // ---------------------------------------------------------------- every step keeps it

  lemma GoalArrivesKeeps(s: State, driveReady: bool)
    requires Inv(s) && Enabled(s, GoalArrives(driveReady))
    ensures Inv(Next(s, GoalArrives(driveReady)))
  {}

  lemma GoalPreparedKeeps(s: State, accept: bool)
    requires Inv(s) && Enabled(s, GoalPrepared(accept))
    ensures Inv(Next(s, GoalPrepared(accept)))
  {}

  lemma GoalTakenKeeps(s: State)
    requires Inv(s) && Enabled(s, GoalTaken)
    ensures Inv(Next(s, GoalTaken))
  {}

  lemma DroppedWorker(w: Worker, goal: nat, nextGoal: nat, config: Option<nat>, accepting: bool,
                      active: set<nat>, held: Option<nat>, held2: Option<nat>, life: LifePc)
    requires WorkerInv(w, Dropping(goal), nextGoal, config, accepting, active, held, life)
    ensures WorkerInv(w, Aborting(goal), nextGoal, config, accepting, active, held2, life)
  {}

  lemma DroppedStarter(goal: nat, exec: Owner, handle: Option<nat>, ret: ReturnPc, life: LifePc, mode: Mode,
                       stopFlag: bool)
    ensures ExecInv(exec, Dropping(goal), ret, life) ==> ExecInv(exec, Aborting(goal), ret, life)
    ensures EmptyInv(handle, Dropping(goal), ret, life, mode) ==> EmptyInv(handle, Aborting(goal), ret, life, mode)
    ensures FlagInv(stopFlag, Dropping(goal), ret, life) ==> FlagInv(stopFlag, Aborting(goal), ret, life)
    ensures ClearInv(stopFlag, handle, Dropping(goal), ret, life) ==> ClearInv(stopFlag, handle, Aborting(goal), ret, life)
  {}

  lemma GoalDroppedKeeps(s: State)
    requires Inv(s) && Enabled(s, GoalDropped)
    ensures Inv(Next(s, GoalDropped))
  {
    var t, goal := Next(s, GoalDropped), s.action.goal;
    DroppedStarter(goal, s.exec, s.handle, s.ret, s.life, s.mode, s.stopFlag);
    hide HandleInv, GateInv, ExecInv, EmptyInv, FlagInv, ClearInv, WorkerInv;
    assert t.workers == s.workers;
    forall id | id in t.workers
      ensures WorkerInv(t.workers[id], t.action, t.nextGoal, t.config, t.accepting, t.active, t.held, t.life)
    {
      InvOf(s, id);
      DroppedWorker(s.workers[id], goal, s.nextGoal, s.config, s.accepting, s.active, s.held, t.held, s.life);
    }
  }

  lemma GoalAbortedKeeps(s: State)
    requires Inv(s) && Enabled(s, GoalAborted)
    ensures Inv(Next(s, GoalAborted))
  {}

  lemma GoalStartLocksKeeps(s: State)
    requires Inv(s) && Enabled(s, GoalStart)
    requires s.action.at == Lock || s.action.at == Flag || s.action.at.Unlock?
    ensures Inv(Next(s, GoalStart))
  {
    match s.action.at
    case Lock =>
    case Flag =>
    case Unlock(_) =>
  }

  lemma GoalStartThreadKeeps(s: State)
    requires Inv(s) && Enabled(s, GoalStart)
    requires s.action.at == Join || s.action.at == Check || s.action.at == Clear
    ensures Inv(Next(s, GoalStart))
  {
    match s.action.at
    case Join =>
    case Check =>
    case Clear =>
  }

  lemma GoalStartSpawnKeeps(s: State)
    requires Inv(s) && Enabled(s, GoalStart) && s.action.at == Spawn
    ensures Inv(Next(s, GoalStart))
  {
    NoWorkers(s);
  }

  lemma ReturnStartLocksKeeps(s: State)
    requires Inv(s) && Enabled(s, ReturnStart)
    requires s.ret.at == Lock || s.ret.at == Flag || s.ret.at.Unlock?
    ensures Inv(Next(s, ReturnStart))
  {
    match s.ret.at
    case Lock =>
    case Flag =>
    case Unlock(_) =>
  }

  lemma ReturnStartThreadKeeps(s: State)
    requires Inv(s) && Enabled(s, ReturnStart)
    requires s.ret.at == Join || s.ret.at == Check || s.ret.at == Clear
    ensures Inv(Next(s, ReturnStart))
  {
    match s.ret.at
    case Join =>
    case Check =>
    case Clear =>
  }

  lemma ReturnStartSpawnKeeps(s: State)
    requires Inv(s) && Enabled(s, ReturnStart) && s.ret.at == Spawn
    ensures Inv(Next(s, ReturnStart))
  {
    NoWorkers(s);
  }

  lemma ReturnServiceKeeps(s: State, a: Action)
    requires Inv(s) && Enabled(s, a) && (a.ReturnRequested? || a.ReturnDropped?)
    ensures Inv(Next(s, a))
  {}

  lemma TransitionKeeps(s: State, a: Action)
    requires Inv(s) && Enabled(s, a)
    requires a.Configure? || a.StartDrive? || a.GateOpened? || a.ActivateDone? || a.StopBegins?
    ensures Inv(Next(s, a))
  {
    match a
    case Configure =>
    case StartDrive =>
    case GateOpened =>
    case ActivateDone =>
    case StopBegins(_) =>
  }

  lemma FaultNotedKeeps(s: State, a: Action)
    requires Inv(s) && Enabled(s, a) && (a.DriverFault? || a.FaultTimer?)
    ensures Inv(Next(s, a))
  {
    match a
    case DriverFault =>
    case FaultTimer =>
  }

  lemma FaultCloseKeeps(s: State)
    requires Inv(s) && Enabled(s, FaultStep) && s.life == FaultCloseGate
    ensures Inv(Next(s, FaultStep))
  {}

  lemma FaultTakeKeeps(s: State)
    requires Inv(s) && Enabled(s, FaultStep) && s.life == FaultTakeGoal
    ensures Inv(Next(s, FaultStep))
  {}

  lemma FaultAbortKeeps(s: State)
    requires Inv(s) && Enabled(s, FaultStep) && s.life.FaultAbort?
    ensures Inv(Next(s, FaultStep))
  {
    hide HandleInv;
    var goal := s.life.goal;
    match goal
    case Some(g) =>
      assert Next(s, FaultStep).active == s.active - {g};
    case None =>
  }

  lemma FaultStepKeeps(s: State)
    requires Inv(s) && Enabled(s, FaultStep)
    ensures Inv(Next(s, FaultStep))
  {
    hide Inv;
    match s.life
    case FaultCloseGate => FaultCloseKeeps(s);
    case FaultTakeGoal => FaultTakeKeeps(s);
    case FaultAbort(_) => FaultAbortKeeps(s);
  }

  lemma StopCloseKeeps(s: State)
    requires Inv(s) && Enabled(s, StopStep) && s.life.at == CloseGate
    ensures Inv(Next(s, StopStep))
  {}

  lemma StopTakeKeeps(s: State)
    requires Inv(s) && Enabled(s, StopStep) && s.life.at == TakeGoal
    ensures Inv(Next(s, StopStep))
  {}

  lemma StopAbortKeeps(s: State)
    requires Inv(s) && Enabled(s, StopStep) && s.life.at.AbortTaken?
    ensures Inv(Next(s, StopStep))
  {
    hide HandleInv;
    var goal := s.life.at.goal;
    match goal
    case Some(g) =>
      assert Next(s, StopStep).active == s.active - {g};
    case None =>
  }

  lemma StopJoinKeeps(s: State)
    requires Inv(s) && Enabled(s, StopStep) && s.life.at == StopJoin
    ensures Inv(Next(s, StopStep))
  {}

  lemma StopFlagKeeps(s: State)
    requires Inv(s) && Enabled(s, StopStep) && (s.life.at == StopLock || s.life.at == StopFlag)
    ensures Inv(Next(s, StopStep))
  {
    match s.life.at
    case StopLock =>
    case StopFlag =>
  }

  lemma StopUnlockKeeps(s: State)
    requires Inv(s) && Enabled(s, StopStep) && s.life.at == StopUnlock
    ensures Inv(Next(s, StopStep))
  {
    NoWorkers(s);
    hide HandleInv, WorkerInv;
  }

  lemma StopDriveKeeps(s: State)
    requires Inv(s) && Enabled(s, StopStep) && s.life.at == StopDrive
    ensures Inv(Next(s, StopStep))
  {
    NoWorkers(s);
    hide HandleInv, WorkerInv;
  }

  lemma NoWorkers(s: State)
    requires HandleInv(s.handle, s.workers.Keys) && s.handle.None?
    ensures s.workers == map[]
  {}

  /** Steps that change nothing but the worker's own place. */
  predicate LocalPc(pc: WorkerPc) {
    pc == Begin || pc == Loop || pc == Guard || pc == Sample || pc == Write || pc == Halt || pc == StopDriveNow
  }

  lemma WorkerLoopKeeps(s: State, id: nat, choice: Choice)
    requires Inv(s) && Enabled(s, WorkerStep(id, choice)) && LocalPc(s.workers[id].pc)
    ensures Inv(Next(s, WorkerStep(id, choice)))
  {
    hide ExecInv, EmptyInv, GateInv, FlagInv, ClearInv, GoalInv;
    var w := s.workers[id];
    var t := Next(s, WorkerStep(id, choice));
    assert t == s.(workers := t.workers);
    OnlyWorker(s, id);
    assert t.workers == map[id := Worker(w.task, WorkerPcAfter(s, w, choice))];
    match w.pc
    case Begin =>
    case Loop =>
    case Guard =>
    case Sample =>
    case Write =>
    case Halt =>
    case StopDriveNow =>
  }

  lemma OnlyWorker(s: State, id: nat)
    requires HandleInv(s.handle, s.workers.Keys) && id in s.workers
    ensures s.workers == map[id := s.workers[id]]
  {}

  /** A worker on its way out constrains nothing but the goal numbers. */
  predicate Leaving(pc: WorkerPc) {
    pc == Reset || pc == Finish || pc == NoteFault || pc == StopDriveNow || pc == Done
  }

  lemma LeavingInv(w: Worker, v: Worker, action: ActionPc, nextGoal: nat, config: Option<nat>,
                   accepting: bool, active: set<nat>, held: Option<nat>, life: LifePc,
                   accepting2: bool, active2: set<nat>, held2: Option<nat>)
    requires WorkerInv(w, action, nextGoal, config, accepting, active, held, life)
    requires v.task == w.task && Leaving(v.pc)
    ensures WorkerInv(v, action, nextGoal, config, accepting2, active2, held2, life)
  {}

  lemma ResetKeepsGoal(w: Worker, action: ActionPc, nextGoal: nat, config: Option<nat>, accepting: bool,
                       active: set<nat>, held: Option<nat>, life: LifePc)
    requires WorkerInv(w, action, nextGoal, config, accepting, active, held, life) && w.task.Wave?
    requires GoalInv(action, nextGoal, config, active, held, life)
    ensures held == Some(w.task.goal) ==> GoalInv(action, nextGoal, config, active, None, life)
    ensures GoalInv(action, nextGoal, config, active - {w.task.goal}, held, life)
  {}

  /** Replacing the only worker by one on its way out. */
  lemma ReplacedByLeaving(s: State, id: nat, t: State, v: Worker)
    requires HandleInv(s.handle, s.workers.Keys) && id in s.workers && WorkersInv(s)
    requires t.workers == s.workers[id := v] && v.task == s.workers[id].task && Leaving(v.pc)
    requires t.action == s.action && t.nextGoal == s.nextGoal && t.config == s.config && t.life == s.life
    ensures WorkersInv(t) && t.workers.Keys == s.workers.Keys
  {
    OnlyWorker(s, id);
    hide WorkerInv, HandleInv;
    LeavingInv(s.workers[id], v, s.action, s.nextGoal, s.config, s.accepting, s.active, s.held, s.life,
               t.accepting, t.active, t.held);
  }

  lemma WorkerEndsGoalKeeps(s: State, id: nat, choice: Choice)
    requires Inv(s) && Enabled(s, WorkerStep(id, choice))
    requires s.workers[id].pc == Succeed || s.workers[id].pc == Finish
    ensures Inv(Next(s, WorkerStep(id, choice)))
  {
    hide ExecInv, EmptyInv, GateInv, FlagInv, ClearInv, GoalInv, WorkerInv, WorkersInv, HandleInv;
    var w, t := s.workers[id], Next(s, WorkerStep(id, choice));
    var v := Worker(w.task, if w.pc == Succeed then Reset else Done);
    assert t.workers == s.workers[id := v];
    ReplacedByLeaving(s, id, t, v);
    if w.task.Wave? {
      InvOf(s, id);
      ResetKeepsGoal(w, s.action, s.nextGoal, s.config, s.accepting, s.active, s.held, s.life);
    }
  }

  lemma InvOf(s: State, id: nat)
    requires WorkersInv(s) && id in s.workers
    ensures WorkerInv(s.workers[id], s.action, s.nextGoal, s.config, s.accepting, s.active, s.held, s.life)
  {}

  lemma WorkerNotesFaultKeeps(s: State, id: nat, choice: Choice)
    requires Inv(s) && Enabled(s, WorkerStep(id, choice)) && s.workers[id].pc == NoteFault
    ensures Inv(Next(s, WorkerStep(id, choice)))
  {
    hide ExecInv, EmptyInv, GateInv, FlagInv, ClearInv, GoalInv, WorkerInv, WorkersInv, HandleInv;
    var w, t := s.workers[id], Next(s, WorkerStep(id, choice));
    var v := Worker(w.task, StopDriveNow);
    assert t.workers == s.workers[id := v];
    ReplacedByLeaving(s, id, t, v);
  }

  lemma WorkerResetKeeps(s: State, id: nat, choice: Choice)
    requires Inv(s) && Enabled(s, WorkerStep(id, choice)) && s.workers[id].pc == Reset
    ensures Inv(Next(s, WorkerStep(id, choice)))
  {
    hide ExecInv, EmptyInv, GateInv, FlagInv, ClearInv, GoalInv, WorkerInv, WorkersInv, HandleInv;
    var w, t := s.workers[id], Next(s, WorkerStep(id, choice));
    var v := Worker(w.task, Finish);
    assert t.workers == s.workers[id := v];
    ReplacedByLeaving(s, id, t, v);
    if w.task.Wave? {
      InvOf(s, id);
      ResetKeepsGoal(w, s.action, s.nextGoal, s.config, s.accepting, s.active, s.held, s.life);
    }
  }

  lemma GateCloses(accepting: bool, life: LifePc, mode: Mode, actuator: bool)
    requires GateInv(accepting, life, mode, actuator)
    ensures GateInv(false, life, mode, actuator)
  {}

  lemma WorkerFailKeeps(s: State, id: nat, choice: Choice)
    requires Inv(s) && Enabled(s, WorkerStep(id, choice)) && s.workers[id].pc == Fail
    ensures Inv(Next(s, WorkerStep(id, choice)))
  {
    hide ExecInv, EmptyInv, GateInv, FlagInv, ClearInv, GoalInv, WorkerInv, WorkersInv, HandleInv;
    var w, t := s.workers[id], Next(s, WorkerStep(id, choice));
    var v := Worker(w.task, NoteFault);
    assert t.workers == s.workers[id := v];
    ReplacedByLeaving(s, id, t, v);
    GateCloses(s.accepting, s.life, s.mode, s.actuator);
    if w.task.Wave? {
      InvOf(s, id);
      ResetKeepsGoal(w, s.action, s.nextGoal, s.config, s.accepting, s.active, s.held, s.life);
    }
  }

  lemma GroupStepKeeps(s: State, a: Action)
    requires Inv(s) && Enabled(s, a)
    requires a.GoalArrives? || a.GoalPrepared? || a.GoalTaken? || a.GoalStart? || a.GoalDropped? || a.GoalAborted?
      || a.ReturnStart? || a.ReturnRequested? || a.ReturnDropped?
    ensures Inv(Next(s, a))
  {
    hide Inv;
    match a
    case GoalArrives(driveReady) => GoalArrivesKeeps(s, driveReady);
    case GoalPrepared(accept) => GoalPreparedKeeps(s, accept);
    case GoalTaken => GoalTakenKeeps(s);
    case GoalStart =>
      if s.action.at == Lock || s.action.at == Flag || s.action.at.Unlock? {
        GoalStartLocksKeeps(s);
      } else if s.action.at == Spawn {
        GoalStartSpawnKeeps(s);
      } else {
        GoalStartThreadKeeps(s);
      }
    case GoalDropped => GoalDroppedKeeps(s);
    case GoalAborted => GoalAbortedKeeps(s);
    case ReturnStart =>
      if s.ret.at == Lock || s.ret.at == Flag || s.ret.at.Unlock? {
        ReturnStartLocksKeeps(s);
      } else if s.ret.at == Spawn {
        ReturnStartSpawnKeeps(s);
      } else {
        ReturnStartThreadKeeps(s);
      }
    case ReturnRequested(_) => ReturnServiceKeeps(s, a);
    case ReturnDropped => ReturnServiceKeeps(s, a);
  }

  lemma StopStepKeeps(s: State)
    requires Inv(s) && Enabled(s, StopStep)
    ensures Inv(Next(s, StopStep))
  {
    hide Inv;
    match s.life.at
    case CloseGate => StopCloseKeeps(s);
    case TakeGoal => StopTakeKeeps(s);
    case AbortTaken(_) => StopAbortKeeps(s);
    case StopLock => StopFlagKeeps(s);
    case StopFlag => StopFlagKeeps(s);
    case StopJoin => StopJoinKeeps(s);
    case StopUnlock => StopUnlockKeeps(s);
    case StopDrive => StopDriveKeeps(s);
  }

  lemma WorkerStepKeeps(s: State, id: nat, choice: Choice)
    requires Inv(s) && Enabled(s, WorkerStep(id, choice))
    ensures Inv(Next(s, WorkerStep(id, choice)))
  {
    hide Inv;
    match s.workers[id].pc
    case Succeed => WorkerEndsGoalKeeps(s, id, choice);
    case Finish => WorkerEndsGoalKeeps(s, id, choice);
    case NoteFault => WorkerNotesFaultKeeps(s, id, choice);
    case Reset => WorkerResetKeeps(s, id, choice);
    case Fail => WorkerFailKeeps(s, id, choice);
    case Done =>
    case _ => WorkerLoopKeeps(s, id, choice);
  }

  lemma StepKeepsInv(s: State, a: Action)
    requires Inv(s) && Enabled(s, a)
    ensures Inv(Next(s, a))
  {
    hide Inv;
    match a
    case DriverFault => FaultNotedKeeps(s, a);
    case FaultTimer => FaultNotedKeeps(s, a);
    case FaultStep => FaultStepKeeps(s);
    case StopStep => StopStepKeeps(s);
    case WorkerStep(id, choice) => WorkerStepKeeps(s, id, choice);
    case Configure => TransitionKeeps(s, a);
    case StartDrive => TransitionKeeps(s, a);
    case GateOpened => TransitionKeeps(s, a);
    case ActivateDone => TransitionKeeps(s, a);
    case StopBegins(_) => TransitionKeeps(s, a);
    case _ => GroupStepKeeps(s, a);
  }

  lemma {:induction false} RunKeepsInv(states: seq<State>, actions: seq<Action>, i: nat)
    requires Run(states, actions) && i < |states|
    ensures Inv(states[i])
  {
    if i > 0 {
      RunKeepsInv(states, actions, i - 1);
      StepKeepsInv(states[i - 1], actions[i - 1]);
    }
  }
}
