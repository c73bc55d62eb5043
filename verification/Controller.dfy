/** The threads of the controller node as a transition system: the action callback group, the return
    service, the lifecycle and fault-timer group, and the worker threads they start. One step is one
    lock acquisition or release, one flag store, one join, one thread start, or one short section
    under goal_mutex_. The section in which goal_callback prepares a goal is split in two, because
    workers read the trajectory without taking that mutex. */
module Controller {
  import opened Options

  datatype Owner = NoOne | ActionGroup | ReturnService | Lifecycle

  /** start_execution(), named by the operation to perform next. */
  datatype StartPc = Lock | Flag | Join | Check | Clear | Spawn | Unlock(started: bool)

  datatype ActionPc =
    | ActionIdle
    | Preparing(goal: nat)           // goal_callback, holding goal_mutex_
    | Accepted(goal: nat)            // before the section of handle_accepted_callback
    | StartingGoal(goal: nat, at: StartPc)
    | Dropping(goal: nat)            // start_execution refused
    | Aborting(goal: nat)

  datatype ReturnPc = ReturnIdle | StartingReturn(at: StartPc) | DroppingReturn

  /** stop_activity(), named by the operation to perform next. */
  datatype StopPc = CloseGate | TakeGoal | AbortTaken(goal: Option<nat>) | StopLock | StopFlag | StopJoin
                  | StopUnlock | StopDrive

  datatype LifePc =
    | LifeIdle
    | OpenGate                       // on_activate, drive started
    | Activated                      // goals accepted, lifecycle state about to become active
    | Stopping(at: StopPc, release: bool)
    | FaultCloseGate                 // process_driver_fault
    | FaultTakeGoal
    | FaultAbort(goal: Option<nat>)

  datatype Mode = Unconfigured | Inactive | Active

  datatype Task = Wave(goal: nat) | Return

  datatype WorkerPc =
    | Begin                          // goal_handle->execute()
    | Loop                           // reads stop_execution_
    | Guard                          // cancel, soft stop and fault checks
    | Sample                         // reads the trajectory
    | Write                          // writes the setpoint
    | Succeed | Halt | Reset         // the ordinary ways out
    | Fail | NoteFault | StopDriveNow  // a refused setpoint
    | Finish                         // abort_goal() or the service reply
    | Done

  datatype Worker = Worker(task: Task, pc: WorkerPc)

  datatype State = State(
    accepting: bool, pending: bool, returning: bool, held: Option<nat>, active: set<nat>,
    stopFlag: bool, exec: Owner, handle: Option<nat>, workers: map<nat, Worker>,
    action: ActionPc, ret: ReturnPc, life: LifePc, mode: Mode, actuator: bool, faultPending: bool,
    config: Option<nat>, nextGoal: nat, nextWorker: nat)

  datatype Choice = Proceed | Interrupt | Complete | Refuse

  datatype Action =
    | GoalArrives(driveReady: bool)
    | GoalPrepared(accept: bool)
    | GoalTaken
    | GoalStart
    | GoalDropped
    | GoalAborted
    | ReturnRequested(driveReady: bool)
    | ReturnStart
    | ReturnDropped
    | Configure
    | StartDrive
    | GateOpened
    | ActivateDone
    | StopBegins(release: bool)
    | StopStep
    | DriverFault
    | FaultTimer
    | FaultStep
    | WorkerStep(id: nat, choice: Choice)

  const INITIAL: State :=
    State(false, false, false, None, {}, false, NoOne, None, map[], ActionIdle, ReturnIdle, LifeIdle,
          Unconfigured, false, false, None, 0, 0)

  // ---------------------------------------------------------------- guards

  /** goal_mutex_ is held across steps only while a goal is being prepared. */
  predicate GoalMutexFree(s: State) { !s.action.Preparing? }

  predicate Joinable(s: State) {
    s.handle.None? || (s.handle.value in s.workers && s.workers[s.handle.value].pc == Done)
  }

  predicate StartEnabled(s: State, at: StartPc) {
    match at
    case Lock => s.exec == NoOne
    case Join => Joinable(s)
    case Check => GoalMutexFree(s)
    case _ => true
  }

  predicate StopEnabled(s: State, at: StopPc) {
    match at
    case CloseGate => GoalMutexFree(s)
    case TakeGoal => GoalMutexFree(s)
    case StopLock => s.exec == NoOne
    case StopJoin => Joinable(s)
    case _ => true
  }

  predicate NeedsGoalMutex(pc: WorkerPc) { pc == Reset || pc == Fail }

  predicate WorkerEnabled(s: State, id: nat) {
    && id in s.workers
    && s.workers[id].pc != Done
    && (NeedsGoalMutex(s.workers[id].pc) ==> GoalMutexFree(s))
  }

  predicate Enabled(s: State, a: Action) {
    match a
    case GoalArrives(_) => s.action == ActionIdle
    case GoalPrepared(_) => s.action.Preparing?
    case GoalTaken => s.action.Accepted?
    case GoalStart => s.action.StartingGoal? && StartEnabled(s, s.action.at)
    case GoalDropped => s.action.Dropping?
    case GoalAborted => s.action.Aborting?
    case ReturnRequested(_) => s.ret == ReturnIdle && GoalMutexFree(s)
    case ReturnStart => s.ret.StartingReturn? && StartEnabled(s, s.ret.at)
    case ReturnDropped => s.ret == DroppingReturn && GoalMutexFree(s)
    case Configure => s.life == LifeIdle && s.mode == Unconfigured
    case StartDrive => s.life == LifeIdle && s.mode == Inactive
    case GateOpened => s.life == OpenGate && GoalMutexFree(s)
    case ActivateDone => s.life == Activated
    case StopBegins(release) => s.life == LifeIdle && (release || s.mode == Active)
    case StopStep => s.life.Stopping? && StopEnabled(s, s.life.at)
    case DriverFault => s.actuator
    case FaultTimer => s.life == LifeIdle && s.faultPending
    case FaultStep => s.life.FaultAbort? || ((s.life == FaultCloseGate || s.life == FaultTakeGoal) && GoalMutexFree(s))
    case WorkerStep(id, choice) => WorkerEnabled(s, id)
  }

  // ---------------------------------------------------------------- start_execution

  function StartStep(s: State, who: Owner, at: StartPc, task: Task): (State, StartPc) {
    match at
    case Lock => (s.(exec := who), Flag)
    case Flag => (s.(stopFlag := true), Join)
    case Join => (s.(handle := None, workers := Joined(s)), Check)
    case Check => (s, if s.accepting then Clear else Unlock(false))
    case Clear => (s.(stopFlag := false), Spawn)
    case Spawn => (s.(handle := Some(s.nextWorker), nextWorker := s.nextWorker + 1,
                      workers := s.workers[s.nextWorker := Worker(task, if task.Wave? then Begin else Loop)]),
                   Unlock(true))
    case Unlock(_) => (s.(exec := NoOne), at)
  }

  function Joined(s: State): map<nat, Worker> {
    if s.handle.Some? then s.workers - {s.handle.value} else s.workers
  }

  // ---------------------------------------------------------------- sections and steps

  function ResetGoal(s: State, goal: nat): State {
    if s.held == Some(goal) then s.(held := None, pending := false) else s
  }

  function StopNext(s: State, at: StopPc, release: bool): State {
    match at
    case CloseGate => s.(accepting := false, life := Stopping(TakeGoal, release))
    case TakeGoal => s.(held := None, pending := false, life := Stopping(AbortTaken(s.held), release))
    case AbortTaken(goal) => AbortGoal(s, goal).(life := Stopping(StopLock, release))
    case StopLock => s.(exec := Lifecycle, life := Stopping(StopFlag, release))
    case StopFlag => s.(stopFlag := true, life := Stopping(StopJoin, release))
    case StopJoin => s.(handle := None, workers := Joined(s), life := Stopping(StopUnlock, release))
    case StopUnlock => s.(exec := NoOne, life := Stopping(StopDrive, release))
    case StopDrive =>
      if release then s.(mode := Unconfigured, actuator := false, life := LifeIdle)
      else s.(mode := Inactive, life := LifeIdle)
  }

  function AbortGoal(s: State, goal: Option<nat>): State {
    if goal.Some? then s.(active := s.active - {goal.value}) else s
  }

  function WorkerPcAfter(s: State, w: Worker, choice: Choice): WorkerPc {
    match w.pc
    case Begin => if w.task.Wave? && w.task.goal in s.active then Loop else Halt
    case Loop => if s.stopFlag then Halt else Guard
    case Guard => if choice == Interrupt then Halt else if w.task.Wave? then Sample else Write
    case Sample => if choice == Interrupt then Halt else Write
    case Write => WriteOutcome(w, choice)
    case Succeed => Reset
    case Halt => Reset
    case Reset => Finish
    case Fail => NoteFault
    case NoteFault => StopDriveNow
    case StopDriveNow => Finish
    case Finish => Done
    case Done => Done
  }

  function WriteOutcome(w: Worker, choice: Choice): WorkerPc {
    match choice
    case Proceed => Loop
    case Interrupt => Halt
    case Complete => if w.task.Wave? then Succeed else Halt
    case Refuse => if w.task.Wave? then Fail else Halt
  }

  function WorkerEffect(s: State, w: Worker): State {
    match w.pc
    case Succeed => if w.task.Wave? then AbortGoal(s, Some(w.task.goal)) else s
    case Reset => if w.task.Wave? then ResetGoal(s, w.task.goal) else s.(returning := false)
    case Fail => if w.task.Wave? then ResetGoal(s.(accepting := false), w.task.goal) else s
    case NoteFault => s.(faultPending := true)
    case Finish => if w.task.Wave? then AbortGoal(s, Some(w.task.goal)) else s
    case _ => s
  }

  /** goal_callback's checks, taken under goal_mutex_. */
  predicate MayPrepare(s: State) {
    s.accepting && !s.pending && !s.returning && (s.held.Some? ==> s.held.value !in s.active)
  }

  function Next(s: State, a: Action): State
    requires Enabled(s, a)
  {
    match a
    case GoalArrives(driveReady) =>
      if driveReady && MayPrepare(s) then s.(action := Preparing(s.nextGoal), nextGoal := s.nextGoal + 1) else s
    case GoalPrepared(accept) =>
      var goal := s.action.goal;
      if accept then
        s.(config := Some(goal), pending := true, active := s.active + {goal}, action := Accepted(goal))
      else s.(config := Some(goal), action := ActionIdle)
    case GoalTaken =>
      var goal := s.action.goal;
      if s.accepting then s.(held := Some(goal), pending := false, action := StartingGoal(goal, Lock))
      else s.(pending := false, action := Aborting(goal))
    case GoalStart =>
      var goal, at := s.action.goal, s.action.at;
      var (t, next) := StartStep(s, ActionGroup, at, Wave(goal));
      t.(action := if at == Unlock(true) then ActionIdle
                   else if at == Unlock(false) then Dropping(goal)
                   else StartingGoal(goal, next))
    case GoalDropped => ResetHeldOnly(s, s.action.goal).(action := Aborting(s.action.goal))
    case GoalAborted => AbortGoal(s, Some(s.action.goal)).(action := ActionIdle)
    case ReturnRequested(driveReady) =>
      if driveReady && s.accepting && !s.pending && !s.returning && s.held.None? then
        s.(returning := true, ret := StartingReturn(Lock))
      else s
    case ReturnStart =>
      var at := s.ret.at;
      var (t, next) := StartStep(s, ReturnService, at, Return);
      t.(ret := if at == Unlock(true) then ReturnIdle
                else if at == Unlock(false) then DroppingReturn
                else StartingReturn(next))
    case ReturnDropped => s.(returning := false, ret := ReturnIdle)
    case Configure => s.(mode := Inactive, actuator := true)
    case StartDrive => s.(life := OpenGate)
    case GateOpened => s.(accepting := true, life := Activated)
    case ActivateDone => s.(mode := Active, life := LifeIdle)
    case StopBegins(release) => s.(life := Stopping(CloseGate, release))
    case StopStep => StopNext(s, s.life.at, s.life.release)
    case DriverFault => s.(faultPending := true)
    case FaultTimer => s.(faultPending := false, life := FaultCloseGate)
    case FaultStep => FaultNext(s)
    case WorkerStep(id, choice) =>
      var w := s.workers[id];
      WorkerEffect(s, w).(workers := s.workers[id := Worker(w.task, WorkerPcAfter(s, w, choice))])
  }

  function ResetHeldOnly(s: State, goal: nat): State {
    if s.held == Some(goal) then s.(held := None) else s
  }

  function FaultNext(s: State): State
    requires s.life == FaultCloseGate || s.life == FaultTakeGoal || s.life.FaultAbort?
  {
    match s.life
    case FaultCloseGate => s.(accepting := false, life := if s.mode == Active then FaultTakeGoal else LifeIdle)
    case FaultTakeGoal => s.(held := None, pending := false, life := FaultAbort(s.held))
    case FaultAbort(goal) => AbortGoal(s, goal).(life := Stopping(CloseGate, false))
  }

  // ---------------------------------------------------------------- runs

  /** states[0] is the initial state and each later state follows by the matching action. */
  ghost predicate Run(states: seq<State>, actions: seq<Action>) {
    && |states| == |actions| + 1
    && states[0] == INITIAL
    && (forall i | 0 <= i < |actions| ::
          Enabled(states[i], actions[i]) && states[i + 1] == Next(states[i], actions[i]))
  }
}
