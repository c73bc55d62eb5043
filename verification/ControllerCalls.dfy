/** What the controller gets done: from every quiet state the next goal reaches its control loop, a worker that
    nobody stops keeps sampling, and goals, returns, stops and faults run to their ends. */
module ControllerCalls {
  import opened Options
  import opened Controller
  import opened ControllerSafety
  import opened ControllerProgress

  // ---------------------------------------------------------------- one step

  /** The step can be taken and ends there. */
  predicate Leads(s: State, a: Action, t: State) { Enabled(s, a) && Next(s, a) == t }

  predicate At(s: State, id: nat, task: Task, pc: WorkerPc) { id in s.workers && s.workers[id] == Worker(task, pc) }

  function MovedTo(s: State, id: nat, pc: WorkerPc): State
    requires id in s.workers
  {
    s.(workers := s.workers[id := Worker(s.workers[id].task, pc)])
  }

  /** A step that only moves the worker. */
  lemma WorkerMoves(s: State, id: nat, task: Task, pc: WorkerPc, choice: Choice, to: WorkerPc)
    requires At(s, id, task, pc) && LocalPc(pc) && WorkerPcAfter(s, Worker(task, pc), choice) == to
    ensures Leads(s, WorkerStep(id, choice), MovedTo(s, id, to))
  {
    hide WorkerPcAfter;
  }

  lemma MovesAdd(s: State, id: nat, pc: WorkerPc, to: WorkerPc)
    requires id in s.workers
    ensures id in MovedTo(s, id, pc).workers && MovedTo(MovedTo(s, id, pc), id, to) == MovedTo(s, id, to)
  {
    assert s.workers[id := Worker(s.workers[id].task, pc)][id := Worker(s.workers[id].task, to)]
        == s.workers[id := Worker(s.workers[id].task, to)];
  }

  // ---------------------------------------------------------------- the worker's loop

  /** A worker that nobody stops checks, samples, writes and is back where it was, and so goes on for as long
      as it is left alone; a return does the same without sampling. */
  lemma LapChangesNothing(s: State, id: nat, task: Task)
    requires At(s, id, task, Loop) && !s.stopFlag
    ensures var a := WorkerStep(id, Proceed);
      var guard, sample, write := MovedTo(s, id, Guard), MovedTo(s, id, Sample), MovedTo(s, id, Write);
      && Leads(s, a, guard) && Leads(write, a, s)
      && (if task.Wave? then Leads(guard, a, sample) && Leads(sample, a, write) else Leads(guard, a, write))
  {
    WorkerMoves(s, id, task, Loop, Proceed, Guard);
    WorkerMoves(MovedTo(s, id, Guard), id, task, Guard, Proceed, if task.Wave? then Sample else Write);
    WorkerMoves(MovedTo(s, id, Sample), id, task, Sample, Proceed, Write);
    WorkerMoves(MovedTo(s, id, Write), id, task, Write, Proceed, Loop);
    hide Leads;
    MovesAdd(s, id, Guard, if task.Wave? then Sample else Write);
    MovesAdd(s, id, Sample, Write);
    MovesAdd(s, id, Write, Loop);
    assert MovedTo(s, id, Loop) == s;
  }

  /** So does every worker, in every reachable state, as long as no thread waits to join it. */
  lemma UnstoppedWorkerGoesOn(states: seq<State>, actions: seq<Action>, i: nat, id: nat, task: Task)
    requires Run(states, actions) && i < |states| && At(states[i], id, task, Loop)
    requires !JoinPending(states[i].action, states[i].ret, states[i].life)
    ensures var s, a := states[i], WorkerStep(id, Proceed);
      var guard, sample, write := MovedTo(s, id, Guard), MovedTo(s, id, Sample), MovedTo(s, id, Write);
      && Leads(s, a, guard) && Leads(write, a, s)
      && (if task.Wave? then Leads(guard, a, sample) && Leads(sample, a, write) else Leads(guard, a, write))
  {
    RunKeepsInv(states, actions, i);
    OnlyWorker(states[i], id);
    assert states[i].handle == Some(id);
    hide Run, Leads, MovedTo;
    LapChangesNothing(states[i], id, task);
  }

  /** A cancel, a soft stop or a failing return ends the loop at its guard; so does the stop flag, wherever it
      is found set, and a goal aborted before its worker began. */
  lemma WaysToHalt(s: State, id: nat, task: Task)
    ensures At(s, id, task, Guard) ==> Leads(s, WorkerStep(id, Interrupt), MovedTo(s, id, Halt))
    ensures At(s, id, task, Loop) && s.stopFlag ==> Leads(s, WorkerStep(id, Proceed), MovedTo(s, id, Halt))
    ensures At(s, id, task, Begin) && task.Wave? ==>
              Leads(s, WorkerStep(id, Proceed), MovedTo(s, id, if task.goal in s.active then Loop else Halt))
    ensures At(s, id, Return, Write) ==>
              forall choice: Choice | choice != Proceed :: Leads(s, WorkerStep(id, choice), MovedTo(s, id, Halt))
    ensures At(s, id, task, Halt) ==> Leads(s, WorkerStep(id, Proceed), MovedTo(s, id, Reset))
  {
    if At(s, id, task, Guard) {
      WorkerMoves(s, id, task, Guard, Interrupt, Halt);
    }
    if At(s, id, task, Loop) && s.stopFlag {
      WorkerMoves(s, id, task, Loop, Proceed, Halt);
    }
    if At(s, id, task, Begin) && task.Wave? {
      WorkerMoves(s, id, task, Begin, Proceed, if task.goal in s.active then Loop else Halt);
    }
    if At(s, id, Return, Write) {
      forall choice: Choice | choice != Proceed ensures Leads(s, WorkerStep(id, choice), MovedTo(s, id, Halt)) {
        WorkerMoves(s, id, Return, Write, choice, Halt);
      }
    }
    if At(s, id, task, Halt) {
      WorkerMoves(s, id, task, Halt, Proceed, Reset);
    }
  }

  /** goal_handle_ and goal_pending_ are reset if they are still the goal's. */
  function Released(s: State, g: nat): State {
    s.(held := if s.held == Some(g) then None else s.held, pending := s.pending && s.held != Some(g))
  }

  /** A wave that has halted, or succeeded as a complete recording, gives up its claims, then ends its goal,
      and is done. A complete recording's goal has ended before. */
  lemma WaveSucceeds(s: State, id: nat, g: nat)
    requires At(s, id, Wave(g), Succeed)
    ensures Leads(s, WorkerStep(id, Proceed), MovedTo(s.(active := s.active - {g}), id, Reset))
  {}

  lemma WaveReleases(s: State, id: nat, g: nat)
    requires At(s, id, Wave(g), Reset) && GoalMutexFree(s)
    ensures Leads(s, WorkerStep(id, Proceed), MovedTo(Released(s, g), id, Finish))
  {}

  lemma WaveFinishes(s: State, id: nat, g: nat)
    requires At(s, id, Wave(g), Finish)
    ensures Leads(s, WorkerStep(id, Proceed), MovedTo(s.(active := s.active - {g}), id, Done))
  {}

  lemma CompleteWaveSucceeds(s: State, id: nat, g: nat)
    requires At(s, id, Wave(g), Write)
    ensures Leads(s, WorkerStep(id, Complete), MovedTo(s, id, Succeed))
  {
    WorkerMoves(s, id, Wave(g), Write, Complete, Succeed);
  }

  /** A refused setpoint closes the gate, notes the fault, stops the drive and ends the goal. */
  lemma RefusalFails(s: State, id: nat, g: nat)
    ensures At(s, id, Wave(g), Write) ==> Leads(s, WorkerStep(id, Refuse), MovedTo(s, id, Fail))
    ensures At(s, id, Wave(g), StopDriveNow) ==> Leads(s, WorkerStep(id, Proceed), MovedTo(s, id, Finish))
  {
    if At(s, id, Wave(g), Write) {
      WorkerMoves(s, id, Wave(g), Write, Refuse, Fail);
    }
    if At(s, id, Wave(g), StopDriveNow) {
      WorkerMoves(s, id, Wave(g), StopDriveNow, Proceed, Finish);
    }
  }

  lemma FailureClosesTheGate(s: State, id: nat, g: nat)
    requires At(s, id, Wave(g), Fail) && GoalMutexFree(s)
    ensures Leads(s, WorkerStep(id, Proceed), MovedTo(Released(s, g).(accepting := false), id, NoteFault))
  {}

  lemma FailureIsNoted(s: State, id: nat, g: nat)
    requires At(s, id, Wave(g), NoteFault)
    ensures Leads(s, WorkerStep(id, Proceed), MovedTo(s.(faultPending := true), id, StopDriveNow))
  {}

  /** A return gives up its claim, touches no goal, and is done. */
  lemma ReturnEnds(s: State, id: nat)
    requires GoalMutexFree(s)
    ensures At(s, id, Return, Reset) ==> Leads(s, WorkerStep(id, Proceed), MovedTo(s.(returning := false), id, Finish))
    ensures At(s, id, Return, Finish) ==> Leads(s, WorkerStep(id, Proceed), MovedTo(s, id, Done))
  {}

  // ---------------------------------------------------------------- starting

  /** The thread object owns the new worker, which alone survives. */
  function Started(s: State, task: Task): State {
    s.(handle := Some(s.nextWorker), nextWorker := s.nextWorker + 1,
       workers := map[s.nextWorker := Worker(task, if task.Wave? then Begin else Loop)])
  }

  lemma JoinedEmpty(s: State)
    requires HandleInv(s.handle, s.workers.Keys)
    ensures Joined(s) == map[]
  {
    assert Joined(s).Keys == {};
  }

  /** start_execution() takes over from the last worker: lock, flag, join. */
  lemma GoalStartLeads(s: State, g: nat, at: StartPc)
    requires s.action == StartingGoal(g, at) && StartEnabled(s, at) && HandleInv(s.handle, s.workers.Keys)
    requires at == Lock || at == Flag || at == Join
    ensures at == Lock ==> Leads(s, GoalStart, s.(exec := ActionGroup, action := StartingGoal(g, Flag)))
    ensures at == Flag ==> Leads(s, GoalStart, s.(stopFlag := true, action := StartingGoal(g, Join)))
    ensures at == Join ==> Leads(s, GoalStart, s.(handle := None, workers := map[], action := StartingGoal(g, Check)))
  {
    JoinedEmpty(s);
    hide HandleInv, Joined;
    match at
    case Lock =>
    case Flag =>
    case Join =>
  }

  lemma GoalSpawns(s: State, g: nat)
    requires s.action == StartingGoal(g, Spawn) && s.workers == map[]
    ensures Leads(s, GoalStart, Started(s, Wave(g)).(action := StartingGoal(g, Unlock(true))))
  {}

  lemma ReturnStartLeads(s: State, at: StartPc)
    requires s.ret == StartingReturn(at) && StartEnabled(s, at) && HandleInv(s.handle, s.workers.Keys)
    requires at == Lock || at == Flag || at == Join
    ensures at == Lock ==> Leads(s, ReturnStart, s.(exec := ReturnService, ret := StartingReturn(Flag)))
    ensures at == Flag ==> Leads(s, ReturnStart, s.(stopFlag := true, ret := StartingReturn(Join)))
    ensures at == Join ==> Leads(s, ReturnStart, s.(handle := None, workers := map[], ret := StartingReturn(Check)))
  {
    JoinedEmpty(s);
    hide HandleInv, Joined;
    match at
    case Lock =>
    case Flag =>
    case Join =>
  }

  lemma ReturnSpawns(s: State)
    requires s.ret == StartingReturn(Spawn) && s.workers == map[]
    ensures Leads(s, ReturnStart, Started(s, Return).(ret := StartingReturn(Unlock(true))))
  {}

  /** A goal that meets no obstacle is prepared, accepted and held. */
  lemma GoalIsTaken(s: State)
    requires s.action == ActionIdle && s.accepting && !s.pending && !s.returning
    requires s.held.Some? ==> s.held.value !in s.active
    ensures var g := s.nextGoal;
      var preparing := s.(action := Preparing(g), nextGoal := g + 1);
      var accepted := preparing.(config := Some(g), pending := true, active := s.active + {g}, action := Accepted(g));
      && Leads(s, GoalArrives(true), preparing) && Leads(preparing, GoalPrepared(true), accepted)
      && Leads(accepted, GoalTaken, accepted.(pending := false, held := Some(g), action := StartingGoal(g, Lock)))
  {}

  /** Any obstacle refuses it outright; one that fails its preparation has only overwritten the trajectory. */
  lemma GoalIsRefused(s: State, driveReady: bool)
    ensures s.action == ActionIdle
            && (!driveReady || !s.accepting || s.pending || s.returning || (s.held.Some? && s.held.value in s.active))
            ==> Leads(s, GoalArrives(driveReady), s)
    ensures s.action.Preparing? ==> Leads(s, GoalPrepared(false), s.(config := Some(s.action.goal), action := ActionIdle))
  {}

  /** A goal accepted too late, or whose start was refused, is let go and ended. */
  lemma GoalIsDropped(s: State, g: nat)
    ensures s.action == Accepted(g) && !s.accepting ==>
              Leads(s, GoalTaken, s.(pending := false, action := Aborting(g)))
    ensures s.action == Dropping(g) ==>
              Leads(s, GoalDropped, s.(action := Aborting(g), held := if s.held == Some(g) then None else s.held))
    ensures s.action == Aborting(g) ==> Leads(s, GoalAborted, s.(action := ActionIdle, active := s.active - {g}))
  {}

  /** A return is admitted exactly when goals are accepted, none is pending or held, and no return is under way. */
  lemma ReturnAdmittedIff(s: State, driveReady: bool)
    requires s.ret == ReturnIdle && GoalMutexFree(s)
    ensures Leads(s, ReturnRequested(driveReady),
                  if driveReady && s.accepting && !s.pending && !s.returning && s.held.None?
                  then s.(returning := true, ret := StartingReturn(Lock)) else s)
    ensures Leads(s.(ret := DroppingReturn), ReturnDropped, s.(returning := false))
  {}

  // ---------------------------------------------------------------- lifecycle

  /** Configured, the drive started and activated: goals are accepted. */
  lemma ActivationOpensTheGate(s: State)
    requires s.life == LifeIdle && GoalMutexFree(s)
    ensures s.mode == Unconfigured ==> Leads(s, Configure, s.(mode := Inactive, actuator := true))
    ensures s.mode == Inactive ==>
              var started, open := s.(life := OpenGate), s.(accepting := true, life := Activated);
              Leads(s, StartDrive, started) && Leads(started, GateOpened, open)
              && Leads(open, ActivateDone, open.(mode := Active, life := LifeIdle))
  {}

  function WithoutHeld(s: State, goal: Option<nat>): set<nat> {
    if goal.Some? then s.active - {goal.value} else s.active
  }

  /** stop_activity(): close the gate, take and end the goal, lock, flag, join, unlock, stop the drive. */
  lemma StopLeads(s: State, at: StopPc, release: bool)
    requires s.life == Stopping(at, release) && StopEnabled(s, at) && HandleInv(s.handle, s.workers.Keys)
    ensures at == CloseGate ==> Leads(s, StopStep, s.(accepting := false, life := Stopping(TakeGoal, release)))
    ensures at == TakeGoal ==>
              Leads(s, StopStep, s.(held := None, pending := false, life := Stopping(AbortTaken(s.held), release)))
    ensures at.AbortTaken? ==>
              Leads(s, StopStep, s.(active := WithoutHeld(s, at.goal), life := Stopping(StopLock, release)))
    ensures at == StopLock ==> Leads(s, StopStep, s.(exec := Lifecycle, life := Stopping(StopFlag, release)))
    ensures at == StopFlag ==> Leads(s, StopStep, s.(stopFlag := true, life := Stopping(StopJoin, release)))
    ensures at == StopJoin ==>
              Leads(s, StopStep, s.(handle := None, workers := map[], life := Stopping(StopUnlock, release)))
    ensures at == StopUnlock ==> Leads(s, StopStep, s.(exec := NoOne, life := Stopping(StopDrive, release)))
    ensures at == StopDrive ==>
              Leads(s, StopStep, s.(life := LifeIdle, mode := if release then Unconfigured else Inactive,
                                    actuator := s.actuator && !release))
  {
    JoinedEmpty(s);
    hide HandleInv, Joined;
    match at
    case CloseGate =>
    case TakeGoal =>
    case AbortTaken(_) =>
    case StopLock =>
    case StopFlag =>
    case StopJoin =>
    case StopUnlock =>
    case StopDrive =>
  }

  /** Deactivation begins only on an active node, a release of the resources on any. */
  lemma StopBeginsIff(s: State, release: bool)
    ensures Enabled(s, StopBegins(release)) <==> s.life == LifeIdle && (release || s.mode == Active)
    ensures Enabled(s, StopBegins(release)) ==>
              Leads(s, StopBegins(release), s.(life := Stopping(CloseGate, release)))
  {}

  /** A fault is noted at any time the drive exists. The timer then closes the gate; on an active node it also
      ends the goal and goes on to stop everything. */
  lemma FaultStopsEverything(s: State)
    requires GoalMutexFree(s)
    ensures s.actuator ==> Leads(s, DriverFault, s.(faultPending := true))
    ensures s.life == LifeIdle && s.faultPending ==>
              Leads(s, FaultTimer, s.(faultPending := false, life := FaultCloseGate))
    ensures s.life == FaultCloseGate ==>
              Leads(s, FaultStep, s.(accepting := false, life := if s.mode == Active then FaultTakeGoal else LifeIdle))
    ensures s.life == FaultTakeGoal ==>
              Leads(s, FaultStep, s.(held := None, pending := false, life := FaultAbort(s.held)))
  {}

  lemma FaultEndsGoal(s: State, goal: Option<nat>)
    requires s.life == FaultAbort(goal)
    ensures Leads(s, FaultStep, s.(active := WithoutHeld(s, goal), life := Stopping(CloseGate, false)))
  {}

  // ---------------------------------------------------------------- whole calls

  /** Where these steps lead when they are taken one after the other, if each of them can be. */
  function After(s: State, actions: seq<Action>): Option<State>
    decreases |actions|
  {
    if actions == [] then Some(s)
    else if Enabled(s, actions[0]) then After(Next(s, actions[0]), actions[1..])
    else None
  }

  function Times(a: Action, n: nat): seq<Action> {
    if n == 0 then [] else [a] + Times(a, n - 1)
  }

  lemma Again(s: State, a: Action, t: State, n: nat)
    requires Leads(s, a, t) && 0 < n
    ensures After(s, Times(a, n)) == After(t, Times(a, n - 1))
  {
    assert Times(a, n)[1..] == Times(a, n - 1);
  }

  lemma Nowhere(s: State, a: Action)
    ensures After(s, Times(a, 0)) == Some(s) == After(s, [])
  {}

  lemma Then(s: State, a: Action, t: State, rest: seq<Action>)
    requires Leads(s, a, t)
    ensures After(s, [a] + rest) == After(t, rest)
  {
    assert ([a] + rest)[1..] == rest;
  }

  lemma GoalTakesOver(s: State, g: nat, n: nat)
    requires s.action == StartingGoal(g, Lock) && s.exec == NoOne && Joinable(s) && 3 <= n
    requires HandleInv(s.handle, s.workers.Keys)
    ensures After(s, Times(GoalStart, n))
            == After(s.(exec := ActionGroup, stopFlag := true, handle := None, workers := map[],
                        action := StartingGoal(g, Check)), Times(GoalStart, n - 3))
  {
    var s1 := s.(exec := ActionGroup, action := StartingGoal(g, Flag));
    var s2 := s1.(stopFlag := true, action := StartingGoal(g, Join));
    var s3 := s2.(handle := None, workers := map[], action := StartingGoal(g, Check));
    assert Joinable(s2);
    hide Leads, After, Times, HandleInv, Joinable;
    GoalStartLeads(s, g, Lock);
    Again(s, GoalStart, s1, n);
    GoalStartLeads(s1, g, Flag);
    Again(s1, GoalStart, s2, n - 1);
    GoalStartLeads(s2, g, Join);
    Again(s2, GoalStart, s3, n - 2);
  }

  lemma GoalPassesTheGate(s: State, g: nat, n: nat)
    requires s.action == StartingGoal(g, Check) && s.accepting && 2 <= n
    ensures After(s, Times(GoalStart, n))
            == After(s.(stopFlag := false, action := StartingGoal(g, Spawn)), Times(GoalStart, n - 2))
  {
    var s1 := s.(action := StartingGoal(g, Clear));
    var s2 := s1.(stopFlag := false, action := StartingGoal(g, Spawn));
    assert Leads(s, GoalStart, s1) && Leads(s1, GoalStart, s2);
    hide *;
    Again(s, GoalStart, s1, n);
    Again(s1, GoalStart, s2, n - 1);
  }

  lemma GoalUnlocks(s: State, g: nat)
    requires s.action == StartingGoal(g, Unlock(true))
    ensures After(s, Times(GoalStart, 1)) == Some(s.(exec := NoOne, action := ActionIdle))
  {
    var t := s.(exec := NoOne, action := ActionIdle);
    assert Leads(s, GoalStart, t);
    hide Leads, Enabled;
    Again(s, GoalStart, t, 1);
    Nowhere(t, GoalStart);
  }

  /** A goal's start_execution() call, with the gate open and nothing to wait for, ends with its worker alone. */
  lemma GoalGetsItsWorker(s: State, g: nat)
    requires s.action == StartingGoal(g, Lock) && s.exec == NoOne && s.accepting && Joinable(s)
    requires HandleInv(s.handle, s.workers.Keys)
    ensures After(s, Times(GoalStart, 7)) == Some(Started(s, Wave(g)).(stopFlag := false, action := ActionIdle))
  {
    hide After, Times, HandleInv, Joinable, Leads;
    var checked := s.(exec := ActionGroup, stopFlag := true, handle := None, workers := map[],
                      action := StartingGoal(g, Check));
    var cleared := checked.(stopFlag := false, action := StartingGoal(g, Spawn));
    var spawned := Started(cleared, Wave(g)).(action := StartingGoal(g, Unlock(true)));
    GoalTakesOver(s, g, 7);
    GoalPassesTheGate(checked, g, 4);
    GoalSpawns(cleared, g);
    Again(cleared, GoalStart, spawned, 2);
    GoalUnlocks(spawned, g);
  }

  lemma ReturnTakesOver(s: State, n: nat)
    requires s.ret == StartingReturn(Lock) && s.exec == NoOne && Joinable(s) && 3 <= n
    requires HandleInv(s.handle, s.workers.Keys)
    ensures After(s, Times(ReturnStart, n))
            == After(s.(exec := ReturnService, stopFlag := true, handle := None, workers := map[],
                        ret := StartingReturn(Check)), Times(ReturnStart, n - 3))
  {
    var s1 := s.(exec := ReturnService, ret := StartingReturn(Flag));
    var s2 := s1.(stopFlag := true, ret := StartingReturn(Join));
    var s3 := s2.(handle := None, workers := map[], ret := StartingReturn(Check));
    assert Joinable(s2);
    hide Leads, After, Times, HandleInv, Joinable;
    ReturnStartLeads(s, Lock);
    Again(s, ReturnStart, s1, n);
    ReturnStartLeads(s1, Flag);
    Again(s1, ReturnStart, s2, n - 1);
    ReturnStartLeads(s2, Join);
    Again(s2, ReturnStart, s3, n - 2);
  }

  lemma ReturnPassesTheGate(s: State, n: nat)
    requires s.ret == StartingReturn(Check) && s.accepting && GoalMutexFree(s) && 2 <= n
    ensures After(s, Times(ReturnStart, n))
            == After(s.(stopFlag := false, ret := StartingReturn(Spawn)), Times(ReturnStart, n - 2))
  {
    var s1 := s.(ret := StartingReturn(Clear));
    var s2 := s1.(stopFlag := false, ret := StartingReturn(Spawn));
    assert Leads(s, ReturnStart, s1) && Leads(s1, ReturnStart, s2);
    hide *;
    Again(s, ReturnStart, s1, n);
    Again(s1, ReturnStart, s2, n - 1);
  }

  lemma ReturnUnlocks(s: State)
    requires s.ret == StartingReturn(Unlock(true))
    ensures After(s, Times(ReturnStart, 1)) == Some(s.(exec := NoOne, ret := ReturnIdle))
  {
    var t := s.(exec := NoOne, ret := ReturnIdle);
    assert Leads(s, ReturnStart, t);
    hide Leads, Enabled;
    Again(s, ReturnStart, t, 1);
    Nowhere(t, ReturnStart);
  }

  /** And so does a return's, with the gate open and nothing to wait for, ends with its worker alone. */
  lemma ReturnGetsItsWorker(s: State)
    requires s.ret == StartingReturn(Lock) && s.exec == NoOne && s.accepting && GoalMutexFree(s) && Joinable(s)
    requires HandleInv(s.handle, s.workers.Keys)
    ensures After(s, Times(ReturnStart, 7)) == Some(Started(s, Return).(stopFlag := false, ret := ReturnIdle))
  {
    hide After, Times, HandleInv, Joinable, Leads;
    var checked := s.(exec := ReturnService, stopFlag := true, handle := None, workers := map[],
                      ret := StartingReturn(Check));
    var cleared := checked.(stopFlag := false, ret := StartingReturn(Spawn));
    var spawned := Started(cleared, Return).(ret := StartingReturn(Unlock(true)));
    ReturnTakesOver(s, 7);
    ReturnPassesTheGate(checked, 4);
    ReturnSpawns(cleared);
    Again(cleared, ReturnStart, spawned, 2);
    ReturnUnlocks(spawned);
  }

  lemma GoalIsTurnedAway(s: State, g: nat)
    requires s.action == StartingGoal(g, Check) && !s.accepting
    ensures After(s, Times(GoalStart, 2)) == Some(s.(exec := NoOne, action := Dropping(g)))
  {
    var refused := s.(action := StartingGoal(g, Unlock(false)));
    var end := refused.(exec := NoOne, action := Dropping(g));
    assert Leads(s, GoalStart, refused) && Leads(refused, GoalStart, end);
    hide *;
    Again(s, GoalStart, refused, 2);
    Again(refused, GoalStart, end, 1);
    Nowhere(end, GoalStart);
  }

  /** With the gate closed meanwhile the call joins the last worker, starts nothing, and is left to let the
      goal go. */
  lemma GoalStartIsRefused(s: State, g: nat)
    requires s.action == StartingGoal(g, Lock) && s.exec == NoOne && !s.accepting && Joinable(s)
    requires HandleInv(s.handle, s.workers.Keys)
    ensures After(s, Times(GoalStart, 5))
            == Some(s.(stopFlag := true, handle := None, workers := map[], action := Dropping(g)))
  {
    hide After, Times, HandleInv, Joinable, Leads;
    GoalTakesOver(s, g, 5);
    GoalIsTurnedAway(s.(exec := ActionGroup, stopFlag := true, handle := None, workers := map[],
                        action := StartingGoal(g, Check)), g);
  }

  lemma {:induction false} AfterBoth(s: State, first: seq<Action>, second: seq<Action>)
    requires After(s, first).Some?
    ensures After(s, first + second) == After(After(s, first).value, second)
    decreases |first|
  {
    if first == [] {
      assert first + second == second;
    } else {
      assert (first + second)[1..] == first[1..] + second;
      AfterBoth(Next(s, first[0]), first[1..], second);
    }
  }

  /** Its worker then finds the goal active and enters the loop. */
  lemma WorkerEnters(s: State, w: nat, g: nat)
    requires s.workers == map[w := Worker(Wave(g), Begin)] && g in s.active
    ensures After(s, [WorkerStep(w, Proceed)]) == Some(s.(workers := map[w := Worker(Wave(g), Loop)]))
  {
    var t := s.(workers := map[w := Worker(Wave(g), Loop)]);
    WorkerMoves(s, w, Wave(g), Begin, Proceed, Loop);
    assert MovedTo(s, w, Loop) == t;
    hide Leads;
    Then(s, WorkerStep(w, Proceed), t, []);
    Nowhere(t, WorkerStep(w, Proceed));
  }

  lemma QuietJoinable(s: State)
    requires Inv(s) && Quiet(s)
    ensures Joinable(s) && HandleInv(s.handle, s.workers.Keys)
  {}

  /** Where a quiet node is once its next goal's worker is in its loop. */
  function RunningNext(s: State): State {
    s.(nextGoal := s.nextGoal + 1, config := Some(s.nextGoal), active := {s.nextGoal}, held := Some(s.nextGoal),
       stopFlag := false, handle := Some(s.nextWorker), nextWorker := s.nextWorker + 1,
       workers := map[s.nextWorker := Worker(Wave(s.nextGoal), Loop)])
  }

  /** Nothing is claimed and the gate is open. */
  predicate ReadyForNext(s: State) {
    && s.action == ActionIdle && s.accepting && !s.pending && !s.returning && s.held.None? && s.active == {}
    && s.exec == NoOne && Joinable(s) && HandleInv(s.handle, s.workers.Keys)
  }

  lemma TakenGoalRuns(s: State, g: nat)
    requires s.action == StartingGoal(g, Lock) && s.exec == NoOne && s.accepting && Joinable(s) && g in s.active
    requires HandleInv(s.handle, s.workers.Keys)
    ensures After(s, Times(GoalStart, 7) + [WorkerStep(s.nextWorker, Proceed)])
            == Some(s.(action := ActionIdle, stopFlag := false, handle := Some(s.nextWorker),
                       nextWorker := s.nextWorker + 1, workers := map[s.nextWorker := Worker(Wave(g), Loop)]))
  {
    hide After, Times, HandleInv, Joinable;
    GoalGetsItsWorker(s, g);
    AfterBoth(s, Times(GoalStart, 7), [WorkerStep(s.nextWorker, Proceed)]);
    WorkerEnters(Started(s, Wave(g)).(stopFlag := false, action := ActionIdle), s.nextWorker, g);
  }

  lemma NextGoalIsTaken(s: State, rest: seq<Action>)
    requires ReadyForNext(s)
    ensures var g := s.nextGoal;
      After(s, [GoalArrives(true)] + ([GoalPrepared(true)] + ([GoalTaken] + rest)))
      == After(s.(nextGoal := g + 1, config := Some(g), active := {g}, held := Some(g), action := StartingGoal(g, Lock)),
               rest)
  {
    var g := s.nextGoal;
    var preparing := s.(action := Preparing(g), nextGoal := g + 1);
    var accepted := preparing.(config := Some(g), pending := true, active := s.active + {g}, action := Accepted(g));
    var taken := accepted.(pending := false, held := Some(g), action := StartingGoal(g, Lock));
    GoalIsTaken(s);
    assert s.active + {g} == {g};
    assert taken == s.(nextGoal := g + 1, config := Some(g), active := {g}, held := Some(g), action := StartingGoal(g, Lock));
    hide *;
    Then(accepted, GoalTaken, taken, rest);
    Then(preparing, GoalPrepared(true), accepted, [GoalTaken] + rest);
    Then(s, GoalArrives(true), preparing, [GoalPrepared(true)] + ([GoalTaken] + rest));
  }

  lemma NextWaveRuns(s: State)
    requires ReadyForNext(s)
    ensures After(s, [GoalArrives(true)] + ([GoalPrepared(true)] + ([GoalTaken]
                     + (Times(GoalStart, 7) + [WorkerStep(s.nextWorker, Proceed)]))))
            == Some(RunningNext(s))
  {
    var g := s.nextGoal;
    var taken := s.(nextGoal := g + 1, config := Some(g), active := {g}, held := Some(g), action := StartingGoal(g, Lock));
    SameThread(s, taken);
    NextGoalIsTaken(s, Times(GoalStart, 7) + [WorkerStep(s.nextWorker, Proceed)]);
    hide After, Times, HandleInv, Joinable;
    TakenGoalRuns(taken, g);
  }

  /** From every reachable state in which callbacks, services and workers have finished, no transition is under
      way and goals are accepted, the next goal gets all the way into its control loop: with its trajectory
      configured, held and active, alone, and with the stop flag clear. */
  lemma QuietNodeRunsNextWave(states: seq<State>, actions: seq<Action>, i: nat)
    requires Run(states, actions) && i < |states|
    requires Quiet(states[i]) && states[i].life == LifeIdle && states[i].accepting
    ensures After(states[i], [GoalArrives(true)] + ([GoalPrepared(true)] + ([GoalTaken]
                             + (Times(GoalStart, 7) + [WorkerStep(states[i].nextWorker, Proceed)]))))
            == Some(RunningNext(states[i]))
  {
    NothingStaysClaimed(states, actions, i);
    RunKeepsInv(states, actions, i);
    QuietJoinable(states[i]);
    hide After, Times, RunningNext, Run;
    NextWaveRuns(states[i]);
  }

  lemma SameThread(s: State, t: State)
    requires Joinable(s) && HandleInv(s.handle, s.workers.Keys) && t.handle == s.handle && t.workers == s.workers
    ensures Joinable(t) && HandleInv(t.handle, t.workers.Keys)
  {}

  /** Its goal ended, its claims released, the worker done; nothing else changed. */
  function Ended(s: State, id: nat, g: nat): State
    requires id in s.workers
  {
    MovedTo(Released(s, g).(active := s.active - {g}), id, Done)
  }

  lemma EndsAfterRelease(s: State, id: nat, g: nat)
    requires At(s, id, Wave(g), Reset) && GoalMutexFree(s)
    ensures After(s, Times(WorkerStep(id, Proceed), 2)) == Some(Ended(s, id, g))
  {
    var a, t := WorkerStep(id, Proceed), MovedTo(Released(s, g), id, Finish);
    WaveReleases(s, id, g);
    WaveFinishes(t, id, g);
    assert MovedTo(t.(active := t.active - {g}), id, Done) == Ended(s, id, g);
    hide Leads, After, Times;
    Again(s, a, t, 2);
    Again(t, a, Ended(s, id, g), 1);
    Nowhere(Ended(s, id, g), a);
  }

  /** However a wave ends, three more steps of its worker end it: after a halt, and after success. */
  lemma WaveEndsInThree(s: State, id: nat, g: nat)
    requires (At(s, id, Wave(g), Halt) || At(s, id, Wave(g), Succeed)) && GoalMutexFree(s)
    ensures After(s, Times(WorkerStep(id, Proceed), 3)) == Some(Ended(s, id, g))
  {
    var a := WorkerStep(id, Proceed);
    var t := if s.workers[id].pc == Halt then MovedTo(s, id, Reset) else MovedTo(s.(active := s.active - {g}), id, Reset);
    WaysToHalt(s, id, Wave(g));
    if s.workers[id].pc == Succeed {
      WaveSucceeds(s, id, g);
    }
    assert At(t, id, Wave(g), Reset);
    assert Ended(t, id, g) == Ended(s, id, g) by {
      MovesAdd(s, id, Reset, Done);
    }
    hide Leads, After, Times;
    Again(s, a, t, 3);
    EndsAfterRelease(t, id, g);
  }

  lemma DoneAfterFinish(s: State, id: nat, g: nat)
    requires At(s, id, Wave(g), Finish)
    ensures After(s, Times(WorkerStep(id, Proceed), 1)) == Some(MovedTo(s.(active := s.active - {g}), id, Done))
  {
    var a, t := WorkerStep(id, Proceed), MovedTo(s.(active := s.active - {g}), id, Done);
    WaveFinishes(s, id, g);
    hide Leads, After, Times;
    Again(s, a, t, 1);
    Nowhere(t, a);
  }

  /** A wave whose setpoint was refused ends in four, with the gate closed and the fault noted. */
  lemma RefusedWaveEndsInFour(s: State, id: nat, g: nat)
    requires At(s, id, Wave(g), Fail) && GoalMutexFree(s)
    ensures After(s, Times(WorkerStep(id, Proceed), 4)) == Some(Ended(s, id, g).(accepting := false, faultPending := true))
  {
    var a := WorkerStep(id, Proceed);
    var t := Released(s, g).(accepting := false);
    var u := t.(faultPending := true);
    FailureStates(s, id, g);
    FailureClosesTheGate(s, id, g);
    FailureIsNoted(MovedTo(t, id, NoteFault), id, g);
    RefusalFails(MovedTo(u, id, StopDriveNow), id, g);
    hide Leads, After, Times, MovedTo, Released, Ended;
    Again(s, a, MovedTo(t, id, NoteFault), 4);
    Again(MovedTo(t, id, NoteFault), a, MovedTo(u, id, StopDriveNow), 3);
    Again(MovedTo(u, id, StopDriveNow), a, MovedTo(u, id, Finish), 2);
    DoneAfterFinish(MovedTo(u, id, Finish), id, g);
  }

  /** Moving the worker and changing other fields can be done in either order. */
  lemma MovesApart(s: State, t: State, id: nat, pc: WorkerPc, to: WorkerPc)
    requires id in s.workers && t.workers == s.workers
    ensures var m := MovedTo(s, id, pc);
      && id in m.workers && id in t.workers
      && MovedTo(t.(workers := m.workers), id, to) == MovedTo(t, id, to)
      && m.workers == MovedTo(t, id, pc).workers && m.workers[id] == Worker(s.workers[id].task, pc)
  {
    MovesAdd(s, id, pc, to);
  }

  lemma FailureStates(s: State, id: nat, g: nat)
    requires At(s, id, Wave(g), Fail)
    ensures var t := Released(s, g).(accepting := false);
      var u := t.(faultPending := true);
      var noted, stopped, last := MovedTo(t, id, NoteFault), MovedTo(u, id, StopDriveNow), MovedTo(u, id, Finish);
      && id in t.workers && id in u.workers && id in noted.workers && id in stopped.workers && id in last.workers
      && At(noted, id, Wave(g), NoteFault) && At(stopped, id, Wave(g), StopDriveNow) && At(last, id, Wave(g), Finish)
      && MovedTo(noted.(faultPending := true), id, StopDriveNow) == stopped && MovedTo(stopped, id, Finish) == last
      && MovedTo(last.(active := last.active - {g}), id, Done)
         == Ended(s, id, g).(accepting := false, faultPending := true)
  {
    var t := Released(s, g).(accepting := false);
    var u := t.(faultPending := true);
    MovesApart(t, u, id, NoteFault, StopDriveNow);
    MovesApart(u, u, id, StopDriveNow, Finish);
    MovesApart(u, u.(active := s.active - {g}), id, Finish, Done);
    assert MovedTo(u, id, Finish).active == s.active;
    assert MovedTo(u, id, Finish).(active := s.active - {g})
        == u.(active := s.active - {g}).(workers := MovedTo(u, id, Finish).workers);
    assert MovedTo(t, id, NoteFault).(faultPending := true) == u.(workers := MovedTo(t, id, NoteFault).workers);
    assert MovedTo(u.(active := s.active - {g}), id, Done) == Ended(s, id, g).(accepting := false, faultPending := true);
    assert u.(workers := MovedTo(u, id, StopDriveNow).workers) == MovedTo(u, id, StopDriveNow);
    hide MovedTo, Ended, Released;
  }

  /** A return that has halted gives up its claim and is done in three. */
  lemma ReturnEndsInThree(s: State, id: nat)
    requires At(s, id, Return, Halt) && GoalMutexFree(s)
    ensures After(s, Times(WorkerStep(id, Proceed), 3)) == Some(MovedTo(s.(returning := false), id, Done))
  {
    var a := WorkerStep(id, Proceed);
    var reset, finish := MovedTo(s, id, Reset), MovedTo(s.(returning := false), id, Finish);
    var end := MovedTo(s.(returning := false), id, Done);
    WaysToHalt(s, id, Return);
    ReturnEnds(reset, id);
    ReturnEnds(finish, id);
    MovesApart(s, s.(returning := false), id, Reset, Finish);
    MovesAdd(s.(returning := false), id, Finish, Done);
    assert reset.(returning := false) == s.(returning := false).(workers := reset.workers);
    assert At(reset, id, Return, Reset) && At(finish, id, Return, Finish);
    hide Leads, After, Times, MovedTo;
    Again(s, a, reset, 3);
    Again(reset, a, finish, 2);
    Again(finish, a, end, 1);
    Nowhere(end, a);
  }

  // ---------------------------------------------------------------- whole transitions

  lemma StopTakesGoal(s: State, release: bool, n: nat)
    requires s.life == Stopping(CloseGate, release) && s.exec == NoOne && GoalMutexFree(s) && 4 <= n
    ensures After(s, Times(StopStep, n))
            == After(s.(accepting := false, held := None, pending := false, active := WithoutHeld(s, s.held),
                        exec := Lifecycle, life := Stopping(StopFlag, release)), Times(StopStep, n - 4))
  {
    var s1 := s.(accepting := false, life := Stopping(TakeGoal, release));
    var s2 := s1.(held := None, pending := false, life := Stopping(AbortTaken(s.held), release));
    var s3 := s2.(active := WithoutHeld(s, s.held), life := Stopping(StopLock, release));
    var s4 := s3.(exec := Lifecycle, life := Stopping(StopFlag, release));
    assert Leads(s, StopStep, s1) && Leads(s1, StopStep, s2) && Leads(s3, StopStep, s4);
    assert Leads(s2, StopStep, s3);
    hide *;
    Again(s, StopStep, s1, n);
    Again(s1, StopStep, s2, n - 1);
    Again(s2, StopStep, s3, n - 2);
    Again(s3, StopStep, s4, n - 3);
  }

  lemma StopJoins(s: State, release: bool, n: nat)
    requires s.life == Stopping(StopFlag, release) && Joinable(s) && HandleInv(s.handle, s.workers.Keys) && 2 <= n
    ensures After(s, Times(StopStep, n))
            == After(s.(stopFlag := true, handle := None, workers := map[], life := Stopping(StopUnlock, release)),
                     Times(StopStep, n - 2))
  {
    var s1 := s.(stopFlag := true, life := Stopping(StopJoin, release));
    var s2 := s1.(handle := None, workers := map[], life := Stopping(StopUnlock, release));
    assert Joinable(s1);
    assert Leads(s, StopStep, s1);
    hide Leads, After, Times, HandleInv, Joinable;
    Again(s, StopStep, s1, n);
    StopLeads(s1, StopJoin, release);
    Again(s1, StopStep, s2, n - 1);
  }

  lemma StopReleases(s: State, release: bool)
    requires s.life == Stopping(StopUnlock, release)
    ensures After(s, Times(StopStep, 2))
            == Some(s.(exec := NoOne, life := LifeIdle, mode := if release then Unconfigured else Inactive,
                       actuator := s.actuator && !release))
  {
    var s1 := s.(exec := NoOne, life := Stopping(StopDrive, release));
    var s2 := s1.(life := LifeIdle, mode := if release then Unconfigured else Inactive, actuator := s.actuator && !release);
    assert Leads(s, StopStep, s1) && Leads(s1, StopStep, s2);
    hide *;
    Again(s, StopStep, s1, 2);
    Again(s1, StopStep, s2, 1);
    Nowhere(s2, StopStep);
  }

  /** Once its worker is done, stop_activity() runs through: the gate closed, the held goal ended, the worker
      joined, the lock given back and the drive stopped, with the resources released or not. */
  lemma StopRunsThrough(s: State, release: bool)
    requires s.life == Stopping(CloseGate, release) && s.exec == NoOne && GoalMutexFree(s) && Joinable(s)
    requires HandleInv(s.handle, s.workers.Keys)
    ensures After(s, Times(StopStep, 8))
            == Some(s.(accepting := false, held := None, pending := false, active := WithoutHeld(s, s.held),
                       stopFlag := true, handle := None, workers := map[], life := LifeIdle,
                       mode := if release then Unconfigured else Inactive, actuator := s.actuator && !release))
  {
    hide After, Times, HandleInv, Joinable;
    var locked := s.(accepting := false, held := None, pending := false, active := WithoutHeld(s, s.held),
                     exec := Lifecycle, life := Stopping(StopFlag, release));
    SameThread(s, locked);
    StopTakesGoal(s, release, 8);
    StopJoins(locked, release, 4);
    StopReleases(locked.(stopFlag := true, handle := None, workers := map[], life := Stopping(StopUnlock, release)), release);
  }

  /** A fault noted on an active node closes the gate, ends the held goal and begins that very stop; on any
      other node it only closes the gate. */
  lemma FaultTimerStops(s: State)
    requires s.life == LifeIdle && s.faultPending && GoalMutexFree(s)
    ensures s.mode == Active ==>
              After(s, [FaultTimer] + Times(FaultStep, 3))
              == Some(s.(faultPending := false, accepting := false, held := None, pending := false,
                         active := WithoutHeld(s, s.held), life := Stopping(CloseGate, false)))
    ensures s.mode != Active ==>
              After(s, [FaultTimer] + Times(FaultStep, 1)) == Some(s.(faultPending := false, accepting := false))
  {
    var noted := s.(faultPending := false, life := FaultCloseGate);
    var closed := noted.(accepting := false, life := if s.mode == Active then FaultTakeGoal else LifeIdle);
    var taken := closed.(held := None, pending := false, life := FaultAbort(s.held));
    var ended := taken.(active := WithoutHeld(s, s.held), life := Stopping(CloseGate, false));
    FaultStopsEverything(s);
    FaultStopsEverything(noted);
    FaultStopsEverything(closed);
    FaultEndsGoal(taken, s.held);
    hide Leads, After, Times, Enabled, Next;
    if s.mode == Active {
      Then(s, FaultTimer, noted, Times(FaultStep, 3));
      Again(noted, FaultStep, closed, 3);
      Again(closed, FaultStep, taken, 2);
      Again(taken, FaultStep, ended, 1);
      Nowhere(ended, FaultStep);
    } else {
      Then(s, FaultTimer, noted, Times(FaultStep, 1));
      Again(noted, FaultStep, closed, 1);
      Nowhere(closed, FaultStep);
    }
  }
}
