/** Nothing stays claimed: whoever marks a goal as pending, held or active, or a return as under way, takes the
    mark back, so that the controller is free again once every thread has finished. */
module ControllerProgress {
  import opened Options
  import opened Controller
  import opened ControllerSafety

  // ---------------------------------------------------------------- who holds what

  /** The worker that the thread object owns. */
  predicate WorkerFor(handle: Option<nat>, workers: map<nat, Worker>, task: Task) {
    handle.Some? && handle.value in workers && workers[handle.value].task == task
  }

  function WorkerPcOf(handle: Option<nat>, workers: map<nat, Worker>): WorkerPc {
    if handle.Some? && handle.value in workers then workers[handle.value].pc else Done
  }

  /** The worker has not yet released what its goal or return claimed. */
  predicate BeforeRelease(pc: WorkerPc) {
    pc != Finish && pc != Done && pc != NoteFault && pc != StopDriveNow
  }

  /** goal_pending_ is set only between goal_callback and handle_accepted_callback. */
  predicate PendingInv(pending: bool, action: ActionPc) { pending ==> action.Accepted? }

  /** returning_to_upright_ belongs to a service call or its worker. */
  predicate ReturningInv(returning: bool, ret: ReturnPc, handle: Option<nat>, workers: map<nat, Worker>) {
    returning ==>
      || (ret.StartingReturn? && ret.at != Unlock(true))
      || ret == DroppingReturn
      || (WorkerFor(handle, workers, Return) && BeforeRelease(WorkerPcOf(handle, workers)))
  }

  /** goal_handle_ belongs to a callback or its worker. */
  predicate HeldInv(held: Option<nat>, action: ActionPc, handle: Option<nat>, workers: map<nat, Worker>) {
    held.Some? ==>
      || (action.StartingGoal? && action.goal == held.value && action.at != Unlock(true))
      || action == Dropping(held.value)
      || (WorkerFor(handle, workers, Wave(held.value)) && BeforeRelease(WorkerPcOf(handle, workers)))
  }

  predicate OwnsGoal(g: nat, action: ActionPc, handle: Option<nat>, workers: map<nat, Worker>) {
    || (action.Accepted? && action.goal == g)
    || (action.StartingGoal? && action.goal == g && action.at != Unlock(true))
    || action == Dropping(g)
    || action == Aborting(g)
    || (WorkerFor(handle, workers, Wave(g)) && WorkerPcOf(handle, workers) != Done)
  }

  /** An active goal belongs to a callback or its worker, which will end it. */
  ghost predicate ActiveInv(active: set<nat>, action: ActionPc, handle: Option<nat>, workers: map<nat, Worker>) {
    forall g | g in active :: OwnsGoal(g, action, handle, workers)
  }

  /** A return never touches the goals or the trajectory: its worker only checks, writes and halts. */
  predicate KindInv(handle: Option<nat>, workers: map<nat, Worker>) {
    WorkerFor(handle, workers, Return) ==>
      var pc := WorkerPcOf(handle, workers);
      pc == Loop || pc == Guard || pc == Write || pc == Halt || pc == Reset || pc == Finish || pc == Done
  }

  ghost predicate Claims(s: State) {
    && KindInv(s.handle, s.workers)
    && PendingInv(s.pending, s.action)
    && ReturningInv(s.returning, s.ret, s.handle, s.workers)
    && HeldInv(s.held, s.action, s.handle, s.workers)
    && ActiveInv(s.active, s.action, s.handle, s.workers)
  }

  // ---------------------------------------------------------------- every step keeps it

  lemma GoalClaims(s: State, a: Action)
    requires Inv(s) && Claims(s) && Enabled(s, a)
    requires a.GoalArrives? || a.GoalPrepared? || a.GoalTaken? || a.GoalDropped? || a.GoalAborted?
    ensures Claims(Next(s, a))
  {
    hide Inv;
    match a
    case GoalArrives(_) =>
    case GoalPrepared(_) =>
    case GoalTaken =>
    case GoalDropped =>
    case GoalAborted =>
  }

  lemma GoalStartClaims(s: State)
    requires Inv(s) && Claims(s) && Enabled(s, GoalStart) && s.action.at != Join && s.action.at != Spawn
    ensures Claims(Next(s, GoalStart))
  {
    hide Inv;
    match s.action.at
    case Lock =>
    case Flag =>
    case Check =>
    case Clear =>
    case Unlock(_) =>
  }

  lemma GoalThreadClaims(s: State)
    requires Inv(s) && Claims(s) && Enabled(s, GoalStart) && (s.action.at == Join || s.action.at == Spawn)
    ensures Claims(Next(s, GoalStart))
  {
    hide WorkersInv, GoalInv, GateInv, FlagInv, ClearInv, ExecInv;
    match s.action.at
    case Join =>
    case Spawn =>
  }

  lemma ReturnStartClaims(s: State)
    requires Inv(s) && Claims(s) && Enabled(s, ReturnStart) && s.ret.at != Join && s.ret.at != Spawn
    ensures Claims(Next(s, ReturnStart))
  {
    hide Inv;
    match s.ret.at
    case Lock =>
    case Flag =>
    case Check =>
    case Clear =>
    case Unlock(_) =>
  }

  lemma ReturnThreadClaims(s: State)
    requires Inv(s) && Claims(s) && Enabled(s, ReturnStart) && (s.ret.at == Join || s.ret.at == Spawn)
    ensures Claims(Next(s, ReturnStart))
  {
    hide WorkersInv, GoalInv, GateInv, FlagInv, ClearInv, ExecInv;
    match s.ret.at
    case Join =>
    case Spawn =>
  }

  lemma FewerActive(active: set<nat>, fewer: set<nat>, action: ActionPc, handle: Option<nat>, workers: map<nat, Worker>)
    requires ActiveInv(active, action, handle, workers) && fewer <= active
    ensures ActiveInv(fewer, action, handle, workers)
  {}

  /** What a step of the lifecycle thread that joins nothing can do to the claims. */
  lemma StopOnlyReleases(s: State)
    requires s.life.Stopping? && s.life.at != StopJoin
    ensures var t := StopNext(s, s.life.at, s.life.release);
      && (t.pending ==> s.pending) && t.returning == s.returning && (t.held == s.held || t.held.None?)
      && t.active <= s.active && t.action == s.action && t.ret == s.ret && t.handle == s.handle && t.workers == s.workers
  {
    match s.life.at
    case CloseGate =>
    case TakeGoal =>
    case AbortTaken(_) =>
    case StopLock =>
    case StopFlag =>
    case StopUnlock =>
    case StopDrive =>
  }

  lemma StopClaims(s: State)
    requires Inv(s) && Claims(s) && Enabled(s, StopStep)
    ensures Claims(Next(s, StopStep))
  {
    if s.life.at == StopJoin {
      hide WorkersInv, GoalInv, GateInv, FlagInv, ClearInv, ExecInv;
    } else {
      StopOnlyReleases(s);
      var t := Next(s, StopStep);
      FewerActive(s.active, t.active, s.action, s.handle, s.workers);
      hide StopNext, Inv, ActiveInv, Enabled;
    }
  }

  lemma OtherClaims(s: State, a: Action)
    requires Claims(s) && Enabled(s, a)
    requires a.ReturnRequested? || a.ReturnDropped? || a.Configure? || a.StartDrive? || a.GateOpened? || a.ActivateDone?
      || a.StopBegins? || a.DriverFault? || a.FaultTimer?
    ensures Claims(Next(s, a))
  {
    match a
    case ReturnRequested(_) =>
    case ReturnDropped =>
    case Configure =>
    case StartDrive =>
    case GateOpened =>
    case ActivateDone =>
    case StopBegins(_) =>
    case DriverFault =>
    case FaultTimer =>
  }

  lemma FaultOnlyReleases(s: State)
    requires Enabled(s, FaultStep)
    ensures var t := FaultNext(s);
      && (t.pending ==> s.pending) && t.returning == s.returning && (t.held == s.held || t.held.None?)
      && t.active <= s.active && t.action == s.action && t.ret == s.ret && t.handle == s.handle && t.workers == s.workers
  {
    match s.life
    case FaultCloseGate =>
    case FaultTakeGoal =>
    case FaultAbort(_) =>
  }

  lemma FaultClaims(s: State)
    requires Claims(s) && Enabled(s, FaultStep)
    ensures Claims(Next(s, FaultStep))
  {
    FaultOnlyReleases(s);
    var t := Next(s, FaultStep);
    FewerActive(s.active, t.active, s.action, s.handle, s.workers);
    hide FaultNext, ActiveInv, Enabled;
  }

  /** The worker moves from w to v: what it may then have ended or released. */
  lemma WorkerActive(active: set<nat>, action: ActionPc, id: nat, w: Worker, v: Worker)
    requires ActiveInv(active, action, Some(id), map[id := w]) && v.task == w.task
    ensures v.pc != Done ==> ActiveInv(active, action, Some(id), map[id := v])
    ensures w.task.Wave? ==> ActiveInv(active - {w.task.goal}, action, Some(id), map[id := v])
    ensures w.task == Return ==> ActiveInv(active, action, Some(id), map[id := v])
  {}

  lemma WorkerHeld(held: Option<nat>, action: ActionPc, id: nat, w: Worker, v: Worker)
    requires HeldInv(held, action, Some(id), map[id := w]) && v.task == w.task
    ensures BeforeRelease(v.pc) || w.task == Return || held != Some(w.task.goal) || !BeforeRelease(w.pc)
            ==> HeldInv(held, action, Some(id), map[id := v])
  {}

  lemma WorkerReturning(returning: bool, ret: ReturnPc, id: nat, w: Worker, v: Worker)
    requires ReturningInv(returning, ret, Some(id), map[id := w]) && v.task == w.task
    ensures BeforeRelease(v.pc) || w.task.Wave? || !BeforeRelease(w.pc)
            ==> ReturningInv(returning, ret, Some(id), map[id := v])
  {}

  lemma WorkerLemmas(s: State, id: nat, v: Worker)
    requires Claims(s) && s.handle == Some(id) && id in s.workers && s.workers == map[id := s.workers[id]] && v.task == s.workers[id].task
    ensures var w := s.workers[id];
      && PendingInv(s.pending, s.action) && (w.task == Return ==> KindInv(Some(id), map[id := w]))
      && (v.pc != Done || w.task == Return ==> ActiveInv(s.active, s.action, Some(id), map[id := v]))
      && (w.task.Wave? ==> ActiveInv(s.active - {w.task.goal}, s.action, Some(id), map[id := v]))
      && (BeforeRelease(v.pc) || w.task == Return || s.held != Some(w.task.goal) || !BeforeRelease(w.pc)
          ==> HeldInv(s.held, s.action, Some(id), map[id := v]))
      && (BeforeRelease(v.pc) || w.task.Wave? || !BeforeRelease(w.pc)
          ==> ReturningInv(s.returning, s.ret, Some(id), map[id := v]))
  {
    WorkerActive(s.active, s.action, id, s.workers[id], v);
    WorkerHeld(s.held, s.action, id, s.workers[id], v);
    WorkerReturning(s.returning, s.ret, id, s.workers[id], v);
  }

  /** A step that only moves the worker, not past the release of its claims. */
  lemma WorkerMovesClaims(s: State, id: nat, choice: Choice)
    requires Inv(s) && Claims(s) && Enabled(s, WorkerStep(id, choice)) && LocalPc(s.workers[id].pc)
    ensures Claims(Next(s, WorkerStep(id, choice)))
  {
    OnlyWorker(s, id);
    assert s.handle == Some(id);
    var w, t := s.workers[id], Next(s, WorkerStep(id, choice));
    var v := Worker(w.task, WorkerPcAfter(s, w, choice));
    assert t == s.(workers := map[id := v]);
    WorkerLemmas(s, id, v);
    hide Inv, ActiveInv, HeldInv, ReturningInv, PendingInv;
  }

  lemma WorkerEndsClaims(s: State, id: nat, choice: Choice)
    requires Inv(s) && Claims(s) && Enabled(s, WorkerStep(id, choice))
    requires s.workers[id].pc == Succeed || s.workers[id].pc == Finish || s.workers[id].pc == NoteFault
    ensures Claims(Next(s, WorkerStep(id, choice)))
  {
    OnlyWorker(s, id);
    assert s.handle == Some(id);
    var w, t := s.workers[id], Next(s, WorkerStep(id, choice));
    var v := Worker(w.task, if w.pc == Succeed then Reset else if w.pc == Finish then Done else StopDriveNow);
    assert t.workers == map[id := v];
    WorkerLemmas(s, id, v);
    hide Inv, ActiveInv, HeldInv, ReturningInv, PendingInv, BeforeRelease;
  }

  lemma WorkerReleasesClaims(s: State, id: nat, choice: Choice)
    requires Inv(s) && Claims(s) && Enabled(s, WorkerStep(id, choice))
    requires s.workers[id].pc == Reset || s.workers[id].pc == Fail
    ensures Claims(Next(s, WorkerStep(id, choice)))
  {
    OnlyWorker(s, id);
    assert s.handle == Some(id);
    var w, t := s.workers[id], Next(s, WorkerStep(id, choice));
    var v := Worker(w.task, if w.pc == Reset then Finish else NoteFault);
    assert t.workers == map[id := v];
    WorkerLemmas(s, id, v);
    Unclaimed(s, s.handle, t.workers);
    hide Inv, ActiveInv, HeldInv, ReturningInv, PendingInv, BeforeRelease;
  }

  lemma Unclaimed(s: State, handle: Option<nat>, workers: map<nat, Worker>)
    ensures PendingInv(false, s.action) && HeldInv(None, s.action, handle, workers)
    ensures ReturningInv(false, s.ret, handle, workers)
  {}

  lemma StepKeepsClaims(s: State, a: Action)
    requires Inv(s) && Claims(s) && Enabled(s, a)
    ensures Claims(Next(s, a))
  {
    hide Inv, Claims;
    match a
    case GoalArrives(_) => GoalClaims(s, a);
    case GoalPrepared(_) => GoalClaims(s, a);
    case GoalTaken => GoalClaims(s, a);
    case GoalStart =>
      if s.action.at == Join || s.action.at == Spawn {
        GoalThreadClaims(s);
      } else {
        GoalStartClaims(s);
      }
    case GoalDropped => GoalClaims(s, a);
    case GoalAborted => GoalClaims(s, a);
    case ReturnStart =>
      if s.ret.at == Join || s.ret.at == Spawn {
        ReturnThreadClaims(s);
      } else {
        ReturnStartClaims(s);
      }
    case StopStep => StopClaims(s);
    case FaultStep => FaultClaims(s);
    case WorkerStep(id, choice) =>
      if LocalPc(s.workers[id].pc) {
        WorkerMovesClaims(s, id, choice);
      } else if s.workers[id].pc == Reset || s.workers[id].pc == Fail {
        WorkerReleasesClaims(s, id, choice);
      } else {
        WorkerEndsClaims(s, id, choice);
      }
    case _ => OtherClaims(s, a);
  }

  lemma {:induction false} RunKeepsClaims(states: seq<State>, actions: seq<Action>, i: nat)
    requires Run(states, actions) && i < |states|
    ensures Claims(states[i])
  {
    if i > 0 {
      RunKeepsClaims(states, actions, i - 1);
      RunKeepsInv(states, actions, i - 1);
      StepKeepsClaims(states[i - 1], actions[i - 1]);
    }
  }

  /** No callback, service call or worker is in the middle of anything. */
  predicate Quiet(s: State) {
    s.action == ActionIdle && s.ret == ReturnIdle && forall id | id in s.workers :: s.workers[id].pc == Done
  }

  /** Nothing stays claimed: once every callback and worker has finished, no goal is pending, held or active
      and no return is marked, so the next goal is prepared, and the next return started, whenever goals are
      accepted and the drive is ready. */
  lemma NothingStaysClaimed(states: seq<State>, actions: seq<Action>, i: nat)
    requires Run(states, actions) && i < |states| && Quiet(states[i])
    ensures var s := states[i];
      && !s.pending && !s.returning && s.held.None? && s.active == {}
      && Next(s, GoalArrives(true)) == (if s.accepting then s.(action := Preparing(s.nextGoal), nextGoal := s.nextGoal + 1)
                                        else s)
      && Next(s, ReturnRequested(true)) == (if s.accepting then s.(returning := true, ret := StartingReturn(Lock)) else s)
  {
    RunKeepsClaims(states, actions, i);
    RunKeepsInv(states, actions, i);
    assert forall g | g in states[i].active :: false;
  }
}
