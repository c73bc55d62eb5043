/** goal_callback() and the return service each claim the controller under goal_mutex_. This module says exactly
    when a return is still admitted between a goal's acceptance and its start. */
module ControllerOverlap {
  import opened Options
  import opened Controller
  import opened ControllerSafety
  import opened ControllerProgress
  import opened ControllerCalls

  // ---------------------------------------------------------------- the invariant

  /** The goal that the lifecycle thread has taken is older than this. */
  predicate TakenBelow(life: LifePc, n: nat) {
    match life
    case FaultAbort(Some(g)) => g < n
    case Stopping(AbortTaken(Some(g)), _) => g < n
    case _ => true
  }

  /** The held goal is active, or its worker has succeeded and is about to release it. */
  predicate HeldActiveInv(held: Option<nat>, active: set<nat>, handle: Option<nat>, workers: map<nat, Worker>,
                          life: LifePc, nextGoal: nat) {
    held.Some? ==>
      && held.value < nextGoal && !LifeHolds(life, held.value)
      && (held.value in active
          || (WorkerFor(handle, workers, Wave(held.value)) && WorkerPcOf(handle, workers) == Reset))
  }

  /** While a goal is prepared under the lock, what goal_callback checked stays so. */
  predicate PreparingInv(action: ActionPc, accepting: bool, pending: bool, returning: bool, held: Option<nat>,
                         active: set<nat>, life: LifePc) {
    action.Preparing? ==>
      && accepting && !pending && !returning && TakenBelow(life, action.goal)
      && (held.Some? ==> held.value !in active && held.value < action.goal)
  }

  /** An accepted goal is active until it is started. */
  predicate AcceptedInv(action: ActionPc, held: Option<nat>, active: set<nat>, life: LifePc) {
    action.Accepted? ==>
      action.goal in active && TakenBelow(life, action.goal) && (held.Some? ==> held.value < action.goal)
  }

  predicate Overlap(s: State) {
    && TakenBelow(s.life, s.nextGoal)
    && HeldActiveInv(s.held, s.active, s.handle, s.workers, s.life, s.nextGoal)
    && PreparingInv(s.action, s.accepting, s.pending, s.returning, s.held, s.active, s.life)
    && AcceptedInv(s.action, s.held, s.active, s.life)
  }

  lemma GoalOverlap(s: State, a: Action)
    requires Inv(s) && Overlap(s) && Enabled(s, a)
    requires a.GoalArrives? || a.GoalPrepared? || a.GoalTaken? || a.GoalDropped?
    ensures Overlap(Next(s, a))
  {
    hide ExecInv, EmptyInv, GateInv, FlagInv, ClearInv, WorkersInv, HandleInv;
    match a
    case GoalArrives(_) =>
    case GoalPrepared(_) =>
    case GoalTaken =>
    case GoalDropped =>
  }

  /** A goal aborted by its own callback is not the held one. */
  lemma AbortedOverlap(s: State)
    requires Inv(s) && Claims(s) && Overlap(s) && Enabled(s, GoalAborted)
    ensures Overlap(Next(s, GoalAborted))
  {
    hide ExecInv, EmptyInv, GateInv, FlagInv, ClearInv, HandleInv, ReturningInv, ActiveInv;
    if s.held.Some? {
      var id := s.handle.value;
      InvOf(s, id);
    }
  }

  /** start_execution() touches none of the claims; it only replaces a worker that is done. */
  lemma StartKeepsClaimed(s: State, who: Owner, at: StartPc, task: Task)
    requires StartEnabled(s, at) && (at == Spawn ==> s.handle.None?)
    ensures var t := StartStep(s, who, at, task).0;
      && t.held == s.held && t.active == s.active && t.life == s.life && t.nextGoal == s.nextGoal
      && t.accepting == s.accepting && t.pending == s.pending && t.returning == s.returning
      && (WorkerPcOf(s.handle, s.workers) != Done ==> t.handle == s.handle && t.workers == s.workers)
  {
    match at
    case Lock => case Flag => case Join => case Check => case Clear => case Spawn => case Unlock(_) =>
  }

  /** Steps of start_execution() keep the claims. */
  lemma StartedOverlap(s: State, t: State)
    requires Overlap(s) && t.held == s.held && t.active == s.active && t.life == s.life && t.nextGoal == s.nextGoal
    requires t.accepting == s.accepting && t.pending == s.pending && t.returning == s.returning
    requires WorkerPcOf(s.handle, s.workers) != Done ==> t.handle == s.handle && t.workers == s.workers
    requires t.action == s.action || !(t.action.Preparing? || t.action.Accepted?)
    ensures Overlap(t)
  {}

  lemma StartOverlap(s: State, a: Action)
    requires Inv(s) && Overlap(s) && Enabled(s, a) && (a.GoalStart? || a.ReturnStart?)
    ensures Overlap(Next(s, a))
  {
    assert EmptyInv(s.handle, s.action, s.ret, s.life, s.mode);
    if a.GoalStart? {
      StartKeepsClaimed(s, ActionGroup, s.action.at, Wave(s.action.goal));
    } else {
      StartKeepsClaimed(s, ReturnService, s.ret.at, Return);
    }
    hide StartStep, StartEnabled, Inv, Overlap, WorkerPcOf;
    StartedOverlap(s, Next(s, a));
  }

  lemma OtherOverlap(s: State, a: Action)
    requires Inv(s) && Overlap(s) && Enabled(s, a)
    requires a.ReturnRequested? || a.ReturnDropped? || a.Configure? || a.StartDrive? || a.GateOpened? || a.ActivateDone?
      || a.StopBegins? || a.DriverFault? || a.FaultTimer?
    ensures Overlap(Next(s, a))
  {
    hide ExecInv, EmptyInv, GateInv, FlagInv, ClearInv, WorkersInv, HandleInv;
    match a
    case ReturnRequested(_) =>
    case ReturnDropped =>
    case Configure =>
    case StartDrive =>
    case GateOpened =>
    case ActivateDone =>
    case StopBegins(_) =>
    case DriverFault =>
    case FaultTimer =>
  }

  lemma TakenMeans(life: LifePc, n: nat)
    ensures TakenBelow(life, n) <==> forall g: nat | LifeHolds(life, g) :: g < n
  {
    match life
    case FaultAbort(Some(g)) => assert LifeHolds(life, g);
    case Stopping(AbortTaken(Some(g)), _) => assert LifeHolds(life, g);
    case _ =>
  }

  /** The lifecycle thread takes the held goal, aborts the goal it has taken, or leaves both alone. */
  lemma LifeMoves(s: State, t: State)
    requires Overlap(s) && t.action == s.action && t.handle == s.handle && t.workers == s.workers
    requires t.nextGoal == s.nextGoal && t.returning == s.returning && (t.pending ==> s.pending)
    requires s.action.Preparing? ==> t.accepting == s.accepting && t.held == s.held
    requires t.held == s.held || t.held.None?
    requires t.active <= s.active && forall g | g in s.active :: g in t.active || LifeHolds(s.life, g)
    requires forall g: nat | LifeHolds(t.life, g) :: s.held == Some(g) && t.held.None?
    ensures Overlap(t)
  {
    TakenMeans(s.life, s.nextGoal);
    TakenMeans(t.life, s.nextGoal);
    if s.action != ActionIdle {
      TakenMeans(s.life, s.action.goal);
      TakenMeans(t.life, s.action.goal);
    }
    hide TakenBelow, LifeHolds;
  }

  /** The goals that a life step can end or take. */
  ghost predicate LifeTakes(s: State, t: State) {
    && t.nextGoal == s.nextGoal && (s.action.Preparing? ==> t.accepting == s.accepting && t.held == s.held)
    && (forall g | g in s.active :: g in t.active || LifeHolds(s.life, g))
    && (forall g: nat | LifeHolds(t.life, g) :: s.held == Some(g) && t.held.None?)
  }

  lemma FaultTouches(s: State)
    requires Enabled(s, FaultStep)
    ensures LifeTakes(s, FaultNext(s))
  {
    match s.life
    case FaultCloseGate =>
    case FaultTakeGoal =>
    case FaultAbort(_) =>
  }

  lemma FaultOverlap(s: State)
    requires Overlap(s) && Enabled(s, FaultStep)
    ensures Overlap(Next(s, FaultStep))
  {
    FaultTouches(s);
    FaultOnlyReleases(s);
    hide FaultNext, Overlap, LifeHolds;
    LifeMoves(s, Next(s, FaultStep));
  }

  lemma StopTouchesGoal(s: State)
    requires Enabled(s, StopStep) && (s.life.at == CloseGate || s.life.at == TakeGoal || s.life.at.AbortTaken?)
    ensures LifeTakes(s, StopNext(s, s.life.at, s.life.release))
  {
    match s.life.at
    case CloseGate =>
    case TakeGoal =>
    case AbortTaken(_) =>
  }

  lemma StopTouchesNothing(s: State)
    requires Enabled(s, StopStep) && (s.life.at == StopLock || s.life.at == StopFlag || s.life.at == StopJoin)
    ensures LifeTakes(s, StopNext(s, s.life.at, s.life.release))
  {
    match s.life.at
    case StopLock =>
    case StopFlag =>
    case StopJoin =>
  }

  lemma StopEndTouchesNothing(s: State)
    requires Enabled(s, StopStep) && (s.life.at == StopUnlock || s.life.at == StopDrive)
    ensures LifeTakes(s, StopNext(s, s.life.at, s.life.release))
  {
    match s.life.at
    case StopUnlock =>
    case StopDrive =>
  }

  lemma StopOverlap(s: State)
    requires Inv(s) && Overlap(s) && Enabled(s, StopStep)
    ensures Overlap(Next(s, StopStep))
  {
    if s.life.at == StopJoin {
      hide Inv;
    } else {
      if s.life.at == CloseGate || s.life.at == TakeGoal || s.life.at.AbortTaken? {
        StopTouchesGoal(s);
      } else if s.life.at == StopUnlock || s.life.at == StopDrive {
        StopEndTouchesNothing(s);
      } else {
        StopTouchesNothing(s);
      }
      StopOnlyReleases(s);
      hide StopNext, Overlap, LifeHolds, Inv;
      LifeMoves(s, Next(s, StopStep));
    }
  }

  /** What a worker's step does to the claims: ending its goal, and releasing them. */
  ghost predicate WorkerTakes(s: State, w: Worker, t: State) {
    && t.action == s.action && t.life == s.life && t.nextGoal == s.nextGoal && t.handle == s.handle
    && (s.action.Preparing? && !NeedsGoalMutex(w.pc) ==>
          t.accepting == s.accepting && t.returning == s.returning && t.pending == s.pending && t.held == s.held)
    && (t.held == s.held || (t.held.None? && w.task.Wave? && s.held == Some(w.task.goal)))
    && (w.task.Wave? && (w.pc == Reset || w.pc == Fail) ==> t.held != Some(w.task.goal))
    && (t.active == s.active
        || (w.task.Wave? && t.active == s.active - {w.task.goal} && (w.pc == Succeed || w.pc == Finish)))
  }

  lemma WorkerTouchesGoal(s: State, w: Worker)
    requires w.pc == Succeed || w.pc == Finish
    ensures WorkerTakes(s, w, WorkerEffect(s, w))
  {}

  lemma WorkerTouchesClaims(s: State, w: Worker)
    requires w.pc == Reset || w.pc == Fail
    ensures WorkerTakes(s, w, WorkerEffect(s, w))
  {}

  lemma WorkerTouchesNothing(s: State, w: Worker)
    requires w.pc != Reset && w.pc != Fail && w.pc != Succeed && w.pc != Finish
    ensures WorkerTakes(s, w, WorkerEffect(s, w))
  {}

  lemma WorkerTouches(s: State, w: Worker)
    ensures WorkerTakes(s, w, WorkerEffect(s, w))
  {
    hide WorkerTakes, WorkerEffect;
    if w.pc == Succeed || w.pc == Finish {
      WorkerTouchesGoal(s, w);
    } else if w.pc == Reset || w.pc == Fail {
      WorkerTouchesClaims(s, w);
    } else {
      WorkerTouchesNothing(s, w);
    }
  }

  /** A worker that moves from w to v, given what it takes. */
  lemma WorkerKeepsOverlap(s: State, id: nat, t: State, v: Worker)
    requires Inv(s) && Claims(s) && Overlap(s) && s.handle == Some(id) && id in s.workers
    requires s.workers == map[id := s.workers[id]] && WorkerTakes(s, s.workers[id], t) && t.workers == map[id := v]
    requires v.task == s.workers[id].task && (NeedsGoalMutex(s.workers[id].pc) ==> GoalMutexFree(s))
    requires s.workers[id].pc == Succeed ==> v.pc == Reset
    requires s.workers[id].pc == Done ==> v.pc == Done
    ensures Overlap(t)
  {
    InvOf(s, id);
    hide ExecInv, EmptyInv, GateInv, FlagInv, ClearInv, WorkersInv, HandleInv, ReturningInv, ActiveInv, KindInv, PendingInv;
  }

  lemma WorkerStepIs(s: State, id: nat, choice: Choice)
    requires Enabled(s, WorkerStep(id, choice)) && s.workers == map[id := s.workers[id]]
    ensures var w := s.workers[id]; var v := Worker(w.task, WorkerPcAfter(s, w, choice));
      && w.pc != Done && (w.pc == Succeed ==> v.pc == Reset) && (NeedsGoalMutex(w.pc) ==> GoalMutexFree(s))
      && Next(s, WorkerStep(id, choice)) == WorkerEffect(s, w).(workers := map[id := v])
  {
    hide WorkerEffect, WriteOutcome;
  }

  lemma TakesWithWorkers(s: State, w: Worker, u: State, workers: map<nat, Worker>)
    requires WorkerTakes(s, w, u)
    ensures WorkerTakes(s, w, u.(workers := workers))
  {}

  lemma WorkerOverlap(s: State, id: nat, choice: Choice)
    requires Inv(s) && Claims(s) && Overlap(s) && Enabled(s, WorkerStep(id, choice))
    ensures Overlap(Next(s, WorkerStep(id, choice)))
  {
    OnlyWorker(s, id);
    assert s.handle == Some(id);
    WorkerStepIs(s, id, choice);
    hide Inv, Claims, Overlap, WorkerEffect, WorkerPcAfter, WorkerTakes, Next, Enabled, NeedsGoalMutex, GoalMutexFree;
    var w := s.workers[id];
    var v := Worker(w.task, WorkerPcAfter(s, w, choice));
    WorkerTouches(s, w);
    TakesWithWorkers(s, w, WorkerEffect(s, w), map[id := v]);
    WorkerKeepsOverlap(s, id, Next(s, WorkerStep(id, choice)), v);
  }

  lemma StepKeepsOverlap(s: State, a: Action)
    requires Inv(s) && Claims(s) && Overlap(s) && Enabled(s, a)
    ensures Overlap(Next(s, a))
  {
    hide Inv, Claims, Overlap;
    match a
    case GoalArrives(_) => GoalOverlap(s, a);
    case GoalPrepared(_) => GoalOverlap(s, a);
    case GoalTaken => GoalOverlap(s, a);
    case GoalDropped => GoalOverlap(s, a);
    case GoalAborted => AbortedOverlap(s);
    case GoalStart => StartOverlap(s, a);
    case ReturnStart => StartOverlap(s, a);
    case StopStep => StopOverlap(s);
    case FaultStep => FaultOverlap(s);
    case WorkerStep(id, choice) => WorkerOverlap(s, id, choice);
    case _ => OtherOverlap(s, a);
  }

  lemma {:induction false} RunKeepsOverlap(states: seq<State>, actions: seq<Action>, i: nat)
    requires Run(states, actions) && i < |states|
    ensures Overlap(states[i])
  {
    if i > 0 {
      RunKeepsOverlap(states, actions, i - 1);
      RunKeepsInv(states, actions, i - 1);
      RunKeepsClaims(states, actions, i - 1);
      StepKeepsOverlap(states[i - 1], actions[i - 1]);
    }
  }

  // ---------------------------------------------------------------- the window

  lemma StepOfRun(states: seq<State>, actions: seq<Action>, k: nat)
    requires Run(states, actions) && k < |actions|
    ensures |states| == |actions| + 1 && Enabled(states[k], actions[k]) && states[k + 1] == Next(states[k], actions[k])
  {}

  lemma ClaimStarts(s: State)
    requires Enabled(s, GoalPrepared(true)) && s.held.None?
    ensures var t := Next(s, GoalPrepared(true)); t.held.None? && t.pending && t.action.Accepted?
  {}

  lemma ClaimRefuses(s: State)
    requires s.held.None? && (s.accepting ==> s.pending) && Enabled(s, ReturnRequested(true))
    ensures Next(s, ReturnRequested(true)) == s
  {}

  /** Between its acceptance and its start nothing of a goal's claim is lost, if no goal was held when it was
      prepared: while the gate is not opened anew, every return is refused. */
  lemma {:induction false} ClaimHolds(states: seq<State>, actions: seq<Action>, i: nat, j: nat)
    requires Run(states, actions) && i < j < |states| && |actions| + 1 == |states|
    requires actions[i] == GoalPrepared(true) && states[i].held.None?
    requires forall n | i < n <= j :: states[n].action == states[i + 1].action
    requires forall n | i < n < j :: actions[n] != GateOpened
    ensures states[j].held.None? && (states[j].accepting ==> states[j].pending) && states[j].action.Accepted?
    ensures Enabled(states[j], ReturnRequested(true)) ==> Next(states[j], ReturnRequested(true)) == states[j]
  {
    hide Run, Next, Enabled;
    StepOfRun(states, actions, i);
    StepOfRun(states, actions, j - 1);
    if i + 1 < j {
      ClaimHolds(states, actions, i, j - 1);
      RunKeepsInv(states, actions, j - 1);
      hide Inv;
      ClaimStep(states[j - 1], actions[j - 1]);
    } else {
      ClaimStarts(states[i]);
    }
    if Enabled(states[j], ReturnRequested(true)) {
      ClaimRefuses(states[j]);
    }
  }

  lemma ClaimStep(s: State, a: Action)
    requires Inv(s) && Enabled(s, a) && s.action.Accepted? && Next(s, a).action == s.action && a != GateOpened
    requires s.held.None? && (s.accepting ==> s.pending)
    ensures var t := Next(s, a); t.held.None? && (t.accepting ==> t.pending)
  {
    hide StartStep;
    match a
    case ReturnStart => StartKeepsGate(s, ReturnService, s.ret.at, Return);
    case StopStep => StopKeepsClaim(s);
    case FaultStep => FaultKeepsClaim(s);
    case WorkerStep(id, choice) => WorkerKeepsClaim(s, s.workers[id]);
    case _ =>
  }

  lemma StartKeepsGate(s: State, who: Owner, at: StartPc, task: Task)
    ensures var t := StartStep(s, who, at, task).0;
      t.held == s.held && t.accepting == s.accepting && t.pending == s.pending
  {}

  lemma StopKeepsClaim(s: State)
    requires Inv(s) && Enabled(s, StopStep) && s.held.None? && (s.accepting ==> s.pending)
    ensures var t := Next(s, StopStep); t.held.None? && (t.accepting ==> t.pending)
  {
    hide ExecInv, EmptyInv, FlagInv, ClearInv, WorkersInv, HandleInv, GoalInv;
    match s.life.at
    case CloseGate => case TakeGoal => case AbortTaken(_) => case StopLock => case StopFlag => case StopJoin =>
    case StopUnlock => case StopDrive =>
  }

  lemma FaultKeepsClaim(s: State)
    requires Inv(s) && Enabled(s, FaultStep) && s.held.None? && (s.accepting ==> s.pending)
    ensures var t := Next(s, FaultStep); t.held.None? && (t.accepting ==> t.pending)
  {}

  lemma WorkerKeepsClaim(s: State, w: Worker)
    requires s.held.None? && (s.accepting ==> s.pending)
    ensures var t := WorkerEffect(s, w); t.held.None? && (t.accepting ==> t.pending)
  {
    match w.pc
    case Succeed => case Reset => case Fail => case NoteFault => case Finish => case _ =>
  }

  /** But if the last goal was still held, its worker has just succeeded and not yet released it; when it does,
      it clears the new goal's mark too. A return is then admitted, the goal takes its place as well, and both
      are claimed at once. */
  lemma BothClaimed(states: seq<State>, actions: seq<Action>, i: nat, g: nat) returns (w: nat)
    requires Run(states, actions) && i < |states| && states[i].action == Preparing(g) && states[i].held.Some?
    requires states[i].ret == ReturnIdle
    ensures var end := After(states[i], [GoalPrepared(true)] + ([WorkerStep(w, Proceed)] + ([ReturnRequested(true)]
                                        + [GoalTaken])));
      && end.Some? && end.value.returning && end.value.ret == StartingReturn(Lock)
      && end.value.held == Some(g) && end.value.action == StartingGoal(g, Lock) && end.value.accepting
  {
    var s := states[i];
    RunKeepsInv(states, actions, i);
    RunKeepsOverlap(states, actions, i);
    w := s.handle.value;
    OnlyWorker(s, w);
    hide Run, Inv;
    var last := s.held.value;
    var prepared := s.(config := Some(g), pending := true, active := s.active + {g}, action := Accepted(g));
    var released := prepared.(held := None, pending := false, workers := map[w := Worker(Wave(last), Finish)]);
    var marked := released.(returning := true, ret := StartingReturn(Lock));
    var both := marked.(held := Some(g), action := StartingGoal(g, Lock));
    assert At(prepared, w, Wave(last), Reset);
    assert Leads(s, GoalPrepared(true), prepared);
    WaveReleases(prepared, w, last);
    assert MovedTo(Released(prepared, last), w, Finish) == released;
    ReturnAdmittedIff(released, true);
    assert Leads(marked, GoalTaken, both);
    hide Leads, After, Overlap;
    Then(marked, GoalTaken, both, []);
    Then(released, ReturnRequested(true), marked, [GoalTaken]);
    Then(prepared, WorkerStep(w, Proceed), released, [ReturnRequested(true)] + [GoalTaken]);
    Then(s, GoalPrepared(true), prepared, [WorkerStep(w, Proceed)] + ([ReturnRequested(true)] + [GoalTaken]));
    Nowhere(both, GoalTaken);
    assert [GoalTaken] + [] == [GoalTaken];
  }
}
