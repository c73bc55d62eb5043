# Wavemaker controller: a verified model

A wave maker is a paddle in a wave tank, moved by an electric drive. This project models the software between an
operator's "start" and the drive's control word, and proves properties of it in Dafny:

```
operator -> bridge -> goal -> trajectory -> setpoint -> staged bytes -> Modbus frames -> drive
```

`dafny verify dfyconfig.toml` checks everything.

## How it is organised

| files | part of the system |
|---|---|
| `Controller`, `ControllerSafety`, `ControllerTheorems`, `ControllerProgress`, `ControllerCalls`, `ControllerOverlap` | threads of the controller node: goals, returns, lifecycle stops and one worker, one lock operation, flag store or join per step |
| `Bridge`, `BridgeSafety`, `BridgeService` | the operator bridge: one callback per step, goal generations, cancel on acceptance, stop timer, heartbeat |
| `RealMath`, `QuinticBlend`, `Trigonometry`, `Expansion`, `WaveTrajectory`, `WaveAnalysis`, `RegularWave` | the regular-wave trajectory and its peak speed |
| `Pregenerated`, `GainTable` | the recorded trajectory; the transfer-gain table |
| `Rates` | velocities as the rates of the positions they are sent with |
| `GoalPlanner`, `Setpoints`, `UprightReturn`, `IndraDriveActuator` | goal acceptance, setpoint conversion, return to upright, the actuator in front of the drive |
| `IndraDrive`, `IndraDriveBits`, `IndraDriveSafety`, `IndraDriveCalls`, `IndraDriveObject` | the drive's state machine on the cyclic exchange |
| `Mirror`, `ChunkedReads`, `MGateDriver` | the output image, its dirty span, chunked transfer and the poll cycle |
| `Options`, `Bytes`, `Tags`, `ProcessImage` | byte orders, typed tags and the process image |
| `Modbus`, `ModbusClient` | Modbus requests, framing, a server as the standard specifies it, and the client on a byte stream |
| `SoftStop` | the soft-stop debouncer |

Objects that the program changes in place are classes whose methods are proved against functions on values; what is
promised is then proved about those functions, over all runs where time matters. `IndraDriveObject.IndraDrive` and
`Bridge.WavemakerBridge` carry their own history as ghost state: their invariant says that the history is a run of the
steps in `IndraDrive` and `Bridge`, so the theorems about runs hold of the objects.

## Assumptions

- Numbers are real numbers. `sin`, `cos` and pi are any functions that satisfy the laws in `Trigonometry.Trig.Valid`:
  values at 0 and pi/2, the addition formulas, |sin|, |cos| <= 1, |sin h| <= |h|, |sin h - h| <= |h|^3/6 and
  1 - cos h <= h^2/2.
- The action callbacks of the controller node are serialised by their callback group, and so are lifecycle transitions
  and the fault timer. `goal_mutex_` sections are one step, except the one in which a goal is prepared, which is two.
- In the drive layer one poll cycle is one step, and so is the code of a command from one passed wait check to the next
  wait; commands come from one thread.
- A failed chunk is either applied whole by the gateway or not at all. While one area is read the gateway's registers
  do not change between its chunks.
- The stroke that linear wave theory asks for is a nonnegative input.
- Clocks are inputs that never run backwards. What other threads and the network do during a blocking call is an input
  too: every theorem is for all such inputs.

## Where the code falls short of its comments

Five properties that the comments or documentation suggest are false of the code. Each is shown false by a lemma with the
failing input, and comes with the exact condition under which it does hold.

- *No staged write is forgotten* (drivers/mgate5101_driver/src/mgate_driver.cpp:291-300). In `write_only_dirty` mode a
  write inside the span, landing while the span is on the wire, does not extend it and is forgotten
  (`Mirror.WriteInsideIsLost`); so is one below the span when another lands above its end (`Mirror.WriteBelowIsLost`).
  `Mirror.SuccessfulFlushKeepsIff` and `Mirror.MirrorStep` give the condition on the writes; `Mirror.WritesAboveAreKept`,
  `Mirror.FailedFlushKeeps` and `Mirror.WholeAreaFlush` are cases in which nothing is lost.
- *After a link failure the run command does not come back by itself* (drivers/mgate5101_driver/include/mgate/indradrive.h:17-21).
  `clear_errors()` puts back the control word it found. Called on a running drive, with the link failing during its wait,
  it stages the run command again after the fault (`IndraDriveSafety.ClearWhileRunningRestarts`). It is safe exactly when
  Drive On is not staged at the call (`IndraDriveSafety.ClearIsSafeIff`), which is how the driver's example program calls
  it and what the theorems about faults ask of its callers (`ClearsWhileOff`).
- *An accepted goal that nobody stopped runs* (wavemaker_controller/src/wavemaker_bridge.cpp:335-341). A deactivation
  before the answer leaves `cancel_on_accept_` set across the next activation, and the next goal is cancelled on
  acceptance, with the bridge left in Starting (`BridgeSafety.CancelIsInherited`). An accepted goal runs exactly when the
  flag was clear at its start (`BridgeSafety.AcceptedRunsIff`).
- *A return has the controller to itself* (wavemaker_controller/src/wavemaker_node.cpp:413). A complete
  recording's `succeed()` comes before its goal handle is reset. A goal accepted in between loses its pending mark to that
  reset; a return is then admitted and the goal takes its place too, so that both are claimed
  (`ControllerOverlap.BothClaimed`, from every reachable state in which a goal is prepared while one is still held). If no
  goal is held when it is prepared, its claim holds until it is started and every return is refused, unless the node is
  deactivated and activated again meanwhile (`ControllerOverlap.ClaimHolds`).
- *Every setpoint within the limits is taken* (wavemaker_controller/src/indradrive_actuator.cpp:244). `write_setpoint()`
  never asks for less than 0.1 rpm: with `max_velocity_rpm` below that every setpoint is refused
  (`Setpoints.AngularSetpointFitsIff`).

## Model

| member | source | states |
|---|---|---|
| ControllerSafety.StepKeepsInv | wavemaker_controller/src/wavemaker_node.cpp:832-862 | every step of every thread keeps the ownership, flag, gate, goal and worker invariants; among them: a worker is started with the stop flag clear and finds it set only while some thread waits to join it |
| ControllerSafety.RunKeepsInv | wavemaker_controller/src/wavemaker_node.cpp:900-990 | so they hold in every reachable state |
| ControllerTheorems.AtMostOneWorker | wavemaker_controller/src/wavemaker_node.cpp:843-862 | two workers never run at once, and a thread is started only when no thread object still owns one |
| ControllerTheorems.StoppedStaysStopped | wavemaker_controller/src/wavemaker_node.cpp:661-668 | once the join inside stop_activity has returned, no worker exists or can start until accepting_goals_ is set again |
| ControllerTheorems.ActuatorOutlivesWorkers | wavemaker_controller/src/wavemaker_node.cpp:678-697 | whenever a worker exists or goals are accepted, the actuator object exists |
| ControllerTheorems.NoReconfigurationUnderSampling | wavemaker_controller/src/wavemaker_node.cpp:925-936 | trajectory and cap are configured only while no worker can still sample them, over all runs |
| ControllerTheorems.SamplesOwnTrajectory | wavemaker_controller/src/wavemaker_node.cpp:1122-1127 | every sample is of the trajectory prepared for the worker's own goal |
| ControllerTheorems.NoDeadlock | wavemaker_controller/src/wavemaker_node.cpp:832-841 | for every unfinished callback and worker, following who waits for whom leads within three links to a thread whose own step is enabled: no deadlock, not even a partial one |
| ControllerTheorems.CanStepIff | wavemaker_controller/src/wavemaker_node.cpp:832-862 | a thread can take its own step exactly when nobody holds the lock, prepares the goal or is the worker it waits for |
| ControllerTheorems.BlockerIsNearer | wavemaker_controller/src/wavemaker_node.cpp:832 | whoever is waited for is unfinished and waits for less: waiting is never circular |
| ControllerTheorems.JoinStep | wavemaker_controller/src/wavemaker_node.cpp:849-852 | while a thread joins, every worker step brings the worker closer to its end and nothing moves it back |
| ControllerTheorems.JoinIsShort | wavemaker_controller/src/wavemaker_node.cpp:1090-1178 | a joined worker takes at most eight more steps |
| ControllerProgress.NothingStaysClaimed | wavemaker_controller/src/wavemaker_node.cpp:885-990 | in every reachable state in which callbacks, services and workers have finished, no goal is pending, held or active and no return is marked, so the next goal or return is admitted whenever goals are accepted |
| ControllerCalls.QuietNodeRunsNextWave | wavemaker_controller/src/wavemaker_node.cpp:900-990 | from each such state, with no transition under way and goals accepted, the next goal is taken through every step into its control loop: its trajectory configured, held, active, alone, the stop flag clear |
| ControllerCalls.UnstoppedWorkerGoesOn | wavemaker_controller/src/wavemaker_node.cpp:1090-1165 | in every reachable state, unless some thread waits to join it, a worker in its loop checks, samples and writes and is back where it was |
| ControllerCalls.WaveEndsInThree | wavemaker_controller/src/wavemaker_node.cpp:1154-1177 | a wave that halted or succeeded is ended in three more steps, its claims released and nothing else changed |
| ControllerCalls.RefusedWaveEndsInFour | wavemaker_controller/src/wavemaker_node.cpp:1127-1150 | a refused setpoint ends it in four, with the gate closed and the fault noted |
| ControllerCalls.ReturnEndsInThree | wavemaker_controller/src/wavemaker_node.cpp:430-448 | a return that halted gives up its claim in three steps and touches no goal |
| ControllerCalls.GoalStartIsRefused | wavemaker_controller/src/wavemaker_node.cpp:846-862 | with the gate closed meanwhile, start_execution() joins the last worker and starts nothing |
| ControllerCalls.StopRunsThrough | wavemaker_controller/src/wavemaker_node.cpp:661-676 | once the worker is done stop_activity() runs through: gate closed, held goal ended, worker joined, lock given back, drive stopped |
| ControllerCalls.FaultTimerStops | wavemaker_controller/src/wavemaker_node.cpp:1220-1246 | a noted fault closes the gate, and on an active node ends the held goal and goes on to that very stop |
| ControllerOverlap.ClaimHolds | wavemaker_controller/src/wavemaker_node.cpp:925-966 | over all runs, an accepted goal for whose preparation no goal was held keeps its claim until it is started: every return is refused while the gate is not opened anew |
| ControllerOverlap.BothClaimed | wavemaker_controller/src/wavemaker_node.cpp:1158-1163 | with a goal still held, a run in which goal and return are both claimed, from every such reachable state |
| Bridge.WavemakerBridge.StartWave | wavemaker_controller/src/wavemaker_bridge.cpp:176-223 | start is refused unless idle, valid, heartbeat alive and server ready; otherwise a new generation is sent |
| Bridge.WavemakerBridge.StopWave | wavemaker_controller/src/wavemaker_bridge.cpp:263-301 | the whole new state of a stop: cancel on acceptance, timer armed once, all accepted goals cancelled or the own one abandoned |
| Bridge.WavemakerBridge.GoalResponded | wavemaker_controller/src/wavemaker_bridge.cpp:203-210 | a stale acceptance is cancelled; a current one runs, or is cancelled if a stop came first |
| Bridge.WavemakerBridge.GoalEnded | wavemaker_controller/src/wavemaker_bridge.cpp:344-365 | only a result of the current generation changes the state |
| Bridge.WavemakerBridge.AbandonGoal | wavemaker_controller/src/wavemaker_bridge.cpp:383-393 | giving up starts a new generation and disarms the timer |
| Bridge.WavemakerBridge.WatchClient | wavemaker_controller/src/wavemaker_bridge.cpp:166-174 | a moving wave without a live heartbeat is stopped |
| Bridge.WavemakerBridge.CleanupHelper | wavemaker_controller/src/wavemaker_bridge.cpp:225-243 | leaving the active state is a stop followed by disarming the timer |
| Bridge.WavemakerBridge.OnHeartbeat | wavemaker_controller/src/wavemaker_bridge.cpp:77-82 | a heartbeat only renews the time, as a step of the object's history |
| Bridge.WavemakerBridge.OnStopTimer | wavemaker_controller/src/wavemaker_bridge.cpp:275-279 | the timer abandons the goal, as a step of the object's history |
| Bridge.WavemakerBridge.OnActivate | wavemaker_controller/src/wavemaker_bridge.cpp:66-132 | activation makes the bridge idle and leaves every goal field as it was |
| Bridge.WavemakerBridge.OnDeactivate | wavemaker_controller/src/wavemaker_bridge.cpp:134-138 | deactivation is the clean-up, as a step of the object's history |
| BridgeSafety.StepKeepsInv | wavemaker_controller/src/wavemaker_bridge.cpp:263-393 | every callback keeps the bridge invariant, deactivation and reactivation included |
| BridgeSafety.EveryGoalAccounted | wavemaker_controller/src/wavemaker_bridge.cpp:202-214 | every goal ever sent is current, ended, rejected, sent a cancel, given up as unreachable, or certain to be cancelled on acceptance |
| BridgeSafety.LateAcceptanceIsCancelled | wavemaker_controller/src/wavemaker_bridge.cpp:325-340 | that last case really ends in a cancel, and starts nothing |
| BridgeSafety.StopIsFinal | wavemaker_controller/src/wavemaker_bridge.cpp:266-280 | a goal that was starting when a stop was issued never reaches Running |
| BridgeSafety.AcceptedRunsIff | wavemaker_controller/src/wavemaker_bridge.cpp:325-342 | a goal accepted with no stop since it was sent runs exactly when the cancel flag was clear at its start; else it is cancelled and the bridge stays Starting without a timer |
| BridgeSafety.CancelIsInherited | wavemaker_controller/src/wavemaker_bridge.cpp:225-228 | a run in which a goal that was never stopped is cancelled: the flag survives deactivation |
| BridgeSafety.StoppingHasTimer | wavemaker_controller/src/wavemaker_bridge.cpp:275-279 | Stopping holds exactly when the stop timer is armed |
| BridgeSafety.StoppingEnds | wavemaker_controller/src/wavemaker_bridge.cpp:372-393 | repeated stops never re-arm the timer: it fires two seconds after the first and leaves Stopping |
| BridgeSafety.UnattendedWaveStops | wavemaker_controller/src/wavemaker_bridge.cpp:161-174 | Starting or Running never outlasts the last heartbeat by more than the timeout and one watch period |
| BridgeService.StartHasEffectIff | wavemaker_controller/src/wavemaker_bridge.cpp:176-200 | a start has an effect exactly when the bridge is idle, the values are valid, a heartbeat is younger than the timeout and the server is ready |
| BridgeService.StartSendsNewGoal | wavemaker_controller/src/wavemaker_bridge.cpp:201-222 | it then sends a goal that no earlier one is, whose answer will be heard, and changes nothing else |
| BridgeService.HealthyWatchIsHarmless | wavemaker_controller/src/wavemaker_bridge.cpp:166-174 | a watch tick with a live heartbeat, or with no wave, only notes its time |
| BridgeService.AttendedWaveKeepsRunning | wavemaker_controller/src/wavemaker_bridge.cpp:161-174 | over any run, a running wave that nobody stops keeps running, its goal untouched, through heartbeats, live watch ticks, refused starts and stale replies |
| BridgeService.ResultFrees | wavemaker_controller/src/wavemaker_bridge.cpp:344-365 | the result of the current goal makes the bridge idle, with no goal, timer or cancel flag left, and only that goal marked ended |
| BridgeService.RejectionFrees | wavemaker_controller/src/wavemaker_bridge.cpp:325-334 | so does its rejection |
| BridgeService.ExpiryFrees | wavemaker_controller/src/wavemaker_bridge.cpp:383-393 | so does the stop timer, under a new generation, so that a late answer no longer counts |
| BridgeService.StaleRepliesAreNoted | wavemaker_controller/src/wavemaker_bridge.cpp:203-214 | a reply to any other goal is only noted, and an acceptance answered with a cancel |
| BridgeService.StopReachesServer | wavemaker_controller/src/wavemaker_bridge.cpp:263-301 | a stop of a starting or running wave: Stopping, the timer due in two seconds, a cancel to every accepted goal and one promised to the unanswered |
| BridgeService.StopUnreachable | wavemaker_controller/src/wavemaker_bridge.cpp:283-291 | with the server out of reach the goal is given up at once and the bridge idle |
| BridgeService.LeavingStops | wavemaker_controller/src/wavemaker_bridge.cpp:225-243 | leaving the active state cancels every accepted goal and leaves no timer |
| BridgeService.InactiveStays | wavemaker_controller/src/wavemaker_bridge.cpp:367-370 | whatever replies still arrive, an inactive bridge stays inactive until it is activated |
| BridgeService.OldRepliesNeverArrive | wavemaker_controller/src/wavemaker_bridge.cpp:134-153 | over any run, once the node is configured anew no reply to an earlier goal reaches it |
| QuinticBlend.BlendRange | wavemaker_controller/src/wave_math.cpp:10-20 | the blend stays in [0, 1], its slope in [0, 1.875 / duration], both exact at and beyond the ends |
| QuinticBlend.BlendLipschitz | wavemaker_controller/src/wave_math.cpp:10-20 | the blend is monotone and 1.875 / duration bounds its divided differences over all pairs of times |
| QuinticBlend.PolyTaylor | wavemaker_controller/src/wave_math.cpp:17-19 | the slope returned with the blend is its derivative, with the exact remainder |
| Rates.BlendTangent | wavemaker_controller/src/wave_math.cpp:10-20 | at every time, the ends included, the rate returned predicts the blend over any step up to a quadratic error |
| RegularWave.WaveTrajectory.Configure | wavemaker_controller/src/wave_trajectory.cpp:41-60 | frequency and period as configured, amplitude nonnegative: twice it times the gain, carried for a flap from the attachment down to the still water, is the stroke asked for |
| RegularWave.WaveTrajectory.Sample | wavemaker_controller/src/wave_trajectory.cpp:90-114 | every sample lies in the hull of the start position and the required range |
| RegularWave.WaveTrajectory.PeakVelocity | wavemaker_controller/src/wave_trajectory.cpp:72-88 | the result bounds the speed at every real time and the movement between any two times, and exceeds a speed that occurs by the margin only |
| WaveAnalysis.PeakCoversEveryTime | wavemaker_controller/src/wave_trajectory.cpp:74-87 | 10001 samples and the 1e-4 margin bound the speed between the samples too, for both wave forms and any start |
| WaveAnalysis.PositionLipschitz | wavemaker_controller/src/wave_trajectory.cpp:90-114 | the position moves at most peak times the time between, across the end of the blend |
| WaveAnalysis.PositionInHull | wavemaker_controller/src/wave_trajectory.cpp:62-114 | positions never leave the hull of start and required range |
| WaveAnalysis.BlendMeetsWave | wavemaker_controller/src/wave_trajectory.cpp:92-113 | blend and wave formulas agree in position and velocity at one period, for both wave forms |
| Rates.WaveVelocityIsTheRate | wavemaker_controller/src/wave_trajectory.cpp:90-114 | in the blend and after it the velocity predicts the movement of the position up to an error quadratic in the step |
| Rates.WaveReachesItsRange | wavemaker_controller/src/wave_trajectory.cpp:62-114 | from the end of the blend on the position repeats every period and reaches both ends of the required range |
| RegularWave.WavePeakAttained | wavemaker_controller/src/wave_trajectory.cpp:80 | amplitude times omega is a speed that really occurs after the blend |
| RegularWave.AmplitudeNonNeg | wavemaker_controller/src/wave_trajectory.cpp:49-55 | checked geometry gives a nonnegative amplitude |
| RegularWave.StrokeAtStillWater | wavemaker_controller/src/wave_trajectory.cpp:49-55 | that stroke law for every geometry |
| Pregenerated.Endpoints | wavemaker_controller/src/wave_trajectory.cpp:144-156 | starts at the start position when blending, completes exactly at its duration, on the last sample and at rest |
| Pregenerated.PositionInHull | wavemaker_controller/src/wave_trajectory.cpp:19-37 | stays in the hull of start and samples |
| Pregenerated.VelocityBounded | wavemaker_controller/src/wave_trajectory.cpp:131-142 | the peak bounds the speed at every time |
| Pregenerated.PositionLipschitz | wavemaker_controller/src/wave_trajectory.cpp:131-156 | Lipschitz with the peak over all pairs of times, across blend, segments and end |
| Pregenerated.PregeneratedWaveTrajectory.PeakVelocity | wavemaker_controller/src/wave_trajectory.cpp:131-142 | the loop's result has both properties and is a speed that occurs |
| Pregenerated.PregeneratedWaveTrajectory.Sample | wavemaker_controller/src/wave_trajectory.cpp:144-156 | complete exactly from the duration on; position and velocity of the recording |
| Pregenerated.BlendWithinReturnSpeed | wavemaker_controller/src/wavemaker_node.cpp:730-736 | with the duration chosen here the blend never exceeds the return speed limit |
| Rates.PlaysEverySample | wavemaker_controller/src/wave_trajectory.cpp:19-37 | the recording passes through each of its samples at that sample's time |
| Rates.PlaysStraight | wavemaker_controller/src/wave_trajectory.cpp:29-35 | and between two samples moves in a straight line at the velocity reported |
| Rates.PlaybackBlendRate | wavemaker_controller/src/wave_trajectory.cpp:146-151 | in its blend the velocity is the rate of the position |
| GainTable.GainBounded | wavemaker_controller/src/wave_math.cpp:57-71 | the gain stays within the table's values and is positive |
| GainTable.GainAtPoint | wavemaker_controller/src/wave_math.cpp:60-68 | exact at every table point; clamped exactly outside the table |
| GainTable.GainMonotone | wavemaker_controller/src/wave_math.cpp:66-70 | a rising table gives a gain that rises with the period, across its points |
| GainTable.GainLinear | wavemaker_controller/src/wave_math.cpp:63-70 | between neighbouring points equal steps of the period give equal steps of the gain, in proportion to the segment's rise |
| GoalPlanner.Planner.PrepareWave | wavemaker_controller/src/wavemaker_node.cpp:743-785 | an accepted wave keeps the promise below at every real time; a valid one is refused only for its range or for a speed it really reaches |
| GoalPlanner.Planner.PreparePlayback | wavemaker_controller/src/wavemaker_node.cpp:711-742 | an accepted recording keeps it too, and blends within the return speed; a valid one is refused only for its range or for a speed it really reaches |
| GoalPlanner.Planner.AcceptPeakVelocity | wavemaker_controller/src/wavemaker_node.cpp:789-820 | accepted exactly when the drive can reach the peak; only then is the cap set |
| GoalPlanner.PromiseKept | wavemaker_controller/src/wavemaker_node.cpp:1186-1207 | clamping moves the setpoint by at most the tolerance, its speed is within the cap, and the drive takes it |
| Setpoints.AngularSetpointFitsIff | wavemaker_controller/src/indradrive_actuator.cpp:236-265 | every setpoint of an angular drive passes move_to's checks exactly when max_velocity_rpm is at least 0.1 |
| Setpoints.ClampedInDriveLimits | wavemaker_controller/src/wavemaker_node.cpp:164-167 | the clamp in metres is exactly the drive's limits in degrees |
| Setpoints.LinearSetpointsFitIff | wavemaker_controller/src/indradrive_actuator.cpp:126-129 | a linear drive's setpoints always fit exactly when the node's range lies in the drive's own |
| Setpoints.PositionRoundTrip | wavemaker_controller/src/indradrive_actuator.cpp:293-310 | reading the position inverts commanding one, both ways |
| Setpoints.UnitsOfTheDrive | wavemaker_controller/src/indradrive_actuator.cpp:293-310 | upright is the upright angle and a degree is `lead` metres, upwards; a linear drive works in metres |
| Setpoints.ClampMovesAtMostTolerance | wavemaker_controller/src/wavemaker_node.cpp:1188-1189 | from an allowed start the clamp moves a point of the hull by at most the tolerance |
| Setpoints.CapCovers | wavemaker_controller/src/wavemaker_node.cpp:801-805 | the cap is never below the trajectory's speed nor above the drive's maximum |
| Setpoints.AcceptedIff | wavemaker_controller/src/wavemaker_node.cpp:699-709 | a start is allowed exactly when clamping moves it by at most the tolerance, a peak exactly when the drive's maximum rpm gives that speed |
| Setpoints.CapIsTight | wavemaker_controller/src/wavemaker_node.cpp:801-805 | the cap is the margin times the peak, cut only at the drive's maximum |
| Setpoints.RpmCovers | wavemaker_controller/src/indradrive_actuator.cpp:236-265 | the rpm asked for, turned back into metres per second, covers the speed wanted and equals it above 0.1 rpm |
| Setpoints.HoldFits | wavemaker_controller/src/indradrive_actuator.cpp:221-222 | holding is always within the drive's limits |
| UprightReturn.MoveToUpright | wavemaker_controller/src/wavemaker_node.cpp:1012-1078 | exactly why it ends, tick by tick: success only home and within tolerance, no setpoint after the first tick at or past the deadline or a stop, soft stop or fault, exactly one halt on every exit except PositionInvalid; and every setpoint is within the return speed of the clamped start and of each other |
| UprightReturn.ReturnIsMonotoneAndSlow | wavemaker_controller/src/wavemaker_node.cpp:1057-1062 | setpoints start at the clamped start, move monotonically to upright, positions and velocities no faster than the return limit, and the drive takes each |
| UprightReturn.PathMonotone | wavemaker_controller/src/wavemaker_node.cpp:1032-1035 | the path is monotone in time and stays at upright after its duration |
| UprightReturn.SpeedBounded | wavemaker_controller/src/wavemaker_node.cpp:1032-1037 | return speed within its limit and within a legal cap |
| UprightReturn.StartsWhereItIs | wavemaker_controller/src/wavemaker_node.cpp:1057-1059 | at time 0 the setpoint is the clamped start, at rest |
| UprightReturn.KeepsReturnSpeed | wavemaker_controller/src/wavemaker_node.cpp:1032-1034 | between any two times the setpoint moves no further than the return limit allows |
| UprightReturn.VelocityIsTheRate | wavemaker_controller/src/wavemaker_node.cpp:1057-1059 | the velocity sent is the rate at which the setpoint moves |
| UprightReturn.NoSlowerThanNeeded | wavemaker_controller/src/wavemaker_node.cpp:1032-1034 | the return lasts the minimum duration, or its fastest setpoint moves at the return limit |
| UprightReturn.CapIsPeakWithMargin | wavemaker_controller/src/wavemaker_node.cpp:1036-1037 | the cap sent is the path's highest speed times the margin, cut at the drive's maximum |
| IndraDriveActuator.IndraDriveActuator.WriteSetpoint | wavemaker_controller/src/indradrive_actuator.cpp:236-251 | succeeds exactly when enabled, not faulted and in limits, staging position and rpm each to the nearest ten-thousandth; otherwise changes nothing |
| IndraDriveActuator.IndraDriveActuator.Halt | wavemaker_controller/src/indradrive_actuator.cpp:212-223 | an enabled drive is made to hold the last commanded target, or the very position read before any command, at hold speed |
| IndraDriveActuator.PublishAndWriteSetpoint | wavemaker_controller/src/wavemaker_node.cpp:1186-1207 | for an angular drive a write fails only if the drive is not enabled or is faulted; the staged target is the clamped position within half a step, and the staged rpm covers the cap |
| IndraDriveSafety.StepKeepsSafe | drivers/mgate5101_driver/src/indradrive.cpp:97-137 | Drive On staged implies enabled, enabled implies not faulted, kept by every poll cycle and command step, clear_errors() with Drive On staged excepted |
| IndraDriveSafety.NoRunCommandAfterFault | drivers/mgate5101_driver/src/indradrive.cpp:173-214 | after a latched fault no word with Drive On or Start is sent until a later enable() has seen operating mode and power ready, over all runs in which clear_errors() is not called with Drive On staged |
| IndraDriveSafety.ReconnectNeverRestarts | drivers/mgate5101_driver/src/indradrive.cpp:119-126 | after any failed cycle a run command on the wire needs a wait that has since seen the power section ready, in the same runs |
| IndraDriveSafety.ClearIsSafeIff | drivers/mgate5101_driver/src/indradrive.cpp:165-171 | whatever the next cycle brings, clear_errors() leaves the drive safe exactly when Drive On was not staged at the call |
| IndraDriveSafety.ClearWhileRunningRestarts | drivers/mgate5101_driver/src/indradrive.cpp:165-171 | a run from power-up in which clear_errors() on a running drive sends the run command after a latched fault, with no enable() in between |
| IndraDriveSafety.StartNeedsTorque | drivers/mgate5101_driver/src/indradrive.cpp:201-211 | Drive Start is staged only after operating mode, power ready and torque in one call, with the target on the position just read |
| IndraDriveSafety.ParkedBytes | drivers/mgate5101_driver/src/indradrive.cpp:210 | parking copies the position bytes of the inputs into the target bytes of the outputs |
| IndraDriveSafety.TargetNeverOutrunsVelocity | drivers/mgate5101_driver/src/indradrive.cpp:231-235 | every image pairs target k with velocity k or k + 1, never an older one |
| IndraDriveSafety.LiveListBit | drivers/mgate5101_driver/src/indradrive.cpp:50-64 | the live bit is the one of byte 2 + address / 8 of the gateway's status area |
| IndraDriveBits.StatusBits | drivers/mgate5101_driver/src/indradrive.cpp:14-20 | the conditions waited for, as bits 0, 1, 3, 7, 13, 14 and 15 of the status word |
| IndraDriveBits.GoodCycle | drivers/mgate5101_driver/src/indradrive.cpp:119-137 | a successful cycle only takes over what it read, except that bit 13, or a status area without Operate and the live bit, latches the fault of an enabled drive, clears the control word and ends the enabling |
| IndraDriveBits.BadCycle | drivers/mgate5101_driver/src/indradrive.cpp:119-126 | a failed cycle always clears the control word and is a fault exactly on an enabled drive |
| IndraDriveBits.StagedNear | drivers/mgate5101_driver/src/process_image.cpp:248-257 | the number staged is the one whose ten-thousandths come nearest to the degrees or rpm asked for |
| IndraDriveCalls.EnableSucceeds | drivers/mgate5101_driver/src/indradrive.cpp:173-214 | with the slave live and reporting operating mode, power ready, torque and following in turn, enable() ends enabled and running, the control bits {1}, {1, 15}, {1, 13, 15} in order, the target on the position reported with torque |
| IndraDriveCalls.EnablingGivesUp | drivers/mgate5101_driver/src/indradrive.cpp:193-211 | an abort, a fault, a lost link or a deadline without the bits takes everything back but operating mode |
| IndraDriveCalls.EnableBegins | drivers/mgate5101_driver/src/indradrive.cpp:173-200 | refused untouched unless live; an active error only forgets the old fault; else parked on the position at 10 rpm or the maximum |
| IndraDriveCalls.DisableGoesOn | drivers/mgate5101_driver/src/indradrive.cpp:256-267 | standstill, its deadline or a lost link remove the torque; then the call waits for the torque to be off |
| IndraDriveCalls.MoveStagesBoth | drivers/mgate5101_driver/src/indradrive.cpp:216-236 | an allowed move stages velocity then target to the nearest ten-thousandth and nothing else; any other is refused untouched |
| IndraDriveCalls.ClearPulsesOneBit | drivers/mgate5101_driver/src/indradrive.cpp:165-171 | bit 5 is raised and lowered, no other control bit changes |
| IndraDriveCalls.NoRunBitsAfterAlarm | drivers/mgate5101_driver/src/indradrive.cpp:97-137 | over all such runs, after a failed or unhealthy cycle on an enabled drive no word with bit 13 or 15 is sent until a later enable() has read the bits for operating mode and power ready |
| IndraDriveObject.IndraDrive.CycleDone | drivers/mgate5101_driver/src/indradrive.cpp:119-137 | a failed cycle clears the control word and faults an enabled drive; a successful one faults it exactly when bit 13 is set or the status area does not show Operate and the live bit, and else changes nothing |
| IndraDriveObject.IndraDrive.WaitFor | drivers/mgate5101_driver/src/indradrive.cpp:145-161 | returns with the check decided, whatever the poll thread did meanwhile, and times out only after all its sleeps |
| IndraDriveObject.IndraDrive.Enable | drivers/mgate5101_driver/src/indradrive.cpp:173-214 | true only with the drive running and following; false leaves Drive On clear, or everything as it was when the call did not begin; every interleaving is a run |
| IndraDriveObject.IndraDrive.MoveTo | drivers/mgate5101_driver/src/indradrive.cpp:216-236 | refused exactly when not enabled, faulted or out of limits, and then nothing changes; else degrees and rpm are staged to the nearest ten-thousandth |
| IndraDriveObject.IndraDrive.Disable | drivers/mgate5101_driver/src/indradrive.cpp:256-267 | afterwards not enabled and Drive On clear, whether or not the waits succeeded |
| IndraDriveObject.IndraDrive.ClearDriveErrors | drivers/mgate5101_driver/src/indradrive.cpp:165-171 | on any drive, pulses the clear bit and puts everything else back |
| IndraDriveObject.IndraDrive.ShutdownDrive | drivers/mgate5101_driver/src/indradrive.cpp:269-272 | control word 0, not enabled |
| Mirror.MirrorAlways | drivers/mgate5101_driver/src/mgate_driver.cpp:126-134 | through any writes, reconnects and flushes, with writes landing at any time, the gateway differs from the staged image only inside the dirty span, unless a flush forgot a write (NothingForgotten fails) |
| Mirror.MirrorStep | drivers/mgate5101_driver/src/mgate_driver.cpp:126-302 | one event breaks the mirror exactly when it is a successful flush whose writes meet that condition |
| Mirror.FailedFlushKeeps | drivers/mgate5101_driver/src/mgate_driver.cpp:270-289 | so does a flush that fails at any chunk, applied or not, whatever was written meanwhile |
| Mirror.SuccessfulFlushKeepsIff | drivers/mgate5101_driver/src/mgate_driver.cpp:291-300 | a successful flush keeps it exactly when the writes landing before the snapshot or between chunks reach only below the span, or leave every dirty byte below its end as transmitted |
| Mirror.WritesAboveAreKept | drivers/mgate5101_driver/src/mgate_driver.cpp:297-299 | writes landing mid-flush at or above the span's end are never forgotten |
| Mirror.WriteInsideIsLost | drivers/mgate5101_driver/src/mgate_driver.cpp:295-296 | a write inside the span being sent is cleared without being sent |
| Mirror.WriteBelowIsLost | drivers/mgate5101_driver/src/mgate_driver.cpp:297-299 | a write below the span is cleared without being sent when another lands above its end |
| Mirror.QuietFlush | drivers/mgate5101_driver/src/mgate_driver.cpp:243-302 | an undisturbed successful flush leaves gateway and image equal and nothing dirty |
| Mirror.WholeAreaFlush | drivers/mgate5101_driver/src/mgate_driver.cpp:253-256 | in whole-area mode each success leaves the gateway equal to the snapshot |
| Mirror.ReconnectMirrors | drivers/mgate5101_driver/src/mgate_driver.cpp:237-240 | a reconnect restores the mirror whatever the gateway then holds |
| MGateDriver.MGateDriver.FlushOutputs | drivers/mgate5101_driver/src/mgate_driver.cpp:243-302 | the chunk loop, interleaved writes included, is the flush that the mirror lemmas are about; each chunk is a request at its 16-bit address that the server applies |
| MGateDriver.MGateDriver.WriteInt | drivers/mgate5101_driver/src/mgate_driver.cpp:143-148 | a typed write stages the tag's own bytes and touches exactly them |
| MGateDriver.MGateDriver.EnsureConnected | drivers/mgate5101_driver/src/mgate_driver.cpp:221-241 | a new connection marks everything dirty; a failed one goes offline |
| MGateDriver.ChunkLands | drivers/mgate5101_driver/src/mgate_driver.cpp:277-278 | an acknowledged FC 16 or FC 6 chunk lays exactly its bytes over the gateway's area |
| ChunkedReads.ReadsWholeArea | drivers/mgate5101_driver/src/mgate_driver.cpp:310-328 | the chunks of any area with base + count <= 65536 amount to the whole area |
| ChunkedReads.ReadsPastTheEnd | drivers/mgate5101_driver/src/mgate_driver.cpp:312-314 | an area running past register 65535 is read exactly when a chunk ends there, and then wraps to register 0 |
| MGateDriver.MGateDriver.ReadInputs | drivers/mgate5101_driver/src/mgate_driver.cpp:304-336 | the input image becomes the registers read, which for an area in range are the gateway's byte buffer, or stays as it was if any chunk fails |
| MGateDriver.MGateDriver.ReadStatus | drivers/mgate5101_driver/src/mgate_driver.cpp:338-363 | the same for the status area |
| MGateDriver.MGateDriver.PollCycle | drivers/mgate5101_driver/src/mgate_driver.cpp:365-386 | online exactly after a full cycle; with writes of other threads landing at any time, the cycle breaks the mirror exactly when its flush forgets one; an undisturbed full cycle leaves outputs and inputs in step with the gateway |
| Modbus.OkIsOurReply | drivers/mgate5101_driver/src/modbus_tcp.cpp:303-353 | on any bytes, Ok means whole frames consumed, at most three stale, the last with our id and function code and the payload returned |
| Modbus.WholeFramesOnly | drivers/mgate5101_driver/src/modbus_tcp.cpp:305-330 | on whole frames only whole frames are consumed, whatever the outcome |
| Modbus.OurReplyIsFound | drivers/mgate5101_driver/src/modbus_tcp.cpp:330-350 | behind at most three stale replies ours is found |
| Modbus.ReplyOutcome | drivers/mgate5101_driver/src/modbus_tcp.cpp:330-350 | what a reply with our id comes to: payload, exception code, or a dropped connection |
| Modbus.FourStaleGiveUp | drivers/mgate5101_driver/src/modbus_tcp.cpp:303-353 | behind four stale replies the request fails and the connection is kept |
| Modbus.OtherThanWhole | drivers/mgate5101_driver/src/modbus_tcp.cpp:305-328 | exactly which bytes are an incomplete frame and which a broken one |
| Modbus.NeverAnOlderReply | drivers/mgate5101_driver/src/modbus_tcp.cpp:285 | over a session, Ok never delivers the reply to an older request while ids have not wrapped |
| Modbus.ReadIdentity | drivers/mgate5101_driver/src/modbus_tcp.cpp:355-373 | encode, serve, decode is the identity on registers for every legal read, FC 3 and FC 4 |
| Modbus.WriteSingleIdentity | drivers/mgate5101_driver/src/modbus_tcp.cpp:383-388 | FC 6 changes exactly its register |
| Modbus.WriteMultipleIdentity | drivers/mgate5101_driver/src/modbus_tcp.cpp:390-409 | FC 16 changes exactly the addressed registers to the values, up to 123 |
| Modbus.ReadWriteIdentity | drivers/mgate5101_driver/src/modbus_tcp.cpp:411-445 | FC 23 writes up to 121 registers and reads what is there afterwards |
| Modbus.ParseOfFrame | drivers/mgate5101_driver/src/modbus_tcp.cpp:287-296 | the header parser inverts the frame encoder |
| Modbus.FrameOfParse | drivers/mgate5101_driver/src/modbus_tcp.cpp:314-328 | and the encoder inverts the parser |
| Modbus.WireOfRequests | drivers/mgate5101_driver/src/modbus_tcp.cpp:280-300 | each request on the wire, byte by byte: header, its own function code 0x03, 0x04 or 0x06, words most significant byte first |
| Modbus.WireOfMultiple | drivers/mgate5101_driver/src/modbus_tcp.cpp:390-409 | the same for 0x10 |
| Modbus.WireOfReadWrite | drivers/mgate5101_driver/src/modbus_tcp.cpp:411-445 | the same for 0x17 |
| ModbusClient.ReadFromServer | drivers/mgate5101_driver/src/modbus_tcp.cpp:363-372 | client and server end to end, behind stale replies: the registers read are the server's |
| ModbusClient.WriteToServer | drivers/mgate5101_driver/src/modbus_tcp.cpp:406-408 | client and server end to end: Ok and the registers hold the values |
| ModbusClient.ReadWriteWithServer | drivers/mgate5101_driver/src/modbus_tcp.cpp:433-444 | the same for FC 23 |
| ModbusClient.ModbusTcpClient.RecvExact | drivers/mgate5101_driver/src/modbus_tcp.cpp:264-278 | the first n bytes of the stream however recv cuts it up, or all that is left |
| ModbusClient.ModbusTcpClient.Transact | drivers/mgate5101_driver/src/modbus_tcp.cpp:280-353 | every outcome, what is sent, what is consumed and whether the connection survives; buffers never overrun |
| ModbusClient.ModbusTcpClient.ReadRegisters | drivers/mgate5101_driver/src/modbus_tcp.cpp:355-381 | bad counts refused without a request; otherwise exactly these bytes are sent and the result is the decoded reply or its error |
| ModbusClient.ModbusTcpClient.WriteMultipleRegisters | drivers/mgate5101_driver/src/modbus_tcp.cpp:390-409 | the loop builds exactly the FC 16 request, and its bytes are sent |
| ModbusClient.ModbusTcpClient.WriteSingleRegister | drivers/mgate5101_driver/src/modbus_tcp.cpp:383-388 | sends exactly the FC 6 request's bytes |
| ModbusClient.ModbusTcpClient.ReadWriteMultipleRegisters | drivers/mgate5101_driver/src/modbus_tcp.cpp:411-445 | the loop builds exactly the FC 23 request, whose bytes are sent, and decodes its reply |
| Tags.SetThenGet | drivers/mgate5101_driver/src/process_image.cpp:232-246 | set then get is the identity modulo the type width, for every integer type, byte order and offset |
| Tags.GetThenSet | drivers/mgate5101_driver/src/process_image.cpp:199-213 | get then set changes nothing |
| Tags.WrappedMeaning | drivers/mgate5101_driver/src/process_image.cpp:151-175 | what the narrowing casts keep: the congruent value of the type, the value itself when in range |
| Tags.OnlyOwnBytes | drivers/mgate5101_driver/src/process_image.cpp:135-171 | a write changes only the tag's bytes, or its single bit |
| Tags.OtherTagsKeep | drivers/mgate5101_driver/src/process_image.cpp:135-171 | every other tag, even another bit of the byte, still reads the same |
| Tags.ReorderTwice | drivers/mgate5101_driver/src/process_image.cpp:10-35 | all four byte orders are their own inverse |
| Tags.ByteOrders | drivers/mgate5101_driver/src/process_image.cpp:10-35 | what the four orders make of A B C D and of A B |
| Tags.ByteMeaning | drivers/mgate5101_driver/src/process_image.cpp:80-87 | a one-byte tag reads as its byte, a signed one as its two's complement |
| Tags.WordMeaning | drivers/mgate5101_driver/src/process_image.cpp:89-98 | a two-byte tag in the drive's order reads with the first byte weighing most, a signed one as the two's complement |
| Tags.LongMeaning | drivers/mgate5101_driver/src/process_image.cpp:100-109 | so does a four-byte tag |
| Tags.InRangeIff | drivers/mgate5101_driver/src/process_image.cpp:199-246 | a tag can be read and written exactly when its last byte lies in the image; the error otherwise |
| Tags.OddOffsetWord | drivers/mgate5101_driver/src/process_image.cpp:89-94 | a word at an odd offset joins the low byte of one register and the high byte of the next |
| Tags.ScaledRoundTrip | drivers/mgate5101_driver/src/process_image.cpp:215-257 | a scaled write reads back within half the scale when in range |
| Tags.ReadsLinear | drivers/mgate5101_driver/src/process_image.cpp:215-230 | a scaled reading is the stored integer times the scale plus the bias |
| Tags.WritesNearest | drivers/mgate5101_driver/src/process_image.cpp:248-257 | a scaled write stores the integer whose reading comes nearest |
| Tags.ScaledWriteInvertsRead | drivers/mgate5101_driver/src/process_image.cpp:248-257 | writing back a scaled reading leaves every byte as it was |
| Bytes.EncodeDecode | drivers/mgate5101_driver/src/process_image.cpp:37-45 | big-endian writing then reading reduces modulo the width |
| Bytes.DecodeEncode | drivers/mgate5101_driver/src/process_image.cpp:37-45 | reading then writing gives the same bytes |
| Bytes.FirstByteWeighsMost | drivers/mgate5101_driver/src/process_image.cpp:37-41 | the first byte weighs most |
| Bytes.StoreOfLoad | drivers/mgate5101_driver/src/process_image.cpp:269-282 | registers loaded into an image are stored back unchanged, at any offset |
| Bytes.LoadOfStore | drivers/mgate5101_driver/src/process_image.cpp:269-282 | and the other way round |
| ProcessImage.Reorder | drivers/mgate5101_driver/src/process_image.cpp:12-35 | the in-place loops produce the reordered bytes and touch no others |
| ProcessImage.BeToU64 | drivers/mgate5101_driver/src/process_image.cpp:37-41 | the shift loop computes the big-endian number |
| ProcessImage.U64ToBe | drivers/mgate5101_driver/src/process_image.cpp:43-45 | the shift loop writes its digits |
| ProcessImage.ProcessImage.GetInt | drivers/mgate5101_driver/src/process_image.cpp:199-213 | reads what the tag means, or the error for its kind or range |
| ProcessImage.ProcessImage.SetInt | drivers/mgate5101_driver/src/process_image.cpp:232-246 | writes what the tag means; an error changes nothing |
| ProcessImage.ProcessImage.LoadFromRegisters | drivers/mgate5101_driver/src/process_image.cpp:269-275 | lays the register bytes over the image, or refuses |
| ProcessImage.ProcessImage.StoreToRegisters | drivers/mgate5101_driver/src/process_image.cpp:277-282 | joins the image bytes into registers, or refuses |
| SoftStop.ReleasedIff | wavemaker_controller/src/soft_stop.py:55-75 | released exactly when some tick ended an all-low run of 0.5 s and no all-high run since has spanned 30 ms |
| SoftStop.LevelIsRead | wavemaker_controller/src/soft_stop.py:45-53 | with either wiring the tick is taken at the electrical level of the pin, and an unreadable pin as high |
| SoftStop.SoftStop.OnTick | wavemaker_controller/src/soft_stop.py:45-75 | records the electrical level of the pin, unreadable counting as high, and publishes released exactly as that history says |
| SoftStop.UnreadableStaysStopped | wavemaker_controller/src/soft_stop.py:45-53 | a pin that can never be read keeps the wave maker stopped |

## Left out

- IEEE rounding, NaN and infinities, and the F32 and F64 tag types, which reinterpret bits: arithmetic is over the reals.
- `llround` and the double-to-integer conversions beyond 64 bits, which the language leaves undefined.
- `solve_dispersion` and `compute_stroke`: wave physics; their result is taken as a nonnegative stroke.
- Sockets, `connect`, timeouts as such, DNS and platform shims: a byte stream, a closing flag and a send flag stand for them.
- ROS publishers, parameters, QoS, bonds and the lifecycle manager: thin wrappers; lifecycle transitions are events.
- Pre-shutdown callbacks and destructors racing with executor callbacks: they depend on the middleware's internals.
- Delivery of the bridge's stop reply to every caller: a second service stop overwrites the first one's reply.
- Races inside one command step of the drive layer, such as between the two stores of `latch_fault()`: see Assumptions.
- The feedrate override output, which `enable()` stages once at 100 %.
- `wait_in_position()`, `describe()`, statistics and messages: they change no commanded value.
- `wavemaker_web`, `play_dat.py`, the poll-rate probe, the fake controller and the test stubs: user interface and tooling.
- MGateDriver.MGateDriver.FlushOutputs: an output area that runs past register 65535, whose last chunks would be refused or wrap, is not modelled; and the output image is a sequence that the method replaces, not an array changed in place, so aliasing of the byte buffer is not modelled here; ProcessImage.ProcessImage models it.
- UprightReturn.MoveToUpright: whether the drive takes a setpoint is an input at each tick; IndraDriveActuator.PublishAndWriteSetpoint says when it does.
- IndraDriveSafety.TargetNeverOutrunsVelocity: is about the staged image; that a flush sends the whole staged image at once holds in whole-area mode, where the six output registers are one request.
