# Motor and wheel control: a Dafny model

This project models the control core of a robot with Damiao motors and proves what that core relies on. It covers
four parts and the places where they meet.

- **Wheel runtime.** `WheelMotion`, `Braking`, `ExactStop`, `StoppingReserve` and `WheelDrive` shape the speeds of a
  differential wheel pair: limits, slew, reversal, braking and the stopping reserve. `PositionTracking` unwraps the wheel
  encoders. `RelativeMotion` and `FinalObservation` plan, approach and confirm relative goals. `RequestLedger`,
  `MotionPermit` and `WheelRuntime` are the request protocol of four threads, as a state machine over their locked
  sections; `RuntimeObject` is the object whose fields those sections update, with the transmit thread built from them.
- **Position-mode bus.** `BusState` and `BusSteps` say what the bus keeps and what every locked section preserves,
  `BusRuns` what holds after any run of sections. `DamiaoBus` has the operations; wherever they hold no lock,
  `Unlocked` and `Interfere` let the receiver do anything it can.
- **Wheel bus and USB queue.** `H55Bus` proves what may be on the wire before what has been verified. `UsbQueue`
  has a caller, a sender and a receive callback over one queue.
- **Arm write path.** `ArmHardware` configures, activates, reads and writes the arm over a `DamiaoBus` of its own: what
  configuring has established discharges the checks of the bus.

`Binary32`, `Can`, `Protocol` and `H55Protocol` are the formats below them, and `Numbers` the arithmetic. `WheelLink`
connects the wheel runtime to the wheel bus.

Doubles are reals, apart from the explicit conversions to binary32; where the code asks whether a double is finite,
the model has a type with a value for one that is not. Clocks are integer nanoseconds. Locks become atomic sections,
waits become interference by the other threads, and the answers of the transport, the adapter and the motors are
arbitrary. Statements about registers inside a motor hold for motors that answer requests truthfully and change their
registers only when written (`honest`); everything else holds for arbitrary frames.

Some things the code does differently from what one might expect; each is stated with a concrete case and the exact
condition. The stopping reserve covers the faster wheel, the slower one only if it covers the whole stop. A queued clear
does not look again at the fault it named. An enable can be accepted while another one is about to begin, or after one
was turned down. A plain, settled stop marks a pair as enabled that nobody has enabled. Written mapping limits are
published unrounded. After a transport failure one motion frame that was past its check can still be handed over.

`dafny verify dfyconfig.toml` checks the whole project.

## Model

| member | source | states |
|---|---|---|
| `WheelMotion.ScaleIsLeast` | src/robot_wheel_control/src/wheel_runtime.cpp:673-684 | the common divisor is at most `s` exactly when `s` is at least one and brings every limited coordinate within its cap: it is the least such divisor |
| `WheelMotion.RatioIsGreatest` | src/robot_wheel_control/src/wheel_runtime.cpp:694-722 | the common share of the way is at least `q` exactly when no coordinate moves farther than its own step at `q`: it is the greatest share |
| `WheelMotion.LimitedIsAdmitted` | src/robot_wheel_control/src/wheel_runtime.cpp:669-684 | after scaling, wheel, linear and angular speeds are within their limits |
| `WheelMotion.RampStaysAdmitted` | src/robot_wheel_control/src/wheel_runtime.cpp:669-729 | the admitted speeds form a set that one ramp step never leaves |
| `WheelMotion.RampRespectsSlew` | src/robot_wheel_control/src/wheel_runtime.cpp:694-728 | one tick changes each wheel, the forward speed and the yaw rate by no more than the configured wheel, linear and angular accelerations or decelerations allow in one period, by name |
| `WheelMotion.RampIsFastest` | src/robot_wheel_control/src/wheel_runtime.cpp:694-728 | among all points on the way to the aim that those configured rates allow, the tick takes the farthest: no larger common share of the way respects them |
| `WheelMotion.RampKeepsSign` | src/robot_wheel_control/src/wheel_runtime.cpp:685-728 | a tick never carries a wheel across zero, and its size stays between the old one and the aim's |
| `WheelMotion.WheelSlew` | src/robot_wheel_control/src/wheel_runtime.cpp:694-703 | a wheel gains at most one acceleration step a tick, also while another limit governs |
| `WheelMotion.BodySlew` | src/robot_wheel_control/src/wheel_runtime.cpp:704-722 | outside bench mode the forward speed gains at most `linear_acceleration` and the yaw rate at most `angular_acceleration` a period, and neither loses more than its deceleration while it keeps its direction |
| `WheelMotion.AdmitsIff` | src/robot_wheel_control/src/wheel_runtime.cpp:673-684 | admitted means within the wheel limit and, outside bench mode, within the linear and the angular limit, each by its configured name |
| `WheelMotion.AimIsRequest` | src/robot_wheel_control/src/wheel_runtime.cpp:669-693 | a tick heads for the request, divided by the least common scale, unless a wheel has to reverse; then for rest |
| `WheelMotion.RequestIsApproached` | src/robot_wheel_control/src/wheel_runtime.cpp:669-729 | without a reversal, ticks reach the limited request as soon as their least steps cover every coordinate's way |
| `WheelMotion.RunStaysAdmitted` | src/robot_wheel_control/src/wheel_runtime.cpp:669-729 | over any number of ticks with any requests, every speed sent is admitted |
| `WheelMotion.ReversalPassesZero` | src/robot_wheel_control/src/wheel_runtime.cpp:685-693 | between two ticks of a run that drive a wheel in opposite directions there is a tick at exactly zero, which the lemma returns |
| `WheelMotion.BodyScaleIsLeast` | src/robot_wheel_control/src/wheel_runtime.cpp:163-176 | the divisor of a command is the least, from one up, that brings both speeds of the body within their limits |
| `WheelDrive.Drive.Limit` | src/robot_wheel_control/src/wheel_runtime.cpp:669-684 | the scaling loop computes the specified division by one common scale |
| `WheelDrive.Drive.Ramp` | src/robot_wheel_control/src/wheel_runtime.cpp:669-729 | the loops of `ramp` compute the next pair from the field `sent`, which stays within the configured rates and the speed limits |
| `WheelDrive.Drive.Tick` | src/robot_wheel_control/src/wheel_runtime.cpp:1002-1002 | a tick stores the ramped pair and keeps it admitted |
| `WheelDrive.Drive.BrakeToRest` | src/robot_wheel_control/src/wheel_runtime.cpp:578-616 | the stopping loop applies braking ticks only, leaves early only at a commanded standstill, and is at rest once the budget covers the speed |
| `Braking.BrakeScales` | src/robot_wheel_control/src/wheel_runtime.cpp:658-729 | braking multiplies both wheels by one factor |
| `Braking.BrakeKeepsCurvature` | src/robot_wheel_control/src/wheel_runtime.cpp:658-729 | a braking step keeps the ratio of the wheels |
| `Braking.BrakeContracts` | src/robot_wheel_control/src/wheel_runtime.cpp:658-729 | one braking step takes at least the effective deceleration of one tick off the faster wheel, and reaches zero from within one such notch |
| `Braking.BrakeReachesRest` | src/robot_wheel_control/src/wheel_runtime.cpp:578-580 | `n` ticks whose notches add up to the speed bring both wheels to exactly zero |
| `Braking.TravelAtMost` | src/robot_wheel_control/src/wheel_runtime.cpp:658-668 | however long braking lasts, a wheel travels at most its speed times half the stopping time of the faster wheel plus one period |
| `Braking.EffectiveDecelerationIff` | src/robot_wheel_control/src/wheel_runtime.cpp:658-668 | a deceleration is within the effective one exactly when it is within the wheels' own and, outside bench mode, both wheels slowing down by it together or against each other stay within the body's |
| `Braking.RequestIsReached` | src/robot_wheel_control/src/wheel_runtime.cpp:669-729 | whatever the wheels do, ticks with one request reach it, limited: braking ticks first if a wheel has to reverse, then as many as the least steps need |
| `StoppingReserve.MotionGuard` | src/robot_wheel_control/src/wheel_runtime.cpp:730-775 | the guard is clear exactly when both wheels are, and otherwise reports the first wheel that is not |
| `StoppingReserve.FasterWheelStopsInBudget` | src/robot_wheel_control/src/wheel_runtime.cpp:746-759 | with a clear guard, braking from the speeds sent keeps the faster wheel below the action budget by the stop margin, and inside the unverified raw range |
| `StoppingReserve.OneMoreTickStopsInBudget` | src/robot_wheel_control/src/wheel_runtime.cpp:746-759 | the same after one more tick of acceleration, when the margin covers that step |
| `StoppingReserve.WheelVerdictIff` | src/robot_wheel_control/src/wheel_runtime.cpp:730-775 | the verdict on a wheel is the first that applies of: feedback, driver, budget, budget reserve, raw boundary, raw reserve; so it is clear exactly when no complaint applies |
| `StoppingReserve.SilentSourceStopsInBudget` | src/robot_wheel_control/src/wheel_runtime.cpp:746-759 | also when the source goes silent: held speed for the command timeout, or heartbeat, and lateness, and then braking, stay below the budget by the margin |
| `ExactStop.RatioIsOneOverLoad` | src/robot_wheel_control/src/wheel_runtime.cpp:694-722 | the share of the way to rest that one tick takes is one over the load, the most periods that any limited coordinate needs, and all of it for a load up to one |
| `ExactStop.BrakeIsExact` | src/robot_wheel_control/src/wheel_runtime.cpp:658-729 | whichever limit governs, a braking tick takes exactly one period off the load, or stops |
| `ExactStop.TravelIsExact` | src/robot_wheel_control/src/wheel_runtime.cpp:658-729 | the exact distance of `n` braking ticks, for either wheel, as a sum over the loads |
| `ExactStop.TravelReachesWholeStop` | src/robot_wheel_control/src/wheel_runtime.cpp:658-729 | the distance grows up to the closed form of the whole stop and reaches it once the load has run out |
| `ExactStop.ReserveIsExact` | src/robot_wheel_control/src/wheel_runtime.cpp:746-749 | a reserve covers every stop exactly when it covers the closed form of the whole stop, for every configuration and pair of speeds |
| `StoppingReserve.PromiseIffReserveCovers` | src/robot_wheel_control/src/wheel_runtime.cpp:746-759 | the guard's promise holds for a wheel at every travel reading exactly when its reserve covers the whole stop, or leaves no room for any motion |
| `StoppingReserve.SlowerWheelOverrunsBudget` | src/robot_wheel_control/src/wheel_runtime.cpp:746-749 | at the shipped geometry and body limits, an admitted pair with a clear guard whose slower wheel stops past its whole budget: the reserve uses each wheel's own speed, but both wheels brake by one ratio |
| `PositionTracking.PositionTracker.constructor` | src/robot_wheel_control/include/robot_wheel_control/position_tracker.hpp:66-71 | a new tracker is empty |
| `PositionTracking.PositionTracker.Update` | src/robot_wheel_control/include/robot_wheel_control/position_tracker.hpp:10-52 | the field updates are those of the specified step, and the answer is its validity |
| `PositionTracking.PositionTracker.Reset` | src/robot_wheel_control/include/robot_wheel_control/position_tracker.hpp:53-56 | resetting restores the empty tracker |
| `PositionTracking.RemainderUndoesTurns` | src/robot_wheel_control/include/robot_wheel_control/position_tracker.hpp:36-39 | whole turns added to a displacement shorter than half a turn are removed again |
| `PositionTracking.UnwrappingIsUniqueIff` | src/robot_wheel_control/include/robot_wheel_control/position_tracker.hpp:32-35 | the half-turn condition holds exactly when a difference of readings has one explanation |
| `PositionTracking.DeltaIsDisplacement` | src/robot_wheel_control/include/robot_wheel_control/position_tracker.hpp:30-47 | under the gap condition the unwrapped difference is the true displacement plus the difference of the two reading errors |
| `PositionTracking.RunStaysInStep` | src/robot_wheel_control/include/robot_wheel_control/position_tracker.hpp:10-52 | along any run of good or repeated samples the position is the displacement since the first sample plus two reading errors |
| `PositionTracking.TrackingNeverDrifts` | src/robot_wheel_control/include/robot_wheel_control/position_tracker.hpp:10-52 | over a run of any length the tracker stays valid and its position is off by at most twice the resolution |
| `PositionTracking.RepeatsDoNotIntegrate` | src/robot_wheel_control/include/robot_wheel_control/position_tracker.hpp:17-20 | a repeated sequence number changes nothing |
| `PositionTracking.LostStaysLost` | src/robot_wheel_control/include/robot_wheel_control/position_tracker.hpp:32-47 | once invalid, the tracker stays invalid and its position stands still |
| `PositionTracking.StaysValidIff` | src/robot_wheel_control/include/robot_wheel_control/position_tracker.hpp:30-47 | a valid tracker stays valid exactly when the gap is positive, within the maximum and shorter than an ambiguous turn, and the shortest difference is within what the maximum speed and resolution explain; then it moves by that difference |
| `RelativeMotion.TargetMeasures` | src/robot_wheel_control/src/wheel_relative_motion.cpp:36-46 | the wheel targets of a goal measure as that goal, by every kind, with no stray motion |
| `RelativeMotion.MeasuredTargetsIff` | src/robot_wheel_control/src/wheel_relative_motion.cpp:170-184 | a pair of wheel angles is the target of what it measures exactly when it has no stray motion |
| `RelativeMotion.BodySpeedsAreMeasured` | src/robot_wheel_control/src/wheel_runtime.cpp:704-719 | the forward speed and the yaw rate of the limits are the distance and the turn that goals measure |
| `RelativeMotion.CapsKeepProportion` | src/robot_wheel_control/src/wheel_relative_motion.cpp:45-63 | the scaled caps are positive, within the wheel limit and in the proportion of the targets |
| `RelativeMotion.PlanRelative` | src/robot_wheel_control/src/wheel_relative_motion.cpp:32-102 | planning succeeds exactly when every check passes, with targets, caps and deadline as specified, and refuses for a check that fails |
| `RelativeMotion.TargetPassesIff` | src/robot_wheel_control/src/wheel_relative_motion.cpp:47-85 | a wheel's target passes exactly when it is beyond the resolution, within the bench travel, and while commissioning within the action budget and the raw range |
| `RelativeMotion.WayStaysInRange` | src/robot_wheel_control/src/wheel_relative_motion.cpp:79-83 | while commissioning, a planned motion that starts inside the raw range keeps its margin to the ends all the way |
| `RelativeMotion.WheelAccelerationsFit` | src/robot_wheel_control/src/wheel_relative_motion.cpp:68-70 | the planned wheel accelerations take the body ahead and round within its own linear and angular acceleration |
| `RelativeMotion.EstimateIsEnough` | src/robot_wheel_control/src/wheel_relative_motion.cpp:64-86 | the estimated time suffices to reach the cap, brake from it and cover the whole target, and leaves two settling times |
| `RelativeMotion.OnlyAskedDeadlineIsTooShort` | src/robot_wheel_control/src/wheel_relative_motion.cpp:89-102 | a deadline passes exactly when it lies beyond the estimate and within the maximum; only one that was asked for can be too short |
| `RelativeMotion.VelocityIsBounded` | src/robot_wheel_control/include/robot_wheel_control/relative_motion.hpp:25-50 | an approach speed keeps its cap, never points away from the target, can still be braked within the remaining error, and is zero inside half the tolerance |
| `RelativeMotion.LaggingWheelIsNotHeldBack` | src/robot_wheel_control/include/robot_wheel_control/relative_motion.hpp:41-47 | synchronisation does not slow the wheel that is behind |
| `RelativeMotion.VelocityBalances` | src/robot_wheel_control/include/robot_wheel_control/relative_motion.hpp:31-47 | outside half the tolerance a wheel on its way approaches at gain times error, plus the synchronisation gain times how far it lags, cut to cap and braking speed and never below zero |
| `RelativeMotion.BrakingIsTight` | src/robot_wheel_control/include/robot_wheel_control/relative_motion.hpp:43-47 | where braking governs, the squared speed is exactly twice the acceleration times the error beyond half the tolerance |
| `RelativeMotion.SuccessBoundsGoalError` | src/robot_wheel_control/src/wheel_relative_motion.cpp:239-297 | two wheels within tolerance bound the error of the goal by `tol*(r0+r1)/2`, `tol*(r0+r1)/separation` or `tol`, by kind |
| `RelativeMotion.GoalToleranceIsReached` | src/robot_wheel_control/src/wheel_relative_motion.cpp:239-297 | no smaller bound would do: some reached pair is off by just that much |
| `FinalObservation.Observe` | src/robot_wheel_control/src/wheel_relative_motion.cpp:219-284 | the final loop succeeds exactly when a settled stretch of the full settling time was seen on clean rounds only, and otherwise reports the first failure |
| `FinalObservation.SettledIff` | src/robot_wheel_control/src/wheel_relative_motion.cpp:254-257 | a round is settled exactly when both wheels are within tolerance of their targets and within the settled speed |
| `FinalObservation.ConfirmedMeetsGoal` | src/robot_wheel_control/src/wheel_relative_motion.cpp:239-297 | a confirmed observation bounds, over the whole settling time, the error of the goal itself and how fast the body still moves along it, and ends before the deadline |
| `RequestLedger.AcceptKeepsInv` | src/robot_wheel_control/src/wheel_runtime.cpp:271-315 | entering a request, also one that supersedes a waiting stop, keeps every id known once and every acceptance accounted for |
| `RequestLedger.EnteredIsPending` | src/robot_wheel_control/src/wheel_runtime.cpp:283-313 | what is entered is pending, once, and known as such; a stop is in its slot, a relative motion the flagged one |
| `RequestLedger.TakeKeepsInv` | src/robot_wheel_control/src/wheel_runtime.cpp:375-384 | what the manager takes, stop slot first and then the front of the queue, keeps the ledger; `WheelRuntime.StopGoesFirst` and `QueueIsServedInOrder` say which request that is |
| `RequestLedger.CollectKeepsInv` | src/robot_wheel_control/src/wheel_runtime.cpp:405-413 | publishing an outcome, or leaving a started relative motion to the transmit thread, keeps the ledger |
| `RequestLedger.DetachKeepsInv` | src/robot_wheel_control/src/wheel_runtime.cpp:545-550 | taking the relative motion down keeps the ledger, and its place is free |
| `RequestLedger.EndKeepsInv` | src/robot_wheel_control/src/wheel_relative_motion.cpp:314-314 | publishing a relative motion that was taken down keeps the ledger |
| `RequestLedger.ForgetKeepsCore` | src/robot_wheel_control/src/wheel_runtime.cpp:346-354 | pruning forgets completed ids only, down to the history |
| `RequestLedger.ForgetDropsOldest` | src/robot_wheel_control/src/wheel_runtime.cpp:346-354 | pruning drops the oldest completed ids beyond the history with their results and fingerprints, and nothing else |
| `RequestLedger.FinishedTells` | src/robot_wheel_control/src/wheel_runtime.cpp:331-359 | a published result says succeeded, cancelled or failed as the request ended, is the last event, and costs at most the oldest event |
| `RequestLedger.RelativeSlots` | src/robot_wheel_control/src/wheel_runtime.cpp:287-296 | no more than one relative motion is ever pending |
| `RequestLedger.ResultsAreBounded` | src/robot_wheel_control/src/wheel_runtime.cpp:346-359 | known results never exceed history plus queue capacity plus three |
| `MotionPermit.FaultRequestKeepsInv` | src/robot_wheel_control/src/wheel_runtime.cpp:92-106 | a fault request withdraws the permission and counts one rising edge and one revocation, or does nothing |
| `MotionPermit.WithdrawKeepsInv` | src/robot_wheel_control/src/wheel_runtime.cpp:272-281 | accepting a stop or disable withdraws the permission and counts one revocation |
| `MotionPermit.GrantKeepsInv` | src/robot_wheel_control/src/wheel_runtime.cpp:489-505 | granting the permission to a request of the current generation keeps it tied to that request, and nothing was revoked since that request came |
| `MotionPermit.CurrentIsUnrevoked` | src/robot_wheel_control/src/wheel_runtime.cpp:489-491 | for a logged request the comparison of generations holds exactly when no stop, disable or fault was accepted since it was submitted |
| `MotionPermit.StopSettleKeepsInv` | src/robot_wheel_control/src/wheel_runtime.cpp:617-657 | the end of a controlled stop keeps the counts, also when it raises the fault itself |
| `MotionPermit.CountsSince` | src/robot_wheel_control/src/wheel_runtime.cpp:271-275 | two equal counts of revocations, or of fault rises, mean that none happened in between |
| `MotionPermit.UncommandedTickBrakes` | src/robot_wheel_control/src/wheel_runtime.cpp:980-1002 | without permission, or with a stale command, a tick is a braking step and the faster wheel loses at least a notch |
| `MotionPermit.CommandIsReached` | src/robot_wheel_control/src/wheel_runtime.cpp:980-1002 | with permission and fresh commands, ticks reach the commanded speeds, limited, through rest if a wheel has to reverse |
| `MotionPermit.ClearHitsNamedFaultIff` | src/robot_wheel_control/src/wheel_runtime.cpp:509-539 | a queued clear meets the fault it named exactly when the fault has not risen since it was submitted |
| `WheelRuntime.StepKeepsInv` | src/robot_wheel_control/src/wheel_runtime.cpp:182-657 | every section of every thread keeps ledger, permission, limits and the tie between the manager and the transmit thread |
| `WheelRuntime.RunKeepsInv` | src/robot_wheel_control/src/wheel_runtime.cpp:182-1030 | so does every interleaving of any length, from the start |
| `WheelRuntime.RequestsAreAccounted` | src/robot_wheel_control/src/wheel_runtime.cpp:182-416 | after any run a known id is pending or completed but never both, its status says which, each acceptance but a pending one has one final result, and the results are bounded |
| `WheelRuntime.RelativeFlagTells` | src/robot_wheel_control/src/wheel_runtime.cpp:287-296 | after any run a relative motion is flagged exactly when one is pending, and it is the flagged one |
| `WheelRuntime.ResubmissionChangesNothing` | src/robot_wheel_control/src/wheel_runtime.cpp:199-217 | an unaccepted submission changes nothing; a known id is answered as existing exactly when session and payload agree |
| `WheelRuntime.AcceptedGoalCanBePlanned` | src/robot_wheel_control/src/wheel_runtime.cpp:227-260 | a goal that passes submission meets what planning and the approach speed need |
| `WheelRuntime.PermissionIsUnrevoked` | src/robot_wheel_control/src/wheel_runtime.cpp:423-508 | after any run a permission means enabled, configured, no fault, and that no stop, disable or fault was accepted since the very enable or relative request was submitted that it was granted to |
| `WheelRuntime.PermissionRisesIff` | src/robot_wheel_control/src/wheel_runtime.cpp:489-508 | the permission rises in the last section of enabling only, exactly for a request that is still current, and is then that request's |
| `WheelRuntime.EnableIsGranted` | src/robot_wheel_control/src/wheel_runtime.cpp:417-508 | a run from the start in which an enable gets the permission |
| `WheelRuntime.FaultSequenceCountsRises` | src/robot_wheel_control/src/wheel_runtime.cpp:92-106 | after any run the fault sequence counts the rising edges, and rises and falls alternate |
| `WheelRuntime.SpeedsStayAdmitted` | src/robot_wheel_control/src/wheel_runtime.cpp:1002-1002 | after any run the speeds sent keep all limits |
| `WheelRuntime.StepsGlide` | src/robot_wheel_control/src/wheel_runtime.cpp:980-1004 | every step leaves the speeds alone, sets them to rest, brakes, or, only for a tick with permission and a fresh command, ramps to the commanded target |
| `WheelRuntime.NoCommandNoSpeedUp` | src/robot_wheel_control/src/wheel_runtime.cpp:980-1002 | whatever happens but a tick with permission and a fresh command, the faster wheel does not get faster |
| `WheelRuntime.UncommandedRunRests` | src/robot_wheel_control/src/wheel_runtime.cpp:980-1002 | over any stretch of a run without a tick on command, whatever else happens, the pair rests once the notches of its ticks cover its speed, permitted or not |
| `WheelRuntime.GrantBeginsAtRest` | src/robot_wheel_control/src/wheel_runtime.cpp:423-508 | after any run a permission begins at rest with no target: what was commanded before has no effect |
| `WheelRuntime.TargetChangesOnlyBy` | src/robot_wheel_control/src/wheel_runtime.cpp:133-181 | a new target other than rest comes from a command under permission or from the active relative motion |
| `WheelRuntime.SpeedPassesZero` | src/robot_wheel_control/src/wheel_runtime.cpp:685-693 | between two moments of any run that drive a wheel in opposite directions there is one at exactly zero |
| `WheelRuntime.QueuedClearTakesLaterFault` | src/robot_wheel_control/src/wheel_runtime.cpp:509-539 | a concrete run in which a second clear takes away a later fault |
| `WheelRuntime.SecondEnableAcceptedIff` | src/robot_wheel_control/src/wheel_runtime.cpp:218-226 | after any run with an enable in the hands of manager or transmit thread, a new one is accepted exactly before that one has begun or after it was turned down, and if nothing else stands against it |
| `WheelRuntime.EnableAcceptedTwice` | src/robot_wheel_control/src/wheel_runtime.cpp:839-850 | a run from the start in which an enable is accepted while another one is about to begin |
| `WheelRuntime.EnabledRisesIff` | src/robot_wheel_control/src/wheel_runtime.cpp:617-631 | a disabled pair is marked as enabled exactly by a grant, which follows the drivers' confirmation, and by a plain, settled, fault-free stop, which follows none |
| `WheelRuntime.StopMarksDisabledPairEnabled` | src/robot_wheel_control/src/wheel_runtime.cpp:617-631 | a run from the start in which nobody enables anything and a plain stop marks the pair as enabled |
| `WheelRuntime.AcceptedIff` | src/robot_wheel_control/src/wheel_runtime.cpp:182-270 | a submission is accepted exactly when its id is new, it comes from this session, there is room, and the mode allows it |
| `WheelRuntime.AcceptedIsPending` | src/robot_wheel_control/src/wheel_runtime.cpp:271-316 | what was accepted is pending, once; a stop or disable has withdrawn the permission on return; a relative motion is the flagged one |
| `WheelRuntime.AcceptedEffects` | src/robot_wheel_control/src/wheel_runtime.cpp:271-316 | what an acceptance does, and all it does, to slot, queue, permission, generation and results |
| `WheelRuntime.RejectedIff` | src/robot_wheel_control/src/wheel_runtime.cpp:182-270 | a submission is rejected for the first reason, in the order of the checks, that stands against it |
| `WheelRuntime.GoalAcceptableIff` | src/robot_wheel_control/src/wheel_runtime.cpp:227-260 | a goal is acceptable exactly when it is finite and its size, speed and time are within what its kind and the mode allow |
| `WheelRuntime.StopGoesFirst` | src/robot_wheel_control/src/wheel_runtime.cpp:375-384 | over any stretch in which nothing is handed out, the first request handed out after a stop was accepted is the stop accepted last, and the queue stays as it is |
| `WheelRuntime.QueueIsServedInOrder` | src/robot_wheel_control/src/wheel_runtime.cpp:375-384 | after any run, the queued requests handed out followed by those still waiting are exactly the accepted ones in the order of acceptance |
| `WheelRuntime.FaultFallsIff` | src/robot_wheel_control/src/wheel_runtime.cpp:509-539 | a fault falls exactly when a clear is carried out, and never in base mode |
| `RuntimeObject.Object.Submit` | src/robot_wheel_control/src/wheel_runtime.cpp:182-316 | submission on the fields does what the specified step does, and keeps the invariant |
| `RuntimeObject.Object.Place` | src/robot_wheel_control/src/wheel_runtime.cpp:297-313 | stop slot and queue, and the superseded stop |
| `RuntimeObject.Object.PruneHistory` | src/robot_wheel_control/src/wheel_runtime.cpp:346-359 | the pruning loop computes the specified pruning |
| `RuntimeObject.Object.ScheduleNext` | src/robot_wheel_control/src/wheel_runtime.cpp:375-384 | the next request is the one in the stop slot, and the queue stays; without one it is the front of the queue, and the rest stays in order |
| `RuntimeObject.Object.CollectOutcome` | src/robot_wheel_control/src/wheel_runtime.cpp:405-413 | the manager's publication of an outcome |
| `RuntimeObject.Object.RequestFault` | src/robot_wheel_control/src/wheel_runtime.cpp:92-106 | the rising edge of the fault |
| `RuntimeObject.Object.MeetFault` | src/robot_wheel_control/src/wheel_runtime.cpp:107-110 | the first section of a fault: the latch, and where the thread goes on, the control loop and a stop where they were, everything else with the code as its answer |
| `RuntimeObject.Object.SettleFault` | src/robot_wheel_control/src/wheel_runtime.cpp:107-124 | the second section of a fault |
| `RuntimeObject.Object.Configure` | src/robot_wheel_control/src/wheel_runtime.cpp:824-837 | the verified configuration is published, or a fault raised |
| `RuntimeObject.Object.TakeJob` | src/robot_wheel_control/src/wheel_runtime.cpp:843-848 | the job leaves its slot for the transmit thread |
| `RuntimeObject.Object.BeginEnable` | src/robot_wheel_control/src/wheel_runtime.cpp:423-437 | the first section of enabling |
| `RuntimeObject.Object.Recheck` | src/robot_wheel_control/src/wheel_runtime.cpp:462-468 | the middle section of enabling goes on exactly for a current request |
| `RuntimeObject.Object.Abandon` | src/robot_wheel_control/src/wheel_runtime.cpp:469-481 | nothing is enabled near the end of an unverified raw range |
| `RuntimeObject.Object.DecideGrant` | src/robot_wheel_control/src/wheel_runtime.cpp:489-508 | the last section of enabling: permission exactly for a current request, which nothing has revoked |
| `RuntimeObject.Object.CommitClear` | src/robot_wheel_control/src/wheel_runtime.cpp:525-539 | clearing a fault |
| `RuntimeObject.Object.BeginStop` | src/robot_wheel_control/src/wheel_runtime.cpp:542-576 | the opening of a controlled stop takes the active relative motion down |
| `RuntimeObject.Object.HaltLoop` | src/robot_wheel_control/src/wheel_runtime.cpp:569-576 | the opening of a stop from the control loop |
| `RuntimeObject.Object.BrakeTick` | src/robot_wheel_control/src/wheel_runtime.cpp:597-597 | one tick of the stopping loop brakes |
| `RuntimeObject.Object.EndStop` | src/robot_wheel_control/src/wheel_runtime.cpp:617-657 | the closing of a controlled stop |
| `RuntimeObject.Object.PublishCancelled` | src/robot_wheel_control/src/wheel_runtime.cpp:552-566 | the result of the relative motion that a stop cancelled |
| `RuntimeObject.Object.Launch` | src/robot_wheel_control/src/wheel_relative_motion.cpp:115-130 | an enabled relative motion becomes the active one, which answers its request |
| `RuntimeObject.Object.CancelLaunch` | src/robot_wheel_control/src/wheel_relative_motion.cpp:109-114 | a relative motion cancelled while it was enabled is stopped |
| `RuntimeObject.Object.TakeRelativeDown` | src/robot_wheel_control/src/wheel_relative_motion.cpp:206-218 | the active relative motion is taken down, with a stop unless that is done |
| `RuntimeObject.Object.PublishEnd` | src/robot_wheel_control/src/wheel_relative_motion.cpp:314-314 | the one result of a relative motion |
| `RuntimeObject.Object.Command` | src/robot_wheel_control/src/wheel_runtime.cpp:133-181 | a command is taken exactly under permission, from its owner, finite and within the wheel limit, and its target is the request under the least common divisor, within the body's limits |
| `RuntimeObject.Object.Tick` | src/robot_wheel_control/src/wheel_runtime.cpp:980-1012 | without permission or with a stale command the faster wheel loses a notch or stops; otherwise the pair ramps to the commanded target; the state says moving exactly if a wheel moves |
| `RuntimeObject.Object.Others` | src/robot_wheel_control/src/wheel_runtime.cpp:79-106 | any number of sections of clients, receiver and manager neither grant nor enable anything, and leave the transmit thread where it is |
| `RuntimeObject.Object.Fail` | src/robot_wheel_control/src/wheel_runtime.cpp:107-124 | a whole fault ends latched, disabled, without permission and at rest |
| `RuntimeObject.Object.PerformEnable` | src/robot_wheel_control/src/wheel_runtime.cpp:421-508 | whatever is accepted between its sections, enabling succeeds only with a permission that nothing has revoked, and every way out has its answer |
| `RuntimeObject.Object.FinishStop` | src/robot_wheel_control/src/wheel_runtime.cpp:577-657 | however it goes, a stop ends with speeds at rest and without permission, and disabled if that was asked and confirmed |
| `RuntimeObject.Object.PerformStop` | src/robot_wheel_control/src/wheel_runtime.cpp:540-657 | a stop or disable ends at rest with no relative motion left, and one that was under way published as cancelled |
| `RuntimeObject.Object.PerformRelative` | src/robot_wheel_control/src/wheel_relative_motion.cpp:26-131 | a relative motion is under way exactly if its start is answered with success |
| `RuntimeObject.Object.RunJob` | src/robot_wheel_control/src/wheel_runtime.cpp:387-404 | every job is answered once, whatever happens meanwhile, and what success means holds when it is reported |
| `RuntimeObject.Object.EndRelative` | src/robot_wheel_control/src/wheel_relative_motion.cpp:206-315 | ending a relative motion leaves none under way and none unpublished, and publishes how it ended; without a speed-up, and at rest if it had to stop |
| `RuntimeObject.Object.TransmitRound` | src/robot_wheel_control/src/wheel_runtime.cpp:839-1030 | one round of the transmit thread, with arbitrary verdicts of its checks, keeps every promise and comes back to the loop; a pending fault has then been taken down |
| `RuntimeObject.Object.TransmitLoop` | src/robot_wheel_control/src/wheel_runtime.cpp:824-1035 | from the start, any number of rounds interleaved with all other threads keep every promise |
| `WheelLink.AdmittedSpeedsPassTheBus` | src/robot_wheel_control/src/wheel_configuration.cpp:230-234 | an admitted pair never fails the speed check of the wheel bus |
| `Binary32.ScaledByFields` | src/damiao_core/src/protocol.cpp:13-14 | the recursive count of quanta is the one of the exponent and fraction fields of section 3.4 of IEEE 754-2008 |
| `Binary32.ValueKeepsBits` | src/damiao_core/src/protocol.cpp:52-66 | every finite pattern but negative zero is what its value rounds to |
| `Binary32.SameNumberIff` | src/damiao_core/src/bus.cpp:634-648 | two finite patterns stand for the same number exactly when they are equal or both zeros |
| `Binary32.RoundedIsNearest` | src/damiao_core/src/protocol.cpp:213-214 | within range, no finite pattern is closer than the rounded one |
| `Binary32.RoundedIsMonotone` | src/damiao_core/src/protocol.cpp:213-214 | rounding keeps order |
| `Binary32.RoundedIffRepresentable` | src/damiao_core/src/protocol.cpp:213-214 | a value passes the conversion unchanged exactly when binary32 has it |
| `Binary32.TransmittableIff` | src/damiao_core/src/protocol.cpp:69-73 | the guard fails exactly for what is not finite, too large, or nonzero and at most half the smallest magnitude |
| `Can.LoadUndoesStore` | src/damiao_core/src/protocol.cpp:36-49 | reading a stored word gives it back |
| `Can.StoreUndoesLoad` | src/damiao_core/src/protocol.cpp:36-49 | storing a read word gives the bytes back |
| `Can.LoadIsPositional` | src/damiao_core/src/protocol.cpp:36-40 | a word is the sum of its bytes by position, the low byte first |
| `Can.Store` | src/damiao_core/src/protocol.cpp:43-49 | the store loop writes the four little-endian bytes and leaves the rest of the payload alone |
| `Protocol.BuildWrite` | src/damiao_core/src/protocol.cpp:258-278 | the write frame built in place is the specified one, errors included |
| `Protocol.WriteRoundTrip` | src/damiao_core/src/protocol.cpp:258-304 | every legal write decodes, from its echo, to the value written |
| `Protocol.DecodeReplyIff` | src/damiao_core/src/protocol.cpp:280-304 | a reply decodes to a value exactly when it carries that value's word under the expected header |
| `Protocol.RegisterTable` | src/damiao_core/src/registers.cpp:9-59 | which registers there are, which hold floats and which may be written |
| `Protocol.WriteAllowedIff` | src/damiao_core/src/protocol.cpp:126-179 | exactly which values may be written, register by register, and the one register whose range the manual leaves open |
| `Protocol.SameValueIff` | src/damiao_core/src/bus.cpp:634-648 | finite floats compare as equal exactly when they stand for the same number, and no NaN equals anything |
| `Protocol.RequestFrames` | src/damiao_core/src/protocol.cpp:249-340 | reads, writes, queries and saves by their bytes, and when there is a frame at all |
| `Protocol.SaveAcknowledgedIff` | src/damiao_core/src/protocol.cpp:342-356 | a save is acknowledged exactly by its own header from the motor's feedback identifier, and so by its echo |
| `Protocol.ManagementFrameIff` | src/damiao_core/src/protocol.cpp:316-331 | every command is encoded as its own frame, seven 0xFF and its byte on the identifier of the mode, and as no other |
| `Protocol.FeedbackArrives` | src/damiao_core/src/protocol.cpp:218-247 | what a motor packs into its feedback, nearest codes of position, velocity and torque, status and temperatures, decodes to it within half a step each |
| `Protocol.PositionVelocityArrives` | src/damiao_core/src/protocol.cpp:201-216 | the motor finds position and speed, in this order and rounded to finite binary32 numbers, on its position-velocity identifier |
| `Protocol.CommandsAvoidFeedback` | src/damiao_core/src/protocol.cpp:105-113 | no identifier any encoder can emit for a motor equals a feedback identifier that avoids its low byte |
| `Protocol.FieldsBijection` | src/damiao_core/src/protocol.cpp:231-240 | the feedback fields of 4, 4, 16, 12, 12, 8 and 8 bits and the payloads correspond one to one |
| `Protocol.UnmapSpansTheRange` | src/damiao_core/src/protocol.cpp:98-101 | readings run strictly upward from one limit exactly to the other |
| `Protocol.ReadingWithinHalfStep` | docs/damiao-j4310p-j4340-can-protocol.md:178-183 | reading back the nearest code of a value misses it by at most half a step |
| `Protocol.QuantiseUndoesUnmap` | docs/damiao-j4310p-j4340-can-protocol.md:178-183 | quantising a reading gives its code back |
| `Protocol.NearZeroIsTheTwoMiddleCodes` | src/damiao_core/src/bus.cpp:846-849 | no code reads as zero, and the zero confirmation accepts exactly the two middle codes |
| `Protocol.FeedbackLooksLikeParameterIff` | src/damiao_core/src/bus.cpp:32-41 | which feedback is taken for a parameter reply |
| `H55Protocol.ProtectionReadsBack` | src/damiao_core/src/h55/protocol.cpp:40-95 | an accepted protection write reads back as its value, exactly for the timeout and rounded for the speed |
| `H55Protocol.ProtectionEncodesIff` | src/damiao_core/src/h55/protocol.cpp:40-65 | a protection write is encoded exactly for a whole timeout up to 20000 or a positive speed that binary32 keeps, and as that word |
| `H55Protocol.VelocityArrives` | src/damiao_core/src/h55/protocol.cpp:8-25 | the wheel finds the speed rounded to binary32 on its velocity identifier; exactly finite speeds in range are encoded |
| `H55Protocol.DecodeRegisterIff` | src/damiao_core/src/h55/protocol.cpp:71-95 | a reply decodes to a value exactly when it carries that value's word, under the wheel's header, for a register of that type |
| `H55Protocol.WriteEchoIsNoReply` | src/damiao_core/src/h55/protocol.cpp:71-79 | an echoed write never passes for a read reply |
| `H55Protocol.FeedbackLooksLikeRegisterIff` | src/damiao_core/src/h55/protocol.cpp:66-70 | which feedback is taken for a register frame |
| `UsbQueue.StepKeepsInv` | src/damiao_core/src/transports/dm_usb_sdk_transport.cpp:133-171 | each step of either thread keeps order, conservation and the latch |
| `UsbQueue.DisableOvertakes` | src/damiao_core/src/transports/dm_usb_sdk_transport.cpp:300-348 | under every interleaving no frame accepted before a disable of its identifier is handed over after it, and motion frames keep their order |
| `UsbQueue.DisableIsRecognised` | src/damiao_core/src/transports/dm_usb_sdk_transport.cpp:320-322 | the queue takes for a disable exactly the encoder's disable frames, for every motor, mode and command |
| `UsbQueue.MotionIsNoDisable` | src/damiao_core/src/transports/dm_usb_sdk_transport.cpp:320-322 | no motion frame that can be encoded is taken for a disable |
| `UsbQueue.DisableSharesIdentifier` | src/damiao_core/src/transports/dm_usb_sdk_transport.cpp:323-328 | a disable has the identifier of the motion frames of its mode, so these are what it purges |
| `UsbQueue.EncodedDisableOvertakes` | src/damiao_core/src/transports/dm_usb_sdk_transport.cpp:318-348 | under every interleaving, whatever encoded motion frame of a motor and mode is handed over after the encoder's disable for it was accepted after it |
| `UsbQueue.WithoutIsExact` | src/damiao_core/src/transports/dm_usb_sdk_transport.cpp:323-328 | purging takes away all items of one identifier and none of the others |
| `UsbQueue.FramesAreConserved` | src/damiao_core/src/transports/dm_usb_sdk_transport.cpp:300-348 | every accepted frame is queued, held, handed over or dropped, exactly once, and the queue never exceeds sixteen |
| `UsbQueue.OnlyDisablesAfterFailure` | src/damiao_core/src/transports/dm_usb_sdk_transport.cpp:150-169 | after the latch only disables leave, but for at most one frame, the first, which was past its check |
| `UsbQueue.MotionCanLeaveAfterFailure` | src/damiao_core/src/transports/dm_usb_sdk_transport.cpp:150-169 | a concrete run with that exception |
| `UsbQueue.FailureExcusesIff` | src/damiao_core/src/transports/dm_usb_sdk_transport.cpp:150-169 | the exception can occur exactly when the sender holds a motion frame past its check |
| `UsbQueue.UsbTransport.Send` | src/damiao_core/src/transports/dm_usb_sdk_transport.cpp:300-348 | a disable, by its bytes, purges its identifier and goes to the front even after a failure, any other frame to the back, refused after a failure or when sixteen wait |
| `UsbQueue.UsbTransport.Purge` | src/damiao_core/src/transports/dm_usb_sdk_transport.cpp:323-328 | the erase loop keeps exactly the frames of other motors, in order |
| `UsbQueue.UsbTransport.ReceiveOverflow` | src/damiao_core/src/transports/dm_usb_sdk_transport.cpp:78-82 | the callback latches the failure |
| `UsbQueue.UsbTransport.TakeNext` | src/damiao_core/src/transports/dm_usb_sdk_transport.cpp:137-145 | the sender takes the front of the queue |
| `UsbQueue.UsbTransport.PassesFailureCheck` | src/damiao_core/src/transports/dm_usb_sdk_transport.cpp:146-154 | the sender's failure check |
| `UsbQueue.UsbTransport.PassesDeadline` | src/damiao_core/src/transports/dm_usb_sdk_transport.cpp:155-160 | the sender's deadline check |
| `UsbQueue.UsbTransport.HandToAdapter` | src/damiao_core/src/transports/dm_usb_sdk_transport.cpp:161-169 | handing a frame over, and latching a failure or delay |
| `BusState.RegistrationKeepsAddresses` | src/damiao_core/src/bus.cpp:84-118 | registration keeps the tables inverse to the motors and the address spaces disjoint |
| `BusState.RegistrableIff` | src/damiao_core/src/bus.cpp:84-111 | nothing stands against a motor but the number of motors, its own address and mapping, and pairwise conflicts with the others |
| `BusState.CommandsAreNoFeedback` | src/damiao_core/src/bus.cpp:96-111 | no command identifier of any registered motor is the feedback identifier of any |
| `BusState.FeedbackNamesOneMotor` | src/damiao_core/src/bus.cpp:1137-1143 | a received identifier names at most the one motor in the table |
| `BusState.TakingKeepsCache` | src/damiao_core/src/bus.cpp:1184-1194 | taking a newer sample keeps times strictly increasing and the sequence number a count of accepted frames |
| `BusState.WithdrawingKeepsCache` | src/damiao_core/src/bus.cpp:483-488 | withdrawing samples keeps the cache sound |
| `BusState.RoutingMoves` | src/damiao_core/src/bus.cpp:1131-1199 | a frame can move the bus only from control to fault, and leaves the transaction's identity alone |
| `BusState.RoutingTouchesOneSlot` | src/damiao_core/src/bus.cpp:1131-1199 | a frame touches no slot but that of the motor it names |
| `BusState.RoutingKeepsCache` | src/damiao_core/src/bus.cpp:1131-1199 | whatever frame arrives, valid samples stay of the current revision and not older than the last commit |
| `BusState.RoutingKeepsControl` | src/damiao_core/src/bus.cpp:1200-1211 | whatever frame arrives in control, every motor stays ready, enabled and within limits, or the fault is latched |
| `BusState.RoutingKeepsAnswer` | src/damiao_core/src/bus.cpp:1151-1167 | a truthful reply leaves in the transaction what the device holds |
| `BusState.FeedbackEntersIff` | src/damiao_core/src/bus.cpp:1168-1212 | a feedback frame enters the cache exactly when confirmed, well formed, the motor's own and newer; it answers a waiting query, and in control a sample not enabled or not within limits is a fault; any other changes nothing |
| `BusState.ReplySettlesIff` | src/damiao_core/src/bus.cpp:1145-1167 | which reply settles a transaction with what, which ends a query as ambiguous, and which is ignored |
| `BusState.FeedbackCodeIff` | src/damiao_core/src/bus.cpp:228-241 | a sample is good exactly on an open bus while valid, of the current revision, not before the commit, not too old, and without a driver fault |
| `BusState.RoutingKeepsSampled` | src/damiao_core/src/bus.cpp:1131-1199 | a query that is answered has been answered by a sample received since it was sent |
| `BusState.LastReplyWins` | src/damiao_core/src/bus.cpp:1151-1167 | of two matching replies before the waiter wakes, the second counts |
| `BusSteps.HeardKeepsSound` | src/damiao_core/src/bus.cpp:1131-1199 | receiving any frame keeps everything the bus promises |
| `BusSteps.DiedKeepsSound` | src/damiao_core/src/bus.cpp:1112-1127 | the end of the receiver latches the fault and keeps the rest |
| `BusSteps.SentKeepsSound` | src/damiao_core/src/bus.cpp:340-353 | sending a write, applied or lost, keeps agreement, because the host has stopped vouching for the register |
| `BusSteps.CommittedKeepsSound` | src/damiao_core/src/bus.cpp:531-540 | publishing a configuration that the device bears out keeps agreement and withdraws older samples |
| `BusSteps.DoubtedKeepsSound` | src/damiao_core/src/bus.cpp:614-627 | withdrawing trust keeps agreement |
| `BusSteps.PromotedKeepsSound` | src/damiao_core/src/bus.cpp:976-996 | control may be entered when every motor passes its conditions |
| `BusSteps.RecoveredKeepsSound` | src/damiao_core/src/bus.cpp:943-966 | recovering withdraws every sample and keeps the rest |
| `BusSteps.OpenedKeepsSound` | src/damiao_core/src/bus.cpp:120-166 | opening withdraws every sample and confirmation of an active session |
| `BusSteps.ShutDownKeepsSound` | src/damiao_core/src/bus.cpp:168-186 | closing keeps what the bus promises, also while the receiver still runs |
| `BusRuns.RunKeepsSound` | src/damiao_core/src/bus.cpp:84-1212 | in every state of every interleaving of sections, from a new bus on, the bus keeps all its promises |
| `BusRuns.ControlIsSafe` | src/damiao_core/src/bus.cpp:968-1211 | after any run in control every motor is confirmed, in position mode and limited, and its sample valid, of the current revision, enabled and within limits |
| `BusRuns.ConfirmedIsHeld` | src/damiao_core/src/bus.cpp:490-757 | after any run of an active bus with honest motors, confirmed modes and mappings are what the motors hold, up to rounding |
| `BusRuns.DeadReceiverIsKnown` | src/damiao_core/src/bus.cpp:1112-1127 | after any run a receiver that has ended means fault or closed |
| `BusRuns.FaultEndsOnlyBy` | src/damiao_core/src/bus.cpp:943-966 | between a fault and a later state of a run without it lies a recovery or a close, which the lemma returns |
| `DamiaoBus.DamiaoBus.RegisterMotor` | src/damiao_core/src/bus.cpp:84-118 | a motor is registered exactly when the bus is closed and nothing conflicts |
| `DamiaoBus.DamiaoBus.Open` | src/damiao_core/src/bus.cpp:120-166 | opening succeeds exactly under its conditions, into maintenance with no mode confirmed; unless the bus was closed it changes nothing |
| `DamiaoBus.DamiaoBus.Trust` | src/damiao_core/src/bus.cpp:146-157 | the opening loop withdraws samples and confirmations motor by motor |
| `DamiaoBus.DamiaoBus.ShutDown` | src/damiao_core/src/bus.cpp:168-186 | closing ends with no valid sample, whatever the receiver did meanwhile |
| `DamiaoBus.DamiaoBus.Close` | src/damiao_core/src/bus.cpp:188-203 | closing is refused exactly in control |
| `DamiaoBus.DamiaoBus.RouteFrame` | src/damiao_core/src/bus.cpp:1131-1199 | the field updates of a received frame are the specified ones |
| `DamiaoBus.DamiaoBus.Disturb` | src/damiao_core/src/bus.cpp:1095-1129 | one frame, a pause or the end of the receiver is one lawful move of the surroundings |
| `DamiaoBus.DamiaoBus.Interfere` | src/damiao_core/src/bus.cpp:1095-1129 | any number of frames, a pause and the end of the receiver keep every promise |
| `DamiaoBus.DamiaoBus.Unlocked` | src/damiao_core/src/bus.cpp:376-392 | between two sections of an operation the receiver may act, and changes no configuration, no device and nothing on the wire |
| `DamiaoBus.DamiaoBus.ManagementGate` | src/damiao_core/src/bus.cpp:281-302 | the gate loop decides the specified gate |
| `DamiaoBus.DamiaoBus.PassGate` | src/damiao_core/src/bus.cpp:376-392 | an operation goes on only behind the gate, on an active bus in maintenance with no motor enabled, or all of them disabled |
| `DamiaoBus.DamiaoBus.Transact` | src/damiao_core/src/bus.cpp:304-374 | a transaction changes at most one device register, returns what an honest device holds, and once sent ends in success or fault |
| `DamiaoBus.DamiaoBus.Enter` | src/damiao_core/src/bus.cpp:307-337 | a transaction is entered only on an open, quiet, active bus |
| `DamiaoBus.DamiaoBus.Conclude` | src/damiao_core/src/bus.cpp:354-373 | an unanswered transaction is a fault |
| `DamiaoBus.DamiaoBus.ReadUnlocked` | src/damiao_core/src/bus.cpp:376-392 | a successful read returns a value of the register's type that an honest device holds; the wire has at most the read request, and only behind the gate |
| `DamiaoBus.DamiaoBus.WriteUnlocked` | src/damiao_core/src/bus.cpp:581-677 | a verified write means read-back and acknowledgement equal the request, an honest device holds it, and no other motor or register changed; the wire has the read, the one write and the read-back, and only behind the gate |
| `DamiaoBus.DamiaoBus.WriteInDoubt` | src/damiao_core/src/bus.cpp:614-633 | trust is withdrawn before the write is sent |
| `DamiaoBus.DamiaoBus.VerifyWrite` | src/damiao_core/src/bus.cpp:634-648 | nothing is published unless acknowledgement and read-back equal the request |
| `DamiaoBus.DamiaoBus.CommitWrite` | src/damiao_core/src/bus.cpp:649-676 | publishing a verified write agrees with an honest device |
| `DamiaoBus.DamiaoBus.Synchronize` | src/damiao_core/src/bus.cpp:490-541 | success confirms mode and a mapping read from an identified motor; failure leaves it unchanged or unconfirmed, and no other motor and no registration changes; the wire has the reads of the seven registers, in order |
| `DamiaoBus.DamiaoBus.PublishSynchronized` | src/damiao_core/src/bus.cpp:521-540 | what was read is checked against the registration and published together |
| `DamiaoBus.DamiaoBus.WriteMappingLimits` | src/damiao_core/src/bus.cpp:708-757 | after success the published limits are the requested ones and an honest device holds their roundings; the wire has, limit by limit, a read, the write of the rounding and its read-back |
| `DamiaoBus.DamiaoBus.WithdrawMapping` | src/damiao_core/src/bus.cpp:723-732 | behind the gate the mapping is no longer confirmed |
| `DamiaoBus.DamiaoBus.WriteLimit` | src/damiao_core/src/bus.cpp:738-746 | a verified write of one limit leaves its rounding in an honest device, and nothing else of it changed |
| `DamiaoBus.PublishedLimitsAreExactIff` | src/damiao_core/src/bus.cpp:748-754 | host and device use the same mapping exactly when binary32 has all three limits |
| `DamiaoBus.TenthIsNotExact` | src/damiao_core/src/bus.cpp:748-754 | a limit of 0.1 is an example where they differ |
| `DamiaoBus.DamiaoBus.QueryUnlocked` | src/damiao_core/src/bus.cpp:543-569 | a successful query returns a good cached sample received since the query began; the wire has at most the state query |
| `DamiaoBus.DamiaoBus.CommandUnlocked` | src/damiao_core/src/bus.cpp:778-859 | the wire has at most the motor's frame for that very command, then one state query, and only where the bus may send it; success means a sample received since confirms it, and anything else after sending is a fault |
| `DamiaoBus.DamiaoBus.SendAndConfirm` | src/damiao_core/src/bus.cpp:811-859 | from the moment the frame goes out, only the expected sample is a success |
| `DamiaoBus.DamiaoBus.SendCommand` | src/damiao_core/src/bus.cpp:821-829 | a command goes out once, and a refused one is a fault |
| `DamiaoBus.DamiaoBus.FailCommand` | src/damiao_core/src/bus.cpp:830-845 | a command without the expected answer is a fault |
| `DamiaoBus.DamiaoBus.SnapshotAll` | src/damiao_core/src/bus.cpp:255-279 | samples are handed out as valid exactly when nothing speaks against them |
| `DamiaoBus.DamiaoBus.ConfirmZero` | src/damiao_core/src/bus.cpp:846-857 | the zero is confirmed exactly within two steps, and the sample is withdrawn |
| `DamiaoBus.DamiaoBus.DisableMotor` | src/damiao_core/src/bus.cpp:871-887 | an explicit disable leaves control first, puts the motor's disable frame and one query on the wire, and a fault stays a fault |
| `DamiaoBus.DamiaoBus.RecoverMaintenance` | src/damiao_core/src/bus.cpp:943-966 | recovery succeeds exactly from maintenance or fault with a live receiver |
| `DamiaoBus.DamiaoBus.BeginControl` | src/damiao_core/src/bus.cpp:968-997 | control is entered exactly when every motor is fresh, enabled, synchronised, in position mode and within limits |
| `DamiaoBus.MayControlIff` | src/damiao_core/src/bus.cpp:976-996 | what entering control demands of one motor, check by check |
| `DamiaoBus.DamiaoBus.EndControl` | src/damiao_core/src/bus.cpp:999-1012 | leaving control never clears a fault |
| `DamiaoBus.PermittedIff` | src/damiao_core/src/bus.cpp:1045-1069 | a command passes the range checks exactly when the motor's limits are complete and allow it and it can be encoded, so nothing that passes fails for its numbers |
| `DamiaoBus.CommandPassesIff` | src/damiao_core/src/bus.cpp:1037-1065 | a command passes exactly with a good, fresh sample of an enabled motor and a permitted target |
| `DamiaoBus.BatchIsInOrder` | src/damiao_core/src/bus.cpp:1073-1082 | the frames of a batch are those of its commands, in motor order |
| `DamiaoBus.DamiaoBus.AdmitBatch` | src/damiao_core/src/bus.cpp:1017-1065 | a batch is admitted exactly in control, complete, and with all its checks passed; otherwise at most one result names the failure, and only stale or faulty feedback changes the mode |
| `DamiaoBus.DamiaoBus.CheckBatch` | src/damiao_core/src/bus.cpp:1037-1065 | all commands are checked before any is encoded, and the first failure is reported |
| `DamiaoBus.DamiaoBus.TransmitOne` | src/damiao_core/src/bus.cpp:1080-1083 | one attempt puts exactly its frame on the wire, whatever the receiver does before and after it |
| `DamiaoBus.DamiaoBus.TransmitBatch` | src/damiao_core/src/bus.cpp:1073-1092 | sending goes in motor order up to the first failure |
| `DamiaoBus.DamiaoBus.SendBatch` | src/damiao_core/src/bus.cpp:1014-1093 | a batch is sent exactly when all its checks pass; a rejected one sends nothing and changes nothing but, for stale or faulty feedback, the mode; otherwise the results are successes, at most one error, then not executed, with the fault latched and partial failure exactly after a success |
| `H55Bus.SendingKeepsSound` | src/damiao_core/src/h55/bus.cpp:93-99 | sending what the flags allow keeps the trace lawful |
| `H55Bus.H55Bus.Route` | src/damiao_core/src/h55/bus.cpp:56-86 | register frames settle only a waiting read of that wheel and register; feedback enters only the wheel it names, newer only, and counted |
| `H55Bus.H55Bus.ReadRegister` | src/damiao_core/src/h55/bus.cpp:101-131 | a successful read is a decoded reply of the wheel and register asked for |
| `H55Bus.H55Bus.VerifyIdentity` | src/damiao_core/src/h55/bus.cpp:141-170 | success means all nine identity registers of both wheels were read as configured since this verification began |
| `H55Bus.H55Bus.VerifyOne` | src/damiao_core/src/h55/bus.cpp:197-240 | a protection is accepted only as read, and written only right after a disable confirmation |
| `H55Bus.H55Bus.VerifyProtection` | src/damiao_core/src/h55/bus.cpp:197-241 | success means both protections of both wheels were read within tolerance since this verification began |
| `H55Bus.H55Bus.VerifyConfiguration` | src/damiao_core/src/h55/bus.cpp:133-250 | success means that since this verification began both wheels read as configured, register by register, disabled, and with supply and temperatures in range; failure never leaves the protection flag |
| `H55Bus.H55Bus.CheckStartup` | src/damiao_core/src/h55/bus.cpp:180-196 | success means supply voltage and both temperatures of both wheels were read since and lie in range |
| `H55Bus.AllIsEstablished` | src/damiao_core/src/h55/bus.cpp:141-241 | what the flags stand for, register by register: address, mode, mapping, rate and versions, and both protections |
| `H55Bus.H55Bus.SpecialPair` | src/damiao_core/src/h55/bus.cpp:264-349 | success means the command went to both wheels and both reported the expected state in frames received after it began; nothing else was sent |
| `H55Bus.H55Bus.EnablePair` | src/damiao_core/src/h55/bus.cpp:350-357 | enabling needs verified protection, sends enables only, to both wheels, and ends with both enabled |
| `H55Bus.H55Bus.DisablePair` | src/damiao_core/src/h55/bus.cpp:358-361 | disabling sends disables only, to both wheels, and ends with both disabled |
| `H55Bus.H55Bus.PollDisabledPair` | src/damiao_core/src/h55/bus.cpp:362-380 | polling sends nothing before identity is verified |
| `H55Bus.H55Bus.ClearPair` | src/damiao_core/src/h55/bus.cpp:381-398 | clearing sends one clear to each wheel, left first, then disables only, and ends with both disabled |
| `H55Bus.H55Bus.SendVelocityPair` | src/damiao_core/src/h55/bus.cpp:399-428 | a pair is sent only with both wheels enabled and fresh and both speeds in range, and is then exactly their two speed frames, left first |
| `H55Bus.H55Bus.StopPair` | src/damiao_core/src/h55/bus.cpp:429-437 | stopping sends zero speed to both wheels, then disables only, and ends with both disabled |
| `ArmHardware.ConversionRoundTrips` | src/damiao_hardware/src/damiao_system_hardware.cpp:792-818 | joint and motor coordinates are inverse to each other for either direction |
| `ArmHardware.MotorFollows` | src/damiao_hardware/src/damiao_system_hardware.cpp:813-818 | the motor turns with the joint or against it, as configured, by the reduction times the angle, at its offset when the joint is at zero; the joint keeps its speed limit exactly when the motor keeps the registered one |
| `ArmHardware.LimitsCorrespond` | src/damiao_hardware/src/damiao_system_hardware.cpp:249-261 | a joint is within its limits exactly when its motor is within the registered ones |
| `ArmHardware.LimitedStep` | src/damiao_hardware/include/damiao_hardware/position_step_limit.hpp:9-15 | a limited command lies on the way to the request, at most one step off, and equals it exactly when it is that near |
| `ArmHardware.TargetPermittedIff` | src/damiao_hardware/src/damiao_system_hardware.cpp:283-301 | for a command within limits the bus's range checks are met; only a nonzero number that binary32 loses can fail |
| `ArmHardware.FrameCarries` | src/damiao_hardware/src/damiao_system_hardware.cpp:636-672 | the frame of a target carries the motor's position and speed, rounded, to the axis's motor |
| `ArmHardware.TargetsPassIff` | src/damiao_hardware/src/damiao_system_hardware.cpp:636-672 | on a bus in control a batch of commands within limits passes all checks exactly when all feedback is fresh and binary32 loses no target |
| `ArmHardware.PacedOnward` | src/damiao_hardware/src/damiao_system_hardware.cpp:636-703 | one more limited step keeps any two sends of a run within nine tenths of the speed limit times the time between them |
| `ArmHardware.Arm.Configure` | src/damiao_hardware/src/damiao_system_hardware.cpp:244-370 | configured exactly on success: every motor registered for its axis, synchronised, and able to express it |
| `ArmHardware.Arm.RegisterAll` | src/damiao_hardware/src/damiao_system_hardware.cpp:249-269 | the motors carry the limits of their axes |
| `ArmHardware.Arm.SynchronizeAll` | src/damiao_hardware/src/damiao_system_hardware.cpp:281-301 | every device's mode and mapping fit its axis, or the arm is not configured |
| `ArmHardware.Arm.CloseBus` | src/damiao_hardware/src/damiao_system_hardware.cpp:764-790 | closing leaves nothing configured, active or enabled |
| `ArmHardware.Arm.DisableAll` | src/damiao_hardware/src/damiao_system_hardware.cpp:736-762 | control is left and every axis is told to disable; only if all are disabled is the arm inactive |
| `ArmHardware.Arm.Survey` | src/damiao_hardware/src/damiao_system_hardware.cpp:392-458 | one pass over the axes holds them where they were seen, within limits and tolerance |
| `ArmHardware.Arm.Activate` | src/damiao_hardware/src/damiao_system_hardware.cpp:371-494 | activation succeeds only through all checks, with an enable and a query to every motor in order, near where the axes stood before, and ends holding every axis where it was seen |
| `ArmHardware.Arm.Deactivate` | src/damiao_hardware/src/damiao_system_hardware.cpp:496-529 | deactivation makes command and record follow the position |
| `ArmHardware.Arm.Read` | src/damiao_hardware/src/damiao_system_hardware.cpp:551-608 | positions are published for all axes or none: fresh, in the expected state, within limits while active; anything else is a fault |
| `ArmHardware.Arm.DueIff` | src/damiao_hardware/src/damiao_system_hardware.cpp:610-672 | when a batch is due: active, no fault, the period within its maximum, ten milliseconds after a held batch, and every command finite and within its axis |
| `ArmHardware.Arm.Limit` | src/damiao_hardware/src/damiao_system_hardware.cpp:646-672 | the cycle's commands are limited exactly when all are finite and within limits |
| `ArmHardware.Arm.SendJoints` | src/damiao_hardware/src/damiao_system_hardware.cpp:673-692 | what is handed to the bus in control is rejected only for stale feedback or a lost number |
| `ArmHardware.Arm.Write` | src/damiao_hardware/src/damiao_system_hardware.cpp:610-704 | a due cycle sends exactly the frames of one limited batch and records it, or latches the fault and leaves the record alone; in control the batch starts exactly when feedback is fresh and no number is lost |

## Left out

- Rounding of doubles other than the conversions to binary32; wall-clock scheduling and thread latency; message texts.
- Negative zero: values are reals, so the two zero patterns are one value, and a negative zero is sent as zero.
- SocketCAN, the USB library and its enumeration, file locks, configuration files, ROS nodes and user interfaces: the
  model keeps only that a send may fail and that frames may arrive, late, or not at all.
- `wheel_configuration.cpp`: its checks are the `Valid()` predicates of the settings, and nothing else of it is modelled.
- `update_measurements`: only the tracker it feeds is modelled; standstill detection and travelled path are inputs of
  the guard and of the stopping loop.
- RuntimeObject.Object.TransmitRound: its guards on feedback, temperature and lateness are an arbitrary decision to stop
  or fault; idle polls are left out.
- `step_relative`: its deadline, heartbeat and stall checks are an arbitrary decision to end the motion, and the square
  root in the approach speed is a number with that square.
- `shutdown` of the runtime: runs end before it, so a request that is pending then has no result.
- RelativeMotion.PlanRelative: does not model the check that a deadline fits the clock's range.
- PositionTracking.TrackingNeverDrifts: needs a first sample whose sequence number is not zero, because the code takes
  zero for a repetition of the initial state; the bus numbers its samples from one.
- WheelRuntime.RunKeepsInv: is about safety; that every pending request ends at all also depends on clocks and motors.
- DamiaoBus.DamiaoBus.Interfere: counts every wake-up of a waiter as at least one tick of the clock.
- DamiaoBus.DamiaoBus.CommandUnlocked: with `save_parameters` and the communication timeout, which are one transaction
  each with no configuration at stake, the diagnostics counters are not modelled either.
- Lock contention that returns at once (`WouldBlock`) in the bus: such a call changes nothing.
- The inactive poller of the arm, which only queries, and the velocities it shows.
- RuntimeObject.Object.RunJob: exceptions thrown inside a job are not modelled; the code turns them into a fault.
- The lidar package, the motor manager and its scanner, action sequences and the arm console: thin layers or separate,
  easier material.
