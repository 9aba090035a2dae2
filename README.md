# TrafficSim update engine in Dafny

This project models the per-tick update engine of TrafficSim, a one-dimensional,
multi-lane traffic simulator written in Java, and proves properties of it.

- **Cars.** A `Car` looks for the nearest car ahead in its lane (`findFrontCar`).
  When that car is close, it tries one lane left and then one lane right
  (`tryLaneChange`). It then follows its leader with a clamped PD controller,
  limits its acceleration, and advances its position (`update`).
- **Ticks.** `Traffic.runSim` runs `steps + 1` ticks. Each tick sweeps lanes
  `1..lanes` in order. A sweep collects the cars in that lane, sorts them by
  descending position with a stable sort, and updates each in place. Each car's
  leader is the car before it in the sorted list.
- **Queries.** `carsPerLane` counts cars per lane, and `getMaxDistance` returns the
  largest position.

The project has two layers.

- **Value layer** (modules `CarModel`, `Schedule`, `Aggregates`). A car is a
  `CarState` record. The road is a `seq<CarState>`, and a car is named by its
  index, which stands in for Java's reference identity (`other == this`). Every
  step of the program is a function on these values, and the properties are
  lemmas about those functions.
- **Object layer** (modules `CarAgent`, `Simulation`). `Car` is a class with
  Java's fields. `Traffic` holds the `array<Car>` its methods update in place.
  Every method is proved to leave the objects in the state that the value
  layer's function computes from a snapshot (`Snap`, `World()`) taken at the
  call.

`double` is modelled as `real`. The sentinels become `Option` ("no car"):
- `update`'s `gap = Double.MAX_VALUE` is never read before it is overwritten.
- `findFrontCar`'s `closestDist = POSITIVE_INFINITY` is compared with a gap only
  while no car has been chosen. Any finite gap is below infinity, so that
  comparison always holds, and the model writes it as "no car chosen yet, or
  the gap is smaller".

Java's `int` lanes are the subset type `Int32`, and `tryLaneChange`'s
`lane + dir` is the wrapping 32-bit sum `AddInt32`: in lane
`Integer.MIN_VALUE`, moving left lands in lane `Integer.MAX_VALUE`, which is a
lane of the road only when `Constants.lanes` is `Integer.MAX_VALUE`
(`LaneWrapsAtMinValue`).

`Constants.lanes` is a parameter `roadLanes`, kept apart from `Traffic.lanes`:
`tryLaneChange` and `carsPerLane` read the first, `runSim` the second, and they
can differ. `Constants.carLengthFt` is `CarAgent.CarLengthFt`.

Where the code and what its tests and descriptions lead one to expect
differ, the model follows the code:

- **Tick count.** The code runs `trunc(totalSeconds / dt) + 1` ticks
  (Traffic.java:90-91). With `totalSeconds == dt` that is two ticks
  (`TickCountSamples`), although the test for that case is named
  `veryShortSimTimeShouldOnlyTakeOneStep` (TrafficTest.java:75); its assertion
  only asks for at least one step. `TickCount`, `TickCountSpan` and
  `TickCountSamples` divide real numbers. IEEE division can land just below
  an integer: `0.3 / 0.1` is `2.9999999999999996`, so Java runs 3 ticks where
  `TickCount(0.3, 0.1)` is 4. The lemmas do not apply to such arguments.
- **Missing features.** The code has no lane-closure merging, no collision or
  overlap resolver, and no check that rejects `dt <= 0`.

## Model

| member | source | states |
|---|---|---|
| `CarModel.NewCar` | app/src/main/java/trafficsim/Car.java:16-26 | a new car keeps its lane and stands at position 0; its speed (half the maximum) is within [0, maxSpeed] exactly when maxSpeed is not negative |
| `CarAgent.Car.constructor` | app/src/main/java/trafficsim/Car.java:16-26 | the fields hold `NewCar` of the arguments with length carLengthFt |
| `CarAgent.Car.SetDistanceFromStart` | app/src/main/java/trafficsim/Car.java:44-46 | only the position changes, to the given distance |
| `CarModel.CopySign` | app/src/main/java/trafficsim/Car.java:144 | Math.copySign on reals: the magnitude of the first argument, with the sign of the second |
| `CarModel.FrontCarAmong` | app/src/main/java/trafficsim/Car.java:159-171 | the car chosen after looking at the first n cars is one of them, another car, in the lane, and strictly ahead |
| `CarModel.FrontCarAmongIsNearest` | app/src/main/java/trafficsim/Car.java:156-171 | after n cars: none is chosen iff none of them is ahead in the lane; otherwise the choice is no farther than any of them that is, and strictly nearer than every such one earlier in the array |
| `CarModel.FrontCar` | app/src/main/java/trafficsim/Car.java:155-174 | a returned car is another car, in the asked lane, strictly ahead |
| `CarModel.FrontCarIsNearest` | app/src/main/java/trafficsim/Car.java:155-174 | null iff no other car is strictly ahead in the lane; otherwise a nearest such car, the earliest in array order among equally near ones |
| `CarAgent.Car.FindFrontCar` | app/src/main/java/trafficsim/Car.java:155-174 | the loop returns the car `FrontCar` names for the array's current states, null for none |
| `CarModel.AddInt32` | app/src/main/java/trafficsim/Car.java:55 | Java's `int` addition: the result is the one 32-bit value congruent to the sum modulo 2^32, and the sum itself when that is in range |
| `CarModel.LaneWrapsAtMinValue` | app/src/main/java/trafficsim/Car.java:49-56 | a car in lane Integer.MIN_VALUE close behind another, with Constants.lanes = Integer.MAX_VALUE, moves to the empty lane Integer.MAX_VALUE |
| `CarModel.LaneChangeRules` | app/src/main/java/trafficsim/Car.java:48-115 | no car ahead, or one more than 1.5 desired distances away, leaves the lane; otherwise the lane moves by at most one (save the 32-bit wrap from Integer.MIN_VALUE to Integer.MAX_VALUE, possible only when Constants.lanes is Integer.MAX_VALUE), stays within 1..Constants.lanes, leaves half the desired gap to every other car of the target lane on its side, and is worth it under the 5 ft / 2 mph rule; left wins over right and an accepted direction is always taken |
| `CarAgent.Car.TryLaneChange` | app/src/main/java/trafficsim/Car.java:48-115 | only `lane` changes, to the lane `LaneAfterChange` picks for the snapshot of all cars |
| `CarAgent.Car.EvaluateMove` | app/src/main/java/trafficsim/Car.java:55-109 | one pass of the direction loop, with the 32-bit `lane + dir`, accepts exactly when the lane exists, is clear, and would be faster (`AcceptsMove`) |
| `CarAgent.Car.IsLaneClear` | app/src/main/java/trafficsim/Car.java:63-89 | the clearance loop, with its early breaks, answers true exactly when every other car in the new lane leaves room (`LaneClear`) |
| `CarModel.TargetSpeedRules` | app/src/main/java/trafficsim/Car.java:119-137 | the target is maxSpeed without a leader in the same lane; otherwise it is the PD target when that lies in [0, maxSpeed], and is cut to maxSpeed above and to 0 below; it is always within [0, maxSpeed] |
| `CarAgent.Car.TargetSpeedToward` | app/src/main/java/trafficsim/Car.java:119-137 | the controller code computes `TargetSpeed` of this car and its leader |
| `CarModel.SpeedStepRules` | app/src/main/java/trafficsim/Car.java:140-147 | a target within maxDelta is reached; otherwise the speed moves by exactly abs(maxDelta) toward it; with maxDelta >= 0 the step never overshoots the target |
| `CarModel.IntegrateBounds` | app/src/main/java/trafficsim/Car.java:140-152 | for dt >= 0 and maxAccel >= 0: the speed changes by at most maxAccel * dt; a speed and a target within [0, maxSpeed] keep the speed there, and the position does not decrease |
| `CarAgent.Car.Advance` | app/src/main/java/trafficsim/Car.java:140-152 | the acceleration-limited speed step and the position step change exactly speed and position, as `Integrate` says |
| `CarModel.DriveBounds` | app/src/main/java/trafficsim/Car.java:119-152 | after the lane change: the speed changes by at most maxAccel * dt, stays in [0, maxSpeed] if it started there, and the car does not move backwards |
| `CarAgent.Car.FollowLeader` | app/src/main/java/trafficsim/Car.java:119-152 | the part of update after tryLaneChange leaves the car in the state `Drive` computes from its own and its leader's state |
| `CarModel.UpdateCarChanges` | app/src/main/java/trafficsim/Car.java:117-153 | update writes no parameter field; the new lane is tryLaneChange's; the position grows by exactly new speed * 5280/3600 * dt |
| `CarModel.UpdateCarBounds` | app/src/main/java/trafficsim/Car.java:117-153 | acceleration bound abs(speed after - speed before) <= maxAccel * dt; speed bounds are kept and the position does not decrease (dt >= 0, maxAccel >= 0) |
| `CarAgent.Car.Update` | app/src/main/java/trafficsim/Car.java:117-153 | the car's fields after update are `UpdateCar` of the array's states at the call, with carAhead as leader |
| `CarModel.LoneCarAdvances` | app/src/main/java/trafficsim/Car.java:117-153 | a car alone on the road keeps its lane, steps toward its maximum speed, and moves by new speed * 5280/3600 * dt |
| `CarModel.WantsLaneChange` | app/src/main/java/trafficsim/Car.java:49-52 | decides tryLaneChange's trigger: there is a car ahead in the own lane, at most 1.5 desired distances away; `LaneChangeRules` states what follows from it |
| `CarModel.LaneClear` | app/src/main/java/trafficsim/Car.java:63-89 | decides the clearance loop: every other car of the new lane leaves half the desired distance on its side; `IsLaneClear` is proved to compute it and `LaneChangeRules` relies on it |
| `CarModel.WouldBeFaster` | app/src/main/java/trafficsim/Car.java:91-107 | decides the benefit rule: false without a car ahead in the current lane, true without one in the new lane, otherwise more than 5 ft more room or a leader more than 2 mph faster; used by `LaneChangeRules` |
| `CarModel.AcceptsMove` | app/src/main/java/trafficsim/Car.java:55-109 | decides one pass of the direction loop: the lane at the 32-bit sum `lane + dir` exists, is clear and would be faster; `EvaluateMove` is proved to compute it |
| `CarModel.LaneAfterChange` | app/src/main/java/trafficsim/Car.java:48-115 | computes the lane tryLaneChange leaves the car in; `LaneChangeRules` states its properties and `TryLaneChange` is proved to compute it |
| `CarModel.PdTarget` | app/src/main/java/trafficsim/Car.java:125-134 | computes the unclamped PD target speed + kP * (bumper gap - desired) + kD * relative speed; `TargetSpeedRules` states how it is clamped |
| `CarModel.TargetSpeed` | app/src/main/java/trafficsim/Car.java:119-137 | computes update's target speed; `TargetSpeedRules` states its properties and `TargetSpeedToward` is proved to compute it |
| `CarModel.SpeedAfterStep` | app/src/main/java/trafficsim/Car.java:140-147 | computes the acceleration-limited speed; `SpeedStepRules` states its properties |
| `CarModel.Integrate` | app/src/main/java/trafficsim/Car.java:140-152 | computes the speed step followed by the position step; `IntegrateBounds` states its bounds and `Advance` is proved to compute it |
| `CarModel.Drive` | app/src/main/java/trafficsim/Car.java:119-152 | computes update after tryLaneChange: target speed, then `Integrate`; `DriveBounds` states its bounds and `FollowLeader` is proved to compute it |
| `CarModel.UpdateCar` | app/src/main/java/trafficsim/Car.java:117-153 | computes the state of one car after update; `UpdateCarChanges`, `UpdateCarBounds` and `LoneCarAdvances` state its properties and `Car.Update` is proved to compute it |
| `Schedule.LaneMembersAmong` | app/src/main/java/trafficsim/Traffic.java:95-98 | the list holds the cars below n in lane L, all of them, in increasing array order |
| `Schedule.Insert` | app/src/main/java/trafficsim/Traffic.java:99 | insertion adds exactly one occurrence of the car to the list |
| `Schedule.SortByPositionDesc` | app/src/main/java/trafficsim/Traffic.java:99 | the sorted list is a permutation of the input list |
| `Schedule.InsertSorted` | app/src/main/java/trafficsim/Traffic.java:99 | inserting a car with a later index into a sorted list keeps it sorted by (descending position, then array order) |
| `Schedule.SortSorted` | app/src/main/java/trafficsim/Traffic.java:99 | sorting a list given in array order yields descending position with ties in array order, as the stable sort does |
| `Schedule.LaneOrderSpec` | app/src/main/java/trafficsim/Traffic.java:94-99 | a sweep's list holds exactly the cars in lane laneNum at the start of the sweep, each once, by non-increasing position, ties in array order |
| `Schedule.LeaderIsNextAhead` | app/src/main/java/trafficsim/Traffic.java:101-104 | the car at sorted index 0 has no leader; every other car's leader is in the lane, precedes it, and is the next car ahead: any other car of the lane comes before the leader or after the car |
| `Schedule.SweepPrefixFrame` | app/src/main/java/trafficsim/Traffic.java:101-105 | updating only other cars of the list leaves car k's state unchanged |
| `Schedule.SweepLaneUpdatesOnce` | app/src/main/java/trafficsim/Traffic.java:101-105 | in a sweep, the car at sorted index p is updated exactly once, from its state at the start of the sweep, seeing the cars before it already updated |
| `Schedule.SweepLaneMoves` | app/src/main/java/trafficsim/Traffic.java:94-105 | a sweep of lane L leaves every car outside lane L unchanged and leaves each car of lane L in lane L - 1, L or L + 1 (or, for L = Integer.MIN_VALUE, in the wrapped lane Integer.MAX_VALUE) |
| `Schedule.NotReachedUntouched` | app/src/main/java/trafficsim/Traffic.java:94-105 | before the sweep of lane L, a car that did not start in lanes 1..L-1 is untouched |
| `Schedule.FirstVisitAtOwnLane` | app/src/main/java/trafficsim/Traffic.java:94-105 | every car starting in a lane of 1..lanes is updated in its tick: in its own lane's sweep, from its state at the start of the tick, and in no earlier sweep |
| `Schedule.OffRoadUntouched` | app/src/main/java/trafficsim/Traffic.java:94-105 | a car outside lanes 1..lanes is never updated |
| `Schedule.SweptElsewhere` | app/src/main/java/trafficsim/Traffic.java:94-105 | a car not in lane L at the start of its sweep is left as it was by that sweep |
| `Schedule.SweptHere` | app/src/main/java/trafficsim/Traffic.java:94-105 | a car in lane L at the start of its sweep is in that sweep's list and ends the sweep in lane L - 1, L or L + 1 |
| `Schedule.RaisedOrUntouched` | app/src/main/java/trafficsim/Traffic.java:94-105 | a car in lane L or above before the sweep of lane L is untouched so far, or was just moved up from lane L - 1 to L by the previous sweep |
| `Schedule.RevisitOnlyAfterMovingUp` | app/src/main/java/trafficsim/Traffic.java:94-105 | a car is updated in a lane other than its starting one only when the sweep just before moved it up into that lane |
| `Schedule.TruncRounds` | app/src/main/java/trafficsim/Traffic.java:90 | the (int) cast rounds toward zero by less than one |
| `Schedule.TickCountSpan` | app/src/main/java/trafficsim/Traffic.java:89-91 | for totalSeconds >= 0 and dt > 0: (ticks - 1) * dt <= totalSeconds < ticks * dt |
| `Schedule.TickCountSamples` | app/src/main/java/trafficsim/Traffic.java:89-91 | 0 s runs one tick, dt runs two ticks, and -dt or less runs none |
| `Schedule.RunEmpty` | app/src/test/java/trafficsim/TrafficTest.java:66-72 | a run over zero cars completes every tick and leaves no cars |
| `Schedule.UpdateKeepsSteady` | app/src/main/java/trafficsim/Traffic.java:104 | one in-place update keeps every car's speed within bounds and only moves the updated car forward, within the road's lanes |
| `Schedule.SweepPrefixKeepsSteady` | app/src/main/java/trafficsim/Traffic.java:101-105 | a partial sweep keeps speed bounds, parameters and lane range, and moves no car backwards |
| `Schedule.SweepsKeepSteady` | app/src/main/java/trafficsim/Traffic.java:94-106 | the same for the sweeps of lanes 1..L-1 |
| `Schedule.TickKeepsSteady` | app/src/main/java/trafficsim/Traffic.java:94-106 | the same for a whole tick |
| `Schedule.RunKeepsSteady` | app/src/main/java/trafficsim/Traffic.java:89-106 | the same for any number of ticks: speeds stay in [0, maxSpeed] and positions never decrease (dt >= 0) |
| `Schedule.LaneOrder` | app/src/main/java/trafficsim/Traffic.java:94-99 | computes a sweep's sorted lane list; `LaneOrderSpec` states its properties |
| `Schedule.Leader` | app/src/main/java/trafficsim/Traffic.java:103 | computes the car passed as ahead: none at index 0, else the car before; `LeaderIsNextAhead` states that it is the next car ahead |
| `Schedule.SweepPrefix` | app/src/main/java/trafficsim/Traffic.java:101-105 | computes the world after the first n passes of the update loop; `SweepPrefixFrame`, `SweepLaneUpdatesOnce` and `UpdateLane` are about it |
| `Schedule.SweepLane` | app/src/main/java/trafficsim/Traffic.java:95-105 | computes one pass of the lane loop; `SweepLaneMoves` and `SweepLaneUpdatesOnce` state its properties and `SweepLaneOf` is proved to compute it |
| `Schedule.WorldBeforeSweep` | app/src/main/java/trafficsim/Traffic.java:94-106 | computes the world after the sweeps of lanes 1..L-1; `NotReachedUntouched`, `FirstVisitAtOwnLane` and `RaisedOrUntouched` are about it |
| `Schedule.Tick` | app/src/main/java/trafficsim/Traffic.java:94-106 | computes one pass of the step loop; `OffRoadUntouched` and `TickKeepsSteady` state its properties and `TickOnce` is proved to compute it |
| `Schedule.Run` | app/src/main/java/trafficsim/Traffic.java:91-106 | computes the world after n ticks; `RunKeepsSteady` and `RunEmpty` state its properties and `RunSim` is proved to compute it |
| `Schedule.Trunc` | app/src/main/java/trafficsim/Traffic.java:90 | computes the (int) cast of a double as truncation toward zero (RunSim excludes the saturated range); `TruncRounds` states its properties |
| `Schedule.TickCount` | app/src/main/java/trafficsim/Traffic.java:90-91 | computes how many passes the step loop makes; `TickCountSpan` and `TickCountSamples` state its properties |
| `Simulation.Traffic.RunSim` | app/src/main/java/trafficsim/Traffic.java:89-106 | the cars end in the state of `Run` over `TickCount(totalSeconds, dt)` ticks of the starting states |
| `Simulation.Traffic.TickOnce` | app/src/main/java/trafficsim/Traffic.java:94-106 | one pass of the step loop leaves the cars in the `Tick` state |
| `Simulation.Traffic.SweepLaneOf` | app/src/main/java/trafficsim/Traffic.java:95-105 | one pass of the lane loop leaves the cars in the `SweepLane` state |
| `Simulation.Traffic.CollectLane` | app/src/main/java/trafficsim/Traffic.java:95-98 | the collection loop yields `LaneMembers`: the cars in the lane, in array order |
| `Simulation.Traffic.UpdateLane` | app/src/main/java/trafficsim/Traffic.java:101-105 | the update loop leaves the cars in the state of the whole sweep over the list |
| `Simulation.Traffic.UpdateAt` | app/src/main/java/trafficsim/Traffic.java:102-104 | one pass of the update loop takes the cars from the world after the sweep's first i updates to the world after i + 1 of them: the car at position i updated with the car before it as leader, no other car changed |
| `Simulation.Traffic.UpdateInPlace` | app/src/main/java/trafficsim/Traffic.java:104 | current.update changes only that car's entry of the road |
| `Aggregates.LaneCounts` | app/src/main/java/trafficsim/Traffic.java:149-151 | computes the per-lane counts of the counting loop when no car is off the road; `CountIsCardinality` and `LaneCountsSumAmong` state its properties |
| `Aggregates.CarsPerLaneOf` | app/src/main/java/trafficsim/Traffic.java:147-153 | computes carsPerLane's result or exception; `CarsPerLaneCounts` states its properties and `CarsPerLane` is proved to compute it |
| `Aggregates.FirstOffRoadAmong` | app/src/main/java/trafficsim/Traffic.java:149-150 | the first car, in array order, whose lane indexes outside 1..Constants.lanes; none means every lane is in range |
| `Aggregates.LaneCountsSumAmong` | app/src/main/java/trafficsim/Traffic.java:149-151 | with every lane in range, the counts of the first n cars sum to n |
| `Aggregates.CountIsCardinality` | app/src/main/java/trafficsim/Traffic.java:149-151 | the running count for lane L is the number of cars below n in lane L |
| `Aggregates.CarsPerLaneCounts` | app/src/main/java/trafficsim/Traffic.java:147-153 | carsPerLane returns a result exactly when Constants.lanes >= 0 and every lane is in 1..Constants.lanes; then entry k - 1 is the number of cars in lane k and the entries sum to cars.length |
| `Simulation.Traffic.CarsPerLane` | app/src/main/java/trafficsim/Traffic.java:147-153 | the method returns a fresh array with `CarsPerLaneOf` of the cars, or the exception Java throws |
| `Simulation.Traffic.TallyLanes` | app/src/main/java/trafficsim/Traffic.java:149-151 | the counting loop stops at the first car off the road, and otherwise fills in the count of every lane |
| `Aggregates.MaxPositionAmong` | app/src/main/java/trafficsim/Traffic.java:141-145 | the result is the position of one of the first n cars and is at least every one of their positions |
| `Aggregates.MaxDistance` | app/src/main/java/trafficsim/Traffic.java:141-145 | none exactly for an empty road; otherwise some car's position that no car's position exceeds |
| `Simulation.Traffic.GetMaxDistance` | app/src/main/java/trafficsim/Traffic.java:141-145 | the same, read from the array of cars |

## Left out

- Floating point: IEEE rounding, NaN, infinities, `-0.0` and `Math.copySign` on
  `-0.0` are not modelled. `double` is `real`, and `Math.min`/`Math.max` are
  modelled for non-NaN values.
- `Simulation.Traffic.RunSim`: requires `dt != 0`. With `dt == 0` Java's division
  gives an infinity or NaN, and the `(int)` cast turns it into a saturated or zero
  step count.
- `Simulation.Traffic.RunSim`: requires `(int) (totalSeconds / dt) < Integer.MAX_VALUE`.
  At `Integer.MAX_VALUE` (the cast saturates), the guard `step <= steps` never fails
  and `step` wraps around, so the Java loop does not terminate. Such runs are
  excluded rather than modelled as a loop that never ends.
- `Simulation.Traffic.RunSim`: requires `lanes < Integer.MAX_VALUE`. At
  `Integer.MAX_VALUE` the lane loop's `laneNum++` wraps to `Integer.MIN_VALUE`,
  which is still `<= lanes`, so Java never leaves the loop. Such runs are
  excluded.
- `Simulation.Traffic.TickOnce`: requires `lanes < Integer.MAX_VALUE`, for the
  same reason.
- `Simulation.Traffic.RunSim`: requires that no `Car` object occurs twice in the
  array (`Valid`). An array holding one object twice would alias two entries; that
  case is not modelled.
- The Traffic constructors, both `initializeCars` overloads and both `startSim`
  factories are not modelled. They draw lanes and positions from `Math.random`
  and call `Car` methods (`assignTraffic`, `setLane`, `getDesiredDistance`) that
  `Car.java` does not define. `Simulation.Traffic.constructor` instead takes an
  already populated array.
- The `visualize` branch of `runSim` is not modelled: console output, ANSI
  codes, `DecimalFormat`, `Thread.sleep` and `currentTime`. Neither are
  `printVisualization`, `colorSymbolFor` and `toString`. All of these are I/O and
  never change a car.
- `getAverageSpeed` and `getAverageDistance` are not modelled. Their only
  behaviour beyond a sum is the NaN result for zero cars, which is
  floating-point semantics.
- The getters (`getLane`, `getSpeed`, `getLength`, `getDistanceFromStart`,
  `getNumLanes`, `getIndexCarDist`) are plain field reads, and the model reads
  the fields directly. `SAFE_LANE_CHANGE_GAP` is never read by the code.
- `simTime` and `visualize` are not modelled as fields, because nothing in the
  core reads them.
- The sorted lane list holds array indices, not `Car` references.
  `ArrayList.sort` with a reversed comparator is modelled as a stable
  insertion sort on positions. Only its result (LaneOrderSpec) matters, not its
  algorithm.
- The `update` and `tryLaneChange` bodies are each split into several methods
  (`FollowLeader`, `TargetSpeedToward`, `Advance`, `EvaluateMove`,
  `IsLaneClear`), and `runSim`'s loops into `TickOnce`, `SweepLaneOf`,
  `CollectLane`, `UpdateLane`, `UpdateAt` and `UpdateInPlace`. Apart from the
  method boundaries, the statements are Java's with three differences:
  `findFrontCar`'s `closestDist` starts at `0.0` instead of `+infinity` (it is
  compared only once a car has been chosen); `update`'s unread initial
  `gap`/`relativeSpeed` values are dropped; and the `for (dir ...)` loop's
  `continue` on an out-of-range lane is the early `return false` of
  `EvaluateMove`.
- Lane-closure merging, closure braking and a collision/overlap resolver are
  not modelled, because the code has none. For the same reason, neither test
  property is stated: that a fast car never passes a slow one, nor that the
  desired gap is kept.
