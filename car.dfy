/**
 * The Car class of Car.java: a mutable agent whose update changes its lane,
 * speed and position in place, reading the other cars of the shared array.
 * Every method is proved to compute what the matching CarModel function
 * says of a snapshot of the cars taken when the method is called.
 */
module CarAgent {
  import opened Wrappers
  import opened CarModel

  /** Constants.carLengthFt: the length every car is built with. */
  const CarLengthFt: real := 15.0

  /** The field values of every car of `cars`, in order. */
  function Snap(cars: seq<Car>): (w: seq<CarState>)
    reads cars
    ensures |w| == |cars|
    ensures forall i :: 0 <= i < |cars| ==> w[i] == cars[i].State()
  {
    seq(|cars|, i requires 0 <= i < |cars| reads cars => cars[i].State())
  }

  class Car {
    var lane: Int32
    const maxSpeedMPH: real
    const maxAccelMPHSquared: real
    const desiredDistanceFromCarAhead: real
    var distanceFromStart: real
    var currentSpeedMPH: real
    const kP: real
    const kD: real
    const lengthFt: real

    /** A new car stands at position 0 at half its maximum speed. */
    constructor (lane: Int32, maxSpeedMPH: real, maxAccelMPHSquared: real,
                 desiredDistanceFromCarAhead: real, kP: real, kD: real)
      ensures State() == NewCar(lane, maxSpeedMPH, maxAccelMPHSquared, desiredDistanceFromCarAhead,
                                kP, kD, CarLengthFt)
    {
      this.lane := lane;
      this.maxSpeedMPH := maxSpeedMPH;
      this.maxAccelMPHSquared := maxAccelMPHSquared;
      this.desiredDistanceFromCarAhead := desiredDistanceFromCarAhead;
      this.distanceFromStart := 0.0;
      this.currentSpeedMPH := maxSpeedMPH / 2.0;
      this.kP := kP;
      this.kD := kD;
      this.lengthFt := CarLengthFt;
    }

    /** The values of this car's fields. */
    function State(): CarState
      reads this
    {
      CarState(lane, maxSpeedMPH, maxAccelMPHSquared, desiredDistanceFromCarAhead,
               distanceFromStart, currentSpeedMPH, kP, kD, lengthFt)
    }

    /** This car occurs in `cars` exactly once, at index `self`. */
    predicate At(cars: seq<Car>, self: nat) {
      self < |cars| && cars[self] == this &&
      forall j :: 0 <= j < |cars| && j != self ==> cars[j] != this
    }

    method SetDistanceFromStart(distance: real)
      modifies this
      ensures State() == old(State()).(pos := distance)
    {
      distanceFromStart := distance;
    }

    /**
     * findFrontCar: the nearest other car strictly ahead in `laneToCheck`;
     * null when there is none.
     */
    method FindFrontCar(cars: array<Car>, laneToCheck: int, ghost self: nat) returns (closest: Car?)
      requires At(cars[..], self)
      ensures var f := FrontCar(Snap(cars[..]), self, laneToCheck);
              closest == if f.None? then null else cars[f.value]
    {
      ghost var w := Snap(cars[..]);
      closest := null;
      // Java starts closestDist at +infinity; here it is read only once closest is set
      var closestDist := 0.0;
      var i := 0;
      while i < cars.Length
        invariant 0 <= i <= cars.Length
        invariant var f := FrontCarAmong(w, self, laneToCheck, i);
                  (f.None? ==> closest == null) &&
                  (f.Some? ==> closest == cars[f.value] && closestDist == Gap(w, self, f.value))
      {
        var other := cars[i];
        if other != this && other.lane == laneToCheck {
          var gap := other.distanceFromStart - distanceFromStart;
          if gap > 0.0 && (closest == null || gap < closestDist) {
            closestDist := gap;
            closest := other;
          }
        }
        i := i + 1;
      }
    }

    /**
     * tryLaneChange: when the car ahead is close, try one lane to the left,
     * then one to the right, and move to the first that is clear and better.
     * `roadLanes` is the value of Constants.lanes.
     */
    method TryLaneChange(cars: array<Car>, ghost self: nat, roadLanes: Int32)
      requires At(cars[..], self)
      modifies this
      ensures State() == old(State()).(lane := LaneAfterChange(old(Snap(cars[..])), self, roadLanes))
    {
      ghost var w := Snap(cars[..]);
      var frontCar := FindFrontCar(cars, lane, self);
      if frontCar == null || frontCar.distanceFromStart - distanceFromStart > desiredDistanceFromCarAhead * 1.5 {
        return;
      }
      assert WantsLaneChange(w, self);

      var dir := -1;
      while dir <= 1
        invariant dir == -1 || dir == 1 || dir == 3
        invariant State() == w[self] && Snap(cars[..]) == w
        invariant dir >= 1 ==> !AcceptsMove(w, self, -1, roadLanes)
        invariant dir == 3 ==> !AcceptsMove(w, self, 1, roadLanes)
      {
        var accept := EvaluateMove(cars, dir, self, roadLanes);
        if accept {
          lane := AddInt32(lane, dir);
          break;
        }
        dir := dir + 2;
      }
    }

    /**
     * One pass of tryLaneChange's direction loop: the lane `dir` away exists,
     * is clear, and would be faster than staying.
     */
    method EvaluateMove(cars: array<Car>, dir: Int32, ghost self: nat, roadLanes: Int32) returns (accept: bool)
      requires At(cars[..], self)
      ensures accept == AcceptsMove(Snap(cars[..]), self, dir, roadLanes)
    {
      ghost var w := Snap(cars[..]);
      var newLane := AddInt32(lane, dir);
      if !(1 <= newLane <= roadLanes) {
        return false;
      }
      var frontInNewLane := FindFrontCar(cars, newLane, self);
      var frontInCurrentLane := FindFrontCar(cars, lane, self);

      var laneClear := IsLaneClear(cars, newLane, self);

      ghost var fNew, fCur := FrontCar(w, self, newLane), FrontCar(w, self, lane);
      var wouldBeFaster := false;
      if laneClear {
        if frontInCurrentLane == null {
          wouldBeFaster := false;  // no car ahead in the current lane, so no benefit
        } else if frontInNewLane == null {
          wouldBeFaster := true;   // no car ahead in the new lane
        } else {
          var gapCurrent := frontInCurrentLane.distanceFromStart - distanceFromStart;
          var gapNew := frontInNewLane.distanceFromStart - distanceFromStart;
          var speedCurrent := frontInCurrentLane.currentSpeedMPH;
          var speedNew := frontInNewLane.currentSpeedMPH;
          wouldBeFaster := (gapNew > gapCurrent + 5.0) || (speedNew > speedCurrent + 2.0);
        }
      }
      assert laneClear ==> wouldBeFaster == WouldBeFaster(w, self, fNew, fCur);
      accept := laneClear && wouldBeFaster;
    }

    /**
     * The clearance loop of tryLaneChange: every other car in `newLane` that
     * is ahead leaves at least half the desired distance in front of this
     * car's bumper, and every one level or behind leaves as much behind it.
     */
    method IsLaneClear(cars: array<Car>, newLane: int, ghost self: nat) returns (laneClear: bool)
      requires At(cars[..], self)
      ensures laneClear == LaneClear(Snap(cars[..]), self, newLane)
    {
      ghost var w := Snap(cars[..]);
      laneClear := true;
      var minGapBehind := desiredDistanceFromCarAhead / 2.0;
      var minGapAhead := desiredDistanceFromCarAhead / 2.0;
      var i := 0;
      while i < cars.Length
        invariant 0 <= i <= cars.Length
        invariant laneClear
        invariant forall j :: 0 <= j < i && j != self && w[j].lane == newLane ==> LeavesRoom(w, self, j)
      {
        var other := cars[i];
        if other != this && other.lane == newLane {
          var gap := other.distanceFromStart - distanceFromStart;
          if gap > 0.0 {
            // the other car is ahead in the new lane
            var distAhead := (other.distanceFromStart - other.lengthFt / 2.0) - (distanceFromStart + lengthFt / 2.0);
            if distAhead < minGapAhead {
              laneClear := false;
              break;
            }
          } else {
            // the other car is level with or behind this one in the new lane
            var distBehind := (distanceFromStart - lengthFt / 2.0) - (other.distanceFromStart + other.lengthFt / 2.0);
            if distBehind < minGapBehind {
              laneClear := false;
              break;
            }
          }
        }
        i := i + 1;
      }
    }

    /**
     * update: the lane change, then the PD target speed toward the leader
     * `carAhead` (null for none), then the acceleration-limited speed step
     * and the position step. `ahead` is carAhead's index in allCars.
     */
    method Update(dt: real, carAhead: Car?, allCars: array<Car>, roadLanes: Int32,
                  ghost self: nat, ghost ahead: Option<nat>)
      requires At(allCars[..], self)
      requires ahead.None? <==> carAhead == null
      requires ahead.Some? ==> ahead.value < allCars.Length && allCars[ahead.value] == carAhead
      modifies this
      ensures State() == UpdateCar(old(Snap(allCars[..])), self, ahead, dt, roadLanes)
    {
      ghost var w := Snap(allCars[..]);
      TryLaneChange(allCars, self, roadLanes);
      ghost var me := State();
      ghost var leader := if carAhead == null then None else Some(carAhead.State());
      assert UpdateCar(w, self, ahead, dt, roadLanes) == Drive(me, leader, dt) by {
        assert me == w[self].(lane := LaneAfterChange(w, self, roadLanes));
        assert leader == LeaderState(w, self, me, ahead);
      }
      FollowLeader(dt, carAhead);
    }

    /**
     * The rest of update, after the lane change: the PD target speed toward
     * `carAhead` when it is in this car's lane, the acceleration limit, and
     * the position step.
     */
    method FollowLeader(dt: real, carAhead: Car?)
      modifies this
      ensures State() == Drive(old(State()), if carAhead == null then None else Some(old(carAhead.State())), dt)
    {
      var targetSpeed := TargetSpeedToward(carAhead);
      Advance(targetSpeed, dt);
    }

    /**
     * The motion step of update: the speed moves toward `targetSpeed` by at
     * most maxAccelMPHSquared * dt, then the position advances by the new
     * speed, converted from mph to ft/s, over dt seconds.
     */
    method Advance(targetSpeed: real, dt: real)
      modifies this
      ensures State() == Integrate(old(State()), targetSpeed, dt)
    {
      var speedDiff := targetSpeed - currentSpeedMPH;
      var maxDelta := maxAccelMPHSquared * dt;
      if Abs(speedDiff) > maxDelta {
        speedDiff := CopySign(maxDelta, speedDiff);
      }
      currentSpeedMPH := currentSpeedMPH + speedDiff;

      var feetPerHour := currentSpeedMPH * 5280.0;
      var feetPerSecond := feetPerHour / 3600.0;
      distanceFromStart := distanceFromStart + feetPerSecond * dt;
    }

    /**
     * The target speed of update: the maximum speed, unless `carAhead` is
     * in this car's lane, when it is the PD controller's output clamped to
     * [0, maxSpeedMPH].
     */
    method TargetSpeedToward(carAhead: Car?) returns (targetSpeed: real)
      ensures targetSpeed == TargetSpeed(State(), if carAhead == null then None else Some(carAhead.State()))
    {
      targetSpeed := maxSpeedMPH;
      // Java's gap and relativeSpeed start as Double.MAX_VALUE and 0 and are only read in this branch
      if carAhead != null && carAhead.lane == lane {
        var gap := (carAhead.distanceFromStart - carAhead.lengthFt / 2.0) - (distanceFromStart + lengthFt / 2.0);
        var relativeSpeed := carAhead.currentSpeedMPH - currentSpeedMPH;
        var error := gap - desiredDistanceFromCarAhead;
        var derivative := relativeSpeed;
        var speedAdjustment := kP * error + kD * derivative;
        targetSpeed := currentSpeedMPH + speedAdjustment;
        targetSpeed := Min(maxSpeedMPH, Max(0.0, targetSpeed));
      }
    }
  }
}
