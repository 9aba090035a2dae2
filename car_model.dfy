/**
 * The decision logic of one car (Car.java) as functions over a snapshot of
 * the road: a world is the sequence of all cars' field values, and a car is
 * identified by its index in that sequence (Java compares references).
 */
module CarModel {
  import opened Wrappers

  /** Java's `int`: the 32-bit two's-complement range. */
  type Int32 = x: int | -0x8000_0000 <= x <= 0x7fff_ffff

  /**
   * Java's `int` addition: the one value of the 32-bit range that is equal
   * to the mathematical sum modulo 2^32. It is the sum itself whenever the
   * sum is in range.
   */
  function AddInt32(a: Int32, b: Int32): (r: Int32)
    ensures (r - (a + b)) % 0x1_0000_0000 == 0
    ensures -0x8000_0000 <= a + b <= 0x7fff_ffff ==> r == a + b
  {
    if a + b < -0x8000_0000 then a + b + 0x1_0000_0000
    else if a + b > 0x7fff_ffff then a + b - 0x1_0000_0000
    else a + b
  }

  /** The values of one Car object's fields. */
  datatype CarState = CarState(
    lane: Int32,
    maxSpeed: real,   // maxSpeedMPH
    maxAccel: real,   // maxAccelMPHSquared
    desired: real,    // desiredDistanceFromCarAhead, in feet
    pos: real,        // distanceFromStart, in feet (the car's centre)
    speed: real,      // currentSpeedMPH
    kP: real,
    kD: real,
    length: real)     // lengthFt

  /** The fields that update never writes are the same in both states. */
  predicate SameParameters(a: CarState, b: CarState) {
    a.maxSpeed == b.maxSpeed && a.maxAccel == b.maxAccel && a.desired == b.desired &&
    a.kP == b.kP && a.kD == b.kD && a.length == b.length
  }

  /** The speed invariant of a car: 0 <= speed <= maxSpeed. */
  predicate SpeedInBounds(c: CarState) {
    0.0 <= c.speed <= c.maxSpeed
  }

  /**
   * The state the Car constructor builds: at position 0 and half its
   * maximum speed, which is within bounds exactly when that maximum is not
   * negative.
   */
  function NewCar(lane: Int32, maxSpeed: real, maxAccel: real, desired: real,
                  kP: real, kD: real, length: real): (c: CarState)
    ensures c.lane == lane && c.pos == 0.0
    ensures SpeedInBounds(c) <==> 0.0 <= maxSpeed
  {
    CarState(lane, maxSpeed, maxAccel, desired, 0.0, maxSpeed / 2.0, kP, kD, length)
  }

  function Abs(x: real): real { if x < 0.0 then -x else x }

  /** Math.min and Math.max on values that are not NaN. */
  function Min(a: real, b: real): real { if a <= b then a else b }
  function Max(a: real, b: real): real { if a >= b then a else b }

  /** Math.copySign: the magnitude of the first argument with the sign of the second. */
  function CopySign(magnitude: real, sign: real): (r: real)
    ensures Abs(r) == Abs(magnitude)
    ensures sign < 0.0 ==> r <= 0.0
    ensures sign >= 0.0 ==> r >= 0.0
  {
    if sign < 0.0 then -Abs(magnitude) else Abs(magnitude)
  }

  // ---------------------------------------------------------------------
  // findFrontCar
  // ---------------------------------------------------------------------

  /** Centre-to-centre distance from car `self` forward to car `j`. */
  function Gap(w: seq<CarState>, self: nat, j: nat): real
    requires self < |w| && j < |w|
  {
    w[j].pos - w[self].pos
  }

  /** Car `j` is another car than `self`, in lane `lane`, strictly ahead of `self`. */
  predicate IsAheadIn(w: seq<CarState>, self: nat, lane: int, j: nat)
    requires self < |w| && j < |w|
  {
    j != self && w[j].lane == lane && Gap(w, self, j) > 0.0
  }

  /**
   * The car findFrontCar has chosen after looking at the first `n` cars: a
   * later car replaces the current choice only when it is strictly nearer.
   */
  function FrontCarAmong(w: seq<CarState>, self: nat, lane: int, n: nat): (r: Option<nat>)
    requires self < |w| && n <= |w|
    ensures r.Some? ==> r.value < n && IsAheadIn(w, self, lane, r.value)
  {
    if n == 0 then None
    else
      var best := FrontCarAmong(w, self, lane, n - 1);
      var j := n - 1;
      if IsAheadIn(w, self, lane, j) && (best.None? || Gap(w, self, j) < Gap(w, self, best.value))
      then Some(j)
      else best
  }

  /** The choice among the first `n` cars is a nearest car ahead, the earliest of the nearest ones. */
  lemma {:induction false} FrontCarAmongIsNearest(w: seq<CarState>, self: nat, lane: int, n: nat)
    requires self < |w| && n <= |w|
    ensures FrontCarAmong(w, self, lane, n).None? <==>
              forall j :: 0 <= j < n ==> !IsAheadIn(w, self, lane, j)
    ensures var r := FrontCarAmong(w, self, lane, n);
            r.Some? ==>
              (forall j :: 0 <= j < n && IsAheadIn(w, self, lane, j) ==> Gap(w, self, r.value) <= Gap(w, self, j)) &&
              (forall j :: 0 <= j < r.value && IsAheadIn(w, self, lane, j) ==> Gap(w, self, r.value) < Gap(w, self, j))
  {
    if n > 0 {
      FrontCarAmongIsNearest(w, self, lane, n - 1);
    }
  }

  /**
   * findFrontCar(cars, lane): the car findFrontCar returns for `self`, None
   * for Java null; FrontCarIsNearest says which car that is.
   */
  function FrontCar(w: seq<CarState>, self: nat, lane: int): (r: Option<nat>)
    requires self < |w|
    ensures r.Some? ==> r.value < |w| && IsAheadIn(w, self, lane, r.value)
  {
    FrontCarAmong(w, self, lane, |w|)
  }

  /**
   * findFrontCar returns null exactly when no other car is strictly ahead in
   * the lane; otherwise a car strictly ahead that no other such car is
   * nearer than, and the earliest in array order among equally near ones.
   */
  lemma FrontCarIsNearest(w: seq<CarState>, self: nat, lane: int)
    requires self < |w|
    ensures FrontCar(w, self, lane).None? <==> forall j :: 0 <= j < |w| ==> !IsAheadIn(w, self, lane, j)
    ensures var r := FrontCar(w, self, lane);
            r.Some? ==>
              (forall j :: 0 <= j < |w| && IsAheadIn(w, self, lane, j) ==> Gap(w, self, r.value) <= Gap(w, self, j)) &&
              (forall j :: 0 <= j < r.value && IsAheadIn(w, self, lane, j) ==> Gap(w, self, r.value) < Gap(w, self, j))
  {
    FrontCarAmongIsNearest(w, self, lane, |w|);
  }

  // ---------------------------------------------------------------------
  // tryLaneChange
  // ---------------------------------------------------------------------

  /** Bumper-to-bumper distance from the front of `self` to the back of `j`. */
  function ClearanceAhead(w: seq<CarState>, self: nat, j: nat): real
    requires self < |w| && j < |w|
  {
    (w[j].pos - w[j].length / 2.0) - (w[self].pos + w[self].length / 2.0)
  }

  /** Bumper-to-bumper distance from the front of `j` to the back of `self`. */
  function ClearanceBehind(w: seq<CarState>, self: nat, j: nat): real
    requires self < |w| && j < |w|
  {
    (w[self].pos - w[self].length / 2.0) - (w[j].pos + w[j].length / 2.0)
  }

  /**
   * Car `j` leaves `self` half of its desired distance on the side it lies
   * on: ahead when strictly further along, behind otherwise.
   */
  predicate LeavesRoom(w: seq<CarState>, self: nat, j: nat)
    requires self < |w| && j < |w|
  {
    if Gap(w, self, j) > 0.0
    then ClearanceAhead(w, self, j) >= w[self].desired / 2.0
    else ClearanceBehind(w, self, j) >= w[self].desired / 2.0
  }

  /** Every other car in `newLane` leaves `self` room to move in. */
  predicate LaneClear(w: seq<CarState>, self: nat, newLane: int)
    requires self < |w|
  {
    forall j :: 0 <= j < |w| && j != self && w[j].lane == newLane ==> LeavesRoom(w, self, j)
  }

  /**
   * The benefit rule: no benefit without a car ahead in the current lane,
   * full benefit with no car ahead in the new lane, otherwise the new lane's
   * leader is more than 5 ft further ahead or more than 2 mph faster.
   */
  predicate WouldBeFaster(w: seq<CarState>, self: nat, frontNew: Option<nat>, frontCur: Option<nat>)
    requires self < |w|
    requires frontNew.Some? ==> frontNew.value < |w|
    requires frontCur.Some? ==> frontCur.value < |w|
  {
    if frontCur.None? then false
    else if frontNew.None? then true
    else Gap(w, self, frontNew.value) > Gap(w, self, frontCur.value) + 5.0 ||
         w[frontNew.value].speed > w[frontCur.value].speed + 2.0
  }

  /**
   * Moving `dir` lanes (-1 or +1) would be committed by one pass of the
   * direction loop; the new lane is the 32-bit sum `lane + dir`.
   */
  predicate AcceptsMove(w: seq<CarState>, self: nat, dir: Int32, roadLanes: Int32)
    requires self < |w|
  {
    var newLane := AddInt32(w[self].lane, dir);
    1 <= newLane <= roadLanes &&
    LaneClear(w, self, newLane) &&
    WouldBeFaster(w, self, FrontCar(w, self, newLane), FrontCar(w, self, w[self].lane))
  }

  /** The trigger: there is a car ahead in the own lane, no further than 1.5 desired distances. */
  predicate WantsLaneChange(w: seq<CarState>, self: nat)
    requires self < |w|
  {
    var f := FrontCar(w, self, w[self].lane);
    f.Some? && Gap(w, self, f.value) <= w[self].desired * 1.5
  }

  /**
   * The lane of car `self` after tryLaneChange; `roadLanes` is the value of
   * Constants.lanes. LaneChangeRules states what it guarantees.
   */
  function LaneAfterChange(w: seq<CarState>, self: nat, roadLanes: Int32): Int32
    requires self < |w|
  {
    var lane := w[self].lane;
    if !WantsLaneChange(w, self) then lane
    else if AcceptsMove(w, self, -1, roadLanes) then AddInt32(lane, -1)
    else if AcceptsMove(w, self, 1, roadLanes) then AddInt32(lane, 1)
    else lane
  }

  /** What tryLaneChange guarantees of the lane it leaves the car in. */
  lemma LaneChangeRules(w: seq<CarState>, self: nat, roadLanes: Int32)
    requires self < |w|
    // the lane stays when the own lane has no car ahead, or it is further than 1.5 desired distances
    ensures (var f := FrontCar(w, self, w[self].lane);
             f.None? || Gap(w, self, f.value) > w[self].desired * 1.5) ==>
              LaneAfterChange(w, self, roadLanes) == w[self].lane
    // a change is by exactly one lane, to a lane of the road, except that
    // Integer.MIN_VALUE - 1 wraps to Integer.MAX_VALUE, a lane of the road
    // only when Constants.lanes is Integer.MAX_VALUE
    ensures var r := LaneAfterChange(w, self, roadLanes);
            r == w[self].lane || r == w[self].lane - 1 || r == w[self].lane + 1 ||
            (w[self].lane == -0x8000_0000 && r == 0x7fff_ffff && roadLanes == 0x7fff_ffff)
    ensures var r := LaneAfterChange(w, self, roadLanes);
            r != w[self].lane ==> 1 <= r <= roadLanes
    // a committed change leaves room to every other car of the target lane
    ensures var r := LaneAfterChange(w, self, roadLanes);
            r != w[self].lane ==>
              forall j :: 0 <= j < |w| && j != self && w[j].lane == r ==>
                (w[j].pos > w[self].pos ==> ClearanceAhead(w, self, j) >= w[self].desired / 2.0) &&
                (w[j].pos <= w[self].pos ==> ClearanceBehind(w, self, j) >= w[self].desired / 2.0)
    // ... and is worth it under the benefit rule
    ensures var r := LaneAfterChange(w, self, roadLanes);
            r != w[self].lane ==>
              var cur, nxt := FrontCar(w, self, w[self].lane), FrontCar(w, self, r);
              cur.Some? &&
              (nxt.None? ||
               Gap(w, self, nxt.value) > Gap(w, self, cur.value) + 5.0 ||
               w[nxt.value].speed > w[cur.value].speed + 2.0)
    // left is tried first, the first accepted direction wins, and an accepted direction is taken
    ensures WantsLaneChange(w, self) && AcceptsMove(w, self, -1, roadLanes) ==>
              LaneAfterChange(w, self, roadLanes) == AddInt32(w[self].lane, -1)
    ensures LaneAfterChange(w, self, roadLanes) == AddInt32(w[self].lane, 1) ==>
              !AcceptsMove(w, self, -1, roadLanes) && AcceptsMove(w, self, 1, roadLanes)
    ensures WantsLaneChange(w, self) && AcceptsMove(w, self, 1, roadLanes) ==>
              LaneAfterChange(w, self, roadLanes) != w[self].lane
  {
    var r := LaneAfterChange(w, self, roadLanes);
    if r != w[self].lane {
      assert LaneClear(w, self, r);
      forall j | 0 <= j < |w| && j != self && w[j].lane == r
        ensures (w[j].pos > w[self].pos ==> ClearanceAhead(w, self, j) >= w[self].desired / 2.0) &&
                (w[j].pos <= w[self].pos ==> ClearanceBehind(w, self, j) >= w[self].desired / 2.0)
      {
        assert LeavesRoom(w, self, j);
      }
    }
  }

  /**
   * The one lane move that is not by one lane: a car in lane
   * Integer.MIN_VALUE, close behind another car, on a road of
   * Integer.MAX_VALUE lanes, moves left into the empty lane
   * Integer.MAX_VALUE, because `lane + dir` wraps.
   */
  lemma LaneWrapsAtMinValue()
    ensures var a := CarState(-0x8000_0000, 60.0, 10.0, 10.0, 0.0, 30.0, 0.5, 0.5, 15.0);
            LaneAfterChange([a, a.(pos := 10.0)], 0, 0x7fff_ffff) == 0x7fff_ffff
  {
  }

  // ---------------------------------------------------------------------
  // update: PD target speed, acceleration limit, position
  // ---------------------------------------------------------------------

  /** Bumper-to-bumper gap from the follower's front to the leader's back. */
  function GapToLeader(me: CarState, leader: CarState): real {
    (leader.pos - leader.length / 2.0) - (me.pos + me.length / 2.0)
  }

  /** The PD controller's unclamped target: speed + kP * gap error + kD * relative speed. */
  function PdTarget(me: CarState, leader: CarState): real {
    me.speed + (me.kP * (GapToLeader(me, leader) - me.desired) + me.kD * (leader.speed - me.speed))
  }

  /** Math.min(maxSpeed, Math.max(0, x)). */
  function ClampSpeed(x: real, maxSpeed: real): real {
    Min(maxSpeed, Max(0.0, x))
  }

  /**
   * The target speed of update: the car's maximum speed without a leader
   * in its (possibly new) lane, otherwise the clamped PD target.
   */
  function TargetSpeed(me: CarState, leader: Option<CarState>): real {
    if leader.None? || leader.value.lane != me.lane then me.maxSpeed
    else ClampSpeed(PdTarget(me, leader.value), me.maxSpeed)
  }

  /**
   * The target is the maximum speed without a leader in the same lane;
   * otherwise the PD target cut to [0, maxSpeed]; it never leaves
   * [0, maxSpeed] when maxSpeed is not negative.
   */
  lemma TargetSpeedRules(me: CarState, leader: Option<CarState>)
    ensures (leader.None? || leader.value.lane != me.lane) ==> TargetSpeed(me, leader) == me.maxSpeed
    ensures 0.0 <= me.maxSpeed ==> 0.0 <= TargetSpeed(me, leader) <= me.maxSpeed
    ensures leader.Some? && leader.value.lane == me.lane ==>
              var x, r := PdTarget(me, leader.value), TargetSpeed(me, leader);
              (0.0 <= x <= me.maxSpeed ==> r == x) &&
              (x > me.maxSpeed ==> r == me.maxSpeed) &&
              (x < 0.0 && 0.0 <= me.maxSpeed ==> r == 0.0)
  {
  }

  /**
   * The acceleration-limited speed step: move toward `target`, but by no
   * more than `maxDelta` (update passes maxAccel * dt).
   */
  function SpeedAfterStep(speed: real, target: real, maxDelta: real): real {
    var speedDiff := target - speed;
    if Abs(speedDiff) > maxDelta then speed + CopySign(maxDelta, speedDiff)
    else speed + speedDiff
  }

  /**
   * The step reaches the target when it is within maxDelta, and otherwise
   * moves by exactly |maxDelta|; with a non-negative maxDelta it moves
   * toward the target by at most maxDelta and never overshoots. (A negative
   * maxDelta makes every step one of size |maxDelta|, as Math.copySign does.)
   */
  lemma SpeedStepRules(speed: real, target: real, maxDelta: real)
    ensures Abs(target - speed) <= maxDelta ==> SpeedAfterStep(speed, target, maxDelta) == target
    ensures var r := SpeedAfterStep(speed, target, maxDelta);
            Abs(target - speed) > maxDelta ==>
              Abs(r - speed) == Abs(maxDelta) &&
              (target < speed ==> r <= speed) && (speed <= target ==> speed <= r)
    ensures var r := SpeedAfterStep(speed, target, maxDelta);
            maxDelta >= 0.0 ==>
              Abs(r - speed) <= maxDelta &&
              (speed <= target ==> speed <= r <= target) &&
              (target <= speed ==> target <= r <= speed)
  {
  }

  /** Miles per hour to feet per second, as in update: speed * 5280 / 3600. */
  function FeetPerSecond(mph: real): real {
    mph * 5280.0 / 3600.0
  }

  /** The leader's state as update reads it: a leader that is `self` itself already has its new lane. */
  function LeaderState(w: seq<CarState>, self: nat, me: CarState, ahead: Option<nat>): Option<CarState>
    requires self < |w| && (ahead.Some? ==> ahead.value < |w|)
  {
    if ahead.None? then None
    else if ahead.value == self then Some(me)
    else Some(w[ahead.value])
  }

  /**
   * Car.update(dt, carAhead, allCars) for car `self`, with `ahead` the index
   * of carAhead (None for null): lane change, then target speed, then the
   * speed step, then the position step.
   */
  function UpdateCar(w: seq<CarState>, self: nat, ahead: Option<nat>, dt: real, roadLanes: Int32): CarState
    requires self < |w| && (ahead.Some? ==> ahead.value < |w|)
  {
    var me := w[self].(lane := LaneAfterChange(w, self, roadLanes));
    Drive(me, LeaderState(w, self, me, ahead), dt)
  }

  /**
   * The part of update after the lane change: the target speed toward
   * `leader`, the speed step and the position step of car `me`.
   */
  function Drive(me: CarState, leader: Option<CarState>, dt: real): CarState {
    Integrate(me, TargetSpeed(me, leader), dt)
  }

  /**
   * The motion step of update: the speed moves toward `target` by at most
   * maxAccel * dt, then the position advances by the new speed over dt.
   */
  function Integrate(me: CarState, target: real, dt: real): CarState {
    var v := SpeedAfterStep(me.speed, target, me.maxAccel * dt);
    me.(speed := v, pos := me.pos + FeetPerSecond(v) * dt)
  }

  /**
   * update writes only the lane, the speed and the position; the lane is
   * the one tryLaneChange chose, and the position grows by exactly
   * speed * 5280/3600 * dt at the new speed.
   */
  lemma UpdateCarChanges(w: seq<CarState>, self: nat, ahead: Option<nat>, dt: real, roadLanes: Int32)
    requires self < |w| && (ahead.Some? ==> ahead.value < |w|)
    ensures var c := UpdateCar(w, self, ahead, dt, roadLanes);
            SameParameters(c, w[self]) &&
            c.lane == LaneAfterChange(w, self, roadLanes) &&
            c.pos == w[self].pos + c.speed * 5280.0 / 3600.0 * dt
  {
  }

  /**
   * The motion step changes the speed by at most maxAccel * dt; a car whose
   * speed and target are both within [0, maxSpeed] stays within it and does
   * not move backwards.
   */
  lemma IntegrateBounds(me: CarState, target: real, dt: real)
    requires 0.0 <= dt && 0.0 <= me.maxAccel
    ensures Abs(Integrate(me, target, dt).speed - me.speed) <= me.maxAccel * dt
    ensures SpeedInBounds(me) && 0.0 <= target <= me.maxSpeed ==>
              SpeedInBounds(Integrate(me, target, dt)) && me.pos <= Integrate(me, target, dt).pos
  {
    var maxDelta := me.maxAccel * dt;
    var v := SpeedAfterStep(me.speed, target, maxDelta);
    var c := Integrate(me, target, dt);
    assert c.speed == v && c.pos == me.pos + FeetPerSecond(v) * dt;
    assert Abs(v - me.speed) <= maxDelta by {
      ProductNonNegative(me.maxAccel, dt);
      SpeedStepRules(me.speed, target, maxDelta);
    }
    if SpeedInBounds(me) && 0.0 <= target <= me.maxSpeed {
      assert 0.0 <= v <= me.maxSpeed by {
        ProductNonNegative(me.maxAccel, dt);
        SpeedStepRules(me.speed, target, maxDelta);
      }
      ProductNonNegative(FeetPerSecond(v), dt);
    }
  }

  lemma ProductNonNegative(a: real, b: real)
    requires 0.0 <= a && 0.0 <= b
    ensures 0.0 <= a * b
  {
  }

  /**
   * The speed change of one drive step is bounded by maxAccel * dt, a car
   * whose speed is within [0, maxSpeed] keeps it there, and it does not
   * move backwards.
   */
  lemma DriveBounds(me: CarState, leader: Option<CarState>, dt: real)
    requires 0.0 <= dt && 0.0 <= me.maxAccel
    ensures Abs(Drive(me, leader, dt).speed - me.speed) <= me.maxAccel * dt
    ensures SpeedInBounds(me) ==> SpeedInBounds(Drive(me, leader, dt)) && me.pos <= Drive(me, leader, dt).pos
  {
    TargetSpeedRules(me, leader);
    IntegrateBounds(me, TargetSpeed(me, leader), dt);
  }

  /**
   * The speed change of one update is bounded by maxAccel * dt, a car whose
   * speed is within [0, maxSpeed] keeps it there, and it does not move
   * backwards.
   */
  lemma UpdateCarBounds(w: seq<CarState>, self: nat, ahead: Option<nat>, dt: real, roadLanes: Int32)
    requires self < |w| && (ahead.Some? ==> ahead.value < |w|)
    requires 0.0 <= dt && 0.0 <= w[self].maxAccel
    ensures var c := UpdateCar(w, self, ahead, dt, roadLanes);
            Abs(c.speed - w[self].speed) <= w[self].maxAccel * dt
    ensures var c := UpdateCar(w, self, ahead, dt, roadLanes);
            SpeedInBounds(w[self]) ==> SpeedInBounds(c) && w[self].pos <= c.pos
  {
    var me := w[self].(lane := LaneAfterChange(w, self, roadLanes));
    DriveBounds(me, LeaderState(w, self, me, ahead), dt);
  }

  /** A car alone on the road drives at a target of its maximum speed and moves by speed * 5280/3600 * dt. */
  lemma LoneCarAdvances(c: CarState, dt: real, roadLanes: Int32)
    ensures var u := UpdateCar([c], 0, None, dt, roadLanes);
            u.lane == c.lane &&
            u.speed == SpeedAfterStep(c.speed, c.maxSpeed, c.maxAccel * dt) &&
            u.pos == c.pos + u.speed * 5280.0 / 3600.0 * dt
  {
    assert FrontCar([c], 0, c.lane).None?;
  }
}
