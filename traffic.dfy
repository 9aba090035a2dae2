/**
 * The Traffic class of Traffic.java: the array of cars, runSim's tick loop
 * that updates them in place, and the carsPerLane and getMaxDistance
 * queries. Each method is proved to compute what the Schedule and
 * Aggregates functions say of the snapshot of the cars.
 */
module Simulation {
  import opened Wrappers
  import opened CarModel
  import opened CarAgent
  import opened Schedule
  import opened Aggregates

  class Traffic {
    /** The lanes runSim sweeps. */
    const lanes: Int32
    const cars: array<Car>
    /** Seconds per tick. */
    const dt: real

    /** A simulation over an already placed array of cars. */
    constructor (lanes: Int32, cars: array<Car>, dt: real)
      ensures this.lanes == lanes && this.cars == cars && this.dt == dt
    {
      this.lanes := lanes;
      this.cars := cars;
      this.dt := dt;
    }

    /** No Car object occurs twice in the array. */
    predicate Valid()
      reads this, cars
    {
      forall i, j :: 0 <= i < j < cars.Length ==> cars[i] != cars[j]
    }

    /** Every entry of s is an index into the array. */
    predicate Indexes(s: seq<nat>) {
      forall k :: 0 <= k < |s| ==> s[k] < cars.Length
    }

    /** The state of every car, in array order. */
    function World(): seq<CarState>
      reads this, cars, cars[..]
    {
      Snap(cars[..])
    }

    /** Each car of a valid array sits at its own index only. */
    lemma CarsAt(k: nat)
      requires Valid() && k < cars.Length
      ensures cars[k].At(cars[..], k)
    {
      forall j | 0 <= j < cars.Length && j != k ensures cars[j] != cars[k] {
        if j < k {
          assert cars[j] != cars[k];
        } else {
          assert cars[k] != cars[j];
        }
      }
    }

    /**
     * runSim: steps + 1 ticks for steps = (int) (totalSeconds / dt); each
     * tick sweeps lanes 1..lanes, each sweep updates the cars then in that
     * lane front to back with the car before as leader. `roadLanes` is
     * Constants.lanes. The int cast saturates, and `step <= steps` never
     * fails for steps = Integer.MAX_VALUE, nor `laneNum <= lanes` for
     * lanes = Integer.MAX_VALUE: such runs are excluded.
     */
    method RunSim(totalSeconds: real, roadLanes: Int32)
      requires Valid() && dt != 0.0
      requires Trunc(totalSeconds / dt) < 0x7fff_ffff && lanes < 0x7fff_ffff
      modifies cars[..]
      ensures World() == Run(old(World()), TickCount(totalSeconds, dt), Config(lanes, roadLanes, dt))
    {
      ghost var w0 := World();
      ghost var cfg := Config(lanes, roadLanes, dt);
      var steps := Trunc(totalSeconds / dt);
      var step := 0;
      while step <= steps
        invariant 0 <= step && (steps < 0 ==> step == 0) && (0 <= steps ==> step <= steps + 1)
        invariant World() == Run(w0, step, cfg)
        decreases steps + 1 - step
      {
        TickOnce(roadLanes);
        NextTick(w0, step, cfg);
        step := step + 1;
      }
    }

    /**
     * One pass of runSim's step loop: the sweeps of lanes 1..lanes in order
     * (for lanes = Integer.MAX_VALUE, `laneNum++` wraps and Java never leaves
     * the loop).
     */
    method TickOnce(roadLanes: Int32)
      requires Valid() && lanes < 0x7fff_ffff
      modifies cars[..]
      ensures World() == Tick(old(World()), Config(lanes, roadLanes, dt))
    {
      ghost var start := World();
      ghost var cfg := Config(lanes, roadLanes, dt);
      var laneNum := 1;
      while laneNum <= lanes
        invariant laneNum == 1 || 1 < laneNum <= lanes + 1
        invariant World() == WorldBeforeSweep(start, laneNum, cfg)
      {
        SweepLaneOf(laneNum, roadLanes);
        NextSweep(start, laneNum, cfg);
        laneNum := laneNum + 1;
      }
      assert laneNum == if lanes < 1 then 1 else lanes + 1;
      TickIsLastSweep(start, cfg);
    }

    /** One sweep of runSim: lane laneNum's cars collected, sorted, and updated in order. */
    method SweepLaneOf(laneNum: int, roadLanes: Int32)
      requires Valid()
      modifies cars[..]
      ensures World() == SweepLane(old(World()), laneNum, Config(lanes, roadLanes, dt))
    {
      var laneCars := CollectLane(laneNum);
      laneCars := SortByPositionDesc(World(), laneCars);
      UpdateLane(laneCars, roadLanes);
    }

    /** The indices of the cars in lane laneNum, in array order. */
    method CollectLane(laneNum: int) returns (laneCars: seq<nat>)
      ensures laneCars == LaneMembers(World(), laneNum)
    {
      ghost var w := World();
      laneCars := [];
      var c := 0;
      while c < cars.Length
        invariant 0 <= c <= cars.Length
        invariant laneCars == LaneMembersAmong(w, laneNum, c)
      {
        if cars[c].lane == laneNum {
          laneCars := laneCars + [c];
        }
        c := c + 1;
      }
    }

    /** The update loop of a sweep: each car of `laneCars` in turn, with the one before it as leader. */
    method UpdateLane(laneCars: seq<nat>, roadLanes: Int32)
      requires Valid() && Indexes(laneCars)
      modifies cars[..]
      ensures World() == SweepPrefix(old(World()), laneCars, |laneCars|, Config(lanes, roadLanes, dt))
    {
      ghost var w := World();
      ghost var cfg := Config(lanes, roadLanes, dt);
      assert InRange(w, laneCars);
      ghost var trace := SweepTrace(w, laneCars, cfg);
      var i := 0;
      while i < |laneCars|
        invariant 0 <= i <= |laneCars|
        invariant World() == trace[i]
      {
        UpdateAt(laneCars, i, roadLanes, w, trace);
        i := i + 1;
      }
    }

    /**
     * The body of the update loop: the car at position i of the lane list,
     * led by the one before it, moves the cars from entry i of the sweep's
     * trace of worlds to entry i + 1.
     */
    method UpdateAt(laneCars: seq<nat>, i: nat, roadLanes: Int32, ghost w: seq<CarState>, ghost trace: seq<seq<CarState>>)
      requires Valid() && Indexes(laneCars) && i < |laneCars| && InRange(w, laneCars)
      requires trace == SweepTrace(w, laneCars, Config(lanes, roadLanes, dt)) && World() == trace[i]
      modifies cars[laneCars[i]]
      ensures World() == trace[i + 1]
    {
      NextUpdate(w, laneCars, i, Config(lanes, roadLanes, dt));
      var self := laneCars[i];
      var current := cars[self];
      var ahead: Car? := if i > 0 then cars[laneCars[i - 1]] else null;
      UpdateInPlace(current, ahead, self, Leader(laneCars, i), roadLanes);
    }

    /** current.update(dt, ahead, cars) seen on the whole array: only car `self` changes. */
    method UpdateInPlace(current: Car, ahead: Car?, ghost self: nat, ghost leader: Option<nat>, roadLanes: Int32)
      requires Valid() && self < cars.Length && cars[self] == current
      requires leader.None? <==> ahead == null
      requires leader.Some? ==> leader.value < cars.Length && cars[leader.value] == ahead
      modifies current
      ensures World() == old(World())[self := UpdateCar(old(World()), self, leader, dt, roadLanes)]
    {
      CarsAt(self);
      ghost var w := World();
      current.Update(dt, ahead, cars, roadLanes, self, leader);
      forall j | 0 <= j < cars.Length && j != self ensures cars[j].State() == w[j] {
        assert cars[j] != current;
      }
    }

    /**
     * carsPerLane: the number of cars in each lane 1..Constants.lanes, or
     * the exception Java throws.
     */
    method CarsPerLane(roadLanes: Int32) returns (r: Result<array<int>, CountError>)
      ensures r.Err? ==> CarsPerLaneOf(World(), roadLanes) == Err(r.error)
      ensures r.Ok? ==> fresh(r.value) && CarsPerLaneOf(World(), roadLanes) == Ok(r.value[..])
    {
      if roadLanes < 0 {
        return Err(NegativeArraySize);
      }
      var counts := new int[roadLanes](_ => 0);
      var bad := TallyLanes(counts);
      if bad.Some? {
        return Err(LaneIndexOutOfBounds(bad.value));
      }
      return Ok(counts);
    }

    /**
     * The counting loop of carsPerLane: each car adds one to the entry of
     * its lane, until the first car whose lane indexes outside `counts`.
     */
    method TallyLanes(counts: array<int>) returns (bad: Option<nat>)
      requires forall k :: 0 <= k < counts.Length ==> counts[k] == 0
      modifies counts
      ensures bad == FirstOffRoadAmong(old(World()), counts.Length, cars.Length)
      ensures bad.None? ==> counts[..] == LaneCounts(old(World()), counts.Length)
    {
      ghost var w := World();
      var i := 0;
      while i < cars.Length
        invariant 0 <= i <= cars.Length
        invariant FirstOffRoadAmong(w, counts.Length, i).None?
        invariant forall k :: 0 <= k < counts.Length ==> counts[k] == CountAmong(w, k + 1, i)
      {
        var lane := cars[i].lane;
        if !(0 <= lane - 1 < counts.Length) {
          CarsPerLaneExits(w, counts.Length, i);
          return Some(i);
        }
        counts[lane - 1] := counts[lane - 1] + 1;
        i := i + 1;
      }
      assert counts[..] == LaneCounts(w, counts.Length);
      return None;
    }

    /** getMaxDistance: the largest position of any car, None for no cars. */
    function GetMaxDistance(): (r: Option<real>)
      reads this, cars, cars[..]
      ensures r.None? <==> cars.Length == 0
      ensures r.Some? ==> (exists i :: 0 <= i < cars.Length && cars[i].distanceFromStart == r.value) &&
                          forall i :: 0 <= i < cars.Length ==> cars[i].distanceFromStart <= r.value
    {
      MaxDistance(World())
    }
  }
}
