/**
 * The tick scheduler of Traffic.runSim, as functions on a world of car
 * states (a car is its index in the array). A tick sweeps lanes 1..lanes in
 * order; each sweep takes the cars in its lane at the start of the sweep,
 * sorts them by descending position with a stable sort (ties keep array
 * order), and updates each one in place with the car before it in that
 * order as its leader.
 */
module Schedule {
  import opened Wrappers
  import opened CarModel

  /**
   * `lanes` is Traffic.lanes (the lanes runSim sweeps), `roadLanes` is
   * Constants.lanes (the lanes tryLaneChange may move to), `dt` the tick.
   */
  datatype Config = Config(lanes: Int32, roadLanes: Int32, dt: real)

  /** Every index of `s` names a car of `w`. */
  predicate InRange(w: seq<CarState>, s: seq<nat>) {
    forall k :: 0 <= k < |s| ==> s[k] < |w|
  }

  predicate Increasing(s: seq<nat>) {
    forall i, j :: 0 <= i < j < |s| ==> s[i] < s[j]
  }

  // ---------------------------------------------------------------------
  // The lane list of one sweep

  /** The cars with index below n that are in lane L, in array order. */
  function LaneMembersAmong(w: seq<CarState>, L: int, n: nat): (r: seq<nat>)
    requires n <= |w|
    ensures forall k :: 0 <= k < |r| ==> r[k] < n && w[r[k]].lane == L
    ensures forall i :: 0 <= i < n && w[i].lane == L ==> i in r
    ensures Increasing(r)
  {
    if n == 0 then []
    else LaneMembersAmong(w, L, n - 1) + (if w[n - 1].lane == L then [n - 1] else [])
  }

  /** The list runSim builds for lane L: every car in lane L, in array order. */
  function LaneMembers(w: seq<CarState>, L: int): seq<nat> {
    LaneMembersAmong(w, L, |w|)
  }

  /**
   * Car a comes before car b in a lane list sorted by descending position:
   * further along, or level and earlier in the array (the sort is stable).
   */
  predicate Precedes(w: seq<CarState>, a: nat, b: nat)
    requires a < |w| && b < |w|
  {
    w[a].pos > w[b].pos || (w[a].pos == w[b].pos && a < b)
  }

  predicate SortedByPrecedes(w: seq<CarState>, s: seq<nat>)
    requires InRange(w, s)
  {
    forall i, j :: 0 <= i < j < |s| ==> Precedes(w, s[i], s[j])
  }

  /** Put x in front of the first car of `s` that is strictly behind it. */
  function Insert(w: seq<CarState>, x: nat, s: seq<nat>): (r: seq<nat>)
    requires x < |w| && InRange(w, s)
    ensures InRange(w, r) && multiset(r) == multiset(s) + multiset{x}
  {
    if s == [] then [x]
    else if w[s[0]].pos < w[x].pos then [x] + s
    else
      assert s == [s[0]] + s[1..];
      [s[0]] + Insert(w, x, s[1..])
  }

  /**
   * laneCars.sort(comparingDouble(getDistanceFromStart).reversed()): a
   * stable sort by descending position, here an insertion sort.
   */
  function SortByPositionDesc(w: seq<CarState>, s: seq<nat>): (r: seq<nat>)
    requires InRange(w, s)
    ensures InRange(w, r) && multiset(r) == multiset(s)
  {
    if s == [] then []
    else
      assert s == s[..|s| - 1] + [s[|s| - 1]];
      Insert(w, s[|s| - 1], SortByPositionDesc(w, s[..|s| - 1]))
  }

  lemma PrecedesTransitive(w: seq<CarState>, a: nat, b: nat, c: nat)
    requires a < |w| && b < |w| && c < |w|
    requires Precedes(w, a, b) && Precedes(w, b, c)
    ensures Precedes(w, a, c)
  {
  }

  /** A car that precedes the head of a sorted list can be put in front of it. */
  lemma PrependSorted(w: seq<CarState>, x: nat, s: seq<nat>)
    requires x < |w| && InRange(w, s) && SortedByPrecedes(w, s)
    requires s != [] ==> Precedes(w, x, s[0])
    ensures SortedByPrecedes(w, [x] + s)
  {
    var r := [x] + s;
    forall i, j | 0 <= i < j < |r| ensures Precedes(w, r[i], r[j]) {
      if i == 0 {
        if j > 1 {
          PrecedesTransitive(w, x, s[0], s[j - 1]);
        }
      } else {
        assert r[i] == s[i - 1] && r[j] == s[j - 1];
      }
    }
  }

  /** Inserting a car with a higher index than all of a sorted list keeps it sorted. */
  lemma {:induction false} InsertSorted(w: seq<CarState>, x: nat, s: seq<nat>)
    requires x < |w| && InRange(w, s) && SortedByPrecedes(w, s)
    requires forall k :: 0 <= k < |s| ==> s[k] < x
    ensures SortedByPrecedes(w, Insert(w, x, s))
  {
    if s == [] {
    } else if w[s[0]].pos < w[x].pos {
      PrependSorted(w, x, s);
    } else {
      var t := s[1..];
      assert SortedByPrecedes(w, t) by {
        forall i, j | 0 <= i < j < |t| ensures Precedes(w, t[i], t[j]) {
          assert t[i] == s[i + 1] && t[j] == s[j + 1];
        }
      }
      InsertSorted(w, x, t);
      var rt := Insert(w, x, t);
      assert rt != [] ==> Precedes(w, s[0], rt[0]) by {
        if t != [] && w[t[0]].pos >= w[x].pos {
          assert rt[0] == t[0] == s[1];
        } else {
          assert rt[0] == x;
        }
      }
      PrependSorted(w, s[0], rt);
    }
  }

  /**
   * Sorting a list in array order gives the unique order runSim uses:
   * descending position, and on equal positions ascending array index.
   */
  lemma {:induction false} SortSorted(w: seq<CarState>, s: seq<nat>)
    requires InRange(w, s) && Increasing(s)
    ensures SortedByPrecedes(w, SortByPositionDesc(w, s))
  {
    if s != [] {
      var p := s[..|s| - 1];
      var x := s[|s| - 1];
      SortSorted(w, p);
      var sp := SortByPositionDesc(w, p);
      forall k | 0 <= k < |sp| ensures sp[k] < x {
        assert sp[k] in multiset(sp);
        assert sp[k] in multiset(p);
        var m :| 0 <= m < |p| && p[m] == sp[k];
        assert s[m] == sp[k];
      }
      InsertSorted(w, x, sp);
    }
  }

  /** The lane list of lane L after runSim's sort. */
  function LaneOrder(w: seq<CarState>, L: int): (r: seq<nat>)
    ensures InRange(w, r)
  {
    var members := LaneMembers(w, L);
    assert InRange(w, members);
    SortByPositionDesc(w, members)
  }

  /**
   * The sorted lane list holds exactly the cars in lane L, each once, in
   * non-increasing position, with ties in array order.
   */
  lemma LaneOrderSpec(w: seq<CarState>, L: int)
    ensures var order := LaneOrder(w, L);
            (forall k: nat :: k in order <==> k < |w| && w[k].lane == L) &&
            SortedByPrecedes(w, order) &&
            (forall i, j :: 0 <= i < j < |order| ==> order[i] != order[j] && w[order[i]].pos >= w[order[j]].pos)
  {
    var members := LaneMembers(w, L);
    var order := LaneOrder(w, L);
    SortSorted(w, members);
    forall k: nat ensures k in order <==> k < |w| && w[k].lane == L {
      calc {
        k in order;
        k in multiset(order);
        k in multiset(members);
        k in members;
      }
      if k in members {
        var m :| 0 <= m < |members| && members[m] == k;
      }
    }
  }

  /** The leader runSim passes to the car at sorted index i: the one before it, none for the first. */
  function Leader(order: seq<nat>, i: nat): Option<nat>
    requires i < |order|
  {
    if i == 0 then None else Some(order[i - 1])
  }

  /**
   * The first car of a lane list has no leader; every other car's leader
   * is the car of its sweep lane that comes next ahead of it: it precedes
   * it, and every other car of the lane comes before the leader or after
   * the car.
   */
  lemma LeaderIsNextAhead(w: seq<CarState>, L: int, i: nat)
    requires i < |LaneOrder(w, L)|
    ensures var order := LaneOrder(w, L);
            (Leader(order, i).None? <==> i == 0) &&
            (i > 0 ==> var a := Leader(order, i).value;
                       a < |w| && w[a].lane == L && Precedes(w, a, order[i]) &&
                       forall k: nat :: k < |w| && w[k].lane == L && k != a && k != order[i] ==>
                         Precedes(w, k, a) || Precedes(w, order[i], k))
  {
    var order := LaneOrder(w, L);
    LaneOrderSpec(w, L);
    if i > 0 {
      var a := order[i - 1];
      assert a in order;
      forall k: nat | k < |w| && w[k].lane == L && k != a && k != order[i]
        ensures Precedes(w, k, a) || Precedes(w, order[i], k)
      {
        assert k in order;
        var m :| 0 <= m < |order| && order[m] == k;
        if m < i - 1 {
          assert Precedes(w, order[m], order[i - 1]);
        } else {
          assert Precedes(w, order[i], order[m]);
        }
      }
    }
  }

  // ---------------------------------------------------------------------
  // Sweeps, ticks and runs

  /** The world after the first n cars of `order` were updated, in order, in place. */
  function SweepPrefix(w: seq<CarState>, order: seq<nat>, n: nat, cfg: Config): (r: seq<CarState>)
    requires n <= |order| && InRange(w, order)
    ensures |r| == |w|
  {
    if n == 0 then w
    else
      var prev := SweepPrefix(w, order, n - 1, cfg);
      prev[order[n - 1] := UpdateCar(prev, order[n - 1], Leader(order, n - 1), cfg.dt, cfg.roadLanes)]
  }

  /** The worlds a sweep passes through: entry n is the world after its first n updates. */
  function SweepTrace(w: seq<CarState>, order: seq<nat>, cfg: Config): (t: seq<seq<CarState>>)
    requires InRange(w, order)
    ensures |t| == |order| + 1
    ensures forall n {:trigger SweepPrefix(w, order, n, cfg)} :: 0 <= n <= |order| ==> t[n] == SweepPrefix(w, order, n, cfg)
  {
    seq(|order| + 1, n requires 0 <= n <= |order| => SweepPrefix(w, order, n, cfg))
  }

  /** The sweep of lane L: every car of its sorted lane list updated in order. */
  function SweepLane(w: seq<CarState>, L: int, cfg: Config): (r: seq<CarState>)
    ensures |r| == |w|
  {
    var order := LaneOrder(w, L);
    SweepPrefix(w, order, |order|, cfg)
  }

  /** The world at the start of the sweep of lane L: lanes 1..L-1 have been swept. */
  function WorldBeforeSweep(w: seq<CarState>, L: int, cfg: Config): (r: seq<CarState>)
    ensures |r| == |w|
    decreases L
  {
    if L <= 1 then w
    else SweepLane(WorldBeforeSweep(w, L - 1, cfg), L - 1, cfg)
  }

  /** The lane list the sweep of lane L works through. */
  function SweepOrder(w: seq<CarState>, L: int, cfg: Config): (r: seq<nat>)
    ensures InRange(w, r)
  {
    LaneOrder(WorldBeforeSweep(w, L, cfg), L)
  }

  /** One pass of runSim's step loop: lanes 1..lanes swept in order. */
  function Tick(w: seq<CarState>, cfg: Config): (r: seq<CarState>)
    ensures |r| == |w|
  {
    WorldBeforeSweep(w, cfg.lanes + 1, cfg)
  }

  /** Updating car n of `order` extends the sweep's prefix by one. */
  lemma NextUpdate(w: seq<CarState>, order: seq<nat>, n: nat, cfg: Config)
    requires n < |order| && InRange(w, order)
    ensures var prev := SweepPrefix(w, order, n, cfg);
            SweepPrefix(w, order, n + 1, cfg) ==
              prev[order[n] := UpdateCar(prev, order[n], Leader(order, n), cfg.dt, cfg.roadLanes)]
  {
  }

  /** Sweeping lane L moves from the world before its sweep to the world before the next. */
  lemma NextSweep(w: seq<CarState>, L: int, cfg: Config)
    requires 1 <= L
    ensures WorldBeforeSweep(w, L + 1, cfg) == SweepLane(WorldBeforeSweep(w, L, cfg), L, cfg)
  {
  }

  /** A tick ends at the world before the sweep that runSim's lane loop exits at. */
  lemma TickIsLastSweep(w: seq<CarState>, cfg: Config)
    ensures Tick(w, cfg) == WorldBeforeSweep(w, if cfg.lanes < 1 then 1 else cfg.lanes + 1, cfg)
  {
  }

  /** The world after n ticks. */
  function Run(w: seq<CarState>, n: nat, cfg: Config): (r: seq<CarState>)
    ensures |r| == |w|
  {
    if n == 0 then w else Tick(Run(w, n - 1, cfg), cfg)
  }

  /** One more pass of the step loop is one more tick. */
  lemma NextTick(w: seq<CarState>, n: nat, cfg: Config)
    ensures Run(w, n + 1, cfg) == Tick(Run(w, n, cfg), cfg)
  {
  }

  /** Java's (int) cast of a double: truncation toward zero (saturation is excluded by callers). */
  function Trunc(x: real): int {
    if x >= 0.0 then x.Floor else -((-x).Floor)
  }

  /** Lemma-level facts about Trunc: it rounds toward zero by less than one. */
  lemma TruncRounds(x: real)
    ensures 0.0 <= x ==> Trunc(x) as real <= x < Trunc(x) as real + 1.0
    ensures x < 0.0 ==> Trunc(x) as real - 1.0 < x <= Trunc(x) as real
  {
  }

  /** runSim's tick count: steps + 1 ticks for steps = (int) (totalSeconds / dt), none when steps < 0. */
  function TickCount(totalSeconds: real, dt: real): nat
    requires dt != 0.0
  {
    var steps := Trunc(totalSeconds / dt);
    if steps < 0 then 0 else steps + 1
  }

  /**
   * A run of totalSeconds >= 0 performs one tick more than totalSeconds / dt
   * rounded down, so (ticks - 1) * dt <= totalSeconds < ticks * dt.
   */
  lemma TickCountSpan(totalSeconds: real, dt: real)
    requires 0.0 < dt && 0.0 <= totalSeconds
    ensures (TickCount(totalSeconds, dt) - 1) as real * dt <= totalSeconds < TickCount(totalSeconds, dt) as real * dt
  {
    var q := totalSeconds / dt;
    assert q * dt == totalSeconds;
    assert 0.0 <= q by {
      if q < 0.0 {
        ScaleKeepsStrictOrder(q, 0.0, dt);
      }
    }
    TruncRounds(q);
    var t := Trunc(q) as real;
    var n := TickCount(totalSeconds, dt);
    assert (n - 1) as real == t && n as real == t + 1.0;
    ScaleKeepsOrder(t, q, dt);
    ScaleKeepsStrictOrder(q, t + 1.0, dt);
    assert q < t + 1.0;
    assert totalSeconds < (t + 1.0) * dt;
    assert totalSeconds < n as real * dt;
  }

  /** Zero seconds is one tick, one dt is two, and -dt or less is none. */
  lemma TickCountSamples(totalSeconds: real, dt: real)
    requires 0.0 < dt
    ensures TickCount(0.0, dt) == 1 && TickCount(dt, dt) == 2
    ensures totalSeconds <= -dt ==> TickCount(totalSeconds, dt) == 0
  {
    assert 0.0 / dt == 0.0;
    assert dt / dt == 1.0;
    if totalSeconds <= -dt {
      var q := totalSeconds / dt;
      assert q * dt == totalSeconds;
      ScaleKeepsOrder(q, -1.0, dt) by {
        if q > -1.0 {
          ScaleKeepsStrictOrder(-1.0, q, dt);
        }
      }
      TruncRounds(q);
    }
  }

  lemma ScaleKeepsOrder(a: real, b: real, c: real)
    requires a <= b && 0.0 < c
    ensures a * c <= b * c
  {
  }

  lemma ScaleKeepsStrictOrder(a: real, b: real, c: real)
    requires a < b && 0.0 < c
    ensures a * c < b * c
  {
  }

  /** A world without cars stays empty: runSim has nothing to update in any tick. */
  lemma {:induction false} RunEmpty(n: nat, cfg: Config)
    ensures Run([], n, cfg) == []
  {
    if n > 0 {
      RunEmpty(n - 1, cfg);
    }
  }

  // ---------------------------------------------------------------------
  // Which cars each sweep visits

  /** Updating only other cars leaves car k as it was. */
  lemma {:induction false} SweepPrefixFrame(w: seq<CarState>, order: seq<nat>, m: nat, n: nat, cfg: Config, k: nat)
    requires m <= n <= |order| && InRange(w, order) && k < |w|
    requires forall p :: m <= p < n ==> order[p] != k
    ensures SweepPrefix(w, order, n, cfg)[k] == SweepPrefix(w, order, m, cfg)[k]
  {
    if m < n {
      SweepPrefixFrame(w, order, m, n - 1, cfg, k);
    }
  }

  /**
   * The car at sorted index p is updated exactly once in its sweep, from
   * the state it had at the start of the sweep, in the world left by the
   * cars before it.
   */
  lemma SweepLaneUpdatesOnce(w: seq<CarState>, L: int, cfg: Config, p: nat)
    requires p < |LaneOrder(w, L)|
    ensures var order := LaneOrder(w, L);
            var before := SweepPrefix(w, order, p, cfg);
            before[order[p]] == w[order[p]] &&
            SweepLane(w, L, cfg)[order[p]] == UpdateCar(before, order[p], Leader(order, p), cfg.dt, cfg.roadLanes)
  {
    var order := LaneOrder(w, L);
    LaneOrderSpec(w, L);
    SweepPrefixFrame(w, order, 0, p, cfg, order[p]);
    SweepPrefixFrame(w, order, p + 1, |order|, cfg, order[p]);
  }

  /**
   * The sweep of lane L changes only cars in lane L, and leaves each of
   * them in lane L - 1, L or L + 1, or, for L = Integer.MIN_VALUE, in the
   * lane Integer.MAX_VALUE that `lane - 1` wraps to.
   */
  lemma SweepLaneMoves(w: seq<CarState>, L: int, cfg: Config, k: nat)
    requires k < |w|
    ensures w[k].lane != L ==> SweepLane(w, L, cfg)[k] == w[k]
    ensures w[k].lane == L ==>
              L - 1 <= SweepLane(w, L, cfg)[k].lane <= L + 1 ||
              (L == -0x8000_0000 && SweepLane(w, L, cfg)[k].lane == 0x7fff_ffff)
  {
    var order := LaneOrder(w, L);
    LaneOrderSpec(w, L);
    if w[k].lane != L {
      assert k !in order;
      SweepPrefixFrame(w, order, 0, |order|, cfg, k);
    } else {
      assert k in order;
      var p :| 0 <= p < |order| && order[p] == k;
      SweepLaneUpdatesOnce(w, L, cfg, p);
      var before := SweepPrefix(w, order, p, cfg);
      UpdateCarChanges(before, k, Leader(order, p), cfg.dt, cfg.roadLanes);
      LaneChangeRules(before, k, cfg.roadLanes);
    }
  }

  /** Before the sweep of lane L, a car whose lane is not among 1..L-1 has not been touched. */
  lemma {:induction false} NotReachedUntouched(w: seq<CarState>, L: int, cfg: Config, k: nat)
    requires k < |w| && !(1 <= w[k].lane < L)
    ensures WorldBeforeSweep(w, L, cfg)[k] == w[k]
    decreases L
  {
    if L > 1 {
      NotReachedUntouched(w, L - 1, cfg, k);
      NextSweep(w, L - 1, cfg);
      SweepLaneMoves(WorldBeforeSweep(w, L - 1, cfg), L - 1, cfg, k);
    }
  }

  /**
   * Every car of a lane in 1..lanes is updated in its tick: first in the
   * sweep of its own lane, from its state at the start of the tick, and in
   * no earlier sweep.
   */
  lemma FirstVisitAtOwnLane(w: seq<CarState>, cfg: Config, k: nat)
    requires k < |w| && 1 <= w[k].lane <= cfg.lanes
    ensures WorldBeforeSweep(w, w[k].lane, cfg)[k] == w[k]
    ensures k in SweepOrder(w, w[k].lane, cfg)
    ensures forall M :: 1 <= M < w[k].lane ==> k !in SweepOrder(w, M, cfg)
  {
    var L := w[k].lane;
    NotReachedUntouched(w, L, cfg, k);
    LaneOrderSpec(WorldBeforeSweep(w, L, cfg), L);
    forall M | 1 <= M < L ensures k !in SweepOrder(w, M, cfg) {
      NotReachedUntouched(w, M, cfg, k);
      LaneOrderSpec(WorldBeforeSweep(w, M, cfg), M);
    }
  }

  /** A car outside lanes 1..lanes is never updated: a tick leaves it as it was. */
  lemma OffRoadUntouched(w: seq<CarState>, cfg: Config, k: nat)
    requires k < |w| && !(1 <= w[k].lane <= cfg.lanes)
    ensures Tick(w, cfg)[k] == w[k]
  {
    TickIsLastSweep(w, cfg);
    NotReachedUntouched(w, if cfg.lanes < 1 then 1 else cfg.lanes + 1, cfg, k);
  }

  /**
   * A car in lane L or above at the start of the sweep of lane L is either
   * untouched so far, or was moved up from lane L - 1 to lane L by its
   * update in the sweep just before.
   */
  lemma {:induction false} RaisedOrUntouched(w: seq<CarState>, L: int, cfg: Config, k: nat)
    requires k < |w| && 1 <= L <= WorldBeforeSweep(w, L, cfg)[k].lane
    ensures WorldBeforeSweep(w, L, cfg)[k] == w[k] ||
            (2 <= L && k in SweepOrder(w, L - 1, cfg) &&
             WorldBeforeSweep(w, L - 1, cfg)[k].lane == L - 1 && WorldBeforeSweep(w, L, cfg)[k].lane == L)
    decreases L
  {
    if L > 1 {
      if WorldBeforeSweep(w, L - 1, cfg)[k].lane != L - 1 {
        SweptElsewhere(w, L - 1, cfg, k);
        RaisedOrUntouched(w, L - 1, cfg, k);
      } else {
        SweptHere(w, L - 1, cfg, k);
      }
    }
  }

  /** A car outside lane L at the start of its sweep is left as it was by the sweep. */
  lemma SweptElsewhere(w: seq<CarState>, L: int, cfg: Config, k: nat)
    requires k < |w| && 1 <= L && WorldBeforeSweep(w, L, cfg)[k].lane != L
    ensures WorldBeforeSweep(w, L + 1, cfg)[k] == WorldBeforeSweep(w, L, cfg)[k]
  {
    NextSweep(w, L, cfg);
    SweepLaneMoves(WorldBeforeSweep(w, L, cfg), L, cfg, k);
  }

  /** A car in lane L at the start of its sweep is in the sweep's list and ends in lane L - 1, L or L + 1. */
  lemma SweptHere(w: seq<CarState>, L: int, cfg: Config, k: nat)
    requires k < |w| && 1 <= L && WorldBeforeSweep(w, L, cfg)[k].lane == L
    ensures k in SweepOrder(w, L, cfg)
    ensures L - 1 <= WorldBeforeSweep(w, L + 1, cfg)[k].lane <= L + 1
  {
    var v := WorldBeforeSweep(w, L, cfg);
    NextSweep(w, L, cfg);
    SweepLaneMoves(v, L, cfg, k);
    LaneOrderSpec(v, L);
  }

  /**
   * A car is updated again in the sweep of a lane other than the one it
   * started the tick in only when its update in the sweep just before moved
   * it up into that lane.
   */
  lemma RevisitOnlyAfterMovingUp(w: seq<CarState>, L: int, cfg: Config, k: nat)
    requires k < |w| && 1 <= L && k in SweepOrder(w, L, cfg) && w[k].lane != L
    ensures 2 <= L && k in SweepOrder(w, L - 1, cfg)
    ensures WorldBeforeSweep(w, L - 1, cfg)[k].lane == L - 1 && WorldBeforeSweep(w, L, cfg)[k].lane == L
  {
    LaneOrderSpec(WorldBeforeSweep(w, L, cfg), L);
    RaisedOrUntouched(w, L, cfg, k);
  }

  // ---------------------------------------------------------------------
  // What a tick preserves

  /** The car's speed is within [0, maxSpeed] and its maximum acceleration is not negative. */
  predicate CarSteady(c: CarState) {
    SpeedInBounds(c) && 0.0 <= c.maxAccel
  }

  /** Every car of the world is steady. */
  predicate Steady(w: seq<CarState>) {
    forall i :: 0 <= i < |w| ==> CarSteady(w[i])
  }

  /**
   * From a to b the car kept its parameters and did not move backwards, and
   * if it was in a lane of 1..roadLanes it still is.
   */
  predicate CarProgressed(a: CarState, b: CarState, roadLanes: Int32) {
    SameParameters(a, b) && a.pos <= b.pos &&
    (1 <= a.lane <= roadLanes ==> 1 <= b.lane <= roadLanes)
  }

  /** From w to w2 every car progressed. */
  predicate Progressed(w: seq<CarState>, w2: seq<CarState>, roadLanes: Int32) {
    |w2| == |w| && forall i :: 0 <= i < |w| ==> CarProgressed(w[i], w2[i], roadLanes)
  }

  lemma ProgressedTransitive(w1: seq<CarState>, w2: seq<CarState>, w3: seq<CarState>, roadLanes: Int32)
    requires Progressed(w1, w2, roadLanes) && Progressed(w2, w3, roadLanes)
    ensures Progressed(w1, w3, roadLanes)
  {
    forall i | 0 <= i < |w1| ensures CarProgressed(w1[i], w3[i], roadLanes) {
      assert CarProgressed(w1[i], w2[i], roadLanes) && CarProgressed(w2[i], w3[i], roadLanes);
    }
  }

  /** One car's update keeps the world steady and lets it progress. */
  lemma UpdateKeepsSteady(w: seq<CarState>, self: nat, ahead: Option<nat>, cfg: Config)
    requires self < |w| && (ahead.Some? ==> ahead.value < |w|)
    requires Steady(w) && 0.0 <= cfg.dt
    ensures var w2 := w[self := UpdateCar(w, self, ahead, cfg.dt, cfg.roadLanes)];
            Steady(w2) && Progressed(w, w2, cfg.roadLanes)
  {
    UpdateCarBounds(w, self, ahead, cfg.dt, cfg.roadLanes);
    UpdateCarChanges(w, self, ahead, cfg.dt, cfg.roadLanes);
    LaneChangeRules(w, self, cfg.roadLanes);
  }

  lemma {:induction false} SweepPrefixKeepsSteady(w: seq<CarState>, order: seq<nat>, n: nat, cfg: Config)
    requires n <= |order| && InRange(w, order)
    requires Steady(w) && 0.0 <= cfg.dt
    ensures Steady(SweepPrefix(w, order, n, cfg)) && Progressed(w, SweepPrefix(w, order, n, cfg), cfg.roadLanes)
  {
    if n > 0 {
      SweepPrefixKeepsSteady(w, order, n - 1, cfg);
      var prev := SweepPrefix(w, order, n - 1, cfg);
      UpdateKeepsSteady(prev, order[n - 1], Leader(order, n - 1), cfg);
      ProgressedTransitive(w, prev, SweepPrefix(w, order, n, cfg), cfg.roadLanes);
    }
  }

  lemma {:induction false} SweepsKeepSteady(w: seq<CarState>, L: int, cfg: Config)
    requires Steady(w) && 0.0 <= cfg.dt
    ensures Steady(WorldBeforeSweep(w, L, cfg)) && Progressed(w, WorldBeforeSweep(w, L, cfg), cfg.roadLanes)
    decreases L
  {
    if L > 1 {
      SweepsKeepSteady(w, L - 1, cfg);
      var v := WorldBeforeSweep(w, L - 1, cfg);
      var order := LaneOrder(v, L - 1);
      var u := SweepPrefix(v, order, |order|, cfg);
      assert WorldBeforeSweep(w, L, cfg) == u;
      SweepPrefixKeepsSteady(v, order, |order|, cfg);
      ProgressedTransitive(w, v, u, cfg.roadLanes);
    }
  }

  /**
   * With dt >= 0, a tick keeps every speed within [0, maxSpeed], changes
   * no car's parameters, moves no car backwards, and keeps every car of a
   * lane in 1..roadLanes within 1..roadLanes.
   */
  lemma TickKeepsSteady(w: seq<CarState>, cfg: Config)
    requires Steady(w) && 0.0 <= cfg.dt
    ensures Steady(Tick(w, cfg)) && Progressed(w, Tick(w, cfg), cfg.roadLanes)
  {
    SweepsKeepSteady(w, cfg.lanes + 1, cfg);
  }

  /** The same for a whole run of n ticks. */
  lemma {:induction false} RunKeepsSteady(w: seq<CarState>, n: nat, cfg: Config)
    requires Steady(w) && 0.0 <= cfg.dt
    ensures Steady(Run(w, n, cfg)) && Progressed(w, Run(w, n, cfg), cfg.roadLanes)
  {
    if n > 0 {
      RunKeepsSteady(w, n - 1, cfg);
      var v := Run(w, n - 1, cfg);
      TickKeepsSteady(v, cfg);
      ProgressedTransitive(w, v, Tick(v, cfg), cfg.roadLanes);
    }
  }
}
