/**
 * The aggregate queries of Traffic over a world of car states:
 * carsPerLane (a count of cars per lane, or the exception it throws) and
 * getMaxDistance (the largest position).
 */
module Aggregates {
  import opened Wrappers
  import opened CarModel

  // ---------------------------------------------------------------------
  // carsPerLane

  /** The exceptions carsPerLane can throw. */
  datatype CountError =
    | NegativeArraySize               // new int[Constants.lanes] with a negative lane count
    | LaneIndexOutOfBounds(car: nat)  // this car's lane is outside 1..Constants.lanes

  /** The number of cars in lane L, by the definition of a count over a set of indices. */
  function CarsInLane(w: seq<CarState>, L: int): nat {
    |set i | 0 <= i < |w| && w[i].lane == L|
  }

  /** The number of cars with index below n that are in lane L. */
  function CountAmong(w: seq<CarState>, L: int, n: nat): nat
    requires n <= |w|
  {
    if n == 0 then 0
    else CountAmong(w, L, n - 1) + (if w[n - 1].lane == L then 1 else 0)
  }

  /** The counts of lanes 1..K over the cars with index below n. */
  function LaneCountsAmong(w: seq<CarState>, K: nat, n: nat): (r: seq<int>)
    requires n <= |w|
    ensures |r| == K
  {
    seq(K, k requires 0 <= k < K => CountAmong(w, k + 1, n))
  }

  function LaneCounts(w: seq<CarState>, K: nat): (r: seq<int>)
    ensures |r| == K
  {
    LaneCountsAmong(w, K, |w|)
  }

  /** The first car with index below n whose lane is outside 1..K. */
  function FirstOffRoadAmong(w: seq<CarState>, K: int, n: nat): (r: Option<nat>)
    requires n <= |w|
    ensures r.Some? ==> r.value < n && !(1 <= w[r.value].lane <= K) &&
                        forall i :: 0 <= i < r.value ==> 1 <= w[i].lane <= K
    ensures r.None? ==> forall i :: 0 <= i < n ==> 1 <= w[i].lane <= K
  {
    if n == 0 then None
    else
      var prefix := FirstOffRoadAmong(w, K, n - 1);
      if prefix.Some? then prefix
      else if 1 <= w[n - 1].lane <= K then None
      else Some(n - 1)
  }

  /**
   * carsPerLane with K = Constants.lanes: the array of counts of lanes
   * 1..K, or the exception for a negative K or for the first car whose
   * lane indexes outside the array.
   */
  function CarsPerLaneOf(w: seq<CarState>, K: int): Result<seq<int>, CountError> {
    if K < 0 then Err(NegativeArraySize)
    else
      var bad := FirstOffRoadAmong(w, K, |w|);
      if bad.Some? then Err(LaneIndexOutOfBounds(bad.value))
      else Ok(LaneCounts(w, K))
  }

  /** carsPerLane's loop stops at the first car off the road, or after every car. */
  lemma CarsPerLaneExits(w: seq<CarState>, K: nat, n: nat)
    requires n < |w| && FirstOffRoadAmong(w, K, n).None? && !(1 <= w[n].lane <= K)
    ensures FirstOffRoadAmong(w, K, |w|) == Some(n)
  {
  }

  function Sum(s: seq<int>): int {
    if s == [] then 0 else Sum(s[..|s| - 1]) + s[|s| - 1]
  }

  lemma {:induction false} SumIncrement(s: seq<int>, k: nat)
    requires k < |s|
    ensures Sum(s[k := s[k] + 1]) == Sum(s) + 1
    decreases |s|
  {
    var t := s[k := s[k] + 1];
    var last := |s| - 1;
    assert t[..last] == if k < last then s[..last][k := s[k] + 1] else s[..last];
    if k < last {
      SumIncrement(s[..last], k);
    }
  }

  /** Counting one more car adds one to its lane's entry and changes no other. */
  lemma LaneCountsStep(w: seq<CarState>, K: nat, n: nat)
    requires n < |w|
    ensures 1 <= w[n].lane <= K ==>
              LaneCountsAmong(w, K, n + 1) == LaneCountsAmong(w, K, n)[w[n].lane - 1 := LaneCountsAmong(w, K, n)[w[n].lane - 1] + 1]
    ensures !(1 <= w[n].lane <= K) ==> LaneCountsAmong(w, K, n + 1) == LaneCountsAmong(w, K, n)
  {
  }

  lemma {:induction false} LaneCountsSumAmong(w: seq<CarState>, K: nat, n: nat)
    requires n <= |w| && forall i :: 0 <= i < n ==> 1 <= w[i].lane <= K
    ensures Sum(LaneCountsAmong(w, K, n)) == n
  {
    if n == 0 {
      var zeros := LaneCountsAmong(w, K, 0);
      assert forall k :: 0 <= k < K ==> zeros[k] == 0;
      ZerosSum(zeros);
    } else {
      LaneCountsSumAmong(w, K, n - 1);
      LaneCountsStep(w, K, n - 1);
      SumIncrement(LaneCountsAmong(w, K, n - 1), w[n - 1].lane - 1);
    }
  }

  lemma {:induction false} ZerosSum(s: seq<int>)
    requires forall k :: 0 <= k < |s| ==> s[k] == 0
    ensures Sum(s) == 0
  {
    if s != [] {
      ZerosSum(s[..|s| - 1]);
    }
  }

  /** The running count agrees with the number of indices below n in lane L. */
  lemma {:induction false} CountIsCardinality(w: seq<CarState>, L: int, n: nat)
    requires n <= |w|
    ensures CountAmong(w, L, n) == |set i | 0 <= i < n && w[i].lane == L|
  {
    if n > 0 {
      CountIsCardinality(w, L, n - 1);
      var before := set i | 0 <= i < n - 1 && w[i].lane == L;
      var after := set i | 0 <= i < n && w[i].lane == L;
      if w[n - 1].lane == L {
        assert after == before + {n - 1} by {
          forall x ensures x in after <==> x in before + {n - 1} {
          }
        }
        assert n - 1 !in before;
      } else {
        assert after == before by {
          forall x ensures x in after <==> x in before {
          }
        }
      }
    }
  }

  /**
   * carsPerLane throws exactly when Constants.lanes is negative or some
   * car's lane is outside 1..Constants.lanes; otherwise entry k - 1 is the
   * number of cars in lane k and the entries sum to the number of cars.
   */
  lemma CarsPerLaneCounts(w: seq<CarState>, K: int)
    ensures CarsPerLaneOf(w, K).Ok? <==> 0 <= K && forall i :: 0 <= i < |w| ==> 1 <= w[i].lane <= K
    ensures CarsPerLaneOf(w, K).Ok? ==>
              var counts := CarsPerLaneOf(w, K).value;
              |counts| == K && Sum(counts) == |w| &&
              forall k :: 1 <= k <= K ==> counts[k - 1] == CarsInLane(w, k)
  {
    if CarsPerLaneOf(w, K).Ok? {
      LaneCountsSumAmong(w, K, |w|);
      forall k | 1 <= k <= K ensures LaneCounts(w, K)[k - 1] == CarsInLane(w, k) {
        CountIsCardinality(w, k, |w|);
      }
    }
  }

  // ---------------------------------------------------------------------
  // getMaxDistance

  /** Collections.max by position over the first n cars: the largest position among them. */
  function MaxPositionAmong(w: seq<CarState>, n: nat): (r: real)
    requires 0 < n <= |w|
    ensures exists i :: 0 <= i < n && w[i].pos == r
    ensures forall i :: 0 <= i < n ==> w[i].pos <= r
  {
    if n == 1 then w[0].pos
    else
      var m := MaxPositionAmong(w, n - 1);
      if w[n - 1].pos > m then w[n - 1].pos else m
  }

  /**
   * getMaxDistance: the largest position of any car; None where Java's
   * Collections.max throws NoSuchElementException for an empty array.
   */
  function MaxDistance(w: seq<CarState>): (r: Option<real>)
    ensures r.None? <==> |w| == 0
    ensures r.Some? ==> (exists i :: 0 <= i < |w| && w[i].pos == r.value) &&
                        forall i :: 0 <= i < |w| ==> w[i].pos <= r.value
  {
    if |w| == 0 then None else Some(MaxPositionAmong(w, |w|))
  }
}
