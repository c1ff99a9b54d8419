/**
 * The distance module of the DBSCAN engine.
 *
 * Coordinates are integers, so the Manhattan branch and the Chebyshev branch
 * (with its accumulating update kept exactly as the engine writes it) are
 * computed exactly. The float-only metrics (Euclidean, Minkowski, Canberra)
 * are a value of type FloatDistance supplied by the caller.
 */
module Metrics {
  import opened Types

  /** The float-only metrics, indexed by the selector and given the Minkowski exponent. */
  type FloatDistance = (uint8, real, seq<int>, seq<int>) -> real

  /** Returned when the two vectors have different lengths (1.0e10). */
  const MISMATCH: real := 10000000000.0

  /** Returned when the selector is none of the five metrics (2.0e10). */
  const BAD_METRIC: real := 20000000000.0

  function Abs(x: int): nat
  {
    if x < 0 then -x else x
  }

  function Max(x: int, y: int): int
  {
    if x < y then y else x
  }

  /** The Manhattan accumulator after the first k components: the sum of |a[i] - b[i]| for i < k. */
  function ManhattanSum(a: seq<int>, b: seq<int>, k: nat): (d: int)
    requires k <= |a| && k <= |b|
    ensures d >= 0
  {
    if k == 0 then 0 else ManhattanSum(a, b, k - 1) + Abs(a[k - 1] - b[k - 1])
  }

  /**
   * The Chebyshev accumulator after the first k components, as the engine
   * computes it: each step adds max(d, |a[i] - b[i]|) to the running value d.
   */
  function ChebyshevSum(a: seq<int>, b: seq<int>, k: nat): int
    requires k <= |a| && k <= |b|
  {
    if k == 0 then 0
    else
      var d := ChebyshevSum(a, b, k - 1);
      d + Max(d, Abs(a[k - 1] - b[k - 1]))
  }

  /** Reference definition: the largest |a[i] - b[i]| for i < k (0 when k = 0). */
  function MaxAbsDiff(a: seq<int>, b: seq<int>, k: nat): (m: nat)
    requires k <= |a| && k <= |b|
    ensures forall i :: 0 <= i < k ==> Abs(a[i] - b[i]) <= m
    ensures k > 0 ==> exists i :: 0 <= i < k && Abs(a[i] - b[i]) == m
  {
    if k == 0 then 0 else Max(MaxAbsDiff(a, b, k - 1), Abs(a[k - 1] - b[k - 1]))
  }

  /** The engine's distance between two vectors under the metric selected by `metric`. */
  function Distance(metric: uint8, mink: real, floatDist: FloatDistance, a: seq<int>, b: seq<int>): (r: real)
  {
    if |a| != |b| then MISMATCH
    else if metric == MANHATTAN then ManhattanSum(a, b, |a|) as real
    else if metric == CHEBYCHEV then ChebyshevSum(a, b, |a|) as real
    else if metric == EUCLIDIAN || metric == MINKOVSKI || metric == CANBERRA then floatDist(metric, mink, a, b)
    else BAD_METRIC
  }

  /** True when the engine's loop over the components of a and b, counted in a `uint8_t`, ends. */
  predicate DistanceHalts(metric: uint8, a: seq<int>, b: seq<int>)
  {
    |a| == |b| && metric <= CANBERRA ==> |a| < 0x100
  }

  /** The two sentinel results: unequal lengths first, then an unknown selector. */
  lemma DistanceSentinels(metric: uint8, mink: real, floatDist: FloatDistance, a: seq<int>, b: seq<int>)
    ensures |a| != |b| ==> Distance(metric, mink, floatDist, a, b) == MISMATCH
    ensures |a| == |b| && metric > CANBERRA ==> Distance(metric, mink, floatDist, a, b) == BAD_METRIC
  {
  }

  lemma {:induction false} ManhattanSymmetric(a: seq<int>, b: seq<int>, k: nat)
    requires k <= |a| && k <= |b|
    ensures ManhattanSum(a, b, k) == ManhattanSum(b, a, k)
  {
    if k > 0 {
      ManhattanSymmetric(a, b, k - 1);
    }
  }

  /** The Manhattan sum is 0 exactly when the first k components agree. */
  lemma {:induction false} ManhattanZeroIff(a: seq<int>, b: seq<int>, k: nat)
    requires k <= |a| && k <= |b|
    ensures ManhattanSum(a, b, k) == 0 <==> forall i :: 0 <= i < k ==> a[i] == b[i]
  {
    if k > 0 {
      ManhattanZeroIff(a, b, k - 1);
    }
  }

  /** The Manhattan sum is at least every single component difference it has seen. */
  lemma {:induction false} ManhattanBoundsMax(a: seq<int>, b: seq<int>, k: nat)
    requires k <= |a| && k <= |b|
    ensures MaxAbsDiff(a, b, k) <= ManhattanSum(a, b, k)
  {
    if k > 0 {
      ManhattanBoundsMax(a, b, k - 1);
    }
  }

  lemma {:induction false} ChebyshevSymmetric(a: seq<int>, b: seq<int>, k: nat)
    requires k <= |a| && k <= |b|
    ensures ChebyshevSum(a, b, k) == ChebyshevSum(b, a, k)
  {
    if k > 0 {
      ChebyshevSymmetric(a, b, k - 1);
      assert Abs(a[k - 1] - b[k - 1]) == Abs(b[k - 1] - a[k - 1]);
    }
  }

  /**
   * The accumulating Chebyshev value never falls below the true maximum
   * component difference, and it is 0 exactly when the components agree.
   */
  lemma {:induction false} ChebyshevBoundsMax(a: seq<int>, b: seq<int>, k: nat)
    requires k <= |a| && k <= |b|
    ensures ChebyshevSum(a, b, k) >= MaxAbsDiff(a, b, k)
    ensures ChebyshevSum(a, b, k) == 0 <==> MaxAbsDiff(a, b, k) == 0
  {
    if k > 0 {
      ChebyshevBoundsMax(a, b, k - 1);
    }
  }

  /** On one-dimensional vectors the accumulating value is the true Chebyshev distance. */
  lemma ChebyshevOneDimension(a: seq<int>, b: seq<int>)
    requires |a| == 1 && |b| == 1
    ensures ChebyshevSum(a, b, 1) == MaxAbsDiff(a, b, 1) == Abs(a[0] - b[0])
  {
  }

  /** On [0, 0] and [3, 4] the accumulated value is 7, while the largest component difference is 4. */
  lemma ChebyshevAccumulates()
    ensures ChebyshevSum([0, 0], [3, 4], 2) == 7
    ensures MaxAbsDiff([0, 0], [3, 4], 2) == 4
    ensures ManhattanSum([0, 0], [3, 4], 2) == 7
  {
  }

  /** Both integer metrics are symmetric, and symmetric when the lengths differ or the selector is unknown. */
  lemma DistanceSymmetric(metric: uint8, mink: real, floatDist: FloatDistance, a: seq<int>, b: seq<int>)
    requires metric == MANHATTAN || metric == CHEBYCHEV || metric > CANBERRA || |a| != |b|
    ensures Distance(metric, mink, floatDist, a, b) == Distance(metric, mink, floatDist, b, a)
  {
    if |a| == |b| {
      ManhattanSymmetric(a, b, |a|);
      ChebyshevSymmetric(a, b, |a|);
    }
  }

  /**
   * Under both integer metrics the distance is never negative, and it is 0
   * exactly when the two vectors are equal.
   */
  lemma DistanceZeroIff(metric: uint8, mink: real, floatDist: FloatDistance, a: seq<int>, b: seq<int>)
    requires metric == MANHATTAN || metric == CHEBYCHEV
    ensures Distance(metric, mink, floatDist, a, b) >= 0.0
    ensures Distance(metric, mink, floatDist, a, b) == 0.0 <==> a == b
  {
    if |a| == |b| {
      ManhattanZeroIff(a, b, |a|);
      ChebyshevBoundsMax(a, b, |a|);
      ZeroMaxIff(a, b, |a|);
      assert (forall i :: 0 <= i < |a| ==> a[i] == b[i]) <==> a == b;
    }
  }

  /** The largest component difference is 0 exactly when the components agree; it follows from MaxAbsDiff's contract. */
  lemma ZeroMaxIff(a: seq<int>, b: seq<int>, k: nat)
    requires k <= |a| && k <= |b|
    ensures MaxAbsDiff(a, b, k) == 0 <==> forall i :: 0 <= i < k ==> a[i] == b[i]
  {
  }
}
