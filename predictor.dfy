/**
 * The predictor as a value: the cluster of the first stored point that lies
 * strictly within epsilon of a new vector and belongs to a cluster.
 */
module Predictor {
  import opened Types
  import opened Metrics
  import opened Clustering

  /** The answer for a vector that is close to no clustered point. */
  const UNCLASSIFIED: uint16 := 65535

  /** The slots clusters[1], ..., clusters[nc] that hold the nc clusters exist. */
  predicate SlotsExist(clusters: seq<seq<nat>>, nc: uint16)
  {
    nc == 0 || (nc as nat) < |clusters|
  }

  /** Point i belongs to cluster j, which is stored in slot j + 1. */
  predicate InCluster(clusters: seq<seq<nat>>, j: nat, i: nat)
    requires j + 1 < |clusters|
  {
    i in clusters[j + 1]
  }

  /** Point i belongs to cluster j for some j < nc. */
  predicate InSomeCluster(clusters: seq<seq<nat>>, nc: uint16, i: nat)
    requires SlotsExist(clusters, nc)
  {
    exists j: nat :: j < nc as nat && InCluster(clusters, j, i)
  }

  /** Point i is strictly closer than epsilon to v and belongs to a cluster. */
  predicate Hit(cfg: Config, ds: seq<seq<int>>, clusters: seq<seq<nat>>, nc: uint16, v: seq<int>, i: nat)
    requires SlotsExist(clusters, nc) && i < |ds|
  {
    Dist(cfg, v, ds[i]) < cfg.epsilon && InSomeCluster(clusters, nc, i)
  }

  /** The first cluster, counting from `from`, that holds point i. */
  function FirstCluster(clusters: seq<seq<nat>>, nc: uint16, i: nat, from: nat): (j: nat)
    requires SlotsExist(clusters, nc) && from <= nc as nat
    requires exists j: nat :: from <= j < nc as nat && InCluster(clusters, j, i)
    ensures from <= j < nc as nat && InCluster(clusters, j, i)
    ensures forall j': nat :: from <= j' < j ==> !InCluster(clusters, j', i)
    decreases nc as nat - from
  {
    if InCluster(clusters, from, i) then from else FirstCluster(clusters, nc, i, from + 1)
  }

  /**
   * The prediction for v with the points before i already passed over:
   * UNCLASSIFIED exactly when no point from i on is a Hit; otherwise the
   * lowest-numbered cluster holding the first point that is a Hit.
   */
  function PredictFrom(cfg: Config, ds: seq<seq<int>>, clusters: seq<seq<nat>>, nc: uint16, v: seq<int>, i: nat): (r: uint16)
    requires SlotsExist(clusters, nc)
    ensures r == UNCLASSIFIED <==> forall p :: i <= p < |ds| ==> !Hit(cfg, ds, clusters, nc, v, p)
    ensures r != UNCLASSIFIED ==>
              && r < nc
              && exists p :: i <= p < |ds| && Hit(cfg, ds, clusters, nc, v, p)
                   && (forall p' :: i <= p' < p ==> !Hit(cfg, ds, clusters, nc, v, p'))
                   && InCluster(clusters, r as nat, p)
                   && (forall j: nat :: j < r as nat ==> !InCluster(clusters, j, p))
    decreases |ds| - i
  {
    if i >= |ds| then UNCLASSIFIED
    else if Hit(cfg, ds, clusters, nc, v, i) then FirstCluster(clusters, nc, i, 0) as uint16
    else PredictFrom(cfg, ds, clusters, nc, v, i + 1)
  }

  /**
   * Under the two integer metrics, with a positive epsilon, every stored
   * point that belongs to a cluster is predicted to be in some cluster.
   */
  lemma PredictClusteredPoint(cfg: Config, ds: seq<seq<int>>, clusters: seq<seq<nat>>, nc: uint16, p: nat)
    requires cfg.metric == MANHATTAN || cfg.metric == CHEBYCHEV
    requires cfg.epsilon > 0.0
    requires SlotsExist(clusters, nc) && p < |ds| && InSomeCluster(clusters, nc, p)
    ensures PredictFrom(cfg, ds, clusters, nc, ds[p], 0) != UNCLASSIFIED
  {
    DistanceZeroIff(cfg.metric, cfg.mink, cfg.floatDist, ds[p], ds[p]);
    assert Hit(cfg, ds, clusters, nc, ds[p], p);
  }

  /**
   * A vector at distance exactly epsilon from a point is that point's
   * neighbour during clustering but is not a Hit for the prediction.
   */
  lemma BoundaryNotHit(cfg: Config, ds: seq<seq<int>>, clusters: seq<seq<nat>>, nc: uint16, v: seq<int>, p: nat)
    requires SlotsExist(clusters, nc) && p < |ds| && Dist(cfg, v, ds[p]) == cfg.epsilon
    ensures IsNeighbour(cfg, v, ds[p]) && !Hit(cfg, ds, clusters, nc, v, p)
  {
  }
}
