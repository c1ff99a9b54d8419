/**
 * What a whole clustering run guarantees, proved from the per-step lemmas of
 * the driver: the scan invariant after every prefix of the points, the shape
 * of the returned partition, and the behaviour of a new cluster's seed and
 * of the noise points it absorbs.
 */
module Outcome {
  import opened Types
  import opened Clustering
  import opened Driver

  /** One step keeps the scan invariant and advances it by one point. */
  lemma StepInv(nbh: seq<seq<nat>>, minPts: nat, st: RunState, i: nat)
    requires Inv(nbh, minPts, st, i) && i < |nbh|
    ensures Inv(nbh, minPts, Step(nbh, minPts, st, i), i + 1)
  {
    StepMonotone(nbh, minPts, st, i);
    if st.types[i] == NotVisited {
      if |nbh[i]| < minPts {
        StepInvNoise(nbh, minPts, st, i);
      } else {
        StepInvCluster(nbh, minPts, st, i);
      }
    }
  }

  lemma StepInvCluster(nbh: seq<seq<nat>>, minPts: nat, st: RunState, i: nat)
    requires Inv(nbh, minPts, st, i) && i < |nbh|
    requires st.types[i] == NotVisited && |nbh[i]| >= minPts
    ensures Inv(nbh, minPts, Step(nbh, minPts, st, i), i + 1)
  {
    var cur := ExpandCluster(nbh, minPts, st.types[i := Visited], st.clusters, st.nClusters, i);
    ClusterAppended(nbh, minPts, st, i, cur);
  }

  /** The scan invariant, once established at point i, holds at the end of the run. */
  lemma RunInv(nbh: seq<seq<nat>>, minPts: nat, st: RunState, i: nat)
    requires i <= |nbh| && Inv(nbh, minPts, st, i)
    ensures Inv(nbh, minPts, Run(nbh, minPts, st, i), |nbh|)
    decreases |nbh| - i
  {
    if i < |nbh| {
      StepInv(nbh, minPts, st, i);
      RunInv(nbh, minPts, Step(nbh, minPts, st, i), i + 1);
    }
  }

  /** Point p occurs in one of the slots of P. */
  predicate InSomeSlot(P: seq<seq<nat>>, p: nat)
  {
    exists s :: 0 <= s < |P| && p in P[s]
  }

  /**
   * The shape of the partition P that init returns from the final state st:
   * one slot more than there are clusters, slot 0 the noise list with the
   * noise count as its length, at most one noise entry or cluster per point,
   * every point tagged VISITED or NOISE and present in some slot, every noise
   * entry with fewer than minPts neighbours, every cluster seeded by a point
   * with at least minPts neighbours, every NOISE-tagged point in slot 0, the
   * noise list increasing (so no index occurs on it twice), and every cluster
   * member tagged VISITED.
   */
  predicate PartitionShape(nbh: seq<seq<nat>>, minPts: nat, st: RunState, P: seq<seq<nat>>)
  {
    && |st.types| == |nbh|
    && |P| == st.nClusters + 1 && P[0] == st.noise && |P[0]| == st.nNoise
    && st.nNoise + st.nClusters <= |nbh|
    && (forall p :: 0 <= p < |nbh| ==> st.types[p] == Visited || st.types[p] == Noise)
    && (forall p :: 0 <= p < |nbh| ==> InSomeSlot(P, p))
    && (forall n :: 0 <= n < |P[0]| ==> P[0][n] < |nbh| && |nbh[P[0][n]]| < minPts)
    && (forall s :: 1 <= s < |P| ==> |P[s]| >= 1 && P[s][0] < |nbh| && |nbh[P[s][0]]| >= minPts)
    && (forall p :: 0 <= p < |nbh| && st.types[p] == Noise ==> p in P[0])
    && Increasing(P[0])
    && (forall s, m :: 1 <= s < |P| && 0 <= m < |P[s]| ==> P[s][m] < |nbh| && st.types[P[s][m]] == Visited)
  }

  /** Once every point is scanned, the noise list followed by the clusters has the partition's shape. */
  lemma FinalShape(nbh: seq<seq<nat>>, minPts: nat, st: RunState)
    requires Inv(nbh, minPts, st, |nbh|)
    ensures PartitionShape(nbh, minPts, st, [st.noise] + st.clusters)
  {
    var P := [st.noise] + st.clusters;
    assert forall c :: 0 <= c < |st.clusters| ==> P[c + 1] == st.clusters[c];
    forall p: nat | p < |nbh|
      ensures InSomeSlot(P, p)
    {
      assert Covered(st, p);
      if p in st.noise {
        assert p in P[0];
      } else {
        var c :| 0 <= c < |st.clusters| && p in st.clusters[c];
        assert p in P[c + 1];
      }
    }
    forall s | 1 <= s < |P|
      ensures |P[s]| >= 1 && P[s][0] < |nbh| && |nbh[P[s][0]]| >= minPts
    {
      assert P[s] == st.clusters[s - 1];
    }
    forall s, m | 1 <= s < |P| && 0 <= m < |P[s]|
      ensures P[s][m] < |nbh| && st.types[P[s][m]] == Visited
    {
      assert P[s] == st.clusters[s - 1];
    }
  }

  /** The partition returned by a run over all points has the shape above. */
  lemma PartitionFacts(nbh: seq<seq<nat>>, minPts: nat)
    requires TableOk(nbh)
    ensures PartitionShape(nbh, minPts, Clustered(nbh, minPts), Partition(nbh, minPts))
  {
    InitialInv(nbh, minPts);
    RunInv(nbh, minPts, Initial(|nbh|), 0);
    FinalShape(nbh, minPts, Clustered(nbh, minPts));
  }

  /**
   * The seed of a new cluster is its first member and, when it is its own
   * neighbour, occurs in the cluster exactly twice: the membership check
   * never looks at the current cluster.
   */
  lemma SeedTwice(nbh: seq<seq<nat>>, minPts: nat, st: RunState, i: nat)
    requires Inv(nbh, minPts, st, i) && i < |nbh|
    requires st.types[i] == NotVisited && |nbh[i]| >= minPts && i in nbh[i]
    ensures var cur := ExpandCluster(nbh, minPts, st.types[i := Visited], st.clusters, st.nClusters, i);
            cur[0] == i && multiset(cur)[i] == 2
  {
    var types1 := st.types[i := Visited];
    var e := ExpandRun(nbh, minPts, types1, st.clusters, st.nClusters, nbh[i], 0, [i]);
    var cur := ExpandCluster(nbh, minPts, types1, st.clusters, st.nClusters, i);
    assert e.queue[0..] == e.queue;
    var J := Joining(st.clusters, st.nClusters, e.queue);
    assert cur == [i] + J;
    NotMember(st, i);
    assert !InLaterClusters(st.clusters, st.nClusters, i);
    var k :| 0 <= k < |nbh[i]| && nbh[i][k] == i;
    assert e.queue[k] == i;
    JoiningMembers(st.clusters, st.nClusters, e.queue);
    assert i in J;
    JoiningCount(st.clusters, st.nClusters, e.queue);
    DistinctOnce(e.queue, i);
    var mJ: multiset<nat> := multiset(J);
    var mSeed: multiset<nat> := multiset([i]);
    assert mJ[i] == 1;
    assert multiset(cur) == mSeed + mJ;
  }

  /**
   * Every neighbour of a new seed that is not found in clusters[1 .. nc - 1]
   * joins the new cluster and ends up VISITED, whatever it was tagged before,
   * NOISE included; the noise list is left as it was, so an absorbed noise
   * point stays on it.
   */
  lemma SeedNeighboursJoin(nbh: seq<seq<nat>>, minPts: nat, st: RunState, i: nat, x: nat)
    requires Inv(nbh, minPts, st, i) && i < |nbh|
    requires st.types[i] == NotVisited && |nbh[i]| >= minPts
    requires x in nbh[i] && !InLaterClusters(st.clusters, st.nClusters, x)
    ensures var r := Step(nbh, minPts, st, i);
            && |r.clusters| == |st.clusters| + 1
            && x in r.clusters[|st.clusters|]
            && r.types[x] == Visited
            && r.noise == st.noise
  {
    var types1 := st.types[i := Visited];
    var e := ExpandRun(nbh, minPts, types1, st.clusters, st.nClusters, nbh[i], 0, [i]);
    var cur := ExpandCluster(nbh, minPts, types1, st.clusters, st.nClusters, i);
    assert e.queue[0..] == e.queue;
    var k :| 0 <= k < |nbh[i]| && nbh[i][k] == x;
    assert e.queue[k] == x;
    JoiningMembers(st.clusters, st.nClusters, e.queue);
    assert x in cur;
    var r := Step(nbh, minPts, st, i);
    assert r.clusters[|st.clusters|] == cur;
  }

  /**
   * Every queue entry of a new cluster's expansion that Expands (NOT_VISITED,
   * with more than minPts neighbours) is a member of the cluster: being
   * NOT_VISITED, no earlier cluster holds it, so the membership check lets
   * it join.
   */
  lemma ExpandingMembersJoin(nbh: seq<seq<nat>>, minPts: nat, st: RunState, i: nat)
    requires Inv(nbh, minPts, st, i) && i < |nbh|
    requires st.types[i] == NotVisited && |nbh[i]| >= minPts
    ensures var types1 := st.types[i := Visited];
            var e := ExpandRun(nbh, minPts, types1, st.clusters, st.nClusters, nbh[i], 0, [i]);
            forall k :: 0 <= k < |e.queue| && Expands(nbh, minPts, types1, e.queue[k]) ==>
              e.queue[k] in ExpandCluster(nbh, minPts, types1, st.clusters, st.nClusters, i)
  {
    var types1 := st.types[i := Visited];
    var e := ExpandRun(nbh, minPts, types1, st.clusters, st.nClusters, nbh[i], 0, [i]);
    var cur := ExpandCluster(nbh, minPts, types1, st.clusters, st.nClusters, i);
    assert e.queue[0..] == e.queue;
    assert cur == [i] + Joining(st.clusters, st.nClusters, e.queue);
    JoiningMembers(st.clusters, st.nClusters, e.queue);
    forall k | 0 <= k < |e.queue| && Expands(nbh, minPts, types1, e.queue[k])
      ensures e.queue[k] in cur
    {
      var x := e.queue[k];
      assert st.types[x] == NotVisited;
      NotMember(st, x);
      assert !InLaterClusters(st.clusters, st.nClusters, x);
      assert x in Joining(st.clusters, st.nClusters, e.queue);
    }
  }
}
