/**
 * The clustering driver as values: the per-point state machine that init
 * runs over the points in index order, and the partition it returns.
 */
module Driver {
  import opened Types
  import opened Clustering

  /** The driver's state: one tag per point, the clusters found so far, the noise list and the two counters. */
  datatype RunState = RunState(types: seq<PointType>, clusters: seq<seq<nat>>, noise: seq<nat>, nNoise: nat, nClusters: nat)

  predicate WellFormed(n: nat, st: RunState)
  {
    && |st.types| == n
    && st.nClusters == |st.clusters|
    && st.nNoise == |st.noise|
    && InRange(st.noise, n)
    && MembersInRange(st.clusters, n)
  }

  /** Every member of every cluster is below n. */
  predicate MembersInRange(clusters: seq<seq<nat>>, n: nat)
  {
    forall c, m :: 0 <= c < |clusters| && 0 <= m < |clusters[c]| ==> clusters[c][m] < n
  }

  /** A fresh run: every point NOT_VISITED, no cluster, no noise. */
  function Initial(n: nat): (st: RunState)
    ensures WellFormed(n, st)
    ensures forall p :: 0 <= p < n ==> st.types[p] == NotVisited
  {
    RunState(seq(n, _ => NotVisited), [], [], 0, 0)
  }

  /** The tags after each member of the cluster, in order, has been set to VISITED. */
  function MarkVisited(types: seq<PointType>, members: seq<nat>): (r: seq<PointType>)
    requires InRange(members, |types|)
    ensures |r| == |types|
    ensures forall p :: 0 <= p < |types| ==> r[p] == if p in members then Visited else types[p]
  {
    if members == [] then types
    else
      var init := members[..|members| - 1];
      assert members == init + [members[|members| - 1]];
      MarkVisited(types, init)[members[|members| - 1] := Visited]
  }

  /**
   * The driver's step for point i: a point that is not NOT_VISITED is left
   * alone; otherwise it is marked VISITED and its neighbourhood decides:
   * fewer than minPts neighbours make it NOISE, appended to the noise list;
   * otherwise the cluster [i] is expanded from its neighbourhood, every
   * member is marked VISITED and the cluster is appended.
   */
  function Step(nbh: seq<seq<nat>>, minPts: nat, st: RunState, i: nat): (r: RunState)
    requires TableOk(nbh) && WellFormed(|nbh|, st) && i < |nbh|
    ensures WellFormed(|nbh|, r)
  {
    if st.types[i] != NotVisited then st
    else if |nbh[i]| < minPts then AddNoise(st, i)
    else AddCluster(st, i, ExpandCluster(nbh, minPts, st.types[i := Visited], st.clusters, st.nClusters, i))
  }

  /** Point i becomes NOISE: it is appended to the noise list and the noise counter grows by one. */
  function AddNoise(st: RunState, i: nat): RunState
    requires i < |st.types|
  {
    RunState(st.types[i := Noise], st.clusters, st.noise + [i], st.nNoise + 1, st.nClusters)
  }

  /** Point i (marked VISITED) seeded cur: every member is marked VISITED and cur is appended. */
  function AddCluster(st: RunState, i: nat, cur: seq<nat>): RunState
    requires i < |st.types| && InRange(cur, |st.types|)
  {
    RunState(MarkVisited(st.types[i := Visited], cur), st.clusters + [cur], st.noise, st.nNoise, st.nClusters + 1)
  }

  /** The driver from state st onwards: points i, i + 1, ..., in index order. */
  function Run(nbh: seq<seq<nat>>, minPts: nat, st: RunState, i: nat): (r: RunState)
    requires TableOk(nbh) && i <= |nbh| && WellFormed(|nbh|, st)
    ensures WellFormed(|nbh|, r)
    decreases |nbh| - i
  {
    if i == |nbh| then st else Run(nbh, minPts, Step(nbh, minPts, st, i), i + 1)
  }

  /** The final state of a run over all points. */
  function Clustered(nbh: seq<seq<nat>>, minPts: nat): RunState
    requires TableOk(nbh)
  {
    Run(nbh, minPts, Initial(|nbh|), 0)
  }

  /** What init returns: the noise list in slot 0, then the clusters in the order they were found. */
  function Partition(nbh: seq<seq<nat>>, minPts: nat): seq<seq<nat>>
    requires TableOk(nbh)
  {
    var st := Clustered(nbh, minPts);
    [st.noise] + st.clusters
  }

  // ---------------------------------------------------------------------------
  // The run as a sequence of states

  /** State k + 1 of the trace T is one step from state k. */
  predicate StepsTo(nbh: seq<seq<nat>>, minPts: nat, T: seq<RunState>, k: nat)
    requires TableOk(nbh) && k < |nbh| && k + 1 < |T|
  {
    WellFormed(|nbh|, T[k]) && T[k + 1] == Step(nbh, minPts, T[k], k)
  }

  /** T lists the state of a run after each prefix of the points, starting from the fresh state. */
  predicate IsTrace(nbh: seq<seq<nat>>, minPts: nat, T: seq<RunState>)
  {
    && TableOk(nbh)
    && |T| == |nbh| + 1
    && T[0] == Initial(|nbh|)
    && forall k :: 0 <= k < |nbh| ==> StepsTo(nbh, minPts, T, k)
  }

  /** A chain of k steps from the fresh state exists. */
  lemma {:induction false} ChainExists(nbh: seq<seq<nat>>, minPts: nat, k: nat)
    requires TableOk(nbh) && k <= |nbh|
    ensures exists T: seq<RunState> :: |T| == k + 1 && T[0] == Initial(|nbh|) && WellFormed(|nbh|, T[k])
                                       && forall j :: 0 <= j < k ==> StepsTo(nbh, minPts, T, j)
  {
    if k == 0 {
      var T := [Initial(|nbh|)];
      assert |T| == 1 && T[0] == Initial(|nbh|) && WellFormed(|nbh|, T[0]);
    } else {
      ChainExists(nbh, minPts, k - 1);
      var P: seq<RunState> :| |P| == k && P[0] == Initial(|nbh|) && WellFormed(|nbh|, P[k - 1])
                              && forall j :: 0 <= j < k - 1 ==> StepsTo(nbh, minPts, P, j);
      var T := P + [Step(nbh, minPts, P[k - 1], k - 1)];
      forall j | 0 <= j < k
        ensures StepsTo(nbh, minPts, T, j)
      {
        if j < k - 1 {
          assert StepsTo(nbh, minPts, P, j);
          assert T[j] == P[j] && T[j + 1] == P[j + 1];
        }
      }
      assert |T| == k + 1 && T[0] == Initial(|nbh|) && WellFormed(|nbh|, T[k]);
    }
  }

  /** Along a chain of steps, running the rest of the points from state k ends in the chain's last state. */
  lemma {:induction false} ChainRun(nbh: seq<seq<nat>>, minPts: nat, T: seq<RunState>, k: nat)
    requires TableOk(nbh) && |T| == |nbh| + 1 && k <= |nbh|
    requires WellFormed(|nbh|, T[|nbh|])
    requires forall j :: 0 <= j < |nbh| ==> StepsTo(nbh, minPts, T, j)
    ensures WellFormed(|nbh|, T[k]) && Run(nbh, minPts, T[k], k) == T[|nbh|]
    decreases |nbh| - k
  {
    if k < |nbh| {
      ChainRun(nbh, minPts, T, k + 1);
      assert StepsTo(nbh, minPts, T, k);
    }
  }

  /** A trace of the whole run exists, and its last state is the final state. */
  lemma TraceExists(nbh: seq<seq<nat>>, minPts: nat)
    requires TableOk(nbh)
    ensures exists T :: IsTrace(nbh, minPts, T) && T[|nbh|] == Clustered(nbh, minPts)
  {
    ChainExists(nbh, minPts, |nbh|);
    var T: seq<RunState> :| |T| == |nbh| + 1 && T[0] == Initial(|nbh|) && WellFormed(|nbh|, T[|nbh|])
                            && forall j :: 0 <= j < |nbh| ==> StepsTo(nbh, minPts, T, j);
    ChainRun(nbh, minPts, T, 0);
    assert IsTrace(nbh, minPts, T);
  }

  // ---------------------------------------------------------------------------
  // Invariants of the scan

  /** p occurs in the noise list or in some cluster. */
  predicate Covered(st: RunState, p: nat)
  {
    p in st.noise || exists c :: 0 <= c < |st.clusters| && p in st.clusters[c]
  }

  /** Every point that has left NOT_VISITED has been recorded somewhere. */
  predicate CoverInv(st: RunState)
  {
    forall p :: 0 <= p < |st.types| && st.types[p] != NotVisited ==> Covered(st, p)
  }

  /** The noise list is increasing, holds only scanned points, and each has fewer than minPts neighbours. */
  predicate NoiseInv(nbh: seq<seq<nat>>, minPts: nat, st: RunState, k: nat)
  {
    && Increasing(st.noise)
    && InRange(st.noise, k)
    && forall n :: 0 <= n < |st.noise| && st.noise[n] < |nbh| ==> |nbh[st.noise[n]]| < minPts
  }

  /** A point tagged NOISE is on the noise list. */
  predicate NoiseTagged(st: RunState)
  {
    forall p :: 0 <= p < |st.types| && st.types[p] == Noise ==> p in st.noise
  }

  /** Every cluster member is tagged VISITED. */
  predicate MembersVisited(st: RunState)
    requires MembersInRange(st.clusters, |st.types|)
  {
    forall c, m :: 0 <= c < |st.clusters| && 0 <= m < |st.clusters[c]| ==> st.types[st.clusters[c][m]] == Visited
  }

  /** Each cluster starts with a scanned seed that had at least minPts neighbours. */
  predicate SeedsCore(nbh: seq<seq<nat>>, minPts: nat, st: RunState, k: nat)
  {
    forall c :: 0 <= c < |st.clusters| ==>
      |st.clusters[c]| >= 1 && st.clusters[c][0] < k && st.clusters[c][0] < |nbh| && |nbh[st.clusters[c][0]]| >= minPts
  }

  /** The scan invariant after the first k points. */
  predicate Inv(nbh: seq<seq<nat>>, minPts: nat, st: RunState, k: nat)
  {
    && TableOk(nbh)
    && k <= |nbh|
    && WellFormed(|nbh|, st)
    && (forall p :: 0 <= p < k ==> st.types[p] != NotVisited)
    && st.nNoise + st.nClusters <= k
    && CoverInv(st)
    && NoiseInv(nbh, minPts, st, k)
    && NoiseTagged(st)
    && MembersVisited(st)
    && SeedsCore(nbh, minPts, st, k)
  }

  /** A step never returns a point to NOT_VISITED, never changes a VISITED point, and leaves point i scanned. */
  lemma StepMonotone(nbh: seq<seq<nat>>, minPts: nat, st: RunState, i: nat)
    requires TableOk(nbh) && WellFormed(|nbh|, st) && i < |nbh|
    ensures var r := Step(nbh, minPts, st, i);
            && r.types[i] != NotVisited
            && (forall p :: 0 <= p < |nbh| && st.types[p] != NotVisited ==> r.types[p] != NotVisited)
            && (forall p :: 0 <= p < |nbh| && st.types[p] == Visited ==> r.types[p] == Visited)
  {
  }


  lemma StepInvNoise(nbh: seq<seq<nat>>, minPts: nat, st: RunState, i: nat)
    requires Inv(nbh, minPts, st, i) && i < |nbh|
    requires st.types[i] == NotVisited && |nbh[i]| < minPts
    ensures Inv(nbh, minPts, AddNoise(st, i), i + 1)
  {
    var r := AddNoise(st, i);
    NotMember(st, i);
    StepCoverNoise(st, r, i);
  }


  /** The invariant after point i seeds the cluster cur, whatever the members of cur are. */
  lemma ClusterAppended(nbh: seq<seq<nat>>, minPts: nat, st: RunState, i: nat, cur: seq<nat>)
    requires Inv(nbh, minPts, st, i) && i < |nbh|
    requires st.types[i] == NotVisited && |nbh[i]| >= minPts
    requires |cur| >= 1 && cur[0] == i && InRange(cur, |nbh|)
    ensures Inv(nbh, minPts, AddCluster(st, i, cur), i + 1)
  {
    var r := AddCluster(st, i, cur);
    AppendedMembers(nbh, minPts, st, i, cur);
    AppendedSeeds(nbh, minPts, st, i, cur);
    AppendedNoise(nbh, minPts, st, i, cur);
    assert forall p :: 0 <= p < |nbh| && r.types[p] != st.types[p] ==> p in cur;
    StepCoverCluster(st, r, cur);
  }

  lemma AppendedMembers(nbh: seq<seq<nat>>, minPts: nat, st: RunState, i: nat, cur: seq<nat>)
    requires Inv(nbh, minPts, st, i) && i < |nbh|
    requires |cur| >= 1 && cur[0] == i && InRange(cur, |nbh|)
    ensures var r := AddCluster(st, i, cur);
            WellFormed(|nbh|, r) && MembersVisited(r)
  {
    var r := AddCluster(st, i, cur);
    forall c, m | 0 <= c < |r.clusters| && 0 <= m < |r.clusters[c]|
      ensures r.clusters[c][m] < |nbh| && r.types[r.clusters[c][m]] == Visited
    {
      if c < |st.clusters| {
        assert r.clusters[c] == st.clusters[c];
      } else {
        assert r.clusters[c] == cur;
        assert r.clusters[c][m] in cur;
      }
    }
  }

  lemma AppendedSeeds(nbh: seq<seq<nat>>, minPts: nat, st: RunState, i: nat, cur: seq<nat>)
    requires Inv(nbh, minPts, st, i) && i < |nbh| && |nbh[i]| >= minPts
    requires |cur| >= 1 && cur[0] == i && InRange(cur, |nbh|)
    ensures SeedsCore(nbh, minPts, AddCluster(st, i, cur), i + 1)
  {
    var r := AddCluster(st, i, cur);
    forall c | 0 <= c < |r.clusters|
      ensures |r.clusters[c]| >= 1 && r.clusters[c][0] < i + 1 && r.clusters[c][0] < |nbh| && |nbh[r.clusters[c][0]]| >= minPts
    {
      if c < |st.clusters| {
        assert r.clusters[c] == st.clusters[c];
      } else {
        assert r.clusters[c] == cur;
      }
    }
  }

  lemma AppendedNoise(nbh: seq<seq<nat>>, minPts: nat, st: RunState, i: nat, cur: seq<nat>)
    requires Inv(nbh, minPts, st, i) && i < |nbh| && st.types[i] == NotVisited
    requires |cur| >= 1 && cur[0] == i && InRange(cur, |nbh|)
    ensures var r := AddCluster(st, i, cur);
            && (forall p :: 0 <= p < i + 1 ==> r.types[p] != NotVisited)
            && NoiseInv(nbh, minPts, r, i + 1)
            && NoiseTagged(r)
  {
    var r := AddCluster(st, i, cur);
    assert r.noise == st.noise;
    forall p | 0 <= p < |r.types| && r.types[p] == Noise
      ensures p in r.noise
    {
      assert st.types[p] == Noise;
    }
  }

  /** A NOT_VISITED point belongs to no cluster, since every member is VISITED. */
  lemma NotMember(st: RunState, p: nat)
    requires MembersInRange(st.clusters, |st.types|)
    requires MembersVisited(st) && p < |st.types| && st.types[p] == NotVisited
    ensures forall c :: 0 <= c < |st.clusters| ==> p !in st.clusters[c]
  {
    forall c | 0 <= c < |st.clusters|
      ensures p !in st.clusters[c]
    {
      forall m | 0 <= m < |st.clusters[c]|
        ensures st.clusters[c][m] != p
      {
      }
    }
  }

  lemma StepCoverNoise(st: RunState, r: RunState, i: nat)
    requires CoverInv(st) && |r.types| == |st.types| && i < |st.types|
    requires r.noise == st.noise + [i] && r.clusters == st.clusters
    requires forall p :: 0 <= p < |st.types| && p != i ==> r.types[p] == st.types[p]
    ensures CoverInv(r)
  {
    forall p | 0 <= p < |r.types| && r.types[p] != NotVisited
      ensures Covered(r, p)
    {
      if p != i {
        assert Covered(st, p);
        if p in st.noise {
          assert p in r.noise;
        }
      } else {
        assert p in r.noise;
      }
    }
  }

  lemma StepCoverCluster(st: RunState, r: RunState, cur: seq<nat>)
    requires CoverInv(st) && |r.types| == |st.types|
    requires r.noise == st.noise && r.clusters == st.clusters + [cur]
    requires forall p :: 0 <= p < |st.types| && r.types[p] != st.types[p] ==> p in cur
    ensures CoverInv(r)
  {
    forall p | 0 <= p < |r.types| && r.types[p] != NotVisited
      ensures Covered(r, p)
    {
      if p in cur {
        assert r.clusters[|st.clusters|] == cur;
      } else {
        assert Covered(st, p);
        if !(p in st.noise) {
          var c :| 0 <= c < |st.clusters| && p in st.clusters[c];
          assert r.clusters[c] == st.clusters[c];
        }
      }
    }
  }

  lemma InitialInv(nbh: seq<seq<nat>>, minPts: nat)
    requires TableOk(nbh)
    ensures Inv(nbh, minPts, Initial(|nbh|), 0)
  {
  }
}
