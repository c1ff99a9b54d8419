/**
 * The dbscan object. The constructor fixes the configuration; init loads a
 * dataset, clusters it and keeps the result in the object's fields; predict
 * answers for a new vector from those fields. Every method runs the loops of
 * the engine over the fields and is proved to compute the corresponding
 * function of the Clustering, Driver and Predictor modules.
 */
module Engine {
  import opened Types
  import opened Metrics
  import opened Clustering
  import opened Driver
  import opened Outcome
  import opened Predictor

  class Dbscan {
    const epsilon: real
    const mink: real
    const minPts: uint16
    const distanceType: uint8
    /** The float-only metrics, which the engine computes in single precision. */
    const floatDist: FloatDistance

    var nNoise: uint16
    var nData: uint16
    var nClusters: uint16
    /** One tag per stored point. */
    var types: seq<PointType>
    var dataset: seq<seq<int>>
    /** During init the clusters found so far; afterwards the noise list, then the clusters. */
    var clusters: seq<seq<nat>>

    function Cfg(): Config
    {
      Config(epsilon, minPts, distanceType, mink, floatDist)
    }

    /** v can be measured against every stored point: the component loops end. */
    predicate Measurable(v: seq<int>)
      reads this
    {
      forall b :: 0 <= b < |dataset| ==> DistanceHalts(distanceType, v, dataset[b])
    }

    /** The stored points and their tags agree with the point counter, and all pairs can be measured. */
    predicate Loaded()
      reads this
    {
      && |dataset| == nData as int
      && |types| == nData as int
      && forall a :: 0 <= a < |dataset| ==> Measurable(dataset[a])
    }

    /** Every stored cluster fits a `uint16_t` loop counter. */
    predicate ClustersFit()
      reads this
    {
      forall c :: 0 <= c < |clusters| ==> |clusters[c]| < 0x1_0000
    }

    /** minPts is stored in a `uint16_t`: the constructor's int argument is reduced modulo 2^16. */
    constructor (epsilon: real, minPts: int, distance: uint8, floatDist: FloatDistance, mink: real)
      ensures this.epsilon == epsilon && this.minPts as int == minPts % 0x1_0000
      ensures distanceType == distance && this.mink == mink
      ensures forall m, e, a, b :: this.floatDist(m, e, a, b) == floatDist(m, e, a, b)
      ensures nNoise == 0 && nData == 0 && nClusters == 0
      ensures types == [] && dataset == [] && clusters == []
    {
      this.epsilon := epsilon;
      this.minPts := (minPts % 0x1_0000) as uint16;
      distanceType := distance;
      this.mink := mink;
      this.floatDist := floatDist;
      nNoise := 0;
      nData := 0;
      nClusters := 0;
      types := [];
      dataset := [];
      clusters := [];
    }

    /** The constructor called without its last argument: the Minkowski exponent is 1.0. */
    constructor WithDefaultExponent(epsilon: real, minPts: int, distance: uint8, floatDist: FloatDistance)
      ensures this.epsilon == epsilon && this.minPts as int == minPts % 0x1_0000
      ensures distanceType == distance && mink == 1.0
      ensures forall m, e, a, b :: this.floatDist(m, e, a, b) == floatDist(m, e, a, b)
      ensures nNoise == 0 && nData == 0 && nClusters == 0
      ensures types == [] && dataset == [] && clusters == []
    {
      this.epsilon := epsilon;
      this.minPts := (minPts % 0x1_0000) as uint16;
      distanceType := distance;
      mink := 1.0;
      this.floatDist := floatDist;
      nNoise := 0;
      nData := 0;
      nClusters := 0;
      types := [];
      dataset := [];
      clusters := [];
    }

    /** The distance under the configured metric, with its two sentinel results. */
    method Distance(v1: seq<int>, v2: seq<int>) returns (d: real)
      requires DistanceHalts(distanceType, v1, v2)
      ensures d == Metrics.Distance(distanceType, mink, floatDist, v1, v2)
    {
      if |v1| != |v2| {
        return MISMATCH;
      }
      if distanceType == MANHATTAN {
        var acc := 0;
        var i: uint8 := 0;
        while (i as int) < |v1|
          invariant i as int <= |v1|
          invariant acc == ManhattanSum(v1, v2, i as nat)
        {
          acc := acc + Abs(v1[i] - v2[i]);
          i := i + 1;
        }
        d := acc as real;
      } else if distanceType == CHEBYCHEV {
        var acc := 0;
        var i: uint8 := 0;
        while (i as int) < |v1|
          invariant i as int <= |v1|
          invariant acc == ChebyshevSum(v1, v2, i as nat)
        {
          acc := acc + Max(acc, Abs(v1[i] - v2[i]));
          i := i + 1;
        }
        d := acc as real;
      } else if distanceType == EUCLIDIAN || distanceType == MINKOVSKI || distanceType == CANBERRA {
        d := floatDist(distanceType, mink, v1, v2);
      } else {
        d := BAD_METRIC;
      }
    }

    method IsNeighbour(v1: seq<int>, v2: seq<int>) returns (b: bool)
      requires DistanceHalts(distanceType, v1, v2)
      ensures b == Clustering.IsNeighbour(Cfg(), v1, v2)
    {
      var d := Distance(v1, v2);
      b := d <= epsilon;
    }

    /** The indices of the neighbours of point n, in increasing order. */
    method FindNeighbours(n: uint16) returns (r: seq<nat>)
      requires Loaded() && n < nData
      ensures r == Neighbours(Cfg(), dataset, dataset[n])
    {
      r := [];
      var i: uint16 := 0;
      while i < nData
        invariant i <= nData
        invariant r == NeighboursBelow(Cfg(), dataset, dataset[n], i as nat)
      {
        assert Measurable(dataset[n]);
        var b := IsNeighbour(dataset[n], dataset[i]);
        if b {
          r := r + [i as nat];
        }
        i := i + 1;
      }
    }

    /** The number of stored points that are neighbours of v; the `uint8_t` counter needs fewer than 256 points. */
    method CountNeighbours(v: seq<int>) returns (c: int)
      requires Loaded() && nData < 0x100 && Measurable(v)
      ensures c == |Neighbours(Cfg(), dataset, v)|
    {
      c := 0;
      var i: uint8 := 0;
      while (i as int) < nData as int
        invariant i as int <= nData as int
        invariant c == |NeighboursBelow(Cfg(), dataset, v, i as nat)|
      {
        var b := IsNeighbour(v, dataset[i]);
        if b {
          c := c + 1;
        }
        i := i + 1;
      }
    }

    /** Whether x is an entry of q: the inner search of the union loop. */
    method Holds(q: seq<nat>, x: nat) returns (found: bool)
      requires |q| < 0x1_0000
      ensures found <==> x in q
    {
      found := false;
      var k: uint16 := 0;
      while (k as int) < |q|
        invariant k as int <= |q|
        invariant x !in q[..k]
      {
        if x == q[k] {
          found := true;
          break;
        }
        k := k + 1;
      }
      if !found {
        assert q[..k] == q;
      }
    }

    /** Appends to the queue each entry of n2 it does not hold yet: the union of both neighbourhoods. */
    method Union(q: seq<nat>, n2: seq<nat>) returns (r: seq<nat>)
      requires Distinct(q) && InRange(q, nData as nat) && InRange(n2, nData as nat) && |n2| <= nData as int
      ensures r == Merge(q, n2)
    {
      r := q;
      var j: uint16 := 0;
      while (j as int) < |n2|
        invariant j as int <= |n2|
        invariant Distinct(r) && InRange(r, nData as nat)
        invariant Merge(r, n2[j..]) == Merge(q, n2)
      {
        DistinctBound(r, nData as nat);
        MergeFrom(r, n2, j as nat);
        var isIn := Holds(r, n2[j]);
        if !isIn {
          r := r + [n2[j]];
        }
        j := j + 1;
      }
      assert n2[j..] == [];
    }

    /** Whether x is found in clusters[1], ..., clusters[nClusters - 1]. */
    method InLaterCluster(x: nat) returns (found: bool)
      requires nClusters as int <= |clusters| && ClustersFit()
      ensures found == InLaterClusters(clusters, nClusters as nat, x)
    {
      found := false;
      var j: uint16 := 1;
      while j < nClusters
        invariant 1 <= j && (j <= nClusters || j == 1)
        invariant found == exists c :: 1 <= c < j as int && x in clusters[c]
      {
        ghost var before := found;
        var k: uint16 := 0;
        while (k as int) < |clusters[j]|
          invariant k as int <= |clusters[j]|
          invariant found == (before || x in clusters[j][..k])
        {
          if clusters[j][k] == x {
            found := true;
            break;
          }
          k := k + 1;
        }
        assert clusters[j][..|clusters[j]|] == clusters[j];
        assert found == (before || x in clusters[j]);
        j := j + 1;
      }
    }

    /**
     * Takes the queue entries in order, merges the neighbourhood of each
     * NOT_VISITED entry with more than minPts neighbours into the queue, and
     * appends to the current cluster each entry not found in
     * clusters[1 .. nClusters - 1].
     */
    method EnlargeCluster(neighbours: seq<nat>, currentCluster: seq<nat>) returns (cluster: seq<nat>)
      requires Loaded() && nClusters as int <= |clusters| && ClustersFit()
      requires Distinct(neighbours) && InRange(neighbours, nData as nat)
      ensures cluster == ExpandRun(NeighbourTable(Cfg(), dataset), minPts as nat, types, clusters, nClusters as nat,
                                   neighbours, 0, currentCluster).cluster
    {
      ghost var nbh := NeighbourTable(Cfg(), dataset);
      ghost var goal := ExpandRun(nbh, minPts as nat, types, clusters, nClusters as nat, neighbours, 0, currentCluster);
      var q := neighbours;
      cluster := currentCluster;
      var i: uint16 := 0;
      DistinctBound(q, nData as nat);
      while (i as int) < |q|
        invariant ExpandOk(nbh, types, clusters, nClusters as nat, q, i as nat)
        invariant |q| <= nData as int
        invariant ExpandRun(nbh, minPts as nat, types, clusters, nClusters as nat, q, i as nat, cluster) == goal
        decreases nData as int - i as int
      {
        ghost var q0, i0, cluster0 := q, i as nat, cluster;
        var index := q[i];
        i := i + 1;
        if types[index] == NotVisited {
          var n2 := FindNeighbours(index as uint16);
          assert n2 == nbh[index];
          if |n2| > minPts as int {
            q := Union(q, n2);
          }
        }
        MergeContents(q0, nbh[index]);
        MergeInRange(q0, nbh[index], nData as nat);
        var found := InLaterCluster(index);
        if !found {
          cluster := cluster + [index];
        }
        assert ExpandRun(nbh, minPts as nat, types, clusters, nClusters as nat, q0, i0, cluster0)
            == ExpandRun(nbh, minPts as nat, types, clusters, nClusters as nat, q, i as nat, cluster);
        DistinctBound(q, nData as nat);
      }
    }

    /** The tags and the counters of the clustering so far, as a driver state. */
    ghost function State(noise: seq<nat>): RunState
      reads this
    {
      RunState(types, clusters, noise, nNoise as nat, nClusters as nat)
    }

    /** Stores the points of dataset in order, each tagged NOT_VISITED. */
    method Load(dataset: seq<seq<int>>)
      requires nNoise == 0 && nData == 0 && nClusters == 0
      requires types == [] && this.dataset == [] && clusters == []
      requires |dataset| < 0x1_0000
      modifies this
      ensures this.dataset == dataset && nData as int == |dataset| && types == Initial(|dataset|).types
      ensures nNoise == 0 && nClusters == 0 && clusters == []
    {
      nData := |dataset| as uint16;
      var i: uint16 := 0;
      while i < nData
        invariant i <= nData && nData as int == |dataset|
        invariant this.dataset == dataset[..i] && types == Initial(i as nat).types
        invariant nNoise == 0 && nClusters == 0 && clusters == []
      {
        this.dataset := this.dataset + [dataset[i]];
        types := types + [NotVisited];
        assert dataset[..i + 1] == dataset[..i] + [dataset[i]];
        i := i + 1;
      }
      assert dataset[..i] == dataset;
    }

    /**
     * Loads the dataset and clusters it: the fields end as the driver's run
     * over the neighbour table leaves them, with the noise list inserted in
     * front of the clusters, and that partition is returned.
     */
    method Init(dataset: seq<seq<int>>) returns (result: seq<seq<nat>>)
      requires nNoise == 0 && nData == 0 && nClusters == 0
      requires types == [] && this.dataset == [] && clusters == []
      requires |dataset| < 0xFFFF
      requires forall a, b :: 0 <= a < |dataset| && 0 <= b < |dataset| ==> DistanceHalts(distanceType, dataset[a], dataset[b])
      modifies this
      ensures this.dataset == dataset && nData as int == |dataset|
      ensures var st := Clustered(NeighbourTable(Cfg(), dataset), minPts as nat);
              && types == st.types && nNoise as int == st.nNoise && nClusters as int == st.nClusters
              && clusters == Partition(NeighbourTable(Cfg(), dataset), minPts as nat)
      ensures result == clusters
      ensures Loaded() && SlotsExist(clusters, nClusters) && ClustersFit()
    {
      Load(dataset);
      var noise := Scan();
      clusters := [noise] + clusters;
      result := clusters;
    }

    /**
     * The loop of init over the points, from the freshly loaded state: the
     * tags, the clusters and the counters end as the driver's run leaves
     * them, and the noise list is returned.
     */
    method Scan() returns (noise: seq<nat>)
      requires Loaded() && nData < 0xFFFF && types == Initial(nData as nat).types
      requires nNoise == 0 && nClusters == 0 && clusters == []
      modifies this
      ensures dataset == old(dataset) && nData == old(nData)
      ensures State(noise) == Clustered(NeighbourTable(Cfg(), dataset), minPts as nat)
      ensures forall c :: 0 <= c < |clusters| ==> |clusters[c]| <= nData as int + 1
    {
      ghost var nbh := NeighbourTable(Cfg(), dataset);
      TraceExists(nbh, minPts as nat);
      ghost var T :| IsTrace(nbh, minPts as nat, T) && T[|nbh|] == Clustered(nbh, minPts as nat);
      noise := [];
      var i: uint16 := 0;
      while i < nData
        invariant i <= nData && dataset == old(dataset) && nData == old(nData)
        invariant State(noise) == T[i] && nNoise as int + nClusters as int <= i as int
        invariant forall c :: 0 <= c < |clusters| ==> |clusters[c]| <= nData as int + 1
      {
        assert StepsTo(nbh, minPts as nat, T, i as nat);
        noise := ProcessPoint(i, noise);
        i := i + 1;
      }
    }

    /** Marks every member of the new cluster VISITED. */
    method MarkMembers(cur: seq<nat>)
      requires InRange(cur, |types|) && |cur| < 0x1_0000
      modifies this
      ensures types == MarkVisited(old(types), cur)
      ensures dataset == old(dataset) && clusters == old(clusters)
      ensures nData == old(nData) && nNoise == old(nNoise) && nClusters == old(nClusters)
    {
      var j: uint16 := 0;
      while (j as int) < |cur|
        invariant j as int <= |cur|
        invariant types == MarkVisited(old(types), cur[..j])
        invariant dataset == old(dataset) && clusters == old(clusters)
        invariant nData == old(nData) && nNoise == old(nNoise) && nClusters == old(nClusters)
      {
        assert cur[..j + 1][..j] == cur[..j];
        types := types[cur[j] := Visited];
        j := j + 1;
      }
      assert cur[..j] == cur;
    }

    /** The cluster seeded by point i: [i] enlarged from the neighbourhood of i. */
    method Seed(i: uint16, neighbours: seq<nat>) returns (cur: seq<nat>)
      requires Loaded() && i < nData
      requires neighbours == NeighbourTable(Cfg(), dataset)[i]
      requires nClusters as int <= |clusters| && ClustersFit()
      ensures cur == ExpandCluster(NeighbourTable(Cfg(), dataset), minPts as nat, types, clusters, nClusters as nat, i as nat)
      ensures |cur| <= nData as int + 1
    {
      ghost var nbh := NeighbourTable(Cfg(), dataset);
      cur := [i as nat];
      assert ExpandCluster(nbh, minPts as nat, types, clusters, nClusters as nat, i as nat)
          == ExpandRun(nbh, minPts as nat, types, clusters, nClusters as nat, neighbours, 0, cur).cluster;
      cur := EnlargeCluster(neighbours, cur);
      ClusterSize(nbh, minPts as nat, types, clusters, nClusters as nat, i as nat);
    }

    /** Stores a new cluster: every member is marked VISITED and the cluster is appended. */
    method NewCluster(cur: seq<nat>)
      requires |types| == nData as int && InRange(cur, nData as nat) && |cur| <= nData as int + 1 && nData < 0xFFFF
      requires nClusters as int == |clusters| && nClusters < nData
      modifies this
      ensures dataset == old(dataset) && nData == old(nData) && nNoise == old(nNoise)
      ensures types == MarkVisited(old(types), cur)
      ensures clusters == old(clusters) + [cur] && nClusters == old(nClusters) + 1
    {
      MarkMembers(cur);
      clusters := clusters + [cur];
      nClusters := nClusters + 1;
    }

    /** Point i becomes NOISE: it is tagged, appended to the noise list and counted. */
    method MarkNoise(i: uint16, noise: seq<nat>) returns (noise': seq<nat>)
      requires i as int < |types| && nNoise < 0xFFFF
      modifies this
      ensures types == old(types)[i := Noise] && noise' == noise + [i as nat] && nNoise == old(nNoise) + 1
      ensures dataset == old(dataset) && nData == old(nData) && clusters == old(clusters) && nClusters == old(nClusters)
    {
      types := types[i := Noise];
      noise' := noise + [i as nat];
      nNoise := nNoise + 1;
    }

    /**
     * The cluster branch of init's loop for point i, already marked VISITED
     * in the driver state st: the cluster seeded by i is built, its members
     * are marked VISITED and it is appended.
     */
    method ClusterStep(i: uint16, neighbours: seq<nat>, noise: seq<nat>, ghost st: RunState)
      requires Loaded() && i < nData && nData < 0xFFFF
      requires neighbours == NeighbourTable(Cfg(), dataset)[i]
      requires WellFormed(nData as nat, st) && st.nNoise + st.nClusters <= i as nat
      requires State(noise) == st.(types := st.types[i := Visited])
      requires forall c :: 0 <= c < |clusters| ==> |clusters[c]| <= nData as int + 1
      modifies this
      ensures dataset == old(dataset) && nData == old(nData)
      ensures State(noise) == AddCluster(st, i as nat, ExpandCluster(NeighbourTable(Cfg(), dataset), minPts as nat,
                                                                     st.types[i := Visited], st.clusters, st.nClusters, i as nat))
      ensures forall c :: 0 <= c < |clusters| ==> |clusters[c]| <= nData as int + 1
    {
      ghost var marked := types;
      var cur := Seed(i, neighbours);
      NewCluster(cur);
      assert types == MarkVisited(marked, cur) && clusters == st.clusters + [cur];
    }

    /**
     * One pass of init's loop over the points: a NOT_VISITED point is marked
     * VISITED, then becomes NOISE or seeds a new cluster, as in the driver's Step.
     */
    method ProcessPoint(i: uint16, noise: seq<nat>) returns (noise': seq<nat>)
      requires Loaded() && i < nData && nData < 0xFFFF
      requires WellFormed(nData as nat, State(noise))
      requires nNoise as int + nClusters as int <= i as int
      requires forall c :: 0 <= c < |clusters| ==> |clusters[c]| <= nData as int + 1
      modifies this
      ensures dataset == old(dataset) && nData == old(nData)
      ensures State(noise') == Step(NeighbourTable(Cfg(), dataset), minPts as nat, old(State(noise)), i as nat)
      ensures forall c :: 0 <= c < |clusters| ==> |clusters[c]| <= nData as int + 1
    {
      ghost var nbh := NeighbourTable(Cfg(), dataset);
      ghost var st := State(noise);
      noise' := noise;
      if types[i] == NotVisited {
        types := types[i := Visited];
        var neighbours := FindNeighbours(i);
        assert neighbours == nbh[i];
        if |neighbours| < minPts as int {
          noise' := MarkNoise(i, noise);
          assert State(noise') == AddNoise(st, i as nat);
        } else {
          ClusterStep(i, neighbours, noise', st);
        }
      }
    }

    /**
     * The search of predict through clusters 0 .. nClusters - 1 (slots 1 ..
     * nClusters) for point p: found tells whether some cluster holds p, and
     * then j is the lowest-numbered one.
     */
    method ClusterOf(p: uint16) returns (found: bool, j: uint16)
      requires SlotsExist(clusters, nClusters) && ClustersFit()
      ensures found == InSomeCluster(clusters, nClusters, p as nat)
      ensures found ==> InSomeCluster(clusters, nClusters, p as nat) && j as nat == FirstCluster(clusters, nClusters, p as nat, 0)
    {
      ghost var x: nat := p as nat;
      j := 0;
      while j < nClusters
        invariant j <= nClusters
        invariant forall c: nat :: c < j as nat ==> !InCluster(clusters, c, x)
      {
        var k: uint16 := 0;
        while (k as int) < |clusters[j + 1]|
          invariant k as int <= |clusters[j + 1]|
          invariant x !in clusters[j + 1][..k]
        {
          if clusters[j + 1][k] == p as nat {
            assert InCluster(clusters, j as nat, x);
            ghost var f := FirstCluster(clusters, nClusters, x, 0);
            assert !(f < j as nat) && !(j as nat < f);
            return true, j;
          }
          k := k + 1;
        }
        assert clusters[j + 1][..k] == clusters[j + 1];
        j := j + 1;
      }
      found := false;
    }

    /**
     * The cluster number of the first stored point strictly within epsilon
     * of v that belongs to a cluster: the lowest-numbered cluster holding it.
     * UNCLASSIFIED when there is no such point.
     */
    method Predict(v: seq<int>) returns (r: uint16)
      requires Loaded() && Measurable(v) && SlotsExist(clusters, nClusters) && ClustersFit()
      ensures r == PredictFrom(Cfg(), dataset, clusters, nClusters, v, 0)
    {
      var i: uint16 := 0;
      while i < nData
        invariant i <= nData
        invariant PredictFrom(Cfg(), dataset, clusters, nClusters, v, i as nat)
               == PredictFrom(Cfg(), dataset, clusters, nClusters, v, 0)
      {
        var d := Distance(v, dataset[i]);
        if d < epsilon {
          var found, j := ClusterOf(i);
          if found {
            assert Hit(Cfg(), dataset, clusters, nClusters, v, i as nat);
            return j;
          }
        }
        assert !Hit(Cfg(), dataset, clusters, nClusters, v, i as nat);
        i := i + 1;
      }
      r := UNCLASSIFIED;
    }
  }
}
