/**
 * The clustering engine as values: the neighbourhood query, the union step
 * and the cluster expansion. The class Engine.Dbscan runs the same steps
 * with loops over its fields and is proved to compute exactly these functions.
 */
module Clustering {
  import opened Types
  import opened Metrics

  /** What the constructor fixes: epsilon, minPts, the metric selector, the Minkowski exponent, the float metrics. */
  datatype Config = Config(epsilon: real, minPts: uint16, metric: uint8, mink: real, floatDist: FloatDistance)

  function Dist(cfg: Config, a: seq<int>, b: seq<int>): real
  {
    Distance(cfg.metric, cfg.mink, cfg.floatDist, a, b)
  }

  /** Two vectors are neighbours when their distance is at most epsilon. */
  predicate IsNeighbour(cfg: Config, a: seq<int>, b: seq<int>)
  {
    Dist(cfg, a, b) <= cfg.epsilon
  }

  predicate Increasing(s: seq<nat>)
  {
    forall i, j :: 0 <= i < j < |s| ==> s[i] < s[j]
  }

  predicate Distinct(s: seq<nat>)
  {
    forall i, j :: 0 <= i < j < |s| ==> s[i] != s[j]
  }

  predicate InRange(s: seq<nat>, n: nat)
  {
    forall i :: 0 <= i < |s| ==> s[i] < n
  }

  // ---------------------------------------------------------------------------
  // Neighbourhood query

  /** The indices below k whose point is a neighbour of v, in increasing order. */
  function NeighboursBelow(cfg: Config, ds: seq<seq<int>>, v: seq<int>, k: nat): (r: seq<nat>)
    requires k <= |ds|
    ensures Increasing(r) && Distinct(r)
    ensures forall x: nat :: x in r <==> x < k && IsNeighbour(cfg, v, ds[x])
    ensures InRange(r, k) && |r| <= k
  {
    if k == 0 then []
    else
      var r := NeighboursBelow(cfg, ds, v, k - 1);
      if IsNeighbour(cfg, v, ds[k - 1]) then r + [k - 1] else r
  }

  /** Every index of the dataset whose point is a neighbour of v, in increasing order. */
  function Neighbours(cfg: Config, ds: seq<seq<int>>, v: seq<int>): (r: seq<nat>)
    ensures Increasing(r) && Distinct(r) && InRange(r, |ds|) && |r| <= |ds|
    ensures forall x: nat :: x in r <==> x < |ds| && IsNeighbour(cfg, v, ds[x])
  {
    NeighboursBelow(cfg, ds, v, |ds|)
  }

  /** Each row of a neighbour table lists distinct indices of the table. */
  predicate TableOk(nbh: seq<seq<nat>>)
  {
    forall p :: 0 <= p < |nbh| ==> Distinct(nbh[p]) && InRange(nbh[p], |nbh|)
  }

  /**
   * The neighbourhood of every point of the dataset. The expansion and the
   * driver below depend on the distance only through this table.
   */
  function NeighbourTable(cfg: Config, ds: seq<seq<int>>): (nbh: seq<seq<nat>>)
    ensures |nbh| == |ds| && TableOk(nbh)
    ensures forall p :: 0 <= p < |ds| ==> nbh[p] == Neighbours(cfg, ds, ds[p])
  {
    seq(|ds|, p requires 0 <= p < |ds| => Neighbours(cfg, ds, ds[p]))
  }

  /** The set of entries of s. */
  function Elems(s: seq<nat>): set<nat>
  {
    set x | x in s
  }

  /** The indices 0, 1, ..., n - 1. */
  function Range(n: nat): (r: seq<nat>)
    ensures |r| == n && Distinct(r)
    ensures forall i :: 0 <= i < n ==> r[i] == i
    ensures forall x: nat :: x in r <==> x < n
  {
    if n == 0 then [] else Range(n - 1) + [n - 1]
  }

  lemma {:induction false} DistinctCard(s: seq<nat>)
    requires Distinct(s)
    ensures |Elems(s)| == |s|
  {
    if s != [] {
      var t := s[..|s| - 1];
      var last := s[|s| - 1];
      assert s == t + [last];
      assert Distinct(t);
      DistinctCard(t);
      assert last !in t;
      assert Elems(s) == Elems(t) + {last};
    }
  }

  /** A sequence without repeats whose entries are below n has at most n entries. */
  lemma DistinctBound(s: seq<nat>, n: nat)
    requires Distinct(s) && InRange(s, n)
    ensures |s| <= n
  {
    DistinctCard(s);
    DistinctCard(Range(n));
    assert Elems(s) <= Elems(Range(n));
    assert Elems(Range(n)) == Elems(s) + (Elems(Range(n)) - Elems(s));
  }

  /** A queue without repeats holds each index at most once. */
  lemma {:induction false} DistinctOnce(s: seq<nat>, x: nat)
    requires Distinct(s)
    ensures multiset(s)[x] <= 1
  {
    if s != [] {
      var t := s[..|s| - 1];
      assert s == t + [s[|s| - 1]];
      assert Distinct(t);
      DistinctOnce(t, x);
      if x == s[|s| - 1] {
        assert x !in t;
      }
    }
  }

  // ---------------------------------------------------------------------------
  // Union step of the expansion

  /**
   * Appends to q, in order, each entry of e that the growing q does not hold
   * yet. The result starts with q and holds exactly the entries of q and e.
   */
  function Merge(q: seq<nat>, e: seq<nat>): seq<nat>
    decreases |e|
  {
    if e == [] then q
    else Merge(if e[0] in q then q else q + [e[0]], e[1..])
  }

  /** Merge extends q, holds exactly the entries of q and e, and keeps a queue without repeats free of them. */
  lemma {:induction false} MergeContents(q: seq<nat>, e: seq<nat>)
    ensures q <= Merge(q, e)
    ensures forall x :: x in Merge(q, e) <==> x in q || x in e
    ensures Distinct(q) ==> Distinct(Merge(q, e))
    decreases |e|
  {
    if e != [] {
      var q' := if e[0] in q then q else q + [e[0]];
      MergeContents(q', e[1..]);
      assert forall x :: x in e <==> x == e[0] || x in e[1..];
      if Distinct(q) && e[0] !in q {
        forall a, b | 0 <= a < b < |q'|
          ensures q'[a] != q'[b]
        {
          if b == |q| {
            assert q[a] in q;
          }
        }
      }
    }
  }

  /** One step of Merge taken from position j of e. */
  lemma MergeFrom(q: seq<nat>, e: seq<nat>, j: nat)
    requires j < |e|
    ensures Merge(q, e[j..]) == Merge(if e[j] in q then q else q + [e[j]], e[j + 1..])
  {
    assert e[j..][0] == e[j] && e[j..][1..] == e[j + 1..];
  }

  /** An entry that Merge places after the end of a repeat-free q comes from e. */
  lemma MergeNew(q: seq<nat>, e: seq<nat>, p: nat)
    requires Distinct(q) && |q| <= p < |Merge(q, e)|
    ensures Merge(q, e)[p] in e
  {
    MergeContents(q, e);
    var r := Merge(q, e);
    assert r[p] in r;
    assert forall m :: 0 <= m < |q| ==> q[m] == r[m] != r[p];
  }

  lemma MergeInRange(q: seq<nat>, e: seq<nat>, n: nat)
    requires InRange(q, n) && InRange(e, n)
    ensures InRange(Merge(q, e), n)
  {
    MergeContents(q, e);
    var r := Merge(q, e);
    forall i | 0 <= i < |r|
      ensures r[i] < n
    {
      assert r[i] in r;
    }
  }

  // ---------------------------------------------------------------------------
  // Cluster expansion

  /** A candidate whose own neighbourhood joins the queue: not visited yet, with strictly more than minPts neighbours. */
  predicate Expands(nbh: seq<seq<nat>>, minPts: nat, types: seq<PointType>, p: nat)
    requires p < |nbh| == |types|
  {
    types[p] == NotVisited && |nbh[p]| > minPts
  }

  /**
   * x is a member of one of clusters[1], ..., clusters[nc - 1]. During the
   * scan clusters[0] is the first cluster found (the noise list is put in
   * front only after the scan), and it is not searched: a member of the
   * first cluster can join a later cluster too.
   */
  predicate InLaterClusters(clusters: seq<seq<nat>>, nc: nat, x: nat)
    requires nc <= |clusters|
  {
    exists j :: 1 <= j < nc && x in clusters[j]
  }

  /** The entries of s, in order, that are appended to the current cluster. */
  function Joining(clusters: seq<seq<nat>>, nc: nat, s: seq<nat>): seq<nat>
    requires nc <= |clusters|
  {
    if s == [] then []
    else (if InLaterClusters(clusters, nc, s[0]) then [] else [s[0]]) + Joining(clusters, nc, s[1..])
  }

  /** An entry joins exactly when it is not found in clusters[1 .. nc - 1]. */
  lemma {:induction false} JoiningMembers(clusters: seq<seq<nat>>, nc: nat, s: seq<nat>)
    requires nc <= |clusters|
    ensures forall x :: x in Joining(clusters, nc, s) <==> x in s && !InLaterClusters(clusters, nc, x)
  {
    if s != [] {
      JoiningMembers(clusters, nc, s[1..]);
      assert s == [s[0]] + s[1..];
    }
  }

  /** No entry joins more often than it occurs in s. */
  lemma {:induction false} JoiningCount(clusters: seq<seq<nat>>, nc: nat, s: seq<nat>)
    requires nc <= |clusters|
    ensures multiset(Joining(clusters, nc, s)) <= multiset(s)
  {
    if s != [] {
      JoiningCount(clusters, nc, s[1..]);
      assert s == [s[0]] + s[1..];
    }
  }

  /** Taking one entry off s: the cluster grows by that entry unless it is found in clusters[1 .. nc - 1]. */
  lemma JoiningStep(clusters: seq<seq<nat>>, nc: nat, s: seq<nat>, cur: seq<nat>)
    requires nc <= |clusters| && s != []
    ensures (if InLaterClusters(clusters, nc, s[0]) then cur else cur + [s[0]]) + Joining(clusters, nc, s[1..])
            == cur + Joining(clusters, nc, s)
  {
    var rest := Joining(clusters, nc, s[1..]);
    if InLaterClusters(clusters, nc, s[0]) {
      assert Joining(clusters, nc, s) == [] + rest;
      assert [] + rest == rest;
    } else {
      assert Joining(clusters, nc, s) == [s[0]] + rest;
      assert (cur + [s[0]]) + rest == cur + ([s[0]] + rest);
    }
  }

  /** What the expansion needs of its arguments: a neighbour table, one state per point, a queue without repeats. */
  predicate ExpandOk(nbh: seq<seq<nat>>, types: seq<PointType>, clusters: seq<seq<nat>>, nc: nat, q: seq<nat>, i: nat)
  {
    TableOk(nbh) && |types| == |nbh| && nc <= |clusters| && Distinct(q) && InRange(q, |nbh|) && i <= |q|
  }

  /** The work queue and the current cluster when the expansion has finished. */
  datatype Expansion = Expansion(queue: seq<nat>, cluster: seq<nat>)

  /**
   * The expansion loop from queue position i on: each queue entry is taken
   * once; an entry that Expands has its neighbourhood merged into the queue;
   * every entry not found in clusters[1 .. nc - 1] is appended to cur.
   */
  function ExpandRun(nbh: seq<seq<nat>>, minPts: nat, types: seq<PointType>, clusters: seq<seq<nat>>, nc: nat,
                     q: seq<nat>, i: nat, cur: seq<nat>): (e: Expansion)
    requires ExpandOk(nbh, types, clusters, nc, q, i)
    ensures Distinct(e.queue) && InRange(e.queue, |nbh|) && |e.queue| <= |nbh|
    ensures q <= e.queue
    ensures e.cluster == cur + Joining(clusters, nc, e.queue[i..])
    decreases |nbh| - i
  {
    DistinctBound(q, |nbh|);
    if i == |q| then
      assert q[i..] == [] && cur + [] == cur;
      Expansion(q, cur)
    else
      var index := q[i];
      var q' := if Expands(nbh, minPts, types, index) then Merge(q, nbh[index]) else q;
      MergeContents(q, nbh[index]);
      MergeInRange(q, nbh[index], |nbh|);
      var cur' := if InLaterClusters(clusters, nc, index) then cur else cur + [index];
      var e := ExpandRun(nbh, minPts, types, clusters, nc, q', i + 1, cur');
      var rest := e.queue[i..];
      assert rest[0] == index && rest[1..] == e.queue[i + 1..];
      JoiningStep(clusters, nc, rest, cur);
      e
  }

  /**
   * The expansion of a seed's neighbourhood, started with the cluster [seed]:
   * the seed comes first, then every queue entry not found in clusters[1 .. nc - 1].
   */
  function ExpandCluster(nbh: seq<seq<nat>>, minPts: nat, types: seq<PointType>, clusters: seq<seq<nat>>, nc: nat,
                         seed: nat): (c: seq<nat>)
    requires seed < |nbh| && ExpandOk(nbh, types, clusters, nc, nbh[seed], 0)
    ensures |c| >= 1 && c[0] == seed && InRange(c, |nbh|)
  {
    var e := ExpandRun(nbh, minPts, types, clusters, nc, nbh[seed], 0, [seed]);
    JoiningMembers(clusters, nc, e.queue);
    assert e.queue[0..] == e.queue;
    assert forall k :: 1 <= k < |e.cluster| ==> e.cluster[k] in Joining(clusters, nc, e.queue);
    e.cluster
  }

  /**
   * A cluster repeats no member except its seed, which may occur twice; so it
   * has at most one member more than there are points.
   */
  lemma ClusterSize(nbh: seq<seq<nat>>, minPts: nat, types: seq<PointType>, clusters: seq<seq<nat>>, nc: nat, seed: nat)
    requires seed < |nbh| && ExpandOk(nbh, types, clusters, nc, nbh[seed], 0)
    ensures var c := ExpandCluster(nbh, minPts, types, clusters, nc, seed);
            && |c| <= |nbh| + 1
            && multiset(c)[seed] <= 2
            && forall x :: x != seed ==> multiset(c)[x] <= 1
  {
    var e := ExpandRun(nbh, minPts, types, clusters, nc, nbh[seed], 0, [seed]);
    var c := ExpandCluster(nbh, minPts, types, clusters, nc, seed);
    assert e.queue[0..] == e.queue;
    var J := Joining(clusters, nc, e.queue);
    assert c == [seed] + J;
    JoiningCount(clusters, nc, e.queue);
    var mJ: multiset<nat> := multiset(J);
    var mQ: multiset<nat> := multiset(e.queue);
    assert mQ == mJ + (mQ - mJ);
    assert |J| == |mJ| <= |mQ| == |e.queue|;
    DistinctBound(e.queue, |nbh|);
    assert multiset(c) == multiset([seed]) + mJ;
    DistinctOnce(e.queue, seed);
    forall x | x != seed
      ensures multiset(c)[x] <= 1
    {
      DistinctOnce(e.queue, x);
    }
  }

  predicate ClosedFrom(nbh: seq<seq<nat>>, minPts: nat, types: seq<PointType>, Q: seq<nat>, i: nat)
    requires |types| == |nbh| && InRange(Q, |nbh|)
  {
    forall k, x :: i <= k < |Q| && Expands(nbh, minPts, types, Q[k]) && x in nbh[Q[k]] ==> x in Q
  }

  /** The finished queue is closed under expansion. */
  lemma {:induction false} ExpandClosed(nbh: seq<seq<nat>>, minPts: nat, types: seq<PointType>, clusters: seq<seq<nat>>,
                                        nc: nat, q: seq<nat>, i: nat, cur: seq<nat>)
    requires ExpandOk(nbh, types, clusters, nc, q, i)
    ensures ClosedFrom(nbh, minPts, types, ExpandRun(nbh, minPts, types, clusters, nc, q, i, cur).queue, i)
    decreases |nbh| - i
  {
    DistinctBound(q, |nbh|);
    if i < |q| {
      var index := q[i];
      var q' := if Expands(nbh, minPts, types, index) then Merge(q, nbh[index]) else q;
      MergeContents(q, nbh[index]);
      MergeInRange(q, nbh[index], |nbh|);
      var cur' := if InLaterClusters(clusters, nc, index) then cur else cur + [index];
      ExpandClosed(nbh, minPts, types, clusters, nc, q', i + 1, cur');
      var e := ExpandRun(nbh, minPts, types, clusters, nc, q, i, cur);
      assert e == ExpandRun(nbh, minPts, types, clusters, nc, q', i + 1, cur');
      assert ClosedFrom(nbh, minPts, types, e.queue, i + 1);
      assert e.queue[i] == index;
      forall k, x | i <= k < |e.queue| && Expands(nbh, minPts, types, e.queue[k]) && x in nbh[e.queue[k]]
        ensures x in e.queue
      {
        if k == i {
          assert x in q';
          var m :| 0 <= m < |q'| && q'[m] == x;
          assert e.queue[m] == x;
        }
      }
    }
  }

  /**
   * Every entry of Q from position start on is a neighbour of an EARLIER
   * entry of Q, from position i on, that Expands.
   */
  predicate SourcedFrom(nbh: seq<seq<nat>>, minPts: nat, types: seq<PointType>, Q: seq<nat>, start: nat, i: nat)
    requires |types| == |nbh| && InRange(Q, |nbh|)
  {
    forall p :: start <= p < |Q| ==>
      exists k :: i <= k < p && Expands(nbh, minPts, types, Q[k]) && Q[p] in nbh[Q[k]]
  }

  /** One pass of the expansion loop at position i extends the sources of q' to those of q. */
  lemma SourcedStep(nbh: seq<seq<nat>>, minPts: nat, types: seq<PointType>, Q: seq<nat>, q: seq<nat>, q': seq<nat>, i: nat)
    requires |types| == |nbh| && InRange(Q, |nbh|) && Distinct(q) && i < |q| && q[i] < |nbh|
    requires q' == if Expands(nbh, minPts, types, q[i]) then Merge(q, nbh[q[i]]) else q
    requires q' <= Q && SourcedFrom(nbh, minPts, types, Q, |q'|, i + 1)
    ensures SourcedFrom(nbh, minPts, types, Q, |q|, i)
  {
    MergeContents(q, nbh[q[i]]);
    assert Q[i] == q[i];
    forall p | |q| <= p < |Q|
      ensures exists k :: i <= k < p && Expands(nbh, minPts, types, Q[k]) && Q[p] in nbh[Q[k]]
    {
      if p < |q'| {
        MergeNew(q, nbh[q[i]], p);
        assert Q[p] == q'[p] && i < p;
        assert Expands(nbh, minPts, types, Q[i]) && Q[p] in nbh[Q[i]];
      } else {
        var k :| i + 1 <= k < p && Expands(nbh, minPts, types, Q[k]) && Q[p] in nbh[Q[k]];
      }
    }
  }

  /**
   * Every entry that the expansion appends to the queue comes from the
   * neighbourhood of an earlier queue entry, from position i on, that
   * Expands: so each appended entry is reached from the starting queue
   * through a chain of expanding entries.
   */
  lemma {:induction false} ExpandSources(nbh: seq<seq<nat>>, minPts: nat, types: seq<PointType>, clusters: seq<seq<nat>>,
                                         nc: nat, q: seq<nat>, i: nat, cur: seq<nat>)
    requires ExpandOk(nbh, types, clusters, nc, q, i)
    ensures SourcedFrom(nbh, minPts, types, ExpandRun(nbh, minPts, types, clusters, nc, q, i, cur).queue, |q|, i)
    decreases |nbh| - i
  {
    DistinctBound(q, |nbh|);
    var Q := ExpandRun(nbh, minPts, types, clusters, nc, q, i, cur).queue;
    if i < |q| {
      var index := q[i];
      var q' := if Expands(nbh, minPts, types, index) then Merge(q, nbh[index]) else q;
      MergeContents(q, nbh[index]);
      MergeInRange(q, nbh[index], |nbh|);
      var cur' := if InLaterClusters(clusters, nc, index) then cur else cur + [index];
      ExpandSources(nbh, minPts, types, clusters, nc, q', i + 1, cur');
      assert Q == ExpandRun(nbh, minPts, types, clusters, nc, q', i + 1, cur').queue;
      SourcedStep(nbh, minPts, types, Q, q, q', i);
    } else {
      assert Q == q;
    }
  }
}
