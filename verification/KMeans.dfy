/** Training the centroids: k-means++ seeding and Lloyd's iterations, over exact
    real arithmetic. */
module KMeans {
  import opened Geometry
  import opened Triangle
  import opened TriangleRounding

  const MAX_ITERS: nat := 6

  function Dist2(a: RVec, b: RVec): (s: real)
    ensures s >= 0.0
  {
    RDistNonNegative(a, b, DIMS);
    RDist(a, b, DIMS)
  }

  method SqDistF32(a: RVec, b: RVec) returns (s: real)
    ensures s == Dist2(a, b)
  {
    s := 0.0;
    for d := 0 to DIMS
      invariant s == RDist(a, b, d)
    {
      var diff := a[d] - b[d];
      s := s + SquareR(diff);
    }
  }

  // ----- Assignment -----

  /** c is the nearest centroid to v, the lowest index on ties. */
  ghost predicate NearestCentroid(v: RVec, cs: seq<RVec>, c: nat) {
    && c < |cs|
    && (forall k :: 0 <= k < |cs| ==> Dist2(v, cs[c]) <= Dist2(v, cs[k]))
    && (forall k :: 0 <= k < c ==> Dist2(v, cs[c]) < Dist2(v, cs[k]))
  }

  ghost predicate Assigns(assign: seq<nat>, n: nat, k: nat) {
    |assign| == n && forall i :: 0 <= i < n ==> assign[i] < k
  }

  method NearestOf(v: RVec, cs: seq<RVec>) returns (best: nat)
    requires cs != []
    ensures NearestCentroid(v, cs, best)
  {
    best := 0;
    var bestD := SqDistF32(v, cs[0]);
    for c := 1 to |cs|
      invariant best < c && bestD == Dist2(v, cs[best])
      invariant forall k :: 0 <= k < c ==> bestD <= Dist2(v, cs[k])
      invariant forall k :: 0 <= k < best ==> bestD < Dist2(v, cs[k])
    {
      var d := SqDistF32(v, cs[c]);
      if d < bestD {
        bestD, best := d, c;
      }
    }
  }

  method AssignSample(sample: seq<RVec>, cs: seq<RVec>) returns (assign: array<nat>)
    requires cs != []
    ensures fresh(assign) && Assigns(assign[..], |sample|, |cs|)
    ensures forall i :: 0 <= i < |sample| ==> NearestCentroid(sample[i], cs, assign[i])
  {
    assign := new nat[|sample|](_ => 0);
    for i := 0 to |sample|
      invariant forall j :: 0 <= j < i ==> NearestCentroid(sample[j], cs, assign[j])
    {
      assign[i] := NearestOf(sample[i], cs);
    }
  }

  // ----- Inertia -----

  /** Sum over the first n vectors of the squared distance to their centroid. */
  ghost function InertiaOf(sample: seq<RVec>, assign: seq<nat>, cs: seq<RVec>, n: nat): real
    requires n <= |sample| && Assigns(assign, |sample|, |cs|)
  {
    if n == 0 then 0.0 else InertiaOf(sample, assign, cs, n - 1) + Dist2(sample[n - 1], cs[assign[n - 1]])
  }

  method Inertia(sample: seq<RVec>, assign: seq<nat>, cs: seq<RVec>) returns (total: real)
    requires Assigns(assign, |sample|, |cs|)
    ensures total == InertiaOf(sample, assign, cs, |sample|)
  {
    total := 0.0;
    for i := 0 to |sample|
      invariant total == InertiaOf(sample, assign, cs, i)
    {
      var d := SqDistF32(sample[i], cs[assign[i]]);
      total := total + d;
    }
  }

  /** Assigning every vector to its nearest centroid is at least as good as any
      other assignment. */
  lemma {:induction false} NearestIsBest(sample: seq<RVec>, cs: seq<RVec>, best: seq<nat>, other: seq<nat>, n: nat)
    requires n <= |sample| && Assigns(best, |sample|, |cs|) && Assigns(other, |sample|, |cs|)
    requires forall i :: 0 <= i < |sample| ==> NearestCentroid(sample[i], cs, best[i])
    ensures InertiaOf(sample, best, cs, n) <= InertiaOf(sample, other, cs, n)
  {
    if 0 < n {
      NearestIsBest(sample, cs, best, other, n - 1);
      assert NearestCentroid(sample[n - 1], cs, best[n - 1]);
    }
  }

  // ----- One cluster: its count, its sums, its cost -----

  ghost function Count(assign: seq<nat>, c: nat, n: nat): nat
    requires n <= |assign|
  {
    if n == 0 then 0 else Count(assign, c, n - 1) + if assign[n - 1] == c then 1 else 0
  }

  ghost function SumOf(sample: seq<RVec>, assign: seq<nat>, c: nat, d: nat, n: nat): real
    requires n <= |assign| == |sample| && d < DIMS
  {
    if n == 0 then 0.0 else SumOf(sample, assign, c, d, n - 1) + if assign[n - 1] == c then sample[n - 1][d] else 0.0
  }

  /** What the members of cluster c cost with their centroid at p. */
  ghost function ClusterCost(sample: seq<RVec>, assign: seq<nat>, c: nat, p: RVec, n: nat): real
    requires n <= |assign| == |sample|
  {
    if n == 0 then 0.0
    else ClusterCost(sample, assign, c, p, n - 1) + if assign[n - 1] == c then Dist2(sample[n - 1], p) else 0.0
  }

  /** The cross term of moving the centroid of c from m to p, over k dimensions. */
  ghost function Cross(sample: seq<RVec>, assign: seq<nat>, c: nat, m: RVec, p: RVec, n: nat, k: nat): real
    requires n <= |assign| == |sample| && k <= DIMS
  {
    if n == 0 then 0.0
    else Cross(sample, assign, c, m, p, n - 1, k) + if assign[n - 1] == c then Dot(sample[n - 1], m, p, k) else 0.0
  }

  lemma {:induction false} CostMoves(sample: seq<RVec>, assign: seq<nat>, c: nat, m: RVec, p: RVec, n: nat)
    requires n <= |assign| == |sample|
    ensures ClusterCost(sample, assign, c, p, n) ==
            ClusterCost(sample, assign, c, m, n) + 2.0 * Cross(sample, assign, c, m, p, n, DIMS)
              + Scaled(Count(assign, c, n), Dist2(m, p))
  {
    if 0 < n {
      CostMoves(sample, assign, c, m, p, n - 1);
      if assign[n - 1] == c {
        RDistExpands(sample[n - 1], m, p, DIMS);
      }
    }
  }

  /** k times y. */
  ghost function Scaled(k: nat, y: real): (r: real)
    ensures y >= 0.0 ==> r >= 0.0
  {
    if k == 0 then 0.0 else Scaled(k - 1, y) + y
  }

  lemma OneMore(k: nat, x: real)
    ensures (k + 1) as real * x == k as real * x + x
  {
  }

  lemma {:induction false} ScaledIsProduct(k: nat, y: real)
    ensures Scaled(k, y) == k as real * y
  {
    if 0 < k {
      ScaledIsProduct(k - 1, y);
      OneMore(k - 1, y);
    }
  }

  /** Sum of the deviations of the members of c from m in dimension k. */
  ghost function Deviation(sample: seq<RVec>, assign: seq<nat>, c: nat, m: RVec, n: nat, k: nat): real
    requires n <= |assign| == |sample| && k < DIMS
  {
    if n == 0 then 0.0
    else Deviation(sample, assign, c, m, n - 1, k) + if assign[n - 1] == c then sample[n - 1][k] - m[k] else 0.0
  }

  lemma Distribute(a: real, b: real, y: real)
    ensures Times(a + b, y) == Times(a, y) + Times(b, y)
  {
  }

  /** Sum of the products of those deviations with y. */
  ghost function DeviationTimes(sample: seq<RVec>, assign: seq<nat>, c: nat, m: RVec, n: nat, k: nat, y: real): real
    requires n <= |assign| == |sample| && k < DIMS
  {
    if n == 0 then 0.0
    else DeviationTimes(sample, assign, c, m, n - 1, k, y)
         + if assign[n - 1] == c then Times(sample[n - 1][k] - m[k], y) else 0.0
  }

  lemma {:induction false} DeviationTimesIs(sample: seq<RVec>, assign: seq<nat>, c: nat, m: RVec, n: nat, k: nat,
                                            y: real)
    requires n <= |assign| == |sample| && k < DIMS
    ensures DeviationTimes(sample, assign, c, m, n, k, y) == Times(Deviation(sample, assign, c, m, n, k), y)
  {
    if 0 < n {
      DeviationTimesIs(sample, assign, c, m, n - 1, k, y);
      if assign[n - 1] == c {
        Distribute(Deviation(sample, assign, c, m, n - 1, k), sample[n - 1][k] - m[k], y);
      }
    }
  }

  lemma {:induction false} CrossOfDimension(sample: seq<RVec>, assign: seq<nat>, c: nat, m: RVec, p: RVec, n: nat,
                                            k: nat)
    requires n <= |assign| == |sample| && k < DIMS
    ensures Cross(sample, assign, c, m, p, n, k + 1) ==
            Cross(sample, assign, c, m, p, n, k) + DeviationTimes(sample, assign, c, m, n, k, m[k] - p[k])
  {
    if 0 < n {
      CrossOfDimension(sample, assign, c, m, p, n - 1, k);
    }
  }

  lemma {:induction false} DeviationIs(sample: seq<RVec>, assign: seq<nat>, c: nat, m: RVec, n: nat, k: nat)
    requires n <= |assign| == |sample| && k < DIMS
    ensures Deviation(sample, assign, c, m, n, k) == SumOf(sample, assign, c, k, n) - Scaled(Count(assign, c, n), m[k])
  {
    if 0 < n {
      DeviationIs(sample, assign, c, m, n - 1, k);
    }
  }

  /** p is the mean of the members of c. */
  ghost predicate IsMean(sample: seq<RVec>, assign: seq<nat>, c: nat, p: RVec)
    requires |assign| == |sample|
  {
    forall d :: 0 <= d < DIMS ==> SumOf(sample, assign, c, d, |sample|) == Count(assign, c, |sample|) as real * p[d]
  }

  lemma NoDeviation(sample: seq<RVec>, assign: seq<nat>, c: nat, m: RVec, k: nat)
    requires |assign| == |sample| && IsMean(sample, assign, c, m) && k < DIMS
    ensures Deviation(sample, assign, c, m, |sample|, k) == 0.0
  {
    DeviationIs(sample, assign, c, m, |sample|, k);
    ScaledIsProduct(Count(assign, c, |sample|), m[k]);
  }

  lemma ZeroTimes(a: real, y: real)
    requires a == 0.0
    ensures Times(a, y) == 0.0
  {
  }

  lemma {:induction false} MeanHasNoCross(sample: seq<RVec>, assign: seq<nat>, c: nat, m: RVec, p: RVec, k: nat)
    requires |assign| == |sample| && IsMean(sample, assign, c, m) && k <= DIMS
    ensures Cross(sample, assign, c, m, p, |sample|, k) == 0.0
  {
    if 0 < k {
      MeanHasNoCross(sample, assign, c, m, p, k - 1);
      CrossOfDimension(sample, assign, c, m, p, |sample|, k - 1);
      NoDeviation(sample, assign, c, m, k - 1);
      DeviationTimesIs(sample, assign, c, m, |sample|, k - 1, m[k - 1] - p[k - 1]);
      ZeroTimes(Deviation(sample, assign, c, m, |sample|, k - 1), m[k - 1] - p[k - 1]);
    } else {
      CrossOfNothing(sample, assign, c, m, p, |sample|);
    }
  }

  lemma {:induction false} CrossOfNothing(sample: seq<RVec>, assign: seq<nat>, c: nat, m: RVec, p: RVec, n: nat)
    requires n <= |assign| == |sample|
    ensures Cross(sample, assign, c, m, p, n, 0) == 0.0
  {
    if 0 < n {
      CrossOfNothing(sample, assign, c, m, p, n - 1);
    }
  }

  /** No point costs its members less than their mean. */
  lemma MeanIsBest(sample: seq<RVec>, assign: seq<nat>, c: nat, m: RVec, p: RVec)
    requires |assign| == |sample| && IsMean(sample, assign, c, m)
    ensures ClusterCost(sample, assign, c, m, |sample|) <= ClusterCost(sample, assign, c, p, |sample|)
  {
    CostMoves(sample, assign, c, m, p, |sample|);
    MeanHasNoCross(sample, assign, c, m, p, DIMS);
  }

  // ----- All clusters -----

  ghost function TotalCost(sample: seq<RVec>, assign: seq<nat>, cs: seq<RVec>, k: nat, n: nat): real
    requires n <= |assign| == |sample| && k <= |cs|
  {
    if k == 0 then 0.0 else TotalCost(sample, assign, cs, k - 1, n) + ClusterCost(sample, assign, k - 1, cs[k - 1], n)
  }

  lemma {:induction false} OneMoreVector(sample: seq<RVec>, assign: seq<nat>, cs: seq<RVec>, k: nat, n: nat)
    requires 0 < n <= |assign| == |sample| && k <= |cs|
    ensures TotalCost(sample, assign, cs, k, n) ==
            TotalCost(sample, assign, cs, k, n - 1)
            + if assign[n - 1] < k then Dist2(sample[n - 1], cs[assign[n - 1]]) else 0.0
  {
    if 0 < k {
      OneMoreVector(sample, assign, cs, k - 1, n);
    }
  }

  lemma {:induction false} NoVectors(sample: seq<RVec>, assign: seq<nat>, cs: seq<RVec>, k: nat)
    requires |assign| == |sample| && k <= |cs|
    ensures TotalCost(sample, assign, cs, k, 0) == 0.0
  {
    if 0 < k {
      NoVectors(sample, assign, cs, k - 1);
    }
  }

  lemma {:induction false} InertiaByCluster(sample: seq<RVec>, assign: seq<nat>, cs: seq<RVec>, n: nat)
    requires n <= |sample| && Assigns(assign, |sample|, |cs|)
    ensures InertiaOf(sample, assign, cs, n) == TotalCost(sample, assign, cs, |cs|, n)
  {
    if n == 0 {
      NoVectors(sample, assign, cs, |cs|);
    } else {
      InertiaByCluster(sample, assign, cs, n - 1);
      OneMoreVector(sample, assign, cs, |cs|, n);
    }
  }

  /** Every cluster with members has its mean for a centroid. */
  ghost predicate AtMeans(sample: seq<RVec>, assign: seq<nat>, cs: seq<RVec>)
    requires |assign| == |sample|
  {
    forall c :: 0 <= c < |cs| ==> IsMean(sample, assign, c, cs[c]) || Count(assign, c, |sample|) == 0
  }

  lemma {:induction false} EmptyCostsNothing(sample: seq<RVec>, assign: seq<nat>, c: nat, p: RVec, n: nat)
    requires n <= |assign| == |sample| && Count(assign, c, n) == 0
    ensures ClusterCost(sample, assign, c, p, n) == 0.0
  {
    if 0 < n {
      EmptyCostsNothing(sample, assign, c, p, n - 1);
    }
  }

  lemma {:induction false} MeansCostLeast(sample: seq<RVec>, assign: seq<nat>, ms: seq<RVec>, cs: seq<RVec>, k: nat)
    requires |assign| == |sample| && |ms| == |cs| && k <= |cs| && AtMeans(sample, assign, ms)
    ensures TotalCost(sample, assign, ms, k, |sample|) <= TotalCost(sample, assign, cs, k, |sample|)
  {
    if 0 < k {
      MeansCostLeast(sample, assign, ms, cs, k - 1);
      if Count(assign, k - 1, |sample|) == 0 {
        EmptyCostsNothing(sample, assign, k - 1, ms[k - 1], |sample|);
        EmptyCostsNothing(sample, assign, k - 1, cs[k - 1], |sample|);
      } else {
        MeanIsBest(sample, assign, k - 1, ms[k - 1], cs[k - 1]);
      }
    }
  }

  /** For a fixed assignment no centroids at all beat the means. */
  lemma MeansAreBest(sample: seq<RVec>, assign: seq<nat>, ms: seq<RVec>, cs: seq<RVec>)
    requires |ms| == |cs| && Assigns(assign, |sample|, |cs|) && AtMeans(sample, assign, ms)
    ensures InertiaOf(sample, assign, ms, |sample|) <= InertiaOf(sample, assign, cs, |sample|)
  {
    InertiaByCluster(sample, assign, ms, |sample|);
    InertiaByCluster(sample, assign, cs, |sample|);
    MeansCostLeast(sample, assign, ms, cs, |cs|);
  }

  // ----- Update -----

  ghost predicate Tallied(sample: seq<RVec>, assign: seq<nat>, sums: seq<RVec>, counts: seq<nat>, c: nat, n: nat)
    requires n <= |assign| == |sample| && c < |sums| == |counts|
  {
    counts[c] == Count(assign, c, n) && forall d :: 0 <= d < DIMS ==> sums[c][d] == SumOf(sample, assign, c, d, n)
  }

  method AddVector(sums: array<RVec>, c: nat, v: RVec)
    requires c < sums.Length
    modifies sums
    ensures forall d :: 0 <= d < DIMS ==> sums[c][d] == old(sums[c])[d] + v[d]
    ensures forall k :: 0 <= k < sums.Length && k != c ==> sums[k] == old(sums[k])
  {
    for d := 0 to DIMS
      invariant forall e :: 0 <= e < d ==> sums[c][e] == old(sums[c])[e] + v[e]
      invariant forall e :: d <= e < DIMS ==> sums[c][e] == old(sums[c])[e]
      invariant forall k :: 0 <= k < sums.Length && k != c ==> sums[k] == old(sums[k])
    {
      sums[c] := sums[c][d := sums[c][d] + v[d]];
    }
  }

  method Tally(sample: seq<RVec>, assign: seq<nat>, k: nat) returns (sums: array<RVec>, counts: array<nat>)
    requires Assigns(assign, |sample|, k)
    ensures fresh(sums) && fresh(counts) && sums.Length == counts.Length == k
    ensures forall c :: 0 <= c < k ==> Tallied(sample, assign, sums[..], counts[..], c, |sample|)
  {
    sums := new RVec[k](_ => ORIGIN);
    counts := new nat[k](_ => 0);
    for i := 0 to |sample|
      invariant forall c :: 0 <= c < k ==> Tallied(sample, assign, sums[..], counts[..], c, i)
    {
      ghost var s0, n0 := sums[..], counts[..];
      var c := assign[i];
      AddVector(sums, c, sample[i]);
      counts[c] := counts[c] + 1;
      ghost var s1, n1, next := sums[..], counts[..], i + 1;
      forall e | 0 <= e < k
        ensures Tallied(sample, assign, s1, n1, e, next)
      {
        assert Tallied(sample, assign, s0, n0, e, i);
      }
    }
  }

  const ORIGIN: RVec := [0.0, 0.0, 0.0, 0.0, 0.0, 0.0, 0.0, 0.0, 0.0, 0.0, 0.0, 0.0, 0.0, 0.0]

  lemma Reciprocal(n: nat, x: real, inv: real)
    requires n > 0 && inv == 1.0 / n as real
    ensures n as real * (x * inv) == x
  {
    assert n as real * inv == 1.0;
    assert n as real * (x * inv) == x * (n as real * inv);
  }

  method MeanOf(sum: RVec, count: nat) returns (m: RVec)
    requires count > 0
    ensures forall d :: 0 <= d < DIMS ==> sum[d] == count as real * m[d]
  {
    var inv := 1.0 / count as real;
    m := ORIGIN;
    for d := 0 to DIMS
      invariant forall e :: 0 <= e < d ==> sum[e] == count as real * m[e]
    {
      Reciprocal(count, sum[d], inv);
      m := m[d := sum[d] * inv];
    }
  }

  /** What an update makes of centroid c: the mean of its members, if it has any. */
  ghost predicate Updated(sample: seq<RVec>, assign: seq<nat>, c: nat, before: RVec, after: RVec)
    requires |assign| == |sample|
  {
    if Count(assign, c, |sample|) == 0 then after == before else IsMean(sample, assign, c, after)
  }

  /** Moves every centroid with members to their mean; the others stay. */
  method UpdateCentroids(sample: seq<RVec>, assign: seq<nat>, centroids: array<RVec>)
    requires Assigns(assign, |sample|, centroids.Length)
    modifies centroids
    ensures AtMeans(sample, assign, centroids[..])
    ensures forall c ::
              0 <= c < centroids.Length && Count(assign, c, |sample|) == 0 ==> centroids[c] == old(centroids[c])
  {
    var sums, counts := Tally(sample, assign, centroids.Length);
    ghost var s0, n0, cs0 := sums[..], counts[..], centroids[..];
    for c := 0 to centroids.Length
      invariant forall k :: 0 <= k < c ==> Updated(sample, assign, k, cs0[k], centroids[k])
      invariant forall k :: c <= k < centroids.Length ==> centroids[k] == cs0[k]
      invariant sums[..] == s0 && counts[..] == n0
    {
      assert Tallied(sample, assign, s0, n0, c, |sample|) && counts[c] == n0[c] && sums[c] == s0[c];
      if counts[c] == 0 {
        continue;
      }
      var m := MeanOf(sums[c], counts[c]);
      MeanUpdates(sample, assign, s0, n0, c, cs0[c], m);
      centroids[c] := m;
    }
    UpdatedAtMeans(sample, assign, cs0, centroids[..]);
  }

  lemma MeanUpdates(sample: seq<RVec>, assign: seq<nat>, sums: seq<RVec>, counts: seq<nat>, c: nat, before: RVec,
                    m: RVec)
    requires |assign| == |sample| && c < |sums| == |counts| && Tallied(sample, assign, sums, counts, c, |sample|)
    requires counts[c] > 0 && forall d :: 0 <= d < DIMS ==> sums[c][d] == counts[c] as real * m[d]
    ensures Updated(sample, assign, c, before, m)
  {
  }

  lemma UpdatedAtMeans(sample: seq<RVec>, assign: seq<nat>, before: seq<RVec>, after: seq<RVec>)
    requires Assigns(assign, |sample|, |after|) && |before| == |after|
    requires forall c :: 0 <= c < |after| ==> Updated(sample, assign, c, before[c], after[c])
    ensures AtMeans(sample, assign, after)
    ensures forall c :: 0 <= c < |after| && Count(assign, c, |sample|) == 0 ==> after[c] == before[c]
  {
  }

  // ----- Lloyd's iterations -----

  /** after is what one round makes of the centroids before: every vector at its
      nearest, every centroid with members at their mean, the others unchanged. */
  ghost predicate Round(sample: seq<RVec>, before: seq<RVec>, assign: seq<nat>, after: seq<RVec>) {
    && |before| == |after| && Assigns(assign, |sample|, |after|)
    && (forall i :: 0 <= i < |sample| ==> NearestCentroid(sample[i], before, assign[i]))
    && AtMeans(sample, assign, after)
    && forall c :: 0 <= c < |after| && Count(assign, c, |sample|) == 0 ==> after[c] == before[c]
  }

  /** One round of assign and update leaves the inertia no higher than it was under
      any earlier assignment. */
  method LloydRound(sample: seq<RVec>, centroids: array<RVec>) returns (assign: seq<nat>)
    requires centroids.Length > 0
    modifies centroids
    ensures Round(sample, old(centroids[..]), assign, centroids[..])
    ensures forall before :: Assigns(before, |sample|, centroids.Length) ==>
                               InertiaOf(sample, assign, centroids[..], |sample|) <=
                                 InertiaOf(sample, before, old(centroids[..]), |sample|)
  {
    ghost var cs := centroids[..];
    var a := AssignSample(sample, centroids[..]);
    assign := a[..];
    UpdateCentroids(sample, assign, centroids);
    MeansAreBest(sample, assign, centroids[..], cs);
    forall before | Assigns(before, |sample|, centroids.Length)
      ensures InertiaOf(sample, assign, centroids[..], |sample|) <= InertiaOf(sample, before, cs, |sample|)
    {
      NearestIsBest(sample, cs, assign, before, |sample|);
    }
  }

  ghost predicate Falling(trace: seq<real>) {
    forall i, j :: 0 <= i < j < |trace| ==> trace[j] <= trace[i]
  }

  /** All of a set of points lie in the cube of quantised coordinates. */
  ghost predicate AllInCube(ps: seq<RVec>) {
    forall i :: 0 <= i < |ps| ==> InCube(ps[i])
  }

  lemma {:induction false} SumInCube(sample: seq<RVec>, assign: seq<nat>, c: nat, d: nat, n: nat)
    requires n <= |assign| == |sample| && d < DIMS && AllInCube(sample)
    ensures -10000.0 * Count(assign, c, n) as real <= SumOf(sample, assign, c, d, n) <=
              10000.0 * Count(assign, c, n) as real
  {
    if 0 < n {
      SumInCube(sample, assign, c, d, n - 1);
      assert InCube(sample[n - 1]);
    }
  }

  lemma MeanInRange(n: nat, s: real, x: real)
    requires n > 0 && s == n as real * x && -10000.0 * n as real <= s <= 10000.0 * n as real
    ensures -10000.0 <= x <= 10000.0
  {
    if x > 10000.0 {
      TimesExceeds(n as real, x, 10000.0);
    } else if x < -10000.0 {
      TimesExceeds(n as real, -10000.0, x);
    }
  }

  lemma TimesExceeds(m: real, x: real, y: real)
    requires m > 0.0 && x > y
    ensures m * x > m * y
  {
    ProductPositive(m, x - y);
    assert m * (x - y) == m * x - m * y;
  }

  /** Centroids stay in the cube the vectors lie in. */
  lemma MeansStayInCube(sample: seq<RVec>, assign: seq<nat>, before: seq<RVec>, after: seq<RVec>)
    requires AllInCube(sample) && AllInCube(before) && |before| == |after| && Assigns(assign, |sample|, |after|)
    requires AtMeans(sample, assign, after)
    requires forall c :: 0 <= c < |after| && Count(assign, c, |sample|) == 0 ==> after[c] == before[c]
    ensures AllInCube(after)
  {
    forall c | 0 <= c < |after|
      ensures InCube(after[c])
    {
      var n := Count(assign, c, |sample|);
      if n > 0 {
        forall d | 0 <= d < DIMS
          ensures -10000.0 <= after[c][d] <= 10000.0
        {
          SumInCube(sample, assign, c, d, |sample|);
          MeanInRange(n, SumOf(sample, assign, c, d, |sample|), after[c][d]);
        }
      } else {
        assert InCube(before[c]);
      }
    }
  }

  // ----- k-means++ seeding -----

  /** Squared distance from v to the nearest of the first k centroids. */
  ghost function ToNearest(v: RVec, cs: seq<RVec>, k: nat): (r: real)
    requires 0 < k <= |cs|
  {
    if k == 1 then Dist2(v, cs[0])
    else if Dist2(v, cs[k - 1]) < ToNearest(v, cs, k - 1) then Dist2(v, cs[k - 1]) else ToNearest(v, cs, k - 1)
  }

  lemma {:induction false} ToNearestIsLeast(v: RVec, cs: seq<RVec>, k: nat)
    requires 0 < k <= |cs|
    ensures ToNearest(v, cs, k) >= 0.0
    ensures forall c :: 0 <= c < k ==> ToNearest(v, cs, k) <= Dist2(v, cs[c])
    ensures exists c :: 0 <= c < k && ToNearest(v, cs, k) == Dist2(v, cs[c])
  {
    if k > 1 {
      ToNearestIsLeast(v, cs, k - 1);
    }
  }

  lemma {:induction false} ToNearestKept(v: RVec, cs: seq<RVec>, ds: seq<RVec>, k: nat)
    requires 0 < k <= |cs| && k <= |ds| && forall c :: 0 <= c < k ==> ds[c] == cs[c]
    ensures ToNearest(v, ds, k) == ToNearest(v, cs, k)
  {
    if k > 1 {
      ToNearestKept(v, cs, ds, k - 1);
    }
  }

  /** A vector at distance zero from a centroid is that centroid. */
  lemma {:induction false} ZeroDistance(a: RVec, b: RVec, n: nat)
    requires n <= DIMS && RDist(a, b, n) <= 0.0
    ensures forall d :: 0 <= d < n ==> a[d] == b[d]
  {
    if 0 < n {
      RDistNonNegative(a, b, n - 1);
      var x := a[n - 1] - b[n - 1];
      ZeroSquare(x);
      assert RDist(a, b, n) == RDist(a, b, n - 1) + SquareR(x) && SquareR(x) >= 0.0;
      ZeroDistance(a, b, n - 1);
    }
  }

  lemma PositiveSquare(x: real)
    requires x > 0.0
    ensures SquareR(x) > 0.0
  {
    assert SquareR(x) / x == x;
  }

  lemma SquareIsEven(x: real)
    ensures SquareR(x) == SquareR(-x)
  {
  }

  lemma ZeroSquare(x: real)
    ensures x != 0.0 ==> SquareR(x) > 0.0
  {
    SquareIsEven(x);
    if x > 0.0 {
      PositiveSquare(x);
    } else if x < 0.0 {
      PositiveSquare(-x);
    }
  }

  ghost function PrefixSum(w: seq<real>, n: nat): real
    requires n <= |w|
  {
    if n == 0 then 0.0 else PrefixSum(w, n - 1) + w[n - 1]
  }

  /** pick is the first index whose running sum reaches r. */
  ghost predicate IsDraw(w: seq<real>, r: real, pick: nat) {
    && pick < |w| && PrefixSum(w, pick + 1) >= r
    && forall i: nat {:trigger PrefixSum(w, i)} :: 0 < i <= pick ==> PrefixSum(w, i) < r
  }

  /** The draw of one new centroid. */
  method PickWeighted(w: seq<real>, r: real) returns (pick: nat)
    requires w != [] && forall i :: 0 <= i < |w| ==> w[i] >= 0.0
    requires 0.0 <= r < PrefixSum(w, |w|)
    ensures IsDraw(w, r, pick)
    ensures pick < |w| && PrefixSum(w, pick) <= r <= PrefixSum(w, pick + 1)
    ensures r > 0.0 ==> w[pick] > 0.0 && PrefixSum(w, pick) < r
  {
    var acc := 0.0;
    pick := |w| - 1;
    for i := 0 to |w|
      invariant acc == PrefixSum(w, i)
      invariant i == 0 || acc < r
      invariant forall j: nat {:trigger PrefixSum(w, j)} :: 0 < j <= i ==> PrefixSum(w, j) < r
    {
      acc := acc + w[i];
      if acc >= r {
        return i;
      }
    }
    assert false;
  }

  method SumAll(w: seq<real>) returns (total: real)
    ensures total == PrefixSum(w, |w|)
  {
    total := 0.0;
    for i := 0 to |w|
      invariant total == PrefixSum(w, i)
    {
      total := total + w[i];
    }
  }

  lemma {:induction false} SumIsZero(w: seq<real>, n: nat)
    requires n <= |w| && (forall i :: 0 <= i < |w| ==> w[i] >= 0.0)
    ensures PrefixSum(w, n) >= 0.0
    ensures PrefixSum(w, n) <= 0.0 ==> forall i :: 0 <= i < n ==> w[i] == 0.0
  {
    if 0 < n {
      SumIsZero(w, n - 1);
    }
  }

  /** A stream of random draws: integers below the sample size, reals in [0, 1). */
  datatype Draws = Draws(ints: nat -> nat, floats: nat -> real)

  ghost predicate Fair(draws: Draws, n: nat) {
    (forall k :: draws.ints(k) < n) && forall k :: 0.0 <= draws.floats(k) < 1.0
  }

  ghost predicate NearestKnown(sample: seq<RVec>, cs: seq<RVec>, k: nat, d2: seq<real>)
    requires 0 < k <= |cs|
  {
    |d2| == |sample| && forall i :: 0 <= i < |sample| ==> d2[i] == ToNearest(sample[i], cs, k)
  }

  /** Folds the newest centroid into the distances to the nearest. */
  method UpdateNearest(sample: seq<RVec>, cs: seq<RVec>, k: nat, d2: array<real>)
    requires 0 < k < |cs| && NearestKnown(sample, cs, k, d2[..])
    modifies d2
    ensures NearestKnown(sample, cs, k + 1, d2[..])
  {
    for i := 0 to |sample|
      invariant forall j :: 0 <= j < i ==> d2[j] == ToNearest(sample[j], cs, k + 1)
      invariant forall j :: i <= j < |sample| ==> d2[j] == ToNearest(sample[j], cs, k)
    {
      var d := SqDistF32(sample[i], cs[k]);
      if d < d2[i] {
        d2[i] := d;
      }
    }
  }

  ghost predicate FromSample(sample: seq<RVec>, cs: seq<RVec>, k: nat)
    requires k <= |cs|
  {
    forall c :: 0 <= c < k ==> cs[c] in sample
  }

  /** Squared distances to the nearest of the centroids so far. */
  ghost function Distances(sample: seq<RVec>, cs: seq<RVec>): (d2: seq<real>)
    requires cs != []
    ensures |d2| == |sample| && forall i :: 0 <= i < |sample| ==> d2[i] == ToNearest(sample[i], cs, |cs|)
  {
    seq(|sample|, i requires 0 <= i < |sample| => ToNearest(sample[i], cs, |cs|))
  }

  function Share(u: real, total: real): real {
    u * total
  }

  /** What the draws r and u make the next centroid after cs. */
  ghost predicate IsNext(sample: seq<RVec>, cs: seq<RVec>, r: nat, u: real, pick: nat)
    requires cs != []
  {
    var d2 := Distances(sample, cs);
    if PrefixSum(d2, |d2|) <= 0.0 then pick == r else IsDraw(d2, Share(u, PrefixSum(d2, |d2|)), pick)
  }

  /** In proportion to the squared distances: the draws that select an index are those
      between the shares of the total that end before it and with it. So a draw of 0
      selects the first, and what an index gets is an interval as long as its share. */
  lemma DrawInProportion(sample: seq<RVec>, cs: seq<RVec>, r: nat, u: real, pick: nat, d2: seq<real>, total: real,
                         x: real)
    requires cs != [] && d2 == Distances(sample, cs) && pick < |sample|
    requires total == PrefixSum(d2, |d2|) > 0.0 && 0.0 <= u < 1.0 && x == u * total
    ensures IsNext(sample, cs, r, u, pick) <==>
              if u == 0.0 then pick == 0 else PrefixSum(d2, pick) < x <= PrefixSum(d2, pick + 1)
    ensures IsNext(sample, cs, r, u, pick) ==> PrefixSum(d2, pick) <= x <= PrefixSum(d2, pick + 1)
  {
    ShareIs(u, total, x);
    NextInShare(sample, cs, r, u, pick, d2, total, x);
  }

  lemma NextInShare(sample: seq<RVec>, cs: seq<RVec>, r: nat, u: real, pick: nat, d2: seq<real>, total: real, x: real)
    requires cs != [] && d2 == Distances(sample, cs) && pick < |sample|
    requires total == PrefixSum(d2, |d2|) > 0.0 && x == Share(u, total) && x >= 0.0 && (x == 0.0 <==> u == 0.0)
    ensures IsNext(sample, cs, r, u, pick) <==>
              if u == 0.0 then pick == 0 else PrefixSum(d2, pick) < x <= PrefixSum(d2, pick + 1)
    ensures IsNext(sample, cs, r, u, pick) ==> PrefixSum(d2, pick) <= x <= PrefixSum(d2, pick + 1)
  {
    NextIsDraw(sample, cs, r, u, pick, d2, total, x);
    DistancesNotNegative(sample, cs);
    DrawBetween(d2, x, pick);
  }

  lemma ShareIs(u: real, total: real, x: real)
    requires 0.0 <= u < 1.0 && total > 0.0 && x == u * total
    ensures x == Share(u, total) && x >= 0.0 && (x == 0.0 <==> u == 0.0)
  {
    ScaledDraw(u, total, x);
  }

  lemma NextIsDraw(sample: seq<RVec>, cs: seq<RVec>, r: nat, u: real, pick: nat, d2: seq<real>, total: real, x: real)
    requires cs != [] && d2 == Distances(sample, cs) && total == PrefixSum(d2, |d2|) > 0.0 && x == Share(u, total)
    ensures IsNext(sample, cs, r, u, pick) <==> IsDraw(d2, x, pick)
  {
  }

  lemma DistancesNotNegative(sample: seq<RVec>, cs: seq<RVec>)
    requires cs != []
    ensures forall i :: 0 <= i < |sample| ==> Distances(sample, cs)[i] >= 0.0
  {
    forall i | 0 <= i < |sample|
      ensures Distances(sample, cs)[i] >= 0.0
    {
      ToNearestIsLeast(sample[i], cs, |cs|);
    }
  }

  /** A running sum of weights does not fall. */
  lemma {:induction false} PrefixSumGrows(w: seq<real>, m: nat, n: nat)
    requires m <= n <= |w| && forall i :: 0 <= i < |w| ==> w[i] >= 0.0
    ensures PrefixSum(w, m) <= PrefixSum(w, n)
    decreases n
  {
    if m < n {
      PrefixSumGrows(w, m, n - 1);
    }
  }

  lemma DrawBetween(w: seq<real>, x: real, pick: nat)
    requires pick < |w| && 0.0 <= x && forall i :: 0 <= i < |w| ==> w[i] >= 0.0
    ensures IsDraw(w, x, pick) <==>
              if x == 0.0 then pick == 0 else PrefixSum(w, pick) < x <= PrefixSum(w, pick + 1)
    ensures IsDraw(w, x, pick) ==> PrefixSum(w, pick) <= x <= PrefixSum(w, pick + 1)
  {
    forall i: nat {:trigger PrefixSum(w, i)} | i <= pick
      ensures 0.0 <= PrefixSum(w, i) <= PrefixSum(w, pick)
    {
      PrefixSumGrows(w, 0, i);
      PrefixSumGrows(w, i, pick);
    }
    PrefixSumGrows(w, 0, pick + 1);
    assert PrefixSum(w, 0) == 0.0;
  }

  /** The first k centroids are those the draws select. */
  ghost predicate Seeded(sample: seq<RVec>, cs: seq<RVec>, draws: Draws, k: nat)
    requires k <= |cs|
  {
    forall j :: 0 <= j < k ==> SeededAt(sample, cs, draws, j)
  }

  ghost predicate SeededAt(sample: seq<RVec>, cs: seq<RVec>, draws: Draws, j: nat)
    requires j < |cs|
  {
    if j == 0 then draws.ints(0) < |sample| && cs[0] == sample[draws.ints(0)]
    else exists pick: nat ::
           pick < |sample| && cs[j] == sample[pick] && IsNext(sample, cs[..j], draws.ints(j), draws.floats(j), pick)
  }

  lemma SeededKept(sample: seq<RVec>, cs: seq<RVec>, ds: seq<RVec>, draws: Draws, k: nat)
    requires k <= |cs| == |ds| && cs[..k] == ds[..k] && Seeded(sample, cs, draws, k)
    ensures Seeded(sample, ds, draws, k)
  {
    forall j | 0 <= j < k
      ensures SeededAt(sample, ds, draws, j)
    {
      assert SeededAt(sample, cs, draws, j);
      assert cs[j] == cs[..k][j] == ds[..k][j] == ds[j];
      assert cs[..j] == cs[..k][..j] == ds[..k][..j] == ds[..j];
    }
  }

  /** The distances kept up to date are those to the centroids so far. */
  lemma KnownDistances(sample: seq<RVec>, cs: seq<RVec>, k: nat, d2: seq<real>)
    requires 0 < k <= |cs| && NearestKnown(sample, cs, k, d2)
    ensures d2 == Distances(sample, cs[..k])
  {
    forall i | 0 <= i < |sample|
      ensures d2[i] == Distances(sample, cs[..k])[i]
    {
      ToNearestKept(sample[i], cs[..k], cs, k);
    }
  }

  ghost predicate AllDifferent(cs: seq<RVec>, k: nat)
    requires k <= |cs|
  {
    forall a, b :: 0 <= a < b < k ==> cs[a] != cs[b]
  }

  /** The next centroid: drawn in proportion to the squared distances, or at random
      when they are all zero. */
  method NextSeed(sample: seq<RVec>, ghost cs: seq<RVec>, ghost k: nat, d2: seq<real>, r: nat, u: real)
    returns (pick: nat, drawn: bool)
    requires sample != [] && 0 < k <= |cs| && NearestKnown(sample, cs, k, d2) && r < |sample| && 0.0 <= u < 1.0
    ensures pick < |sample| && IsNext(sample, cs[..k], r, u, pick)
    ensures !drawn <==> forall i :: 0 <= i < |sample| ==> d2[i] == 0.0
    ensures drawn && u > 0.0 ==> d2[pick] > 0.0
  {
    forall i | 0 <= i < |sample|
      ensures d2[i] >= 0.0
    {
      ToNearestIsLeast(sample[i], cs, k);
    }
    SumIsZero(d2, |d2|);
    KnownDistances(sample, cs, k, d2);
    var total := SumAll(d2);
    if total <= 0.0 {
      return r, false;
    }
    TotalNotZero(d2, |d2|);
    var x := Share(u, total);
    ScaledDraw(u, total, x);
    pick := PickWeighted(d2, x);
    drawn := true;
  }

  lemma ScaledDraw(u: real, total: real, x: real)
    requires 0.0 <= u < 1.0 && total > 0.0 && x == Share(u, total)
    ensures 0.0 <= x < total && (u > 0.0 ==> x > 0.0)
  {
  }

  lemma {:induction false} TotalNotZero(w: seq<real>, n: nat)
    requires n <= |w|
    ensures PrefixSum(w, n) > 0.0 ==> exists i :: 0 <= i < n && w[i] != 0.0
  {
    if 0 < n {
      TotalNotZero(w, n - 1);
    }
  }

  /** A vector away from every centroid so far is a new one. */
  lemma FarIsNew(v: RVec, cs: seq<RVec>, k: nat)
    requires 0 < k <= |cs| && ToNearest(v, cs, k) > 0.0
    ensures forall c :: 0 <= c < k ==> cs[c] != v
  {
    ToNearestIsLeast(v, cs, k);
    NoDistance(v, DIMS);
    assert Dist2(v, v) == 0.0;
  }

  ghost function Points(s: seq<RVec>, n: nat): set<RVec>
    requires n <= |s|
  {
    set i | 0 <= i < n :: s[i]
  }

  lemma {:induction false} PointsBound(s: seq<RVec>, n: nat)
    requires n <= |s|
    ensures |Points(s, n)| <= n
  {
    if n > 0 {
      PointsBound(s, n - 1);
      assert Points(s, n) == Points(s, n - 1) + {s[n - 1]};
    } else {
      assert Points(s, 0) == {};
    }
  }

  lemma SubsetNoLarger(a: set<RVec>, b: set<RVec>)
    requires a <= b
    ensures |a| <= |b|
  {
    assert b == a + (b - a);
    assert |b| == |a| + |b - a|;
  }

  /** When every vector is at distance zero, the sample has no more different
      vectors than there are centroids. */
  lemma AllZeroCovers(sample: seq<RVec>, cs: seq<RVec>, k: nat, d2: seq<real>)
    requires 0 < k <= |cs| && NearestKnown(sample, cs, k, d2) && forall i :: 0 <= i < |sample| ==> d2[i] == 0.0
    ensures |Points(sample, |sample|)| <= k
  {
    forall v | v in Points(sample, |sample|)
      ensures v in Points(cs, k)
    {
      var i :| 0 <= i < |sample| && sample[i] == v;
      ToNearestIsLeast(v, cs, k);
      var c :| 0 <= c < k && ToNearest(v, cs, k) == Dist2(v, cs[c]);
      ZeroDistance(v, cs[c], DIMS);
      assert v == cs[c];
    }
    SubsetNoLarger(Points(sample, |sample|), Points(cs, k));
    PointsBound(cs, k);
  }

  /** k-means++: the seeds are sample vectors, and different ones if the sample has
      enough different vectors and no draw is exactly zero. */
  method InitKMeansPlusPlus(sample: seq<RVec>, centroids: array<RVec>, draws: Draws)
    requires sample != [] && centroids.Length > 0 && Fair(draws, |sample|)
    modifies centroids
    ensures FromSample(sample, centroids[..], centroids.Length)
            && Seeded(sample, centroids[..], draws, centroids.Length)
    ensures (forall k :: draws.floats(k) > 0.0) && |Points(sample, |sample|)| >= centroids.Length ==>
              AllDifferent(centroids[..], centroids.Length)
  {
    centroids[0] := sample[draws.ints(0)];
    var d2 := FirstDistances(sample, centroids[..]);
    ghost var rich := (forall k :: draws.floats(k) > 0.0) && |Points(sample, |sample|)| >= centroids.Length;
    for k := 1 to centroids.Length
      invariant d2.Length == |sample|
      invariant FromSample(sample, centroids[..], k) && NearestKnown(sample, centroids[..], k, d2[..])
      invariant Seeded(sample, centroids[..], draws, k)
      invariant rich ==> AllDifferent(centroids[..], k)
    {
      SeedOne(sample, centroids, k, d2, draws, rich);
    }
  }

  /** Distances to the first centroid. */
  method FirstDistances(sample: seq<RVec>, cs: seq<RVec>) returns (d2: array<real>)
    requires cs != []
    ensures fresh(d2) && d2.Length == |sample| && NearestKnown(sample, cs, 1, d2[..])
  {
    d2 := new real[|sample|](_ => 0.0);
    for i := 0 to |sample|
      invariant forall j :: 0 <= j < i ==> d2[j] == ToNearest(sample[j], cs, 1)
    {
      d2[i] := SqDistF32(sample[i], cs[0]);
    }
  }

  method SeedOne(sample: seq<RVec>, centroids: array<RVec>, k: nat, d2: array<real>, draws: Draws, ghost rich: bool)
    requires sample != [] && 0 < k < centroids.Length && d2.Length == |sample| && Fair(draws, |sample|)
    requires FromSample(sample, centroids[..], k) && NearestKnown(sample, centroids[..], k, d2[..])
             && Seeded(sample, centroids[..], draws, k)
    requires rich ==>
               AllDifferent(centroids[..], k) && draws.floats(k) > 0.0 && |Points(sample, |sample|)| >= centroids.Length
    modifies centroids, d2
    ensures FromSample(sample, centroids[..], k + 1) && NearestKnown(sample, centroids[..], k + 1, d2[..])
    ensures Seeded(sample, centroids[..], draws, k + 1)
    ensures rich ==> AllDifferent(centroids[..], k + 1)
  {
    ghost var cs := centroids[..];
    var pick, drawn := NextSeed(sample, cs, k, d2[..], draws.ints(k), draws.floats(k));
    if rich {
      if !drawn {
        AllZeroCovers(sample, cs, k, d2[..]);
        assert false;
      }
      FarIsNew(sample[pick], cs, k);
    }
    centroids[k] := sample[pick];
    OneMoreSeed(sample, cs, centroids[..], draws, k, pick);
    Refresh(sample, cs, centroids[..], k, d2, drawn);
  }

  lemma OneMoreSeed(sample: seq<RVec>, cs: seq<RVec>, ds: seq<RVec>, draws: Draws, k: nat, pick: nat)
    requires 0 < k < |cs| && pick < |sample| && ds == cs[k := sample[pick]]
    requires Seeded(sample, cs, draws, k) && IsNext(sample, cs[..k], draws.ints(k), draws.floats(k), pick)
    ensures Seeded(sample, ds, draws, k + 1)
  {
    assert ds[..k] == cs[..k];
    SeededKept(sample, cs, ds, draws, k);
    assert SeededAt(sample, ds, draws, k);
  }

  /** Brings the distances up to date with centroid k. */
  method Refresh(sample: seq<RVec>, ghost cs: seq<RVec>, ds: seq<RVec>, k: nat, d2: array<real>, drawn: bool)
    requires 0 < k < |cs| == |ds| && d2.Length == |sample| && NearestKnown(sample, cs, k, d2[..])
    requires forall c :: 0 <= c < k ==> ds[c] == cs[c]
    requires !drawn ==> forall i :: 0 <= i < |sample| ==> d2[i] == 0.0
    modifies d2
    ensures NearestKnown(sample, ds, k + 1, d2[..])
  {
    forall i | 0 <= i < |sample|
      ensures d2[i] == ToNearest(sample[i], ds, k)
    {
      ToNearestKept(sample[i], cs, ds, k);
    }
    if drawn {
      UpdateNearest(sample, ds, k, d2);
    } else {
      StillZero(sample, ds, k, d2[..]);
    }
  }

  /** Without a draw the distances, all zero, need no refresh. */
  lemma StillZero(sample: seq<RVec>, cs: seq<RVec>, k: nat, d2: seq<real>)
    requires 0 < k < |cs| && NearestKnown(sample, cs, k, d2) && forall i :: 0 <= i < |sample| ==> d2[i] == 0.0
    ensures NearestKnown(sample, cs, k + 1, d2)
  {
  }

  // ----- Training -----

  lemma SeedsInCube(sample: seq<RVec>, cs: seq<RVec>)
    requires AllInCube(sample) && FromSample(sample, cs, |cs|)
    ensures AllInCube(cs)
  {
  }

  /** The centroids after seeding and after each iteration, and the assignment each
      iteration makes. */
  ghost predicate Trained(sample: seq<RVec>, draws: Draws, states: seq<seq<RVec>>, assigns: seq<seq<nat>>) {
    && |states| == |assigns| + 1
    && FromSample(sample, states[0], |states[0]|) && Seeded(sample, states[0], draws, |states[0]|)
    && forall i :: 0 <= i < |assigns| ==> RoundAt(sample, states, assigns, i)
  }

  ghost predicate RoundAt(sample: seq<RVec>, states: seq<seq<RVec>>, assigns: seq<seq<nat>>, i: nat)
    requires i < |assigns| && |states| == |assigns| + 1
  {
    Round(sample, states[i], assigns[i], states[i + 1])
  }

  /** The inertia each iteration leaves. */
  ghost predicate Traces(sample: seq<RVec>, states: seq<seq<RVec>>, assigns: seq<seq<nat>>, trace: seq<real>) {
    && |states| == |assigns| + 1 && |trace| == |assigns|
    && forall i :: 0 <= i < |assigns| ==> TracesAt(sample, states, assigns, trace, i)
  }

  ghost predicate TracesAt(sample: seq<RVec>, states: seq<seq<RVec>>, assigns: seq<seq<nat>>, trace: seq<real>, i: nat)
    requires i < |assigns| == |trace| && |states| == |assigns| + 1
  {
    Assigns(assigns[i], |sample|, |states[i + 1]|) && trace[i] == InertiaOf(sample, assigns[i], states[i + 1], |sample|)
  }

  /** Seeding, then the iterations: the inertia never rises from one to the next. */
  method TrainKMeans(sample: seq<RVec>, k: nat, draws: Draws)
    returns (centroids: array<RVec>, ghost states: seq<seq<RVec>>, ghost assigns: seq<seq<nat>>, ghost trace: seq<real>)
    requires sample != [] && k > 0 && Fair(draws, |sample|) && AllInCube(sample)
    ensures fresh(centroids) && centroids.Length == k && AllInCube(centroids[..])
    ensures |assigns| == 6 && Trained(sample, draws, states, assigns)
    ensures |states[0]| == k && centroids[..] == states[6]
    ensures Traces(sample, states, assigns, trace) && Falling(trace)
  {
    centroids := new RVec[k](_ => ORIGIN);
    InitKMeansPlusPlus(sample, centroids, draws);
    SeedsInCube(sample, centroids[..]);
    states, assigns, trace := [centroids[..]], [], [];
    for iter := 0 to MAX_ITERS
      invariant AllInCube(centroids[..]) && |assigns| == iter
      invariant Trained(sample, draws, states, assigns) && |states[0]| == k && centroids[..] == states[iter]
      invariant Traces(sample, states, assigns, trace) && Falling(trace)
    {
      ghost var before := centroids[..];
      var assign := LloydRound(sample, centroids);
      MeansStayInCube(sample, assign, before, centroids[..]);
      ghost var now := InertiaOf(sample, assign, centroids[..], |sample|);
      if iter > 0 {
        ghost var last := assigns[iter - 1];
        assert TracesAt(sample, states, assigns, trace, iter - 1);
        assert Assigns(last, |sample|, k);
      }
      TrainedMore(sample, draws, states, assigns, assign, centroids[..]);
      TracesMore(sample, states, assigns, trace, assign, centroids[..]);
      FallingMore(trace, now);
      states, assigns, trace := states + [centroids[..]], assigns + [assign], trace + [now];
    }
  }

  lemma TrainedMore(sample: seq<RVec>, draws: Draws, states: seq<seq<RVec>>, assigns: seq<seq<nat>>, assign: seq<nat>,
                    after: seq<RVec>)
    requires Trained(sample, draws, states, assigns) && Round(sample, states[|assigns|], assign, after)
    ensures Trained(sample, draws, states + [after], assigns + [assign])
  {
    var states', assigns' := states + [after], assigns + [assign];
    assert states'[0] == states[0];
    forall i | 0 <= i < |assigns'|
      ensures RoundAt(sample, states', assigns', i)
    {
      if i < |assigns| {
        assert RoundAt(sample, states, assigns, i);
        assert states'[i] == states[i] && states'[i + 1] == states[i + 1] && assigns'[i] == assigns[i];
      }
    }
  }

  lemma TracesMore(sample: seq<RVec>, states: seq<seq<RVec>>, assigns: seq<seq<nat>>, trace: seq<real>,
                   assign: seq<nat>, after: seq<RVec>)
    requires Traces(sample, states, assigns, trace) && Assigns(assign, |sample|, |after|)
    ensures Traces(sample, states + [after], assigns + [assign], trace + [InertiaOf(sample, assign, after, |sample|)])
  {
    var states', assigns', trace' :=
      states + [after], assigns + [assign], trace + [InertiaOf(sample, assign, after, |sample|)];
    forall i | 0 <= i < |assigns'|
      ensures TracesAt(sample, states', assigns', trace', i)
    {
      if i < |assigns| {
        assert TracesAt(sample, states, assigns, trace, i);
        assert states'[i + 1] == states[i + 1] && assigns'[i] == assigns[i] && trace'[i] == trace[i];
      }
    }
  }

  lemma FallingMore(trace: seq<real>, x: real)
    requires Falling(trace) && (trace != [] ==> x <= trace[|trace| - 1])
    ensures Falling(trace + [x])
  {
  }

  // ----- A sample with fewer different vectors than centroids -----

  lemma {:induction false} SumOfEqual(sample: seq<RVec>, assign: seq<nat>, c: nat, v: RVec, d: nat, n: nat)
    requires n <= |assign| == |sample| && d < DIMS && forall i :: 0 <= i < n && assign[i] == c ==> sample[i] == v
    ensures SumOf(sample, assign, c, d, n) == Scaled(Count(assign, c, n), v[d])
  {
    if 0 < n {
      SumOfEqual(sample, assign, c, v, d, n - 1);
    }
  }

  lemma CancelFactor(k: nat, x: real, y: real)
    requires k > 0 && k as real * x == k as real * y
    ensures x == y
  {
  }

  /** The mean of equal vectors is that vector. */
  lemma MeanOfEqual(sample: seq<RVec>, assign: seq<nat>, c: nat, v: RVec, p: RVec)
    requires |assign| == |sample| && Count(assign, c, |sample|) > 0 && IsMean(sample, assign, c, p)
    requires forall i :: 0 <= i < |sample| && assign[i] == c ==> sample[i] == v
    ensures p == v
  {
    var k := Count(assign, c, |sample|);
    forall d | 0 <= d < DIMS
      ensures p[d] == v[d]
    {
      SumOfEqual(sample, assign, c, v, d, |sample|);
      ScaledIsProduct(k, v[d]);
      CancelFactor(k, p[d], v[d]);
    }
  }

  /** A vector that is a centroid is assigned to a centroid equal to it. */
  lemma AssignedToItself(v: RVec, cs: seq<RVec>, c: nat)
    requires v in cs && NearestCentroid(v, cs, c)
    ensures cs[c] == v
  {
    var k :| 0 <= k < |cs| && cs[k] == v;
    NoDistance(v, DIMS);
    assert Dist2(v, cs[k]) == 0.0;
    ZeroDistance(v, cs[c], DIMS);
  }

  /** Once every sample vector is a centroid, a round changes nothing. */
  lemma SettledRound(sample: seq<RVec>, before: seq<RVec>, assign: seq<nat>, after: seq<RVec>)
    requires Round(sample, before, assign, after) && forall i :: 0 <= i < |sample| ==> sample[i] in before
    ensures after == before
  {
    forall c | 0 <= c < |after|
      ensures after[c] == before[c]
    {
      forall i | 0 <= i < |sample| && assign[i] == c
        ensures sample[i] == before[c]
      {
        AssignedToItself(sample[i], before, c);
      }
      if Count(assign, c, |sample|) > 0 {
        MeanOfEqual(sample, assign, c, before[c], after[c]);
      }
    }
  }

  /** So if the seeds cover the sample, training returns the seeds. */
  lemma {:induction false} SettledTraining(sample: seq<RVec>, draws: Draws, states: seq<seq<RVec>>,
                                           assigns: seq<seq<nat>>, n: nat)
    requires Trained(sample, draws, states, assigns) && n <= |assigns|
    requires forall i :: 0 <= i < |sample| ==> sample[i] in states[0]
    ensures states[n] == states[0]
  {
    if 0 < n {
      SettledTraining(sample, draws, states, assigns, n - 1);
      assert RoundAt(sample, states, assigns, n - 1);
      SettledRound(sample, states[n - 1], assigns[n - 1], states[n]);
    }
  }

  // ----- Two different vectors -----

  lemma {:induction false} NoSum(w: seq<real>, n: nat)
    requires n <= |w| && forall i :: 0 <= i < n ==> w[i] == 0.0
    ensures PrefixSum(w, n) == 0.0
  {
    if 0 < n {
      NoSum(w, n - 1);
    }
  }

  /** When the centroids so far cover the sample, the next one is drawn at random. */
  lemma CoveredDrawsAny(sample: seq<RVec>, cs: seq<RVec>, r: nat, u: real, pick: nat)
    requires cs != [] && IsNext(sample, cs, r, u, pick) && forall i :: 0 <= i < |sample| ==> sample[i] in cs
    ensures pick == r
  {
    var d2 := Distances(sample, cs);
    forall i | 0 <= i < |sample|
      ensures d2[i] == 0.0
    {
      var k :| 0 <= k < |cs| && cs[k] == sample[i];
      ToNearestIsLeast(sample[i], cs, |cs|);
      NoDistance(sample[i], DIMS);
      assert Dist2(sample[i], cs[k]) == 0.0;
    }
    NoSum(d2, |d2|);
  }

  /** Otherwise a positive draw takes a vector that is not one of them. */
  lemma UncoveredDrawsNew(sample: seq<RVec>, cs: seq<RVec>, r: nat, u: real, pick: nat)
    requires cs != [] && IsNext(sample, cs, r, u, pick) && pick < |sample| && 0.0 < u < 1.0
    requires exists i :: 0 <= i < |sample| && sample[i] !in cs
    ensures sample[pick] !in cs
  {
    var d2 := Distances(sample, cs);
    forall i | 0 <= i < |sample|
      ensures d2[i] >= 0.0 && (d2[i] == 0.0 <==> sample[i] in cs)
    {
      DistanceZero(sample[i], cs);
    }
    SumIsZero(d2, |d2|);
    var total := PrefixSum(d2, |d2|);
    ScaledDraw(u, total, Share(u, total));
    DrawIsPositive(d2, Share(u, total), pick);
  }

  lemma DistanceZero(v: RVec, cs: seq<RVec>)
    requires cs != []
    ensures ToNearest(v, cs, |cs|) >= 0.0 && (ToNearest(v, cs, |cs|) == 0.0 <==> v in cs)
  {
    ToNearestIsLeast(v, cs, |cs|);
    if v in cs {
      var k :| 0 <= k < |cs| && cs[k] == v;
      NoDistance(v, DIMS);
      assert Dist2(v, cs[k]) == 0.0;
    } else {
      var k :| 0 <= k < |cs| && ToNearest(v, cs, |cs|) == Dist2(v, cs[k]);
      OnlyEqualIsAtZero(v, cs[k]);
    }
  }

  lemma OnlyEqualIsAtZero(a: RVec, b: RVec)
    ensures Dist2(a, b) == 0.0 <==> a == b
  {
    NoDistance(a, DIMS);
    if Dist2(a, b) == 0.0 {
      ZeroDistance(a, b, DIMS);
    }
  }

  lemma DrawIsPositive(w: seq<real>, x: real, pick: nat)
    requires IsDraw(w, x, pick) && x > 0.0
    ensures w[pick] > 0.0
  {
    assert PrefixSum(w, pick + 1) == PrefixSum(w, pick) + w[pick];
    assert PrefixSum(w, 0) == 0.0;
  }
}
