/** Building the inverted-file index from vectors, centroids and an assignment:
    buckets, offsets, boxes, padded blocks, radii. */
module IvfBuild {
  import opened Sequences
  import opened Geometry
  import opened Float32
  import opened Kernels
  import opened Blocks
  import opened Lanes
  import opened Triangle
  import opened TriangleRounding
  import opened IvfIndex

  datatype Outcome = Built(idx: Index) | LengthMismatch

  // ----- Buckets -----

  /** The ids below n assigned to cluster c, ascending. */
  ghost function BucketOf(assign: seq<nat>, c: nat, n: nat): (ids: seq<nat>)
    requires n <= |assign|
    ensures forall k :: 0 <= k < |ids| ==> ids[k] < n
  {
    if n == 0 then [] else BucketOf(assign, c, n - 1) + if assign[n - 1] == c then [n - 1] else []
  }

  lemma {:induction false} BucketDistinct(assign: seq<nat>, c: nat, n: nat)
    requires n <= |assign|
    ensures DistinctRange(BucketOf(assign, c, n))
  {
    if 0 < n {
      BucketDistinct(assign, c, n - 1);
    }
  }

  lemma {:induction false} BucketMembers(assign: seq<nat>, c: nat, n: nat, m: nat)
    requires n <= |assign|
    ensures m in BucketOf(assign, c, n) <==> m < n && assign[m] == c
  {
    if 0 < n {
      BucketMembers(assign, c, n - 1, m);
    }
  }

  method FillBuckets(assign: seq<nat>) returns (buckets: array<seq<nat>>)
    requires forall i :: 0 <= i < |assign| ==> assign[i] < K
    ensures fresh(buckets) && buckets.Length == 4096
    ensures forall c :: 0 <= c < 4096 ==> buckets[c] == BucketOf(assign, c, |assign|)
  {
    buckets := new seq<nat>[4096](_ => []);
    for i := 0 to |assign|
      invariant forall c :: 0 <= c < 4096 ==> buckets[c] == BucketOf(assign, c, i)
    {
      var c := assign[i];
      buckets[c] := buckets[c] + [i];
    }
  }

  // ----- Offsets -----

  function BlocksFor(n: nat): nat {
    (n + 7) / 8
  }

  /** Blocks needed by the first c buckets. */
  ghost function OffsetOf(buckets: seq<seq<nat>>, c: nat): nat
    requires c <= |buckets|
  {
    if c == 0 then 0 else OffsetOf(buckets, c - 1) + BlocksFor(|buckets[c - 1]|)
  }

  method ComputeOffsets(buckets: seq<seq<nat>>) returns (offsets: array<nat>)
    ensures fresh(offsets) && offsets.Length == |buckets| + 1
    ensures forall c {:trigger offsets[c]} :: 0 <= c <= |buckets| ==> offsets[c] == OffsetOf(buckets, c)
  {
    offsets := new nat[|buckets| + 1](_ => 0);
    var total: nat := 0;
    for c := 0 to |buckets|
      invariant total == OffsetOf(buckets, c)
      invariant forall e {:trigger offsets[e]} :: 0 <= e < c ==> offsets[e] == OffsetOf(buckets, e)
    {
      offsets[c] := total;
      total := total + BlocksFor(|buckets[c]|);
    }
    offsets[|buckets|] := total;
  }

  lemma {:induction false} OffsetsGrow(buckets: seq<seq<nat>>, a: nat, b: nat)
    requires a <= b <= |buckets|
    ensures OffsetOf(buckets, a) <= OffsetOf(buckets, b)
  {
    if a < b {
      OffsetsGrow(buckets, a, b - 1);
    }
  }

  // ----- Centroids -----

  method StoreCentroids(centroids: seq<RVec>) returns (soa: array<real>)
    requires |centroids| == 4096
    ensures fresh(soa) && soa.Length == 57344
    ensures forall c :: 0 <= c < 4096 ==> CentroidAt(soa[..], c) == centroids[c]
  {
    soa := new real[57344](_ => 0.0);
    for c := 0 to 4096
      invariant forall k, d :: 0 <= k < c && 0 <= d < DIMS ==> soa[d * 4096 + k] == centroids[k][d]
    {
      for d := 0 to DIMS
        invariant forall k, e :: 0 <= k < c && 0 <= e < DIMS ==> soa[e * 4096 + k] == centroids[k][e]
        invariant forall e :: 0 <= e < d ==> soa[e * 4096 + c] == centroids[c][e]
      {
        soa[d * 4096 + c] := centroids[c][d];
      }
    }
  }

  // ----- Boxes -----

  function Slice(s: seq<Int16>, c: nat): seq<Int16>
    requires c * 16 + 16 <= |s|
  {
    s[c * 16..c * 16 + 16]
  }

  const FAR_CORNER: seq<Int16> := [32767, 32767, 32767, 32767, 32767, 32767, 32767, 32767, 32767, 32767, 32767, 32767,
                                   32767, 32767, 32767, 32767]

  /** The box of a bucket: tight, or one far corner when the bucket is empty. */
  ghost predicate BoxFits(ds: Dataset, ids: seq<nat>, box: Box)
    requires ValidBox(box) && InData(ds, ids)
  {
    if ids == [] then forall d :: 0 <= d < 16 ==> box.min[d] == 32767 && box.max[d] == 32767
    else Tight(ds, ids, box) && box.min[14] == box.min[15] == box.max[14] == box.max[15] == 0
  }

  method StoreSlice(a: array<Int16>, c: nat, s: seq<Int16>)
    requires c * 16 + 16 <= a.Length && |s| == 16
    modifies a
    ensures Slice(a[..], c) == s
    ensures forall k :: 0 <= k < c * 16 || c * 16 + 16 <= k < a.Length ==> a[k] == old(a[k])
  {
    for d := 0 to 16
      invariant a[c * 16..c * 16 + d] == s[..d]
      invariant forall k :: 0 <= k < c * 16 || c * 16 + 16 <= k < a.Length ==> a[k] == old(a[k])
    {
      a[c * 16 + d] := s[d];
    }
    assert a[..][c * 16..c * 16 + 16] == a[c * 16..c * 16 + 16];
  }

  ghost predicate BucketsIn(ds: Dataset, buckets: seq<seq<nat>>) {
    |buckets| == 4096 && forall c :: 0 <= c < 4096 ==> InData(ds, buckets[c])
  }

  ghost predicate BoxDone(ds: Dataset, buckets: seq<seq<nat>>, mins: seq<Int16>, maxs: seq<Int16>, c: nat)
    requires BucketsIn(ds, buckets) && c < 4096 && |mins| == |maxs| == 65536
  {
    BoxFits(ds, buckets[c], Box(Slice(mins, c), Slice(maxs, c)))
  }

  lemma BoxKept(ds: Dataset, buckets: seq<seq<nat>>, mins: seq<Int16>, maxs: seq<Int16>, mins': seq<Int16>,
                maxs': seq<Int16>, c: nat, k: nat)
    requires BucketsIn(ds, buckets) && k < c < 4096 && |mins| == |maxs| == |mins'| == |maxs'| == 65536
    requires BoxDone(ds, buckets, mins, maxs, k)
    requires forall i :: 0 <= i < c * 16 ==> mins'[i] == mins[i] && maxs'[i] == maxs[i]
    ensures BoxDone(ds, buckets, mins', maxs', k)
  {
    assert Slice(mins', k) == Slice(mins, k) && Slice(maxs', k) == Slice(maxs, k);
  }

  /** Stores the box of bucket c. */
  method StoreBox(ds: Dataset, buckets: seq<seq<nat>>, c: nat, boxMin: array<Int16>, boxMax: array<Int16>)
    requires BucketsIn(ds, buckets) && c < 4096 && boxMin != boxMax && boxMin.Length == boxMax.Length == 65536
    modifies boxMin, boxMax
    ensures BoxDone(ds, buckets, boxMin[..], boxMax[..], c)
    ensures forall i :: 0 <= i < c * 16 ==> boxMin[i] == old(boxMin[i]) && boxMax[i] == old(boxMax[i])
  {
    var box := Box(FAR_CORNER, FAR_CORNER);
    if |buckets[c]| != 0 {
      box := BoundingBox(ds, buckets[c]);
    }
    StoreSlice(boxMin, c, box.min);
    StoreSlice(boxMax, c, box.max);
  }

  method ComputeBoxes(ds: Dataset, buckets: seq<seq<nat>>) returns (boxMin: array<Int16>, boxMax: array<Int16>)
    requires BucketsIn(ds, buckets)
    ensures fresh(boxMin) && fresh(boxMax) && boxMin.Length == boxMax.Length == 65536
    ensures forall c :: 0 <= c < 4096 ==> BoxDone(ds, buckets, boxMin[..], boxMax[..], c)
  {
    boxMin := new Int16[65536](_ => 0);
    boxMax := new Int16[65536](_ => 0);
    for c := 0 to 4096
      invariant forall k :: 0 <= k < c ==> BoxDone(ds, buckets, boxMin[..], boxMax[..], k)
    {
      ghost var mins, maxs := boxMin[..], boxMax[..];
      StoreBox(ds, buckets, c, boxMin, boxMax);
      forall k | 0 <= k < c
        ensures BoxDone(ds, buckets, boxMin[..], boxMax[..], k)
      {
        BoxKept(ds, buckets, mins, maxs, boxMin[..], boxMax[..], c, k);
      }
    }
  }

  // ----- Blocks -----

  function LaneAt(data: seq<Int16>, g: nat): Vec
    requires (g / 8 + 1) * 112 <= |data|
  {
    LaneVec(data, g / 8, g % 8)
  }

  /** Lane g holds candidate x. */
  ghost predicate LaneIs(ds: Dataset, data: seq<Int16>, labels: seq<nat>, g: nat, x: Id) {
    (g / 8 + 1) * 112 <= |data| && g < |labels| && !x.Pad? && LaneAt(data, g) == Coords(ds, x)
        && labels[g] == LabelOf(ds, x)
  }

  /** Every lane but g is the same. */
  ghost predicate OthersKept(before: seq<Int16>, after: seq<Int16>, g: nat) {
    |after| == |before| &&
    forall h: nat {:trigger LaneAt(after, h)} ::
      h != g && (h / 8 + 1) * 112 <= |before| ==> LaneAt(after, h) == LaneAt(before, h)
  }

  lemma OneWrite(before: seq<Int16>, g: nat, d: nat, x: Int16, after: seq<Int16>)
    requires (g / 8 + 1) * 112 <= |before| && d < DIMS && At(g / 8, d, g % 8) < |before|
    requires after == before[At(g / 8, d, g % 8) := x]
    ensures OthersKept(before, after, g)
    ensures LaneAt(after, g) == LaneAt(before, g)[d := x]
  {
    forall h: nat | h != g && (h / 8 + 1) * 112 <= |before|
      ensures LaneAt(after, h) == LaneAt(before, h)
    {
      forall e: nat | e < DIMS
        ensures LaneAt(after, h)[e] == LaneAt(before, h)[e]
      {
        AtInjective(h / 8, e, h % 8, g / 8, d, g % 8);
      }
    }
    forall e: nat | e < DIMS
      ensures LaneAt(after, g)[e] == LaneAt(before, g)[d := x][e]
    {
      AtInjective(g / 8, e, g % 8, g / 8, d, g % 8);
    }
  }

  lemma OthersStillKept(a: seq<Int16>, b: seq<Int16>, c: seq<Int16>, g: nat)
    requires OthersKept(a, b, g) && OthersKept(b, c, g)
    ensures OthersKept(a, c, g)
  {
  }

  method WriteVec(data: array<Int16>, g: nat, v: Vec)
    requires (g / 8 + 1) * 112 <= data.Length
    modifies data
    ensures LaneAt(data[..], g) == v
    ensures OthersKept(old(data[..]), data[..], g)
  {
    for d := 0 to DIMS
      invariant OthersKept(old(data[..]), data[..], g)
      invariant LaneAt(data[..], g)[..d] == v[..d]
    {
      ghost var before := data[..];
      data[At(g / 8, d, g % 8)] := v[d];
      OneWrite(before, g, d, v[d], data[..]);
      OthersStillKept(old(data[..]), before, data[..], g);
    }
  }

  /** The first n lanes hold what target says. */
  ghost predicate Written(ds: Dataset, data: seq<Int16>, labels: seq<nat>, target: seq<Id>, n: nat) {
    n <= |target| && forall g :: 0 <= g < n ==> LaneIs(ds, data, labels, g, target[g])
  }

  ghost predicate ZeroFrom(labels: seq<nat>, n: nat) {
    forall g :: n <= g < |labels| ==> labels[g] == 0
  }

  method WriteMember(ds: Dataset, data: array<Int16>, labels: array<nat>, g: nat, id: nat, ghost target: seq<Id>)
    requires ValidDataset(ds) && id < |ds.vectors| && g < |target| && target[g] == Ref(id)
    requires g < labels.Length && data.Length == 14 * labels.Length && labels.Length % 8 == 0
    requires Written(ds, data[..], labels[..], target, g) && ZeroFrom(labels[..], g)
    modifies data, labels
    ensures Written(ds, data[..], labels[..], target, g + 1) && ZeroFrom(labels[..], g + 1)
  {
    ghost var before, lbl := data[..], labels[..];
    WriteVec(data, g, ds.vectors[id]);
    labels[g] := ds.labels[id];
    forall h | 0 <= h < g + 1
      ensures LaneIs(ds, data[..], labels[..], h, target[h])
    {
      if h < g {
        assert LaneIs(ds, before, lbl, h, target[h]) && LaneAt(data[..], h) == LaneAt(before, h);
      }
    }
  }

  method WritePhantom(ds: Dataset, data: array<Int16>, labels: array<nat>, g: nat, ghost target: seq<Id>)
    requires g < |target| && target[g].Phantom?
    requires g < labels.Length && data.Length == 14 * labels.Length && labels.Length % 8 == 0
    requires Written(ds, data[..], labels[..], target, g) && ZeroFrom(labels[..], g)
    modifies data
    ensures Written(ds, data[..], labels[..], target, g + 1)
  {
    ghost var before := data[..];
    WriteVec(data, g, PHANTOM_VEC);
    forall h | 0 <= h < g + 1
      ensures LaneIs(ds, data[..], labels[..], h, target[h])
    {
      if h < g {
        assert LaneIs(ds, before, labels[..], h, target[h]) && LaneAt(data[..], h) == LaneAt(before, h);
      }
    }
  }

  /** The lanes after appending one cluster: its members, then its padding. */
  ghost function Extended(owner: seq<Id>, ids: seq<nat>): seq<Id> {
    owner + LeafLanes(ids, |owner|, BlocksFor(|ids|) * 8)
  }

  lemma ExtendedLanes(owner: seq<Id>, ids: seq<nat>)
    ensures var target, base := Extended(owner, ids), |owner|;
            && owner <= target && |target| == base + BlocksFor(|ids|) * 8 >= base + |ids|
            && (forall i :: 0 <= i < |ids| ==> target[base + i] == Ref(ids[i]))
            && forall g :: base + |ids| <= g < |target| ==> target[g].Phantom?
  {
    BlocksCover(|ids|);
  }

  /** Writes one cluster from block start on: members in order, then padding up to
      a whole block. */
  method WriteCluster(ds: Dataset, data: array<Int16>, labels: array<nat>, start: nat, ids: seq<nat>,
                      ghost owner: seq<Id>)
    requires ValidDataset(ds) && InData(ds, ids) && |owner| == start * 8
    requires data.Length == 14 * labels.Length && labels.Length % 8 == 0
             && (start + BlocksFor(|ids|)) * 8 <= labels.Length
    requires Written(ds, data[..], labels[..], owner, |owner|) && ZeroFrom(labels[..], |owner|)
    modifies data, labels
    ensures Written(ds, data[..], labels[..], Extended(owner, ids), |Extended(owner, ids)|)
    ensures ZeroFrom(labels[..], |Extended(owner, ids)|)
  {
    ghost var target := Extended(owner, ids);
    ExtendedLanes(owner, ids);
    WrittenMore(ds, data[..], labels[..], owner, target);
    WriteTarget(ds, data, labels, start, ids, target);
  }

  /** Writes the lanes that target has from block start on. */
  method WriteTarget(ds: Dataset, data: array<Int16>, labels: array<nat>, start: nat, ids: seq<nat>,
                     ghost target: seq<Id>)
    requires ValidDataset(ds) && InData(ds, ids) && data.Length == 14 * labels.Length && labels.Length % 8 == 0
    requires start * 8 + |ids| <= |target| == (start + BlocksFor(|ids|)) * 8 <= labels.Length
    requires forall i :: 0 <= i < |ids| ==> target[start * 8 + i] == Ref(ids[i])
    requires forall g :: start * 8 + |ids| <= g < |target| ==> target[g].Phantom?
    requires Written(ds, data[..], labels[..], target, start * 8) && ZeroFrom(labels[..], start * 8)
    modifies data, labels
    ensures Written(ds, data[..], labels[..], target, |target|) && ZeroFrom(labels[..], |target|)
  {
    WriteMembers(ds, data, labels, start * 8, ids, target);
    WritePadding(ds, data, labels, start, |ids|, target);
  }

  method WriteMembers(ds: Dataset, data: array<Int16>, labels: array<nat>, base: nat, ids: seq<nat>,
                      ghost target: seq<Id>)
    requires ValidDataset(ds) && InData(ds, ids) && base + |ids| <= |target| && base + |ids| <= labels.Length
    requires forall i :: 0 <= i < |ids| ==> target[base + i] == Ref(ids[i])
    requires data.Length == 14 * labels.Length && labels.Length % 8 == 0
    requires Written(ds, data[..], labels[..], target, base) && ZeroFrom(labels[..], base)
    modifies data, labels
    ensures Written(ds, data[..], labels[..], target, base + |ids|) && ZeroFrom(labels[..], base + |ids|)
  {
    for i := 0 to |ids|
      invariant Written(ds, data[..], labels[..], target, base + i) && ZeroFrom(labels[..], base + i)
    {
      WriteMember(ds, data, labels, base + i, ids[i], target);
    }
  }

  /** Pads the partial last block of a cluster of n members. */
  method WritePadding(ds: Dataset, data: array<Int16>, labels: array<nat>, start: nat, n: nat, ghost target: seq<Id>)
    requires |target| == (start + BlocksFor(n)) * 8 <= labels.Length
    requires forall g :: start * 8 + n <= g < |target| ==> target[g].Phantom?
    requires data.Length == 14 * labels.Length && labels.Length % 8 == 0
    requires Written(ds, data[..], labels[..], target, start * 8 + n) && ZeroFrom(labels[..], start * 8 + n)
    modifies data
    ensures Written(ds, data[..], labels[..], target, |target|) && ZeroFrom(labels[..], |target|)
  {
    var used := n % 8;
    LastBlock(start, n);
    if used != 0 {
      var b := start + n / 8;
      for lane := used to 8
        invariant Written(ds, data[..], labels[..], target, b * 8 + lane)
      {
        WritePhantom(ds, data, labels, b * 8 + lane, target);
      }
    }
  }

  lemma LastBlock(start: nat, n: nat)
    ensures n % 8 != 0 ==> (start + n / 8) * 8 + n % 8 == start * 8 + n
    ensures n % 8 != 0 ==> (start + n / 8) * 8 + 8 == (start + BlocksFor(n)) * 8
    ensures n % 8 == 0 ==> (start + BlocksFor(n)) * 8 == start * 8 + n
  {
    BlocksCover(n);
  }

  lemma WrittenMore(ds: Dataset, data: seq<Int16>, labels: seq<nat>, owner: seq<Id>, target: seq<Id>)
    requires Written(ds, data, labels, owner, |owner|) && owner <= target
    ensures Written(ds, data, labels, target, |owner|)
  {
  }

  /** The library sort, as the exchanges it performs: its comparator looks at
      positions rather than at the elements moved, so nothing is claimed of the
      resulting order. */
  method SortIds(ids: array<nat>, exchanges: seq<(nat, nat)>)
    modifies ids
    ensures multiset(ids[..]) == old(multiset(ids[..]))
  {
    for e := 0 to |exchanges|
      invariant multiset(ids[..]) == old(multiset(ids[..]))
    {
      var a, b := exchanges[e].0, exchanges[e].1;
      if a < ids.Length && b < ids.Length {
        ids[a], ids[b] := ids[b], ids[a];
      }
    }
  }

  method Permuted(ids: seq<nat>, exchanges: seq<(nat, nat)>) returns (out: seq<nat>)
    ensures multiset(out) == multiset(ids)
  {
    var a := new nat[|ids|](i requires 0 <= i < |ids| => ids[i]);
    assert a[..] == ids;
    SortIds(a, exchanges);
    out := a[..];
  }

  // ----- Radii -----

  /** Distances computed from the lanes lo up to hi never exceed reach. */
  ghost predicate ReachesLanes(m: Machine, data: seq<Int16>, lo: nat, hi: nat, cen: RVec, reach: real) {
    forall g: nat :: lo <= g < hi ==> ReachesLane(m, data, g, cen, reach)
  }

  ghost predicate ReachesLane(m: Machine, data: seq<Int16>, g: nat, cen: RVec, reach: real) {
    (g / 8 + 1) * 112 <= |data| && RealSum(m.fl, m.fused, Triangle.Widen(LaneAt(data, g)), cen, DIMS) <= reach
  }

  lemma ReachesFarther(m: Machine, data: seq<Int16>, lo: nat, hi: nat, cen: RVec, reach: real, more: real)
    requires ReachesLanes(m, data, lo, hi, cen, reach) && reach <= more
    ensures ReachesLanes(m, data, lo, hi, cen, more)
  {
    forall g: nat | lo <= g < hi
      ensures ReachesLane(m, data, g, cen, more)
    {
      assert ReachesLane(m, data, g, cen, reach);
    }
  }

  /** reach is the largest distance computed from those lanes, or 0 if none is larger. */
  ghost predicate Largest(m: Machine, data: seq<Int16>, lo: nat, hi: nat, cen: RVec, reach: real) {
    && 0.0 <= reach <= 1000000000000.0 && ReachesLanes(m, data, lo, hi, cen, reach)
    && (reach == 0.0 || exists g: nat :: lo <= g < hi && AttainedBy(m, data, g, cen, reach))
  }

  ghost predicate AttainedBy(m: Machine, data: seq<Int16>, g: nat, cen: RVec, reach: real) {
    (g / 8 + 1) * 112 <= |data| && RealSum(m.fl, m.fused, Triangle.Widen(LaneAt(data, g)), cen, DIMS) == reach
  }

  lemma LargestNext(m: Machine, data: seq<Int16>, lo: nat, g: nat, cen: RVec, before: real, after: real, d: real)
    requires lo <= g && Largest(m, data, lo, g, cen, before) && AttainedBy(m, data, g, cen, d) && d <= 1000000000000.0
    requires after == if d > before then d else before
    ensures Largest(m, data, lo, g + 1, cen, after)
  {
    ReachesFarther(m, data, lo, g, cen, before, after);
    assert ReachesLane(m, data, g, cen, after);
    if after == before && before != 0.0 {
      var k: nat :| lo <= k < g && AttainedBy(m, data, k, cen, before);
      assert AttainedBy(m, data, k, cen, after);
    }
  }

  method LaneDistance(m: Machine, data: seq<Int16>, g: nat, cen: RVec) returns (distSq: real)
    requires (g / 8 + 1) * 112 <= |data|
    ensures distSq == RealSum(m.fl, m.fused, Triangle.Widen(LaneAt(data, g)), cen, DIMS)
  {
    distSq := 0.0;
    for d := 0 to DIMS
      invariant distSq == RealSum(m.fl, m.fused, Triangle.Widen(LaneAt(data, g)), cen, d)
    {
      distSq := MulAdd(m.fl, m.fused, distSq, m.fl(data[At(g / 8, d, g % 8)] as real - cen[d]));
    }
  }

  /** No lane is farther from a centroid than this, as computed. */
  lemma LaneSumBounded(m: Machine, v: Vec, cen: RVec)
    requires Works(m) && InCube(cen)
    ensures RealSum(m.fl, m.fused, Triangle.Widen(v), cen, DIMS) <= 1000000000000.0
  {
    RDistBound(Triangle.Widen(v), cen, 50000.0, DIMS);
    RealSumNear(m.fl, m.fused, Triangle.Widen(v), cen, DIMS);
  }

  /** The largest computed squared distance over the blocks lo up to hi. */
  method MaxDistSq(m: Machine, data: seq<Int16>, lo: nat, hi: nat, cen: RVec) returns (maxDistSq: real)
    requires Works(m) && InCube(cen) && hi * 112 <= |data|
    ensures Largest(m, data, lo * 8, hi * 8, cen, maxDistSq)
  {
    maxDistSq := 0.0;
    if hi <= lo {
      return;
    }
    for b := lo to hi
      invariant Largest(m, data, lo * 8, b * 8, cen, maxDistSq)
    {
      maxDistSq := MaxOfBlock(m, data, lo * 8, b, cen, maxDistSq);
    }
  }

  /** Raises a running maximum by the lanes of block b. */
  method MaxOfBlock(m: Machine, data: seq<Int16>, ghost from: nat, b: nat, cen: RVec, before: real)
    returns (maxDistSq: real)
    requires Works(m) && InCube(cen) && (b + 1) * 112 <= |data| && from <= b * 8
    requires Largest(m, data, from, b * 8, cen, before)
    ensures Largest(m, data, from, b * 8 + 8, cen, maxDistSq)
  {
    maxDistSq := before;
    ghost var first: nat := b * 8;
    for lane := 0 to 8
      invariant Largest(m, data, from, first + lane, cen, maxDistSq)
    {
      LaneOfBlock(b, lane);
      maxDistSq := MaxOfLane(m, data, from, b * 8 + lane, cen, maxDistSq);
    }
  }

  lemma LaneOfBlock(b: nat, lane: nat)
    requires lane < 8
    ensures (b * 8 + lane) / 8 == b
  {
  }

  method MaxOfLane(m: Machine, data: seq<Int16>, ghost from: nat, g: nat, cen: RVec, before: real)
    returns (maxDistSq: real)
    requires Works(m) && InCube(cen) && (g / 8 + 1) * 112 <= |data| && from <= g
    requires Largest(m, data, from, g, cen, before)
    ensures Largest(m, data, from, g + 1, cen, maxDistSq)
  {
    maxDistSq := before;
    var distSq := LaneDistance(m, data, g, cen);
    LaneSumBounded(m, LaneAt(data, g), cen);
    if distSq > maxDistSq {
      maxDistSq := distSq;
    }
    LargestNext(m, data, from, g, cen, before, maxDistSq, distSq);
  }

  // ----- Laying out every cluster -----

  /** Lanes lo up to hi hold exactly the references ids, and padding. */
  ghost predicate RunHolds(owner: seq<Id>, lo: nat, hi: nat, ids: seq<nat>) {
    lo <= hi <= |owner| && Adds(owner[..hi], lo, ids)
  }

  ghost predicate Bucketed(ds: Dataset, assign: seq<nat>, buckets: seq<seq<nat>>) {
    && |assign| == |ds.vectors| && |buckets| == 4096
    && (forall i :: 0 <= i < |assign| ==> assign[i] < 4096)
    && forall c :: 0 <= c < 4096 ==> buckets[c] == BucketOf(assign, c, |assign|)
  }

  lemma BucketedIn(ds: Dataset, assign: seq<nat>, buckets: seq<seq<nat>>)
    requires Bucketed(ds, assign, buckets)
    ensures BucketsIn(ds, buckets)
  {
  }

  ghost predicate ClusterHolds(buckets: seq<seq<nat>>, owner: seq<Id>, c: nat)
    requires c < |buckets|
  {
    RunHolds(owner, OffsetOf(buckets, c) * 8, OffsetOf(buckets, c + 1) * 8, buckets[c])
  }

  /** The first c clusters have been laid out. */
  ghost predicate LaidTo(ds: Dataset, assign: seq<nat>, buckets: seq<seq<nat>>, owner: seq<Id>, c: nat) {
    && Bucketed(ds, assign, buckets) && c <= 4096
    && |owner| == OffsetOf(buckets, c) * 8
    && Injective(owner) && PhantomsPlaced(owner) && Placed(ds, owner)
    && (forall g :: 0 <= g < |owner| && owner[g].Ref? && owner[g].i < |assign| ==> assign[owner[g].i] < c)
    && forall k :: 0 <= k < c ==> ClusterHolds(buckets, owner, k)
  }

  lemma ExtendedFacts(ds: Dataset, assign: seq<nat>, buckets: seq<seq<nat>>, owner: seq<Id>, c: nat, ids: seq<nat>)
    requires LaidTo(ds, assign, buckets, owner, c) && c < 4096 && multiset(ids) == multiset(buckets[c])
    ensures InData(ds, ids) && |ids| == |buckets[c]|
    ensures Fresh(owner, ids) && forall x :: x in ids <==> x in buckets[c]
  {
    BucketDistinct(assign, c, |assign|);
    PermutedDistinct(buckets[c], ids);
    PermutedMembers(buckets[c], ids);
    assert |multiset(ids)| == |multiset(buckets[c])|;
    forall k | 0 <= k < |ids|
      ensures ids[k] < |ds.vectors| && assign[ids[k]] == c
    {
      assert ids[k] in ids;
      BucketMembers(assign, c, |assign|, ids[k]);
    }
  }

  lemma ExtendKeeps(buckets: seq<seq<nat>>, owner: seq<Id>, owner': seq<Id>, k: nat)
    requires k < |buckets| && owner <= owner' && ClusterHolds(buckets, owner, k)
    ensures ClusterHolds(buckets, owner', k)
  {
    var hi := OffsetOf(buckets, k + 1) * 8;
    assert owner'[..hi] == owner[..hi];
  }

  lemma BlocksCover(n: nat)
    ensures n <= BlocksFor(n) * 8 < n + 8
  {
  }

  lemma NewClusterHolds(buckets: seq<seq<nat>>, owner: seq<Id>, c: nat, ids: seq<nat>, next: nat)
    requires c < |buckets| && |owner| == OffsetOf(buckets, c) * 8 && |ids| == |buckets[c]|
             && next == OffsetOf(buckets, c + 1)
    requires forall x :: x in ids <==> x in buckets[c]
    ensures |Extended(owner, ids)| == next * 8
    ensures RunHolds(Extended(owner, ids), |owner|, next * 8, buckets[c])
  {
    var owner' := Extended(owner, ids);
    BlocksCover(|ids|);
    LeafAdds(owner, ids, BlocksFor(|ids|) * 8);
    assert owner'[..|owner'|] == owner';
  }

  lemma ExtendedHolds(buckets: seq<seq<nat>>, owner: seq<Id>, c: nat, ids: seq<nat>)
    requires c < |buckets| && |owner| == OffsetOf(buckets, c) * 8 && |ids| == |buckets[c]|
    requires forall x :: x in ids <==> x in buckets[c]
    requires forall k :: 0 <= k < c ==> ClusterHolds(buckets, owner, k)
    ensures |Extended(owner, ids)| == OffsetOf(buckets, c + 1) * 8
    ensures forall k :: 0 <= k < c + 1 ==> ClusterHolds(buckets, Extended(owner, ids), k)
  {
    NewClusterHolds(buckets, owner, c, ids, OffsetOf(buckets, c + 1));
    forall k | 0 <= k < c
      ensures ClusterHolds(buckets, Extended(owner, ids), k)
    {
      ExtendKeeps(buckets, owner, Extended(owner, ids), k);
    }
  }

  lemma LaidNext(ds: Dataset, assign: seq<nat>, buckets: seq<seq<nat>>, owner: seq<Id>, c: nat, ids: seq<nat>)
    requires LaidTo(ds, assign, buckets, owner, c) && c < 4096 && multiset(ids) == multiset(buckets[c])
    ensures LaidTo(ds, assign, buckets, Extended(owner, ids), c + 1)
  {
    ExtendedFacts(ds, assign, buckets, owner, c, ids);
    LeafInjective(owner, ids, BlocksFor(|ids|) * 8);
    ExtendedHolds(buckets, owner, c, ids);
    ExtendedPlaced(ds, assign, buckets, owner, c, ids);
  }

  lemma ExtendedPlaced(ds: Dataset, assign: seq<nat>, buckets: seq<seq<nat>>, owner: seq<Id>, c: nat, ids: seq<nat>)
    requires LaidTo(ds, assign, buckets, owner, c) && c < 4096 && forall x :: x in ids <==> x in buckets[c]
    ensures Placed(ds, Extended(owner, ids))
    ensures var o := Extended(owner, ids);
            forall g :: 0 <= g < |o| && o[g].Ref? && o[g].i < |assign| ==> assign[o[g].i] < c + 1
  {
    var owner' := Extended(owner, ids);
    forall g | 0 <= g < |owner'|
      ensures owner'[g] == Phantom(g) || (owner'[g].Ref? && owner'[g].i < |ds.vectors| && assign[owner'[g].i] < c + 1)
    {
      if g >= |owner| && owner'[g].Ref? {
        assert ids[g - |owner|] in ids;
        BucketMembers(assign, c, |assign|, ids[g - |owner|]);
      }
    }
  }

  method LayOut(ds: Dataset, ghost assign: seq<nat>, buckets: seq<seq<nat>>, offsets: seq<nat>,
                exchanges: nat -> seq<(nat, nat)>)
    returns (data: array<Int16>, labels: array<nat>, ghost owner: seq<Id>)
    requires ValidDataset(ds) && Bucketed(ds, assign, buckets)
    requires |offsets| == 4097 && forall c {:trigger offsets[c]} ::
               0 <= c <= 4096 ==> offsets[c] == OffsetOf(buckets, c)
    ensures labels.Length == 8 * offsets[4096] && data.Length == 112 * offsets[4096]
    ensures LaidTo(ds, assign, buckets, owner, 4096)
    ensures Written(ds, data[..], labels[..], owner, |owner|)
  {
    data := new Int16[112 * offsets[4096]](_ => 0);
    labels := new nat[8 * offsets[4096]](_ => 0);
    owner := [];
    for c := 0 to 4096
      invariant labels.Length == 8 * offsets[4096] && data.Length == 14 * labels.Length
      invariant LaidTo(ds, assign, buckets, owner, c)
      invariant Written(ds, data[..], labels[..], owner, |owner|) && ZeroFrom(labels[..], |owner|)
    {
      if |buckets[c]| == 0 {
        LaidNext(ds, assign, buckets, owner, c, []);
        assert Extended(owner, []) == owner;
        continue;
      }
      owner := LayCluster(ds, assign, buckets, offsets, c, exchanges(c), data, labels, owner);
    }
  }

  method LayCluster(ds: Dataset, ghost assign: seq<nat>, buckets: seq<seq<nat>>, offsets: seq<nat>, c: nat,
                    exchanges: seq<(nat, nat)>, data: array<Int16>, labels: array<nat>,
                    ghost owner: seq<Id>) returns (ghost owner': seq<Id>)
    requires ValidDataset(ds) && c < 4096 && LaidTo(ds, assign, buckets, owner, c)
    requires |offsets| == 4097 && forall c {:trigger offsets[c]} ::
               0 <= c <= 4096 ==> offsets[c] == OffsetOf(buckets, c)
    requires labels.Length == 8 * offsets[4096] && data.Length == 14 * labels.Length
    requires Written(ds, data[..], labels[..], owner, |owner|) && ZeroFrom(labels[..], |owner|)
    modifies data, labels
    ensures LaidTo(ds, assign, buckets, owner', c + 1)
    ensures Written(ds, data[..], labels[..], owner', |owner'|) && ZeroFrom(labels[..], |owner'|)
  {
    var ids := Permuted(buckets[c], exchanges);
    ExtendedFacts(ds, assign, buckets, owner, c, ids);
    LaidNext(ds, assign, buckets, owner, c, ids);
    OffsetsGrow(buckets, c + 1, 4096);
    WriteCluster(ds, data, labels, offsets[c], ids, owner);
    owner' := Extended(owner, ids);
  }

  // ----- The finished index -----

  lemma WrittenStored(ds: Dataset, data: seq<Int16>, labels: seq<nat>, owner: seq<Id>, blocks: nat)
    requires Written(ds, data, labels, owner, |owner|) && Injective(owner)
    requires |data| == 112 * blocks && |labels| == 8 * blocks == |owner|
    ensures Stored(ds, data, labels, owner, blocks)
  {
    forall b, l | 0 <= b < blocks && 0 <= l < LANES
      ensures Holds(ds, data, labels, owner, b, l)
    {
      WrittenHolds(ds, data, labels, owner, b, l);
    }
  }

  lemma WrittenHolds(ds: Dataset, data: seq<Int16>, labels: seq<nat>, owner: seq<Id>, b: nat, l: nat)
    requires Written(ds, data, labels, owner, |owner|) && l < LANES
    requires (b + 1) * 112 <= |data| && b * 8 + l < |labels| == |owner|
    ensures Holds(ds, data, labels, owner, b, l)
  {
    var g := b * 8 + l;
    assert LaneIs(ds, data, labels, g, owner[g]);
    assert g / 8 == b && g % 8 == l;
  }

  lemma RunWithin(buckets: seq<seq<nat>>, owner: seq<Id>, c: nat)
    requires |buckets| == 4096 && c < 4096 && ClusterHolds(buckets, owner, c)
    ensures Owners(owner[..OffsetOf(buckets, c + 1) * 8], OffsetOf(buckets, c) * 8, OffsetOf(buckets, c + 1) * 8) <=
              Owners(owner, 0, |owner|)
  {
    var lo, hi := OffsetOf(buckets, c) * 8, OffsetOf(buckets, c + 1) * 8;
    OwnersPrefix(owner[..hi], owner, lo, hi);
    OwnersSplit(owner, 0, lo, hi);
    OwnersSplit(owner, 0, hi, |owner|);
  }

  lemma LaidComplete(ds: Dataset, assign: seq<nat>, buckets: seq<seq<nat>>, owner: seq<Id>)
    requires LaidTo(ds, assign, buckets, owner, 4096)
    ensures Complete(ds, owner)
  {
    forall m: nat | m < |ds.vectors|
      ensures Ref(m) in Owners(owner, 0, |owner|)
    {
      var c := assign[m];
      BucketMembers(assign, c, |assign|, m);
      assert ClusterHolds(buckets, owner, c);
      RunWithin(buckets, owner, c);
    }
  }

  /** The box of a nonempty cluster surrounds its lanes, and some lane is a reference. */
  lemma ClusterEnclosed(ds: Dataset, assign: seq<nat>, buckets: seq<seq<nat>>, owner: seq<Id>, box: Box, c: nat)
    requires ValidDataset(ds) && LaidTo(ds, assign, buckets, owner, 4096) && c < 4096 && buckets[c] != []
    requires ValidBox(box) && InData(ds, buckets[c]) && Tight(ds, buckets[c], box)
    ensures OffsetOf(buckets, c + 1) * 8 <= |owner| && QuantizedBox(box)
    ensures Encloses(ds, box, owner, OffsetOf(buckets, c), OffsetOf(buckets, c + 1))
    ensures HoldsSome(ds, owner, OffsetOf(buckets, c), OffsetOf(buckets, c + 1))
  {
    assert ClusterHolds(buckets, owner, c);
    var lo, hi := OffsetOf(buckets, c), OffsetOf(buckets, c + 1);
    var run := owner[..hi * 8];
    AddsEncloses(ds, run, buckets[c], box, lo, hi);
    TightEncloses(ds, buckets[c], box, 0);
    forall g | lo * 8 <= g < hi * 8
      ensures owner[g].Phantom? || (owner[g].Ref? && InBox(box, Coords(ds, owner[g])))
    {
      assert owner[g] == run[g];
    }
    var m := buckets[c][0];
    assert m in buckets[c];
    var g := OwnerLane(run, lo * 8, hi * 8, Ref(m));
    assert owner[g] == run[g];
  }

  lemma ReachesOwners(ds: Dataset, m: Machine, data: seq<Int16>, labels: seq<nat>, owner: seq<Id>, lo: nat, hi: nat,
                      cen: RVec, reach: real)
    requires Written(ds, data, labels, owner, |owner|) && hi * 8 <= |owner|
    requires ReachesLanes(m, data, lo * 8, hi * 8, cen, reach)
    ensures Reaches(m.fl, m.fused, ds, owner, lo, hi, cen, reach)
  {
    forall g | lo * 8 <= g < hi * 8
      ensures RealSum(m.fl, m.fused, Triangle.Widen(Coords(ds, owner[g])), cen, DIMS) <= reach
    {
      assert ReachesLane(m, data, g, cen, reach) && LaneIs(ds, data, labels, g, owner[g]);
    }
  }

  ghost predicate RadiusCovers(m: Machine, data: seq<Int16>, offsets: seq<nat>, soa: seq<real>, radii: seq<real>,
                               reach: seq<real>, c: nat)
    requires |offsets| == 4097 && |soa| == 57344 && |radii| == |reach| == 4096 && c < K
  {
    if offsets[c] == offsets[c + 1] then radii[c] == 0.0
    else
      && radii[c] == m.root(reach[c])
      && Largest(m, data, offsets[c] * 8, offsets[c + 1] * 8, CentroidAt(soa, c), reach[c])
  }

  /** The radius of cluster c is the root of the largest distance of its lanes. */
  ghost predicate RadiusReaches(m: Machine, data: seq<Int16>, offsets: seq<nat>, soa: seq<real>, radii: seq<real>,
                                c: nat)
    requires |offsets| == 4097 && |soa| == 57344 && |radii| == 4096 && c < K
  {
    exists r ::
      radii[c] == m.root(r) && Largest(m, data, offsets[c] * 8, offsets[c + 1] * 8, CentroidAt(soa, c), r)
  }

  /** The radius of every nonempty cluster; reach is what each is the root of. */
  method ComputeRadii(m: Machine, data: seq<Int16>, offsets: seq<nat>, soa: seq<real>)
    returns (radii: array<real>, ghost reach: seq<real>)
    requires Works(m) && |offsets| == 4097 && |soa| == 57344
    requires forall c :: 0 <= c < 4096 ==> InCube(CentroidAt(soa, c)) && offsets[c + 1] * 112 <= |data|
    ensures radii.Length == 4096 == |reach|
    ensures forall c :: 0 <= c < 4096 ==> RadiusCovers(m, data, offsets, soa, radii[..], reach, c)
    ensures forall c ::
              0 <= c < 4096 && offsets[c] != offsets[c + 1] ==> RadiusReaches(m, data, offsets, soa, radii[..], c)
  {
    radii := new real[4096](_ => 0.0);
    reach := seq(4096, _ => 0.0);
    for c := 0 to 4096
      invariant |reach| == 4096
      invariant forall k :: 0 <= k < c ==> RadiusCovers(m, data, offsets, soa, radii[..], reach, k)
      invariant forall k :: c <= k < 4096 ==> radii[k] == 0.0
    {
      if offsets[c] == offsets[c + 1] {
        continue;
      }
      ghost var radii0, reach0 := radii[..], reach;
      var maxDistSq := MaxDistSq(m, data, offsets[c], offsets[c + 1], CentroidAt(soa, c));
      radii[c] := m.root(maxDistSq);
      reach := reach[c := maxDistSq];
      forall k | 0 <= k < c
        ensures RadiusCovers(m, data, offsets, soa, radii[..], reach, k)
      {
        assert RadiusCovers(m, data, offsets, soa, radii0, reach0, k);
      }
    }
    ghost var final := radii[..];
    forall c | 0 <= c < 4096 && offsets[c] != offsets[c + 1]
      ensures RadiusReaches(m, data, offsets, soa, final, c)
    {
      assert RadiusCovers(m, data, offsets, soa, final, reach, c);
    }
  }

  /** Everything the finished arrays satisfy. */
  ghost predicate Assembled(ds: Dataset, m: Machine, assign: seq<nat>, buckets: seq<seq<nat>>, idx: Index,
                            owner: seq<Id>, reach: seq<real>) {
    && Sized(idx) && |reach| == 4096
    && LaidTo(ds, assign, buckets, owner, 4096) && BucketsIn(ds, buckets)
    && Written(ds, idx.blockData, idx.labels, owner, |owner|)
    && (forall c {:trigger idx.offsets[c]} :: 0 <= c <= 4096 ==> idx.offsets[c] == OffsetOf(buckets, c))
    && |idx.blockData| == 112 * idx.blocks && |idx.labels| == 8 * idx.blocks && idx.offsets[4096] == idx.blocks
    && forall c {:trigger CentroidAt(idx.centroids, c)} :: 0 <= c < 4096 ==>
           && InCube(CentroidAt(idx.centroids, c))
           && BoxDone(ds, buckets, idx.boxMin, idx.boxMax, c)
           && RadiusCovers(m, idx.blockData, idx.offsets, idx.centroids, idx.radii, reach, c)
  }

  lemma AssembledSound(ds: Dataset, m: Machine, assign: seq<nat>, buckets: seq<seq<nat>>, idx: Index, owner: seq<Id>,
                       reach: seq<real>, c: nat)
    requires ValidDataset(ds) && Assembled(ds, m, assign, buckets, idx, owner, reach) && c < 4096
    ensures ClusterSound(ds, m, idx, owner, reach, c)
  {
    var cen := CentroidAt(idx.centroids, c);
    var lo, hi := idx.offsets[c], idx.offsets[c + 1];
    assert lo == OffsetOf(buckets, c) && hi == OffsetOf(buckets, c + 1);
    assert ClusterHolds(buckets, owner, c);
    if lo < hi {
      assert buckets[c] != [];
      ClusterEnclosed(ds, assign, buckets, owner, BoxAt(idx, c), c);
      ReachesOwners(ds, m, idx.blockData, idx.labels, owner, lo, hi, cen, reach[c]);
    }
  }

  /** Each reference lies in the cluster it is assigned to. */
  ghost predicate Assigned(assign: seq<nat>, offsets: seq<nat>, owner: seq<Id>) {
    forall i: nat :: i < |assign| ==> Ref(i) in ClusterIds(offsets, owner, assign[i])
  }

  lemma AssembledAssigned(ds: Dataset, m: Machine, assign: seq<nat>, buckets: seq<seq<nat>>, idx: Index, owner: seq<Id>,
                          reach: seq<real>, i: nat)
    requires Assembled(ds, m, assign, buckets, idx, owner, reach) && i < |assign|
    ensures Ref(i) in ClusterIds(idx.offsets, owner, assign[i])
  {
    var c := assign[i];
    BucketMembers(assign, c, |assign|, i);
    assert ClusterHolds(buckets, owner, c);
    var lo, hi := OffsetOf(buckets, c) * 8, OffsetOf(buckets, c + 1) * 8;
    OwnersPrefix(owner[..hi], owner, lo, hi);
    assert idx.offsets[c] == OffsetOf(buckets, c) && idx.offsets[c + 1] == OffsetOf(buckets, c + 1);
  }

  method Build(m: Machine, ds: Dataset, centroids: seq<RVec>, assign: seq<nat>, exchanges: nat -> seq<(nat, nat)>)
    returns (r: Outcome, ghost owner: seq<Id>, ghost reach: seq<real>)
    requires Works(m) && ValidDataset(ds) && |centroids| == 4096
    requires forall c :: 0 <= c < 4096 ==> InCube(centroids[c])
    requires forall i :: 0 <= i < |assign| ==> assign[i] < K
    ensures r.LengthMismatch? <==> |assign| != |ds.vectors|
    ensures r.Built? ==> Clustered(ds, m, r.idx, owner, reach) && Assigned(assign, r.idx.offsets, owner)
    ensures r.Built? ==> forall c :: 0 <= c < 4096 ==> CentroidAt(r.idx.centroids, c) == centroids[c]
    ensures r.Built? && ds.vectors == [] ==> owner == []
  {
    owner, reach := [], [];
    if |assign| != |ds.vectors| {
      return LengthMismatch, owner, reach;
    }
    var idx;
    ghost var buckets;
    idx, owner, reach, buckets := Assemble(m, ds, centroids, assign, exchanges);
    LaidComplete(ds, assign, buckets, owner);
    WrittenStored(ds, idx.blockData, idx.labels, owner, idx.blocks);
    forall c | 0 <= c < K
      ensures ClusterSound(ds, m, idx, owner, reach, c)
    {
      AssembledSound(ds, m, assign, buckets, idx, owner, reach, c);
    }
    forall i: nat | i < |assign|
      ensures Ref(i) in ClusterIds(idx.offsets, owner, assign[i])
    {
      AssembledAssigned(ds, m, assign, buckets, idx, owner, reach, i);
    }
    if ds.vectors == [] {
      NoVectorsNoBlocks(buckets, 4096);
    }
    r := Built(idx);
  }

  lemma {:induction false} NoVectorsNoBlocks(buckets: seq<seq<nat>>, c: nat)
    requires c <= |buckets| && forall k :: 0 <= k < |buckets| ==> buckets[k] == []
    ensures OffsetOf(buckets, c) == 0
  {
    if 0 < c {
      NoVectorsNoBlocks(buckets, c - 1);
    }
  }

  method Assemble(m: Machine, ds: Dataset, centroids: seq<RVec>, assign: seq<nat>, exchanges: nat -> seq<(nat, nat)>)
    returns (idx: Index, ghost owner: seq<Id>, ghost reach: seq<real>, ghost buckets: seq<seq<nat>>)
    requires Works(m) && ValidDataset(ds) && |centroids| == 4096 && |assign| == |ds.vectors|
    requires forall c :: 0 <= c < 4096 ==> InCube(centroids[c])
    requires forall i :: 0 <= i < |assign| ==> assign[i] < K
    ensures Assembled(ds, m, assign, buckets, idx, owner, reach)
    ensures forall c :: 0 <= c < 4096 ==> CentroidAt(idx.centroids, c) == centroids[c]
  {
    var bs := FillBuckets(assign);
    buckets := bs[..];
    BucketedIn(ds, assign, buckets);
    var offsets := ComputeOffsets(bs[..]);
    var soa := StoreCentroids(centroids);
    var boxMin, boxMax := ComputeBoxes(ds, bs[..]);
    var data, labels;
    data, labels, owner := LayOut(ds, assign, bs[..], offsets[..], exchanges);
    OffsetsWithin(buckets, offsets[..], |data[..]|);
    var radii;
    radii, reach := ComputeRadii(m, data[..], offsets[..], soa[..]);
    idx := Index(|ds.vectors|, offsets[4096], soa[..], offsets[..], boxMin[..], boxMax[..], radii[..], labels[..],
        data[..]);
  }

  lemma OffsetsWithin(buckets: seq<seq<nat>>, offsets: seq<nat>, n: nat)
    requires |buckets| == 4096 && |offsets| == 4097 && forall c {:trigger offsets[c]} ::
               0 <= c <= 4096 ==> offsets[c] == OffsetOf(buckets, c)
    requires n == 112 * offsets[4096]
    ensures forall c :: 0 <= c <= 4096 ==> offsets[c] * 112 <= n
  {
    forall c | 0 <= c <= 4096
      ensures offsets[c] * 112 <= n
    {
      OffsetsGrow(buckets, c, 4096);
    }
  }
}
