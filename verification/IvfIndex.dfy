/** The inverted-file index: clusters of blocks, each with a centroid, a bounding
    box and a radius, and which candidates a set of clusters holds. */
module IvfIndex {
  import opened Geometry
  import opened Float32
  import opened Blocks
  import opened Lanes
  import opened Triangle
  import opened TriangleRounding

  const K: nat := 4096

  /** Centroids are stored dimension-major, boxes 16 lanes per cluster. Cluster c
      owns blocks offsets[c] up to offsets[c + 1]. */
  datatype Index = Index(
    count: nat, blocks: nat, centroids: seq<real>, offsets: seq<nat>, boxMin: seq<Int16>, boxMax: seq<Int16>,
    radii: seq<real>, labels: seq<nat>, blockData: seq<Int16>)

  /** The arithmetic of one build of the program: rounding to single precision, the
      rounded square root, whether compiled code fuses multiply-add, whether the
      centroid scorer does, and which block kernel runs. */
  datatype Machine = Machine(fl: real -> real, root: real -> real, fused: bool, fusedScore: bool, kernel: Kernel)

  ghost predicate Works(m: Machine) {
    Rounds(m.fl) && RootRounds(m.root)
  }

  predicate Sized(idx: Index) {
    && |idx.centroids| == 57344 && |idx.offsets| == 4097 && |idx.boxMin| == |idx.boxMax| == 65536
    && |idx.radii| == 4096
  }

  function CentroidAt(centroids: seq<real>, c: nat): (v: RVec)
    requires |centroids| == 57344 && c < K
    ensures forall d :: 0 <= d < DIMS ==> v[d] == centroids[d * 4096 + c]
  {
    seq(DIMS, d requires 0 <= d < DIMS => centroids[d * 4096 + c])
  }

  function BoxAt(idx: Index, c: nat): (b: Box)
    requires Sized(idx) && c < K
    ensures ValidBox(b)
  {
    Box(idx.boxMin[c * 16..c * 16 + 16], idx.boxMax[c * 16..c * 16 + 16])
  }

  /** Some lane of blocks lo up to hi holds a reference. */
  ghost predicate HoldsSome(ds: Dataset, owner: seq<Id>, lo: nat, hi: nat)
    requires hi * 8 <= |owner|
  {
    exists g :: lo * 8 <= g < hi * 8 && owner[g].Ref? && owner[g].i < |ds.vectors|
  }

  /** No lane is computed to be farther than reach from the centroid. */
  ghost predicate Reaches(fl: real -> real, fused: bool, ds: Dataset, owner: seq<Id>, lo: nat, hi: nat, cen: RVec,
                          reach: real)
    requires hi * 8 <= |owner|
  {
    forall g :: lo * 8 <= g < hi * 8 ==> RealSum(fl, fused, Triangle.Widen(Coords(ds, owner[g])), cen, DIMS) <= reach
  }

  /** Box and radius cover every lane of cluster c; reach is the largest computed
      squared distance, whose root is the stored radius. */
  ghost predicate ClusterSound(ds: Dataset, m: Machine, idx: Index, owner: seq<Id>, reach: seq<real>, c: nat)
    requires Sized(idx) && c < K
  {
    var lo, hi := idx.offsets[c], idx.offsets[c + 1];
    && lo <= hi && hi * 8 <= |owner| && |reach| == K
    && InCube(CentroidAt(idx.centroids, c))
    && (lo < hi ==>
          && QuantizedBox(BoxAt(idx, c)) && Encloses(ds, BoxAt(idx, c), owner, lo, hi)
          && 0.0 <= reach[c] <= 1000000000000.0 && idx.radii[c] == m.root(reach[c])
          && Reaches(m.fl, m.fused, ds, owner, lo, hi, CentroidAt(idx.centroids, c), reach[c])
          && HoldsSome(ds, owner, lo, hi))
  }

  ghost predicate Clustered(ds: Dataset, m: Machine, idx: Index, owner: seq<Id>, reach: seq<real>) {
    && Sized(idx)
    && Stored(ds, idx.blockData, idx.labels, owner, idx.blocks) && Complete(ds, owner)
    && idx.offsets[0] == 0 && idx.offsets[K] == idx.blocks
    && forall c {:trigger ClusterSound(ds, m, idx, owner, reach, c)} ::
         0 <= c < K ==> ClusterSound(ds, m, idx, owner, reach, c)
  }

  // ----- The candidates held by a set of clusters -----

  ghost predicate Steps(offsets: seq<nat>, owner: seq<Id>) {
    && |offsets| == 4097 && offsets[0] == 0 && |owner| == 8 * offsets[4096]
    && forall c :: 0 <= c < 4096 ==> offsets[c] <= offsets[c + 1]
  }

  lemma ClusteredSteps(ds: Dataset, m: Machine, idx: Index, owner: seq<Id>, reach: seq<real>)
    requires Clustered(ds, m, idx, owner, reach)
    ensures Steps(idx.offsets, owner)
  {
    forall c | 0 <= c < K
      ensures idx.offsets[c] <= idx.offsets[c + 1]
    {
      assert ClusterSound(ds, m, idx, owner, reach, c);
    }
  }

  lemma {:induction false} OffsetsOrdered(offsets: seq<nat>, owner: seq<Id>, a: nat, b: nat)
    requires Steps(offsets, owner) && a <= b <= 4096
    ensures offsets[a] <= offsets[b] <= offsets[4096]
    decreases 4096 - a
  {
    if a < b {
      OffsetsOrdered(offsets, owner, a + 1, b);
    } else if b < 4096 {
      OffsetsOrdered(offsets, owner, b + 1, 4096);
    }
  }

  ghost function ClusterIds(offsets: seq<nat>, owner: seq<Id>, c: nat): set<Id> {
    if c + 1 < |offsets| && offsets[c] <= offsets[c + 1] && offsets[c + 1] * 8 <= |owner|
    then Owners(owner, offsets[c] * 8, offsets[c + 1] * 8) else {}
  }

  /** The candidates in the clusters below n that are in cs. */
  ghost function HeldBelow(offsets: seq<nat>, owner: seq<Id>, cs: set<nat>, n: nat): set<Id> {
    if n == 0 then {}
    else HeldBelow(offsets, owner, cs, n - 1) + if n - 1 in cs then ClusterIds(offsets, owner, n - 1) else {}
  }

  ghost function Held(offsets: seq<nat>, owner: seq<Id>, cs: set<nat>): set<Id> {
    HeldBelow(offsets, owner, cs, 4096)
  }

  lemma ClustersApart(offsets: seq<nat>, owner: seq<Id>, a: nat, b: nat)
    requires Steps(offsets, owner) && Injective(owner) && a < b < 4096
    ensures ClusterIds(offsets, owner, a) !! ClusterIds(offsets, owner, b)
  {
    OffsetsOrdered(offsets, owner, a + 1, b);
    OffsetsOrdered(offsets, owner, a, a + 1);
    OffsetsOrdered(offsets, owner, b, b + 1);
    OwnersSplit(owner, offsets[a] * 8, offsets[a + 1] * 8, offsets[b + 1] * 8);
    OwnersSplit(owner, offsets[a + 1] * 8, offsets[b] * 8, offsets[b + 1] * 8);
  }

  lemma {:induction false} HeldApart(offsets: seq<nat>, owner: seq<Id>, cs: set<nat>, n: nat, c: nat)
    requires Steps(offsets, owner) && Injective(owner) && n <= 4096 && c < 4096 && c !in cs
    ensures HeldBelow(offsets, owner, cs, n) !! ClusterIds(offsets, owner, c)
  {
    if 0 < n {
      HeldApart(offsets, owner, cs, n - 1, c);
      if n - 1 in cs {
        ClustersApart(offsets, owner, if c < n - 1 then c else n - 1, if c < n - 1 then n - 1 else c);
      }
    }
  }

  lemma {:induction false} HeldGrows(offsets: seq<nat>, owner: seq<Id>, cs: set<nat>, n: nat, c: nat)
    requires c !in cs
    ensures HeldBelow(offsets, owner, cs + {c}, n) ==
            HeldBelow(offsets, owner, cs, n) + if c < n then ClusterIds(offsets, owner, c) else {}
  {
    if 0 < n {
      HeldGrows(offsets, owner, cs, n - 1, c);
    }
  }

  lemma {:induction false} HeldNothing(offsets: seq<nat>, owner: seq<Id>, n: nat)
    ensures HeldBelow(offsets, owner, {}, n) == {}
  {
    if 0 < n {
      HeldNothing(offsets, owner, n - 1);
    }
  }

  lemma {:induction false} HeldAll(offsets: seq<nat>, owner: seq<Id>, cs: set<nat>, n: nat)
    requires Steps(offsets, owner) && n <= 4096 && forall c: nat :: c < 4096 ==> c in cs
    ensures offsets[n] * 8 <= |owner| && HeldBelow(offsets, owner, cs, n) == Owners(owner, 0, offsets[n] * 8)
  {
    OffsetsOrdered(offsets, owner, 0, n);
    if 0 < n {
      HeldAll(offsets, owner, cs, n - 1);
      OffsetsOrdered(offsets, owner, n - 1, n);
      var c: nat := n - 1;
      assert c in cs;
      OwnersSplit(owner, 0, offsets[n - 1] * 8, offsets[n] * 8);
    }
  }

  lemma {:induction false} HeldSplits(offsets: seq<nat>, owner: seq<Id>, cs: set<nat>, ds: set<nat>, n: nat)
    requires cs <= ds
    ensures HeldBelow(offsets, owner, cs, n) <= HeldBelow(offsets, owner, ds, n)
  {
    if 0 < n {
      HeldSplits(offsets, owner, cs, ds, n - 1);
    }
  }

  lemma {:induction false} HeldWithin(offsets: seq<nat>, owner: seq<Id>, cs: set<nat>, n: nat)
    requires Steps(offsets, owner) && n <= 4096
    ensures HeldBelow(offsets, owner, cs, n) <= Owners(owner, 0, |owner|)
  {
    if 0 < n {
      HeldWithin(offsets, owner, cs, n - 1);
      OffsetsOrdered(offsets, owner, n - 1, n);
      OwnersSplit(owner, 0, offsets[n - 1] * 8, offsets[n] * 8);
      OwnersSplit(owner, 0, offsets[n] * 8, |owner|);
    }
  }
}
