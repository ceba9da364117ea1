/** Searching the clusters: two filters per cluster, the fast tier, the gated
    escalation, the full sweep. */
module IvfSearch {
  import opened Geometry
  import opened TopFive
  import opened Float32
  import opened Kernels
  import opened Blocks
  import opened Lanes
  import opened Triangle
  import opened TriangleRounding
  import opened IvfIndex
  import opened Bitmap
  import opened Centroids
  import opened ClusterHeap

  const FAST_N_PROBE: nat := 8

  const ESCALATE_N_BY_CLASS: seq<nat> := [8, 8, 32, 192, 56, 16]

  const EXTREME_WORST_THRESHOLD: seq<int> := [0, 0, 0, 0, 0, 100905918]

  class IvfScratch {
    const centroidDists: array<real>
    const picked: array<nat>
    const scanned: array<bv64>
    const top: Top5
    const blockSum: array<real>

    ghost predicate Valid()
      reads this, top, top.dist, top.lab
    {
      && centroidDists.Length == 4096 && picked.Length == MAX_N_PROBE && scanned.Length == 64
          && blockSum.Length == LANES
      && top.Valid()
      && centroidDists != blockSum && picked != top.lab
      && (picked as object) != top.dist && (picked as object) != blockSum && (picked as object) != centroidDists
      && (scanned as object) != top.dist && (scanned as object) != top.lab && (scanned as object) != blockSum
      && (scanned as object) != picked && (scanned as object) != centroidDists
      && (top.dist as object) != centroidDists && (top.dist as object) != blockSum
      && (top.lab as object) != centroidDists && (top.lab as object) != blockSum
    }

    constructor ()
      ensures Valid()
      ensures fresh(this) && fresh(centroidDists) && fresh(picked) && fresh(scanned) && fresh(blockSum)
      ensures fresh(top) && fresh(top.dist) && fresh(top.lab)
    {
      centroidDists := new real[4096];
      picked := new nat[256];
      scanned := new bv64[64];
      top := new Top5();
      blockSum := new real[LANES];
    }
  }

  /** What one query works with: the machine, the query, the index. */
  datatype Job = Job(m: Machine, q: Vec, idx: Index)

  /** What the proof knows beside it: the true distances, which candidate each lane
      holds, how far each cluster reaches. */
  datatype View = View(f: Id -> int, ds: Dataset, owner: seq<Id>, reach: seq<real>)

  ghost predicate Ready(j: Job, v: View) {
    && Works(j.m) && Measures(v.f, j.q, v.ds) && Quantized(j.q) && ValidDataset(v.ds)
    && Clustered(v.ds, j.m, j.idx, v.owner, v.reach)
  }

  /** The computed squared distance from the query to centroid c. */
  function CentroidDist(j: Job, c: nat): real
    requires Sized(j.idx) && c < K
  {
    RealSum(j.m.fl, j.m.fusedScore, Triangle.Widen(j.q), CentroidAt(j.idx.centroids, c), DIMS)
  }

  ghost predicate Scored(j: Job, dists: seq<real>) {
    Sized(j.idx) && |dists| == 4096 && forall c {:trigger CentroidDist(j, c)} ::
      0 <= c < 4096 ==> dists[c] == CentroidDist(j, c)
  }

  /** out[c] is the distance to centroid c over the first d dimensions. */
  ghost predicate ScoredTo(j: Job, out: seq<real>, c: nat, d: nat)
    requires Sized(j.idx) && d <= DIMS
  {
    c < |out| && c < 4096
        && out[c] == RealSum(j.m.fl, j.m.fusedScore, Triangle.Widen(j.q), CentroidAt(j.idx.centroids, c), d)
  }

  lemma ScoreStep(j: Job, before: seq<real>, after: seq<real>, c: nat, d: nat)
    requires Sized(j.idx) && d < DIMS && ScoredTo(j, before, c, d) && |after| == |before|
    requires after[c] ==
               MulAdd(j.m.fl, j.m.fusedScore, before[c], j.m.fl(j.q[d] as real - j.idx.centroids[d * 4096 + c]))
    ensures ScoredTo(j, after, c, d + 1)
  {
  }

  /** Adds dimension d to every centroid's distance. */
  method AddDimension(j: Job, d: nat, out: array<real>, ghost next: nat)
    requires Sized(j.idx) && out.Length == 4096 && d < DIMS && next == d + 1
    requires forall c :: 0 <= c < 4096 ==> ScoredTo(j, out[..], c, d)
    modifies out
    ensures forall c :: 0 <= c < 4096 ==> ScoredTo(j, out[..], c, next)
  {
    var qd := j.q[d] as real;
    ghost var was := out[..];
    for c := 0 to 4096
      invariant forall k ::
                  0 <= k < c ==>
                    out[k] == MulAdd(j.m.fl, j.m.fusedScore, was[k], j.m.fl(qd - j.idx.centroids[d * 4096 + k]))
      invariant forall k :: c <= k < 4096 ==> out[k] == was[k]
    {
      out[c] := MulAdd(j.m.fl, j.m.fusedScore, out[c], j.m.fl(qd - j.idx.centroids[d * 4096 + c]));
    }
    ScoreSteps(j, was, out[..], d, next);
  }

  lemma ScoreSteps(j: Job, before: seq<real>, after: seq<real>, d: nat, next: nat)
    requires Sized(j.idx) && d < DIMS && next == d + 1 && |before| == |after| == 4096
    requires forall c :: 0 <= c < 4096 ==> ScoredTo(j, before, c, d)
    requires forall k ::
               0 <= k < 4096 ==>
                 after[k] == MulAdd(j.m.fl, j.m.fusedScore, before[k],
                                    j.m.fl(j.q[d] as real - j.idx.centroids[d * 4096 + k]))
    ensures forall c :: 0 <= c < 4096 ==> ScoredTo(j, after, c, next)
  {
    forall c | 0 <= c < 4096
      ensures ScoredTo(j, after, c, next)
    {
      assert ScoredTo(j, before, c, d);
      ScoreStep(j, before, after, c, d);
    }
  }

  /** Distances of every centroid, one dimension at a time across all of them. */
  method ScoreAllCentroids(j: Job, out: array<real>)
    requires Sized(j.idx) && out.Length == 4096
    modifies out
    ensures Scored(j, out[..])
  {
    for c := 0 to 4096
      invariant forall k :: 0 <= k < c ==> out[k] == 0.0
    {
      out[c] := 0.0;
    }
    for d := 0 to DIMS
      invariant forall c :: 0 <= c < 4096 ==> ScoredTo(j, out[..], c, d)
    {
      AddDimension(j, d, out, d + 1);
    }
    forall c | 0 <= c < 4096
      ensures out[..][c] == CentroidDist(j, c)
    {
      assert ScoredTo(j, out[..], c, DIMS);
    }
  }

  // ----- One cluster -----

  /** The triangle filter's verdict. */
  function TriangleSkips(j: Job, c: nat, cd: real, worst: int): bool
    requires Sized(j.idx) && c < K
  {
    cd > 0.0 &&
    var g := j.m.fl(j.m.root(cd) - j.idx.radii[c]);
    g > 0.0 && j.m.fl(SquareR(g)) >= Threshold(j.m.fl, worst)
  }

  /** A lane of a cluster the triangle filter skips is not nearer than the worst. */
  lemma TriangleSkipIsFar(j: Job, v: View, c: nat, worst: int, g: nat)
    requires Ready(j, v) && c < K && worst <= INFINITE
    requires TriangleSkips(j, c, CentroidDist(j, c), worst)
    requires j.idx.offsets[c] * 8 <= g < j.idx.offsets[c + 1] * 8 <= |v.owner| && v.owner[g].Ref?
             && v.owner[g].i < |v.ds.vectors|
    ensures worst <= v.f(v.owner[g])
  {
    var x := v.owner[g];
    assert ClusterSound(v.ds, j.m, j.idx, v.owner, v.reach, c);
    assert MeasuresAt(v.f, j.q, v.ds, x);
    if SqDist(j.q, Coords(v.ds, x)) < worst {
      TriangleKeepsNear(j.m.fl, j.m.root, j.m.fusedScore, j.m.fused, j.q, Coords(v.ds, x),
          CentroidAt(j.idx.centroids, c), worst, v.reach[c]);
      assert false;
    }
  }

  lemma PhantomsAreFarther(q: Vec, v: View, g: nat, h: nat)
    requires Measures(v.f, q, v.ds) && ValidDataset(v.ds) && Quantized(q) && g < |v.owner| && h < |v.owner|
    requires v.owner[g].Ref? && v.owner[g].i < |v.ds.vectors| && v.owner[h].Phantom?
    ensures v.f(v.owner[g]) <= v.f(v.owner[h])
  {
    assert MeasuresAt(v.f, q, v.ds, v.owner[g]) && MeasuresAt(v.f, q, v.ds, v.owner[h]);
    PhantomFarther(q, v.ds.vectors[v.owner[g].i], DIMS);
  }

  /** Skipping a cluster by the triangle filter keeps the top five right. */
  lemma TriangleSkipKeepsBest(j: Job, v: View, c: nat, t: seq<Id>, seen: set<Id>)
    requires Ready(j, v) && c < K && Best5(v.f, t, seen)
    requires TriangleSkips(j, c, CentroidDist(j, c), v.f(t[4]))
    ensures Best5(v.f, t, seen + ClusterIds(j.idx.offsets, v.owner, c))
  {
    assert ClusterSound(v.ds, j.m, j.idx, v.owner, v.reach, c);
    assert MeasuresAt(v.f, j.q, v.ds, t[4]);
    var lo, hi := j.idx.offsets[c], j.idx.offsets[c + 1];
    forall h | lo * 8 <= h < hi * 8
      ensures v.f(t[4]) <= v.f(v.owner[h])
    {
      SkippedLane(j, v, c, v.f(t[4]), h);
    }
    RangeSkipped(v.f, t, seen, v.owner, lo * 8, hi * 8);
  }

  lemma SomeMember(ds: Dataset, owner: seq<Id>, lo: nat, hi: nat) returns (g: nat)
    requires lo <= hi && hi * 8 <= |owner| && HoldsSome(ds, owner, lo, hi)
    ensures lo * 8 <= g < hi * 8 && owner[g].Ref? && owner[g].i < |ds.vectors|
  {
    g :| lo * 8 <= g < hi * 8 && owner[g].Ref? && owner[g].i < |ds.vectors|;
  }

  /** Padding is farther than a member of its cluster, which is far. */
  lemma SkippedPhantom(j: Job, v: View, c: nat, worst: int, h: nat)
    requires Ready(j, v) && c < K && worst <= INFINITE
    requires TriangleSkips(j, c, CentroidDist(j, c), worst)
    requires j.idx.offsets[c] * 8 <= h < j.idx.offsets[c + 1] * 8 <= |v.owner| && v.owner[h].Phantom?
    ensures worst <= v.f(v.owner[h])
  {
    assert ClusterSound(v.ds, j.m, j.idx, v.owner, v.reach, c);
    var g := SomeMember(v.ds, v.owner, j.idx.offsets[c], j.idx.offsets[c + 1]);
    TriangleSkipIsFar(j, v, c, worst, g);
    PhantomsAreFarther(j.q, v, g, h);
  }

  lemma SkippedLane(j: Job, v: View, c: nat, worst: int, h: nat)
    requires Ready(j, v) && c < K && worst <= INFINITE
    requires TriangleSkips(j, c, CentroidDist(j, c), worst)
    requires j.idx.offsets[c] * 8 <= h < j.idx.offsets[c + 1] * 8 <= |v.owner|
    ensures worst <= v.f(v.owner[h])
  {
    var lo, hi := j.idx.offsets[c], j.idx.offsets[c + 1];
    assert ClusterSound(v.ds, j.m, j.idx, v.owner, v.reach, c);
    if v.owner[h].Phantom? {
      SkippedPhantom(j, v, c, worst, h);
    } else {
      assert v.owner[h].Ref? && InBox(BoxAt(j.idx, c), Coords(v.ds, v.owner[h]));
      assert v.owner[h].i < |v.ds.vectors|;
      TriangleSkipIsFar(j, v, c, worst, h);
    }
  }

  /** The candidates accounted for once the clusters cs have been scanned. */
  ghost function SeenIn(j: Job, v: View, cs: set<nat>): set<Id> {
    Pads() + Held(j.idx.offsets, v.owner, cs)
  }

  ghost predicate InClusters(cs: set<nat>) {
    forall c :: c in cs ==> c < K
  }

  /** The scratch shows the five nearest candidates of the clusters cs. */
  ghost predicate Shown(j: Job, v: View, sc: IvfScratch, cs: set<nat>)
    reads sc, sc.top, sc.top.dist, sc.top.lab
  {
    sc.Valid() && sc.top.Shows(v.f, v.ds) && Best5(v.f, sc.top.ids, SeenIn(j, v, cs))
  }

  lemma NextCluster(j: Job, v: View, cs: set<nat>, c: nat)
    requires Ready(j, v) && c < K && c !in cs
    ensures SeenIn(j, v, cs + {c}) == SeenIn(j, v, cs) + ClusterIds(j.idx.offsets, v.owner, c)
    ensures SeenIn(j, v, cs) !! ClusterIds(j.idx.offsets, v.owner, c)
  {
    ClusteredSteps(v.ds, j.m, j.idx, v.owner, v.reach);
    HeldGrows(j.idx.offsets, v.owner, cs, 4096, c);
    HeldApart(j.idx.offsets, v.owner, cs, 4096, c);
    ClusterHasNoPads(j, v, c);
  }

  lemma ClusterHasNoPads(j: Job, v: View, c: nat)
    requires Ready(j, v) && c < K
    ensures Pads() !! ClusterIds(j.idx.offsets, v.owner, c)
  {
    assert ClusterSound(v.ds, j.m, j.idx, v.owner, v.reach, c);
    var lo, hi := j.idx.offsets[c], j.idx.offsets[c + 1];
    forall x | x in Owners(v.owner, lo * 8, hi * 8)
      ensures !x.Pad?
    {
      var g := OwnerLane(v.owner, lo * 8, hi * 8, x);
    }
  }

  lemma BoxSkipKeepsBest(j: Job, v: View, c: nat, t: seq<Id>, seen: set<Id>)
    requires Ready(j, v) && c < K && Best5(v.f, t, seen)
    requires BoxSum(j.m.fl, j.m.fused, true, j.q, BoxAt(j.idx, c), DIMS) >= Threshold(j.m.fl, v.f(t[4]))
    ensures Best5(v.f, t, seen + ClusterIds(j.idx.offsets, v.owner, c))
  {
    assert ClusterSound(v.ds, j.m, j.idx, v.owner, v.reach, c);
    var lo, hi := j.idx.offsets[c], j.idx.offsets[c + 1];
    if lo < hi {
      PruneKeepsBest(v.f, j.m.fl, j.m.fused, true, j.q, v.ds, v.owner, BoxAt(j.idx, c), lo, hi, t, seen);
    } else {
      assert seen + ClusterIds(j.idx.offsets, v.owner, c) == seen;
    }
  }

  /** Scans cluster c unless the triangle or the box filter rules it out. */
  method ScanCluster(j: Job, ghost v: View, c: nat, sc: IvfScratch, ghost cs: set<nat>)
    requires Ready(j, v) && Shown(j, v, sc, cs) && Scored(j, sc.centroidDists[..]) && c < K && c !in cs
    modifies sc.top, sc.top.dist, sc.top.lab, sc.blockSum
    ensures Shown(j, v, sc, cs + {c})
  {
    NextCluster(j, v, cs, c);
    var worst := sc.top.WorstI64();
    var worstF32 := Threshold(j.m.fl, worst);
    var cd := sc.centroidDists[c];
    assert cd == sc.centroidDists[..][c];
    if cd > 0.0 {
      var gap := j.m.fl(j.m.root(cd) - j.idx.radii[c]);
      if gap > 0.0 && j.m.fl(SquareR(gap)) >= worstF32 {
        TriangleSkipKeepsBest(j, v, c, sc.top.ids, SeenIn(j, v, cs));
        return;
      }
    }
    var lb := AabbLowerBoundF32(j.m.fl, j.m.fused, true, j.q, BoxAt(j.idx, c));
    if lb >= worstF32 {
      BoxSkipKeepsBest(j, v, c, sc.top.ids, SeenIn(j, v, cs));
      return;
    }
    ScanBlocks(j, v, c, sc, SeenIn(j, v, cs));
  }

  method ScanBlocks(j: Job, ghost v: View, c: nat, sc: IvfScratch, ghost seen: set<Id>)
    requires Ready(j, v) && c < K && sc.Valid() && sc.top.Shows(v.f, v.ds) && Best5(v.f, sc.top.ids, seen)
    requires seen !! ClusterIds(j.idx.offsets, v.owner, c)
    modifies sc.top, sc.top.dist, sc.top.lab, sc.blockSum
    ensures sc.Valid() && sc.top.Shows(v.f, v.ds)
            && Best5(v.f, sc.top.ids, seen + ClusterIds(j.idx.offsets, v.owner, c))
  {
    ClusteredSteps(v.ds, j.m, j.idx, v.owner, v.reach);
    assert ClusterSound(v.ds, j.m, j.idx, v.owner, v.reach, c);
    OffsetsOrdered(j.idx.offsets, v.owner, c, c + 1);
    ScanRun(v.f, j.m.fl, j.m.kernel, j.q, j.idx.blockData, j.idx.labels, j.idx.offsets[c], j.idx.offsets[c + 1],
            sc.top, sc.blockSum, v.ds, v.owner, j.idx.blocks, seen);
  }

  // ----- A list of picks -----

  ghost function SetOf(s: seq<nat>): (r: set<nat>)
    ensures forall x :: x in r <==> x in s
  {
    set x | x in s
  }

  /** Everything the scratch records about the clusters scanned so far. */
  ghost predicate Recorded(j: Job, v: View, sc: IvfScratch, cs: set<nat>)
    reads sc, sc.top, sc.top.dist, sc.top.lab, sc.scanned, sc.centroidDists
  {
    Shown(j, v, sc, cs) && Scored(j, sc.centroidDists[..]) && InClusters(cs) && MarkedSet(sc.scanned[..], 4096) == cs
  }

  /** Scans one picked cluster and sets its bit. */
  method ScanAndMark(j: Job, ghost v: View, c: nat, sc: IvfScratch, ghost cs: set<nat>)
    requires Ready(j, v) && Recorded(j, v, sc, cs) && c < K && c !in cs
    modifies sc.top, sc.top.dist, sc.top.lab, sc.blockSum, sc.scanned
    ensures Recorded(j, v, sc, cs + {c})
  {
    ScanCluster(j, v, c, sc, cs);
    Mark(sc.scanned, c);
  }

  /** The first i picks are real ones, and done is the set of them. */
  ghost predicate Consumed(p: seq<nat>, kept: set<nat>, i: nat, done: set<nat>) {
    && i <= |kept| <= |p| && done == SetOf(p[..i])
  }

  lemma NextPick(dists: seq<real>, open: set<nat>, p: seq<nat>, kept: set<nat>, i: nat, done: set<nat>)
    requires Picks(dists, open, p, kept) && Consumed(p, kept, i, done) && i < |p| && p[i] != NONE
    ensures p[i] in kept && p[i] in open && p[i] !in done
    ensures Consumed(p, kept, i + 1, done + {p[i]})
  {
    var listed := p[..|kept|];
    ListedDistinct(listed, kept);
    assert i < |kept|;
    assert listed[i] == p[i];
    assert p[..i + 1] == p[..i] + [p[i]];
    assert forall k :: 0 <= k < i ==> p[..i][k] == listed[k];
  }

  lemma AllPicked(dists: seq<real>, open: set<nat>, p: seq<nat>, kept: set<nat>, i: nat, done: set<nat>)
    requires Picks(dists, open, p, kept) && Consumed(p, kept, i, done) && |dists| <= NONE
    requires i == |p| || p[i] == NONE
    ensures done == kept
  {
    ListedDistinct(p[..|kept|], kept);
    PicksInRange(dists, open, p, kept);
  }

  /** Of the picks p the first i are scanned, beside the clusters cs from before. */
  ghost predicate ScannedTo(j: Job, v: View, sc: IvfScratch, cs: set<nat>, p: seq<nat>, kept: set<nat>, i: nat,
                            done: set<nat>)
    reads sc, sc.top, sc.top.dist, sc.top.lab, sc.scanned, sc.centroidDists
  {
    Consumed(p, kept, i, done) && Recorded(j, v, sc, cs + done)
  }

  /** Scans pick i. */
  method ScanPick(j: Job, ghost v: View, c: nat, sc: IvfScratch, ghost cs: set<nat>, ghost open: set<nat>,
                  ghost p: seq<nat>, ghost kept: set<nat>, ghost i: nat, ghost done: set<nat>)
    requires Ready(j, v) && ScannedTo(j, v, sc, cs, p, kept, i, done)
    requires Picks(sc.centroidDists[..], open, p, kept) && open !! cs && InClusters(open)
    requires i < |p| && c == p[i] != NONE
    modifies sc.top, sc.top.dist, sc.top.lab, sc.blockSum, sc.scanned
    ensures ScannedTo(j, v, sc, cs, p, kept, i + 1, done + {c})
  {
    NextPick(sc.centroidDists[..], open, p, kept, i, done);
    ScanAndMark(j, v, c, sc, cs + done);
    assert cs + done + {c} == cs + (done + {c});
  }

  /** Scans the first n picks in order, stopping at the first sentinel. */
  method ScanPicked(j: Job, ghost v: View, n: nat, sc: IvfScratch, ghost cs: set<nat>, ghost open: set<nat>,
                    ghost kept: set<nat>)
    requires Ready(j, v) && Recorded(j, v, sc, cs) && n <= MAX_N_PROBE
    requires Picks(sc.centroidDists[..], open, sc.picked[..n], kept) && open !! cs && InClusters(open)
    modifies sc.top, sc.top.dist, sc.top.lab, sc.blockSum, sc.scanned
    ensures Recorded(j, v, sc, cs + kept)
  {
    ghost var p, dists := sc.picked[..n], sc.centroidDists[..];
    ghost var done: set<nat> := {};
    assert cs + done == cs;
    var i := 0;
    while i < n && sc.picked[i] != NONE
      invariant sc.picked[..n] == p && sc.centroidDists[..] == dists
      invariant ScannedTo(j, v, sc, cs, p, kept, i, done)
    {
      ghost var c := sc.picked[i];
      assert c == p[i];
      ScanPick(j, v, sc.picked[i], sc, cs, open, p, kept, i, done);
      done := done + {c};
      i := i + 1;
    }
    assert i < n ==> sc.picked[i] == p[i];
    AllPicked(dists, open, p, kept, i, done);
  }

  // ----- The tiers -----

  lemma NothingScanned(j: Job, v: View)
    ensures SeenIn(j, v, {}) == Pads()
  {
    HeldNothing(j.idx.offsets, v.owner, 4096);
  }

  /** Empties the top five and the record of scanned clusters. */
  method Restart(j: Job, ghost v: View, sc: IvfScratch)
    requires Ready(j, v) && sc.Valid() && Scored(j, sc.centroidDists[..])
    modifies sc.top, sc.top.dist, sc.top.lab, sc.scanned
    ensures Recorded(j, v, sc, {})
    ensures sc.picked[..] == old(sc.picked[..]) && sc.centroidDists[..] == old(sc.centroidDists[..])
  {
    forall x: Id | x.Pad?
      ensures v.f(x) == INFINITE
    {
      assert MeasuresAt(v.f, j.q, v.ds, x);
    }
    sc.top.Reset(v.f, v.ds);
    Bitmap.Clear(sc.scanned);
    NothingScanned(j, v);
  }

  /** No centroid is so far that the fast tier would not consider it. */
  lemma CentroidsAreClose(j: Job, v: View, dists: seq<real>)
    requires Ready(j, v) && Scored(j, dists)
    ensures CloseBelow(dists, 4096) == Below(4096)
  {
    forall c: nat | c < 4096
      ensures dists[c] < FAR
    {
      assert ClusterSound(v.ds, j.m, j.idx, v.owner, v.reach, c) && dists[c] == CentroidDist(j, c);
      var sum, exact := FilterDistances(j.m.fl, j.m.fusedScore, j.q, CentroidAt(j.idx.centroids, c));
    }
  }

  /** Scores every centroid and picks the nearest n. */
  method PickFast(j: Job, ghost v: View, sc: IvfScratch, n: nat) returns (ghost kept: set<nat>)
    requires Ready(j, v) && sc.Valid() && n <= MAX_N_PROBE
    modifies sc.centroidDists, sc.picked
    ensures Scored(j, sc.centroidDists[..])
    ensures Picks(sc.centroidDists[..], Below(4096), sc.picked[..n], kept)
  {
    ScoreAllCentroids(j, sc.centroidDists);
    ghost var dists := sc.centroidDists[..];
    CentroidsAreClose(j, v, dists);
    kept := PickTopNCentroids(sc.centroidDists[..], n, sc.picked);
    assert sc.centroidDists[..] == dists;
  }

  /** The fast tier alone: the nearest nprobe clusters. */
  method FraudCountFastOnly(j: Job, ghost v: View, sc: IvfScratch, nprobe: nat)
    returns (count: nat, worst: int, ghost kept: set<nat>, ghost p: seq<nat>)
    requires Ready(j, v) && sc.Valid()
    modifies sc.top, sc.top.dist, sc.top.lab, sc.blockSum, sc.scanned, sc.centroidDists, sc.picked
    ensures Recorded(j, v, sc, kept)
    ensures |p| == Min(nprobe, MAX_N_PROBE) && Picks(sc.centroidDists[..], Below(4096), p, kept)
    ensures count == Frauds(v.ds, sc.top.ids) && worst == v.f(sc.top.ids[4])
  {
    var n := Min(nprobe, MAX_N_PROBE);
    kept := PickFast(j, v, sc, n);
    p := sc.picked[..n];
    ScanFresh(j, v, n, sc, p, kept);
    count := sc.top.FraudCount(v.f, v.ds);
    worst := sc.top.WorstI64();
  }

  /** Starts over and scans the first n picks. */
  method ScanFresh(j: Job, ghost v: View, n: nat, sc: IvfScratch, ghost p: seq<nat>, ghost kept: set<nat>)
    requires Ready(j, v) && sc.Valid() && Scored(j, sc.centroidDists[..])
    requires n <= MAX_N_PROBE && p == sc.picked[..n] && Picks(sc.centroidDists[..], Below(4096), p, kept)
    modifies sc.top, sc.top.dist, sc.top.lab, sc.blockSum, sc.scanned
    ensures Recorded(j, v, sc, kept) && sc.centroidDists[..] == old(sc.centroidDists[..])
  {
    Restart(j, v, sc);
    assert sc.picked[..][..n] == p;
    ScanPicked(j, v, n, sc, {}, Below(4096), kept);
    assert {} + kept == kept;
  }

  /** One step of the sweep: cluster c is scanned unless the fast tier did. */
  method SweepOne(j: Job, ghost v: View, c: nat, sc: IvfScratch, ghost kept: set<nat>)
    requires Ready(j, v) && c < K && Shown(j, v, sc, kept + Below(c)) && Scored(j, sc.centroidDists[..])
    requires MarkedSet(sc.scanned[..], 4096) == kept
    modifies sc.top, sc.top.dist, sc.top.lab, sc.blockSum
    ensures Shown(j, v, sc, kept + Below(c + 1))
  {
    if Marked(sc.scanned[..], c) {
      assert kept + Below(c + 1) == kept + Below(c);
    } else {
      assert kept + Below(c + 1) == kept + Below(c) + {c};
      ScanCluster(j, v, c, sc, kept + Below(c));
    }
  }

  method SweepAll(j: Job, ghost v: View, sc: IvfScratch, ghost kept: set<nat>)
    requires Ready(j, v) && Recorded(j, v, sc, kept)
    modifies sc.top, sc.top.dist, sc.top.lab, sc.blockSum
    ensures Shown(j, v, sc, kept + Below(4096))
  {
    assert kept + Below(0) == kept;
    ghost var dists, words := sc.centroidDists[..], sc.scanned[..];
    for c := 0 to 4096
      invariant Shown(j, v, sc, kept + Below(c))
      invariant sc.centroidDists[..] == dists && sc.scanned[..] == words
    {
      SweepOne(j, v, c, sc, kept);
    }
  }

  lemma EverythingSeen(j: Job, v: View, cs: set<nat>)
    requires Ready(j, v) && Below(4096) <= cs
    ensures SeenIn(j, v, cs) == Pads() + Owners(v.owner, 0, |v.owner|)
  {
    ClusteredSteps(v.ds, j.m, j.idx, v.owner, v.reach);
    HeldAll(j.idx.offsets, v.owner, cs, 4096);
  }

  /** Fast tier, then every cluster not yet scanned: nothing is left out. */
  method FraudCountFull(j: Job, ghost v: View, sc: IvfScratch) returns (count: nat)
    requires Ready(j, v) && sc.Valid()
    modifies sc.top, sc.top.dist, sc.top.lab, sc.blockSum, sc.scanned, sc.centroidDists, sc.picked
    ensures sc.Valid() && sc.top.Shows(v.f, v.ds)
    ensures Best5(v.f, sc.top.ids, Pads() + Owners(v.owner, 0, |v.owner|))
    ensures count == Frauds(v.ds, sc.top.ids)
  {
    var worst;
    ghost var kept, p;
    count, worst, kept, p := FraudCountFastOnly(j, v, sc, FAST_N_PROBE);
    SweepAll(j, v, sc, kept);
    EverythingSeen(j, v, kept + Below(4096));
    count := sc.top.FraudCount(v.f, v.ds);
  }

  // ----- The gated escalation -----

  lemma UnmarkedComplement(words: seq<bv64>, cs: set<nat>)
    requires |words| == 64 && MarkedSet(words, 4096) == cs
    ensures UnmarkedSet(words, 4096) == Below(4096) - cs
  {
  }

  /** Scans the n nearest clusters not scanned yet. */
  method EscalateBy(j: Job, ghost v: View, sc: IvfScratch, n: nat, ghost cs: set<nat>)
    returns (ghost kept: set<nat>, ghost p: seq<nat>)
    requires Ready(j, v) && Recorded(j, v, sc, cs) && n <= MAX_N_PROBE
    modifies sc.top, sc.top.dist, sc.top.lab, sc.blockSum, sc.scanned, sc.picked
    ensures Recorded(j, v, sc, cs + kept)
    ensures |p| == n && Picks(sc.centroidDists[..], Below(4096) - cs, p, kept)
  {
    kept := PickMore(j, v, sc, n, cs);
    p := sc.picked[..n];
    ScanPicked(j, v, n, sc, cs, Below(4096) - cs, kept);
  }

  method PickMore(j: Job, ghost v: View, sc: IvfScratch, n: nat, ghost cs: set<nat>) returns (ghost kept: set<nat>)
    requires Recorded(j, v, sc, cs) && n <= MAX_N_PROBE
    modifies sc.picked
    ensures Recorded(j, v, sc, cs) && sc.centroidDists[..] == old(sc.centroidDists[..])
    ensures Picks(sc.centroidDists[..], Below(4096) - cs, sc.picked[..n], kept)
  {
    UnmarkedComplement(sc.scanned[..], cs);
    ghost var dists, words := sc.centroidDists[..], sc.scanned[..];
    kept := PickNextNUnscanned(sc.centroidDists[..], sc.scanned[..], n, sc.picked);
    assert sc.centroidDists[..] == dists && sc.scanned[..] == words;
  }

  /** How many clusters a query scans in all when the fast tier shows count frauds and
      a fifth distance of worst. */
  ghost function ProbeCount(count: nat, worst: int): nat
    requires count <= 5
  {
    if count == 2 then 40
    else if count == 3 then 200
    else if count == 4 then 64
    else if count == 5 && worst > 100905918 then 24
    else 8
  }

  lemma SeenGrows(j: Job, v: View, cs: set<nat>, more: set<nat>)
    ensures SeenIn(j, v, cs) <= SeenIn(j, v, cs + more)
  {
    HeldSplits(j.idx.offsets, v.owner, cs, cs + more, 4096);
  }

  /** Extends the scan from the clusters first, picked as p1, by n more. */
  method Escalate(j: Job, ghost v: View, sc: IvfScratch, n: nat, ghost fast: seq<Id>, ghost first: set<nat>,
                  ghost p1: seq<nat>)
    returns (count: nat, ghost cs: set<nat>, ghost p: seq<nat>)
    requires Ready(j, v) && Recorded(j, v, sc, first) && n <= MAX_N_PROBE && fast == sc.top.ids
    requires Picks(sc.centroidDists[..], Below(4096), p1, first)
    modifies sc.top, sc.top.dist, sc.top.lab, sc.blockSum, sc.scanned, sc.picked
    ensures Recorded(j, v, sc, cs) && first <= cs && count == Frauds(v.ds, sc.top.ids)
    ensures |p| == |p1| + n && Picks(sc.centroidDists[..], Below(4096), p, cs)
    ensures forall i :: 0 <= i < 5 ==> v.f(sc.top.ids[i]) <= v.f(fast[i])
    ensures sc.centroidDists[..] == old(sc.centroidDists[..])
  {
    ghost var more, p2;
    more, p2 := EscalateBy(j, v, sc, n, first);
    cs, p := first + more, p1 + p2;
    JointPicks(sc.centroidDists[..], Below(4096), p1, first, p2, more);
    SeenGrows(j, v, first, more);
    BestDistancesShrink(v.f, fast, SeenIn(j, v, first), sc.top.ids, SeenIn(j, v, cs));
    count := sc.top.FraudCount(v.f, v.ds);
  }

  /** Which clusters a query scans, by the centroid distances dists: fast is the answer
      of the fast tier over the nearest eight clusters, first; it decides how many are
      scanned in all, and p lists those, nearest first, as the set cs. */
  ghost predicate Probed(j: Job, v: View, dists: seq<real>, fast: seq<Id>, first: set<nat>, cs: set<nat>, p: seq<nat>) {
    && Scored(j, dists) && first <= cs && Nearest(dists, Below(4096), first, FAST_N_PROBE)
    && Best5(v.f, fast, SeenIn(j, v, first)) && |fast| == 5 && Frauds(v.ds, fast) <= 5
    && |p| == ProbeCount(Frauds(v.ds, fast), v.f(fast[4])) && Picks(dists, Below(4096), p, cs)
  }

  /** The production search. */
  method FraudCountIvf(j: Job, ghost v: View, sc: IvfScratch)
    returns (count: nat, ghost fast: seq<Id>, ghost first: set<nat>, ghost cs: set<nat>, ghost p: seq<nat>)
    requires Ready(j, v) && sc.Valid()
    modifies sc.top, sc.top.dist, sc.top.lab, sc.blockSum, sc.scanned, sc.centroidDists, sc.picked
    ensures Recorded(j, v, sc, cs) && count == Frauds(v.ds, sc.top.ids)
    ensures Probed(j, v, sc.centroidDists[..], fast, first, cs, p)
    ensures forall i :: 0 <= i < 5 ==> v.f(sc.top.ids[i]) <= v.f(fast[i])
  {
    var worst;
    count, worst, cs, p := FraudCountFastOnly(j, v, sc, FAST_N_PROBE);
    fast, first := sc.top.ids, cs;
    FraudsAtMostFive(v.ds, fast);
    var needSweep := count == 2 || count == 3 || count == 4;
    if !needSweep {
      var thr := EXTREME_WORST_THRESHOLD[count];
      if thr > 0 && worst > thr {
        needSweep := true;
      }
    }
    if needSweep {
      count, cs, p := Escalate(j, v, sc, ESCALATE_N_BY_CLASS[count], fast, first, p);
    }
  }

  lemma FraudsAtMostFive(ds: Dataset, t: seq<Id>)
    requires ValidDataset(ds) && |t| == 5
    ensures Frauds(ds, t) <= 5
  {
    FraudsOfFive(ds, t);
    LabelsAreBits(ds, t[0]);
    LabelsAreBits(ds, t[1]);
    LabelsAreBits(ds, t[2]);
    LabelsAreBits(ds, t[3]);
    LabelsAreBits(ds, t[4]);
  }
}
