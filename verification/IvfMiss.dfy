/** A dataset on which the production search misses four of the five nearest
    references. It has two different vectors only, so that k-means++ fills the other
    centroids with copies; the copies at the query take all eight picks, and what the
    cluster next to them holds is never looked at. */
module IvfMiss {
  import opened Geometry
  import opened TopFive
  import opened Float32
  import opened Triangle
  import opened TriangleRounding
  import opened Centroids
  import opened IvfIndex
  import opened IvfBuild
  import opened IvfSearch
  import opened IvfParity
  import opened KMeans
  import opened Parity

  /** All coordinates zero but coordinate e. */
  function Spike(e: nat, a: Int16): (v: Vec)
    requires e < DIMS
    ensures forall d :: 0 <= d < DIMS ==> v[d] == if d == e then a else 0
  {
    seq(DIMS, d requires 0 <= d < DIMS => if d == e then a else 0)
  }

  const ZERO: Vec := [0, 0, 0, 0, 0, 0, 0, 0, 0, 0, 0, 0, 0, 0]

  /** One reference at the query, five at the distance 100 from it. */
  function Vector(i: nat): Vec {
    if i == 0 then ZERO else Spike(0, 100)
  }

  /** The five are frauds, the one is not. */
  function Sample(): (ds: Dataset)
    ensures |ds.vectors| == |ds.labels| == 6 && ValidDataset(ds)
    ensures forall i :: 0 <= i < 6 ==> ds.vectors[i] == Vector(i) && ds.labels[i] == if i == 0 then 0 else 1
  {
    Dataset(seq(6, i requires 0 <= i < 6 => Vector(i)), seq(6, i requires 0 <= i < 6 => if i == 0 then 0 else 1))
  }

  const HERE: RVec := Triangle.Widen(ZERO)

  const THERE: RVec := Triangle.Widen(Spike(0, 100))

  /** The same vectors for training. */
  function TrainingSet(): (sample: seq<RVec>)
    ensures |sample| == 6 && sample[0] == HERE && forall i :: 0 < i < 6 ==> sample[i] == THERE
  {
    [HERE, THERE, THERE, THERE, THERE, THERE]
  }

  // ----- Distances -----

  /** Adding coordinate differences of y, and of 0, to running sums of 0 and sq. */
  ghost predicate Adds(fl: real -> real, fused: bool, y: real, sq: real) {
    && MulAdd(fl, fused, 0.0, fl(y)) == sq && MulAdd(fl, fused, 0.0, fl(0.0)) == 0.0
        && MulAdd(fl, fused, sq, fl(0.0)) == sq
  }

  lemma {:induction false} SumOfSpike(fl: real -> real, fused: bool, c: RVec, e: nat, y: real, sq: real, n: nat)
    requires Adds(fl, fused, y, sq) && e < DIMS && n <= DIMS
    requires forall d :: 0 <= d < DIMS ==> Triangle.Widen(ZERO)[d] - c[d] == if d == e then y else 0.0
    ensures RealSum(fl, fused, Triangle.Widen(ZERO), c, n) == if e < n then sq else 0.0
  {
    if 0 < n {
      SumOfSpike(fl, fused, c, e, y, sq, n - 1);
    }
  }

  lemma SpikeSum(fl: real -> real, fused: bool, e: nat, a: Int16)
    requires Rounds(fl) && e < DIMS && -4000 <= a <= 4000
    ensures RealSum(fl, fused, Triangle.Widen(ZERO), Triangle.Widen(Spike(e, a)), DIMS) == Square(a) as real
  {
    var y: int := -(a as int);
    EvenSquare(a);
    SpikeStep(fl, fused, 0, y);
    SpikeStep(fl, fused, 0, 0);
    SpikeStep(fl, fused, Square(a), 0);
    SumOfSpike(fl, fused, Triangle.Widen(Spike(e, a)), e, y as real, Square(a) as real, DIMS);
  }

  lemma EvenSquare(a: int)
    ensures Square(-a) == Square(a) && Square(0) == 0
    ensures -4000 <= a <= 4000 ==> Square(a) <= 16000000
  {
    SquareOrder(a, -a);
    SquareOrder(-a, a);
    if -4000 <= a <= 4000 {
      SquareOrder(a, 4000);
    }
  }

  lemma SpikeStep(fl: real -> real, fused: bool, s: int, x: int)
    requires Rounds(fl) && 0 <= s && -4000 <= x <= 4000 && (x == 0 || s == 0) && s <= 16000000
    ensures MulAdd(fl, fused, s as real, fl(x as real)) == (s + Square(x)) as real
  {
    EvenSquare(x);
    CastSquare(x);
    ExactMulAdd(fl, fused, s, x as real, Square(x));
    assert ExactAt(fl, x);
  }

  lemma ExactMulAdd(fl: real -> real, fused: bool, s: int, d: real, sq: int)
    requires Rounds(fl) && 0 <= s && 0 <= sq && s + sq <= 16000000 && d * d == sq as real
    ensures MulAdd(fl, fused, s as real, d) == (s + sq) as real
  {
    ExactSum(fl, s, sq);
  }

  lemma ExactSum(fl: real -> real, s: int, sq: int)
    requires Rounds(fl) && 0 <= s <= 16000000 && 0 <= sq <= 16000000 && s + sq <= 16000000
    ensures fl(s as real + sq as real) == (s + sq) as real && fl(sq as real) == sq as real
  {
    assert ExactAt(fl, sq) && ExactAt(fl, s + sq);
    assert s as real + sq as real == (s + sq) as real;
  }

  lemma {:induction false} SpikeDist(e: nat, a: Int16, n: nat)
    requires e < DIMS && n <= DIMS
    ensures PartialDist(ZERO, Spike(e, a), n) == if e < n then Square(a) else 0
  {
    if 0 < n {
      SpikeDist(e, a, n - 1);
      EvenSquare(a);
    }
  }

  lemma CloseAndFar(fl: real -> real, fused: bool)
    requires Rounds(fl)
    ensures RealSum(fl, fused, HERE, HERE, DIMS) == 0.0 && RealSum(fl, fused, HERE, THERE, DIMS) == 10000.0
  {
    assert Spike(0, 0) == ZERO;
    SpikeSum(fl, fused, 0, 0);
    SpikeSum(fl, fused, 0, 100);
    assert Square(0) == 0 && Square(100) == 10000;
  }

  /** The true distances from the query. */
  lemma RefDistance(f: Id -> int, i: nat)
    requires i < 6 && f == DistFrom(ZERO, Sample())
    ensures f(Ref(i)) == if i == 0 then 0 else 10000
  {
    assert Spike(0, 0) == ZERO;
    SpikeDist(0, 0, DIMS);
    SpikeDist(0, 100, DIMS);
    assert Square(0) == 0 && Square(100) == 10000;
  }

  lemma TwoVectors()
    ensures HERE != THERE && InCube(HERE) && InCube(THERE)
  {
    assert THERE[0] == 100.0 && HERE[0] == 0.0;
  }

  // ----- What training makes of the sample -----

  /** Draws that take the first vector whenever they are free to. */
  const DRAWS: Draws := Draws(_ => 0, _ => 0.5)

  /** The centroids at the query. */
  ghost function Copies(cs: seq<RVec>): (s: set<nat>)
    requires |cs| == 4096
    ensures forall c: nat :: c in s <==> c < 4096 && cs[c] == HERE
  {
    set c | c in Below(4096) && cs[c] == HERE
  }

  /** Copies of the two vectors, at least eight of them at the query. */
  ghost predicate Duplicates(cs: seq<RVec>) {
    && |cs| == 4096 && (forall c :: 0 <= c < 4096 ==> cs[c] == HERE || cs[c] == THERE)
    && HERE in cs && THERE in cs && |Copies(cs)| >= 8
  }

  lemma FirstSeeds(cs: seq<RVec>)
    requires |cs| == 4096 && FromSample(TrainingSet(), cs, 4096) && Seeded(TrainingSet(), cs, DRAWS, 4096)
    ensures cs[0] == HERE && cs[1] == THERE
  {
    assert SeededAt(TrainingSet(), cs, DRAWS, 0) && SeededAt(TrainingSet(), cs, DRAWS, 1);
    TwoVectors();
    var pick: nat :| pick < 6 && cs[1] == TrainingSet()[pick] && IsNext(TrainingSet(), cs[..1], 0, 0.5, pick);
    assert cs[..1] == [HERE];
    assert TrainingSet()[1] !in cs[..1];
    UncoveredDrawsNew(TrainingSet(), cs[..1], 0, 0.5, pick);
  }

  lemma LaterSeed(cs: seq<RVec>, k: nat)
    requires |cs| == 4096 && FromSample(TrainingSet(), cs, 4096) && Seeded(TrainingSet(), cs, DRAWS, 4096)
             && 2 <= k < 4096
    ensures cs[k] == HERE
  {
    FirstSeeds(cs);
    assert SeededAt(TrainingSet(), cs, DRAWS, k);
    var pick: nat :| pick < 6 && cs[k] == TrainingSet()[pick] && IsNext(TrainingSet(), cs[..k], 0, 0.5, pick);
    assert cs[..k][0] == HERE && cs[..k][1] == THERE;
    CoveredDrawsAny(TrainingSet(), cs[..k], 0, 0.5, pick);
  }

  /** The seeds are duplicates. */
  lemma SeedsRepeat(cs: seq<RVec>)
    requires |cs| == 4096 && FromSample(TrainingSet(), cs, 4096) && Seeded(TrainingSet(), cs, DRAWS, 4096)
    ensures Duplicates(cs)
  {
    FirstSeeds(cs);
    forall k | 2 <= k < 4096
      ensures cs[k] == HERE
    {
      LaterSeed(cs, k);
    }
    BelowCount(10);
    BelowCount(2);
    assert Below(10) == (Below(10) - Below(2)) + Below(2);
    SubsetSmaller(Below(10) - Below(2), Copies(cs));
  }

  /** And training returns them. */
  lemma TrainingRepeats(states: seq<seq<RVec>>, assigns: seq<seq<nat>>)
    requires Trained(TrainingSet(), DRAWS, states, assigns) && |assigns| == 6 && |states[0]| == 4096
    ensures Duplicates(states[6])
  {
    SeedsRepeat(states[0]);
    SettledTraining(TrainingSet(), DRAWS, states, assigns, 6);
  }

  // ----- What the search makes of it -----

  /** An index over this dataset, every reference with its nearest centroid, and the
      query at zero. */
  ghost predicate Indexed(j: Job, v: View, cs: seq<RVec>, assign: seq<nat>) {
    && Ready(j, v) && j.q == ZERO && v.ds == Sample() && v.f == DistFrom(ZERO, Sample())
    && |cs| == 4096 && (forall c :: 0 <= c < 4096 ==> CentroidAt(j.idx.centroids, c) == cs[c])
    && |assign| == 6 && (forall i :: 0 <= i < 6 ==> NearestCentroid(TrainingSet()[i], cs, assign[i]))
    && Assigned(assign, j.idx.offsets, v.owner)
  }

  lemma Scores(j: Job, cs: seq<RVec>, dists: seq<real>, c: nat)
    requires Works(j.m) && j.q == ZERO && Scored(j, dists) && Duplicates(cs) && c < 4096
    requires CentroidAt(j.idx.centroids, c) == cs[c]
    ensures dists[c] == if c in Copies(cs) then 0.0 else 10000.0
  {
    assert dists[c] == CentroidDist(j, c);
    CloseAndFar(j.m.fl, j.m.fusedScore);
    TwoVectors();
  }

  /** Eight picks are all at the query. */
  lemma PicksAreCopies(j: Job, v: View, cs: seq<RVec>, assign: seq<nat>, dists: seq<real>, kept: set<nat>)
    requires Indexed(j, v, cs, assign) && Duplicates(cs) && Scored(j, dists) && Nearest(dists, Below(4096), kept, 8)
    ensures kept <= Copies(cs)
  {
    BelowCount(4096);
    forall x | x in kept
      ensures x in Copies(cs)
    {
      assert x in Below(4096);
      Scores(j, cs, dists, x);
      if x !in Copies(cs) {
        forall y | y in Copies(cs) + {x}
          ensures y in kept
        {
          assert y in Below(4096);
          Scores(j, cs, dists, y);
        }
        SubsetSmaller(Copies(cs) + {x}, kept);
        assert false;
      }
    }
  }

  /** No fraud is in a cluster at the query. */
  lemma CopiesHoldNoFraud(j: Job, v: View, cs: seq<RVec>, assign: seq<nat>, kept: set<nat>, x: Id)
    requires Indexed(j, v, cs, assign) && Duplicates(cs) && kept <= Copies(cs) && x in SeenIn(j, v, kept)
    ensures x == Ref(0) || x.Phantom? || x.Pad?
  {
    OwnersAreOthers(j, v, kept, x);
    if x in Refs(v.ds) && x != Ref(0) {
      AssignedToItself(TrainingSet()[x.i], cs, assign[x.i]);
      TwoVectors();
      assert assign[x.i] !in Copies(cs);
      ClusteredSteps(v.ds, j.m, j.idx, v.owner, v.reach);
      assert x in ClusterIds(j.idx.offsets, v.owner, assign[x.i]);
      HeldApart(j.idx.offsets, v.owner, kept, 4096, assign[x.i]);
      assert false;
    }
  }

  lemma {:induction false} NoFrauds(ds: Dataset, t: seq<Id>)
    requires forall x :: x in t ==> LabelOf(ds, x) == 0
    ensures Frauds(ds, t) == 0
  {
    if t != [] {
      NoFrauds(ds, t[..|t| - 1]);
    }
  }

  lemma OnlyZeroLabel(x: Id)
    requires x == Ref(0) || x.Phantom? || x.Pad?
    ensures LabelOf(Sample(), x) == 0
  {
  }

  lemma FoundNoFraud(j: Job, v: View, cs: seq<RVec>, assign: seq<nat>, kept: set<nat>, t: seq<Id>)
    requires Indexed(j, v, cs, assign) && Duplicates(cs) && kept <= Copies(cs) && Best5(v.f, t, SeenIn(j, v, kept))
    ensures Frauds(v.ds, t) == 0
  {
    BestMembers(v.f, t, SeenIn(j, v, kept));
    forall x | x in t
      ensures LabelOf(v.ds, x) == 0
    {
      CopiesHoldNoFraud(j, v, cs, assign, kept, x);
      OnlyZeroLabel(x);
    }
    NoFrauds(v.ds, t);
  }

  lemma OthersAreFar(v: View, x: Id)
    requires v.ds == Sample() && v.f == DistFrom(ZERO, Sample()) && (x.Phantom? || x.Pad?)
    ensures v.f(x) > 10000
  {
    RefIsNearer(ZERO, v.ds, Ref(1), x);
    RefDistance(v.f, 1);
  }

  lemma FoundFarOnly(j: Job, v: View, cs: seq<RVec>, assign: seq<nat>, kept: set<nat>, t: seq<Id>)
    requires Indexed(j, v, cs, assign) && Duplicates(cs) && kept <= Copies(cs) && Best5(v.f, t, SeenIn(j, v, kept))
    ensures v.f(t[4]) > 10000
  {
    assert Spelled(v.f, t, SeenIn(j, v, kept), 0);
    CopiesHoldNoFraud(j, v, cs, assign, kept, t[3]);
    CopiesHoldNoFraud(j, v, cs, assign, kept, t[4]);
    var x := if t[4] == Ref(0) then t[3] else t[4];
    OthersAreFar(v, x);
  }

  /** The fast tier sees no fraud, so the search does not look further. */
  lemma NoEscalation(j: Job, v: View, cs: seq<RVec>, assign: seq<nat>, dists: seq<real>, fast: seq<Id>, first: set<nat>,
                     scanned: set<nat>, p: seq<nat>)
    requires Indexed(j, v, cs, assign) && Duplicates(cs) && Probed(j, v, dists, fast, first, scanned, p)
    ensures |p| == 8 && scanned <= Copies(cs)
  {
    PicksAreCopies(j, v, cs, assign, dists, first);
    FoundNoFraud(j, v, cs, assign, first, fast);
    PicksAreCopies(j, v, cs, assign, dists, scanned);
  }

  /** The scan finds four of them. */
  lemma ScanFinds(f: Id -> int, b: seq<Id>)
    requires f == DistFrom(ZERO, Sample()) && Best5(f, b, Pads() + Refs(Sample()))
    ensures Frauds(Sample(), b) == 4 && f(b[4]) == 10000
  {
    var ds := Sample();
    assert Spelled(f, b, Pads() + Refs(ds), 0);
    forall i: nat | i < 6
      ensures f(Ref(i)) == if i == 0 then 0 else 10000
    {
      RefDistance(f, i);
    }
    RefsCount(ds, 6);
    DistinctCount(b);
    if Refs(ds) <= Elements(b) {
      SubsetSize(Refs(ds), Elements(b));
      assert false;
    }
    FraudsCount(ds, b);
    FoundByScan(f, b);
    assert |Elements(b) - {Ref(0)}| == 4;
  }

  lemma OnlyNearFound(f: Id -> int, b: seq<Id>, near: set<Id>, far: set<Id>, x: Id)
    requires Best5(f, b, far + near) && x in near && x !in b && forall y :: y in far ==> f(x) < f(y)
    ensures forall k :: 0 <= k < 5 ==> b[k] in near && f(b[k]) <= f(x)
  {
    assert Spelled(f, b, far + near, 0);
    assert f(b[4]) <= f(x);
  }

  lemma PadsAreFar(f: Id -> int)
    requires f == DistFrom(ZERO, Sample())
    ensures forall y :: y in Pads() ==> f(y) > 10000
  {
  }

  lemma FoundByScan(f: Id -> int, b: seq<Id>)
    requires f == DistFrom(ZERO, Sample()) && Best5(f, b, Pads() + Refs(Sample())) && !(Refs(Sample()) <= Elements(b))
    requires forall i: nat :: i < 6 ==> f(Ref(i)) == if i == 0 then 0 else 10000
    ensures Ref(0) in b && f(b[4]) == 10000
    ensures FraudSet(Sample(), Elements(b)) == Elements(b) - {Ref(0)}
  {
    var x :| x in Refs(Sample()) && x !in Elements(b);
    assert x == Ref(x.i);
    PadsAreFar(f);
    OnlyNearFound(f, b, Refs(Sample()), Pads(), x);
    LastIsFar(f, b);
    forall y | y in b
      ensures y == Ref(y.i) && y.i < 6
    {
      var k :| 0 <= k < 5 && b[k] == y;
    }
  }

  lemma LastIsFar(f: Id -> int, b: seq<Id>)
    requires f == DistFrom(ZERO, Sample()) && Best5(f, b, Pads() + Refs(Sample()))
    requires forall i: nat :: i < 6 ==> f(Ref(i)) == if i == 0 then 0 else 10000
    requires forall k :: 0 <= k < 5 ==> b[k] in Refs(Sample())
    ensures Ref(0) in b && f(b[4]) == 10000
  {
    assert Spelled(f, b, Pads() + Refs(Sample()), 0);
    assert b[3] == Ref(b[3].i) && b[4] == Ref(b[4].i);
    assert Ref(0) in Refs(Sample());
  }

  /** However this dataset is trained on with these draws, indexed and searched, under
      every admissible arithmetic: the production search finds no fraud where the scan
      finds four, and does not find its distances. */
  lemma EveryOutcomeMisses(j: Job, v: View, states: seq<seq<RVec>>, assigns: seq<seq<nat>>, assign: seq<nat>,
                           dists: seq<real>, fast: seq<Id>, first: set<nat>, scanned: set<nat>, p: seq<nat>, t: seq<Id>,
                           b: seq<Id>)
    requires Trained(TrainingSet(), DRAWS, states, assigns) && |assigns| == 6 && |states[0]| == 4096
    requires Indexed(j, v, states[6], assign)
    requires Probed(j, v, dists, fast, first, scanned, p)
    requires Best5(v.f, t, SeenIn(j, v, scanned)) && Best5(v.f, b, Pads() + Refs(v.ds))
    ensures Frauds(v.ds, t) == 0 && Frauds(v.ds, b) == 4 && v.f(t[4]) != v.f(b[4])
  {
    TrainingRepeats(states, assigns);
    DuplicatesMiss(j, v, states[6], assign, dists, fast, first, scanned, p, t, b);
  }

  /** So it is with any centroids that are copies of the two vectors, eight or more of
      them at the query. */
  lemma DuplicatesMiss(j: Job, v: View, cs: seq<RVec>, assign: seq<nat>,
                       dists: seq<real>, fast: seq<Id>, first: set<nat>, scanned: set<nat>, p: seq<nat>, t: seq<Id>,
                       b: seq<Id>)
    requires Indexed(j, v, cs, assign) && Duplicates(cs) && Probed(j, v, dists, fast, first, scanned, p)
    requires Best5(v.f, t, SeenIn(j, v, scanned)) && Best5(v.f, b, Pads() + Refs(v.ds))
    ensures Frauds(v.ds, t) == 0 && Frauds(v.ds, b) == 4 && v.f(t[4]) != v.f(b[4])
  {
    NoEscalation(j, v, cs, assign, dists, fast, first, scanned, p);
    FoundNoFraud(j, v, cs, assign, scanned, t);
    FoundFarOnly(j, v, cs, assign, scanned, t);
    ScanFinds(v.f, b);
  }

  /** There is such an outcome: trains, indexes, searches and scans. */
  method ProductionSearchMisses(m: Machine, exchanges: nat -> seq<(nat, nat)>)
    returns (count: nat, found: seq<int>, exact: nat, scanned: seq<int>,
             ghost states: seq<seq<RVec>>, ghost assigns: seq<seq<nat>>, ghost assign: seq<nat>, ghost j: Job,
             ghost v: View, ghost dists: seq<real>, ghost fast: seq<Id>, ghost first: set<nat>, ghost cs: set<nat>,
             ghost p: seq<nat>, ghost t: seq<Id>, ghost b: seq<Id>)
    requires Works(m)
    ensures count == 0 && exact == 4 && found != scanned
    ensures Trained(TrainingSet(), DRAWS, states, assigns) && |assigns| == 6 && |states[0]| == 4096
    ensures Indexed(j, v, states[6], assign) && j.m == m && Probed(j, v, dists, fast, first, cs, p)
    ensures Best5(v.f, t, SeenIn(j, v, cs)) && ShowsDistances(v.f, t, found) && count == Frauds(v.ds, t)
    ensures Best5(v.f, b, Pads() + Refs(v.ds)) && ShowsDistances(v.f, b, scanned) && exact == Frauds(v.ds, b)
  {
    var idx;
    ghost var owner, reach;
    idx, states, assigns, assign, owner, reach := TrainAndBuild(m, exchanges);
    var job := Job(m, ZERO, idx);
    j, v := job, View(DistFrom(ZERO, Sample()), Sample(), owner, reach);
    var sc := new IvfScratch();
    count, found, exact, scanned, t, b, fast, first, cs, p := CompareIvf(job, Sample(), v, sc);
    dists := sc.centroidDists[..];
    EveryOutcomeMisses(j, v, states, assigns, assign, dists, fast, first, cs, p, t, b);
    assert found[4] != scanned[4];
  }

  method TrainAndBuild(m: Machine, exchanges: nat -> seq<(nat, nat)>)
    returns (idx: Index, ghost states: seq<seq<RVec>>, ghost assigns: seq<seq<nat>>, ghost assign: seq<nat>,
             ghost owner: seq<Id>, ghost reach: seq<real>)
    requires Works(m)
    ensures Trained(TrainingSet(), DRAWS, states, assigns) && |assigns| == 6 && |states[0]| == 4096
    ensures Indexed(Job(m, ZERO, idx), View(DistFrom(ZERO, Sample()), Sample(), owner, reach), states[6],
                    assign)
  {
    TwoVectors();
    var centroids;
    ghost var trace;
    centroids, states, assigns, trace := TrainKMeans(TrainingSet(), 4096, DRAWS);
    var a := AssignSample(TrainingSet(), centroids[..]);
    assign := a[..];
    var r;
    r, owner, reach := Build(m, Sample(), centroids[..], a[..], exchanges);
    idx := r.idx;
    assert Measures(DistFrom(ZERO, Sample()), ZERO, Sample());
  }
}
