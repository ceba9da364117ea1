/** End to end: the cluster search against the brute-force scan. */
module IvfParity {
  import opened Geometry
  import opened TopFive
  import opened Blocks
  import opened Lanes
  import opened Triangle
  import opened TriangleRounding
  import opened Bitmap
  import opened Centroids
  import opened IvfIndex
  import opened IvfBuild
  import opened IvfSearch
  import Calibrate
  import opened Brute
  import opened Parity

  /** Offering a candidate nearer than the last slot makes some slot nearer. */
  lemma OfferImproves(f: Id -> int, t: seq<Id>, x: Id) returns (p: nat)
    requires |t| == 5 && Ascending(f, t) && f(x) < f(t[4])
    ensures p < 5 && |Offer(f, t, x)| == 5 && f(Offer(f, t, x)[p]) < f(t[p])
  {
    p := SlotFor(f, t, x, 4);
    var u := Offer(f, t, x);
    OfferEntries(f, t, x, u);
    assert u[p] == x;
  }

  /** The best of a part has the distances of the best of the whole exactly when
      nothing outside the part is nearer than its fifth. */
  lemma PartIsEnough(f: Id -> int, t: seq<Id>, part: set<Id>, b: seq<Id>, all: set<Id>)
    requires Best5(f, t, part) && Best5(f, b, all) && part <= all
    ensures (forall i :: 0 <= i < 5 ==> f(t[i]) == f(b[i])) <==>
              (forall x :: x in all && x !in part ==> f(t[4]) <= f(x))
  {
    assert Spelled(f, t, part, 0) && Spelled(f, b, all, 0);
    if forall x :: x in all && x !in part ==> f(t[4]) <= f(x) {
      SkipKeepsBest(f, t, part, all - part);
      assert part + (all - part) == all;
      BestDistancesUnique(f, t, b, all);
    } else {
      var x :| x in all && x !in part && f(x) < f(t[4]);
      OfferKeepsBest(f, t, part, x);
      BestDistancesShrink(f, Offer(f, t, x), part + {x}, b, all);
      var p := OfferImproves(f, t, x);
    }
  }

  lemma OwnersAreOthers(j: Job, v: View, cs: set<nat>, x: Id)
    requires Ready(j, v) && x in SeenIn(j, v, cs)
    ensures x in Refs(v.ds) || x.Phantom? || x.Pad?
  {
    if x !in Pads() {
      ClusteredSteps(v.ds, j.m, j.idx, v.owner, v.reach);
      HeldWithin(j.idx.offsets, v.owner, cs, 4096);
      OwnersAreRefsAndPhantoms(v.ds, v.owner);
    }
  }

  /** With five references or more, the scan's answer is best among those and
      whatever padding the clusters cs hold. */
  lemma ScanIsBestAmongMore(j: Job, v: View, cs: set<nat>, b: seq<Id>)
    requires Ready(j, v) && v.f == DistFrom(j.q, v.ds) && |v.ds.vectors| >= 5
    requires Best5(v.f, b, Pads() + Refs(v.ds))
    ensures Best5(v.f, b, SeenIn(j, v, cs) + Refs(v.ds))
  {
    var more := SeenIn(j, v, cs) - Refs(v.ds);
    forall x | x in more
      ensures x.Phantom? || x.Pad?
    {
      OwnersAreOthers(j, v, cs, x);
    }
    assert Pads() + Refs(v.ds) == Refs(v.ds) + Pads();
    OnlyRefsMatter(j.q, v.ds, b, Pads());
    RefsAreNearer(j.q, v.ds, more);
    assert Spelled(v.f, b, Refs(v.ds), 0);
    assert b[4] in b;
    SkipKeepsBest(v.f, b, Refs(v.ds), more);
    assert Refs(v.ds) + more == SeenIn(j, v, cs) + Refs(v.ds);
  }

  /** No reference in a cluster left unscanned is nearer than the fifth found. */
  ghost predicate NothingNearerLeft(j: Job, v: View, cs: set<nat>, t: seq<Id>)
    requires |t| == 5
  {
    forall x :: x in Refs(v.ds) && x !in Held(j.idx.offsets, v.owner, cs) ==> v.f(t[4]) <= v.f(x)
  }

  /** The clusters scanned give the distances of the brute-force scan exactly when
      no reference left unscanned is nearer than the fifth found. */
  lemma ScannedIsEnough(j: Job, v: View, cs: set<nat>, t: seq<Id>, b: seq<Id>)
    requires Ready(j, v) && v.f == DistFrom(j.q, v.ds) && |v.ds.vectors| >= 5
    requires Best5(v.f, t, SeenIn(j, v, cs)) && Best5(v.f, b, Pads() + Refs(v.ds))
    ensures |t| == 5 && |b| == 5
    ensures (forall i :: 0 <= i < 5 ==> v.f(t[i]) == v.f(b[i])) <==> NothingNearerLeft(j, v, cs, t)
  {
    assert Spelled(v.f, t, SeenIn(j, v, cs), 0) && Spelled(v.f, b, Pads() + Refs(v.ds), 0);
    ScanIsBestAmongMore(j, v, cs, b);
    PartIsEnough(v.f, t, SeenIn(j, v, cs), b, SeenIn(j, v, cs) + Refs(v.ds));
    assert forall x :: x in Refs(v.ds) ==> x !in Pads();
  }

  // ----- The same condition on the data -----

  /** The references in the clusters cs that are no farther than d. */
  ghost function Within(j: Job, v: View, cs: set<nat>, d: int): (s: set<Id>)
    ensures forall y :: y in s <==> y in Refs(v.ds) && y in Held(j.idx.offsets, v.owner, cs) && v.f(y) <= d
  {
    set y | y in Refs(v.ds) && y in Held(j.idx.offsets, v.owner, cs) && v.f(y) <= d
  }

  /** Every reference outside the clusters cs has at least five references inside that
      are no farther. */
  ghost predicate Covered(j: Job, v: View, cs: set<nat>) {
    forall x :: x in Refs(v.ds) && x !in Held(j.idx.offsets, v.owner, cs) ==> |Within(j, v, cs, v.f(x))| >= 5
  }

  lemma NoFartherIsHeld(j: Job, v: View, cs: set<nat>, x: Id, y: Id)
    requires Ready(j, v) && v.f == DistFrom(j.q, v.ds) && x in Refs(v.ds) && y in SeenIn(j, v, cs) && v.f(y) <= v.f(x)
    ensures y in Refs(v.ds) && y in Held(j.idx.offsets, v.owner, cs)
  {
    OwnersAreOthers(j, v, cs, y);
    if y.Phantom? || y.Pad? {
      RefIsNearer(j.q, v.ds, x, y);
      assert false;
    }
    assert y !in Pads();
  }

  lemma FoundAreWithin(j: Job, v: View, cs: set<nat>, t: seq<Id>, x: Id)
    requires Ready(j, v) && v.f == DistFrom(j.q, v.ds) && Best5(v.f, t, SeenIn(j, v, cs))
    requires x in Refs(v.ds) && v.f(t[4]) <= v.f(x)
    ensures Elements(t) <= Within(j, v, cs, v.f(x))
  {
    BestMembers(v.f, t, SeenIn(j, v, cs));
    forall y | y in t
      ensures y in Within(j, v, cs, v.f(x))
    {
      NoFartherIsHeld(j, v, cs, x, y);
    }
  }

  lemma FifthIsNoFarther(j: Job, v: View, cs: set<nat>, t: seq<Id>, d: int)
    requires Best5(v.f, t, SeenIn(j, v, cs)) && |Within(j, v, cs, d)| >= 5
    ensures v.f(t[4]) <= d
  {
    assert Spelled(v.f, t, SeenIn(j, v, cs), 0);
    var w := Within(j, v, cs, d);
    DistinctCount(t);
    if w <= Elements(t) {
      assert Elements(t) == w + (Elements(t) - w);
      assert Elements(t) == w;
      assert t[4] in Elements(t);
    } else {
      var y :| y in w && y !in Elements(t);
    }
  }

  lemma CoveredIsEnough(j: Job, v: View, cs: set<nat>, t: seq<Id>)
    requires Ready(j, v) && v.f == DistFrom(j.q, v.ds) && Best5(v.f, t, SeenIn(j, v, cs))
    ensures |t| == 5 && (NothingNearerLeft(j, v, cs, t) <==> Covered(j, v, cs))
  {
    if NothingNearerLeft(j, v, cs, t) {
      forall x | x in Refs(v.ds) && x !in Held(j.idx.offsets, v.owner, cs)
        ensures |Within(j, v, cs, v.f(x))| >= 5
      {
        assert Spelled(v.f, t, SeenIn(j, v, cs), 0);
        FoundAreWithin(j, v, cs, t, x);
        DistinctCount(t);
        SubsetSize(Elements(t), Within(j, v, cs, v.f(x)));
      }
    }
    if Covered(j, v, cs) {
      forall x | x in Refs(v.ds) && x !in Held(j.idx.offsets, v.owner, cs)
        ensures v.f(t[4]) <= v.f(x)
      {
        FifthIsNoFarther(j, v, cs, t, v.f(x));
      }
    }
  }

  /** With five references or more, the clusters scanned give the distances of the scan
      exactly when every reference left out has five no farther among those scanned. */
  lemma CoveredMeansExact(j: Job, v: View, cs: set<nat>, t: seq<Id>, b: seq<Id>)
    requires Ready(j, v) && v.f == DistFrom(j.q, v.ds) && |v.ds.vectors| >= 5
    requires Best5(v.f, t, SeenIn(j, v, cs)) && Best5(v.f, b, Pads() + Refs(v.ds))
    ensures (forall i :: 0 <= i < 5 ==> v.f(t[i]) == v.f(b[i])) <==> Covered(j, v, cs)
  {
    ScannedIsEnough(j, v, cs, t, b);
    CoveredIsEnough(j, v, cs, t);
  }

  // ----- A condition known before the call -----

  /** The clusters whose centroids are no farther than that of c. */
  ghost function Closer(j: Job, c: nat): (s: set<nat>)
    requires Sized(j.idx) && c < K
    ensures forall x: nat :: x in s <==> x < K && CentroidDist(j, x) <= CentroidDist(j, c)
  {
    set x | x in Below(K) && CentroidDist(j, x) <= CentroidDist(j, c)
  }

  /** Every cluster that is not empty is among the nearest eight, ties included. */
  ghost predicate MembersAreNear(j: Job)
    requires Sized(j.idx)
  {
    forall c {:trigger j.idx.offsets[c]} ::
      0 <= c < K && j.idx.offsets[c] < j.idx.offsets[c + 1] ==> |Closer(j, c)| <= FAST_N_PROBE
  }

  lemma {:induction false} BelowCount(n: nat)
    ensures |Below(n)| == n
  {
    if 0 < n {
      BelowCount(n - 1);
      assert Below(n) == Below(n - 1) + {n - 1};
    } else {
      assert Below(0) == {};
    }
  }

  lemma SameSize<T>(a: set<T>, b: set<T>)
    requires a <= b
    ensures |a| == |b| <==> a == b
  {
    assert b == a + (b - a);
  }

  /** In numbers: the fast tier scans eight clusters, and a query with 2, 3 or 4 frauds
      among those scans 40, 200 or 64 in all; one with 5 and a fifth distance above
      100905918 scans 24; any other stops at eight. */
  lemma ClustersScanned(j: Job, v: View, dists: seq<real>, fast: seq<Id>, first: set<nat>, cs: set<nat>, p: seq<nat>)
    requires Probed(j, v, dists, fast, first, cs, p)
    ensures |first| == 8 && |cs| == |p|
    ensures Frauds(v.ds, fast) == 2 ==> |cs| == 40
    ensures Frauds(v.ds, fast) == 3 ==> |cs| == 200
    ensures Frauds(v.ds, fast) == 4 ==> |cs| == 64
    ensures Frauds(v.ds, fast) == 5 && v.f(fast[4]) > 100905918 ==> |cs| == 24
    ensures Frauds(v.ds, fast) <= 1 || (Frauds(v.ds, fast) == 5 && v.f(fast[4]) <= 100905918) ==>
              |cs| == 8 && cs == first
  {
    BelowCount(4096);
    if |cs| == 8 {
      SameSize(first, cs);
    }
  }

  /** The gate opens for exactly the records that calibration counts as escalated with
      the thresholds in use. */
  lemma GateIsCalibrated(j: Job, v: View, dists: seq<real>, fast: seq<Id>, first: set<nat>, cs: set<nat>, p: seq<nat>,
                         fullCount: nat, approved: bool)
    requires Probed(j, v, dists, fast, first, cs, p)
    ensures |EXTREME_WORST_THRESHOLD| == 6
    ensures var r := Calibrate.Record(Frauds(v.ds, fast), v.f(fast[4]), fullCount, approved);
            |cs| > 8 <==> Calibrate.Escalates(r, EXTREME_WORST_THRESHOLD)
  {
    ClustersScanned(j, v, dists, fast, first, cs, p);
    assert EXTREME_WORST_THRESHOLD[0] == 0 && EXTREME_WORST_THRESHOLD[1] == 0;
    assert EXTREME_WORST_THRESHOLD[5] == 100905918;
  }

  lemma NearIsPicked(j: Job, dists: seq<real>, cs: set<nat>, n: nat, c: nat)
    requires Scored(j, dists) && Nearest(dists, Below(4096), cs, n) && n >= FAST_N_PROBE
    requires c < K && |Closer(j, c)| <= FAST_N_PROBE
    ensures c in cs
  {
    BelowCount(4096);
    if c !in cs {
      assert |cs + {c}| == |cs| + 1;
      SubsetSmaller(cs + {c}, Below(4096));
      forall x | x in cs + {c}
        ensures x in Closer(j, c)
      {
        assert dists[x] == CentroidDist(j, x) && dists[c] == CentroidDist(j, c);
        assert c in Below(4096);
      }
      SubsetSmaller(cs + {c}, Closer(j, c));
      assert false;
    }
  }

  lemma UnpickedIsEmpty(j: Job, dists: seq<real>, cs: set<nat>, n: nat, c: nat)
    requires Scored(j, dists) && Nearest(dists, Below(4096), cs, n) && n >= FAST_N_PROBE && MembersAreNear(j)
    requires c < K && c !in cs
    ensures j.idx.offsets[c] >= j.idx.offsets[c + 1]
  {
    if j.idx.offsets[c] < j.idx.offsets[c + 1] {
      NearIsPicked(j, dists, cs, n, c);
      assert false;
    }
  }

  lemma NearMembersAreHeld(j: Job, v: View, dists: seq<real>, cs: set<nat>, n: nat)
    requires Ready(j, v) && Scored(j, dists) && Nearest(dists, Below(4096), cs, n) && n >= FAST_N_PROBE
             && MembersAreNear(j)
    ensures Held(j.idx.offsets, v.owner, cs) == Held(j.idx.offsets, v.owner, Below(4096))
  {
    UnpickedAreEmpty(j, dists, cs, n);
    NothingElseHeld(j, v, cs, 4096);
  }

  lemma UnpickedAreEmpty(j: Job, dists: seq<real>, cs: set<nat>, n: nat)
    requires Scored(j, dists) && Nearest(dists, Below(4096), cs, n) && n >= FAST_N_PROBE && MembersAreNear(j)
    ensures forall c :: c in Below(4096) && c !in cs ==> j.idx.offsets[c] >= j.idx.offsets[c + 1]
  {
    forall c | c in Below(4096) && c !in cs
      ensures j.idx.offsets[c] >= j.idx.offsets[c + 1]
    {
      UnpickedIsEmpty(j, dists, cs, n, c);
    }
  }

  /** Then the search sees what the full sweep sees, and so finds its distances. */
  lemma NearMembersMeanFull(j: Job, v: View, dists: seq<real>, fast: seq<Id>, first: set<nat>, cs: set<nat>,
                            p: seq<nat>, t: seq<Id>, u: seq<Id>)
    requires Ready(j, v) && Probed(j, v, dists, fast, first, cs, p) && MembersAreNear(j)
    requires Best5(v.f, t, SeenIn(j, v, cs)) && Best5(v.f, u, Pads() + Owners(v.owner, 0, |v.owner|))
    ensures |t| == |u| == 5 && forall i :: 0 <= i < 5 ==> v.f(t[i]) == v.f(u[i])
  {
    ProbedNearest(j, v, dists, fast, first, cs, p);
    NearMembersAreHeld(j, v, dists, cs, |p|);
    EverythingSeen(j, v, Below(4096));
    BestDistancesUnique(v.f, u, t, SeenIn(j, v, cs));
  }

  /** Clusters without blocks hold nothing. */
  lemma {:induction false} NothingElseHeld(j: Job, v: View, cs: set<nat>, n: nat)
    requires Ready(j, v) && n <= 4096
    requires forall c :: c in Below(4096) && c !in cs ==> j.idx.offsets[c] >= j.idx.offsets[c + 1]
    ensures HeldBelow(j.idx.offsets, v.owner, cs, n) == HeldBelow(j.idx.offsets, v.owner, Below(4096), n)
  {
    if 0 < n {
      NothingElseHeld(j, v, cs, n - 1);
      var c: nat := n - 1;
      assert c in Below(4096);
      if c !in cs {
        EmptyHoldsNothing(j, v, c);
      }
    }
  }

  lemma EmptyHoldsNothing(j: Job, v: View, c: nat)
    requires Ready(j, v) && c < K && j.idx.offsets[c] >= j.idx.offsets[c + 1]
    ensures ClusterIds(j.idx.offsets, v.owner, c) == {}
  {
  }

  /** And every reference is covered, being scanned. */
  lemma NearMembersAreCovered(j: Job, v: View, dists: seq<real>, fast: seq<Id>, first: set<nat>, cs: set<nat>,
                              p: seq<nat>)
    requires Ready(j, v) && Probed(j, v, dists, fast, first, cs, p) && MembersAreNear(j)
    ensures Covered(j, v, cs)
  {
    ProbedNearest(j, v, dists, fast, first, cs, p);
    NearMembersAreHeld(j, v, dists, cs, |p|);
    AllRefsHeld(j, v);
    HeldIsCovered(j, v, cs, Held(j.idx.offsets, v.owner, cs));
  }

  lemma ProbedNearest(j: Job, v: View, dists: seq<real>, fast: seq<Id>, first: set<nat>, cs: set<nat>, p: seq<nat>)
    requires Probed(j, v, dists, fast, first, cs, p)
    ensures Scored(j, dists) && Nearest(dists, Below(4096), cs, |p|) && |p| >= FAST_N_PROBE
  {
  }

  lemma HeldIsCovered(j: Job, v: View, cs: set<nat>, held: set<Id>)
    requires held == Held(j.idx.offsets, v.owner, cs) && Refs(v.ds) <= held
    ensures Covered(j, v, cs)
  {
  }

  lemma AllRefsHeld(j: Job, v: View)
    requires Ready(j, v)
    ensures Refs(v.ds) <= Held(j.idx.offsets, v.owner, Below(4096))
  {
    ClusteredSteps(v.ds, j.m, j.idx, v.owner, v.reach);
    HeldAll(j.idx.offsets, v.owner, Below(4096), 4096);
    OwnersAreRefsAndPhantoms(v.ds, v.owner);
  }

  // ----- Fewer than five references -----

  lemma FewAllFound(j: Job, v: View, cs: set<nat>, t: seq<Id>)
    requires Ready(j, v) && v.f == DistFrom(j.q, v.ds) && |v.ds.vectors| < 5 && Best5(v.f, t, SeenIn(j, v, cs))
    ensures Refs(v.ds) * SeenIn(j, v, cs) <= Elements(t)
  {
    assert Spelled(v.f, t, SeenIn(j, v, cs), 0);
    var k := SomeOther(v.ds, t);
    OwnersAreOthers(j, v, cs, t[k]);
    forall x | x in Refs(v.ds) * SeenIn(j, v, cs)
      ensures x in t
    {
      RefIsNearer(j.q, v.ds, x, t[k]);
      NearerIsListed(v.f, t, SeenIn(j, v, cs), k, x);
    }
  }

  lemma NearerIsListed(f: Id -> int, t: seq<Id>, seen: set<Id>, k: nat, x: Id)
    requires Best5(f, t, seen) && k < 5 && x in seen && f(x) < f(t[k])
    ensures x in t
  {
    assert Spelled(f, t, seen, 0);
    assert f(x) < f(t[k]) <= f(t[4]);
  }

  /** Then the search counts the frauds among the references it scans. */
  lemma FewCount(j: Job, v: View, cs: set<nat>, t: seq<Id>)
    requires Ready(j, v) && v.f == DistFrom(j.q, v.ds) && |v.ds.vectors| < 5 && Best5(v.f, t, SeenIn(j, v, cs))
    ensures Frauds(v.ds, t) == |FraudSet(v.ds, Refs(v.ds) * SeenIn(j, v, cs))|
  {
    assert Spelled(v.f, t, SeenIn(j, v, cs), 0);
    FraudsCount(v.ds, t);
    FewFrauds(j, v, cs, t);
  }

  lemma FewFrauds(j: Job, v: View, cs: set<nat>, t: seq<Id>)
    requires Ready(j, v) && v.f == DistFrom(j.q, v.ds) && |v.ds.vectors| < 5 && Best5(v.f, t, SeenIn(j, v, cs))
    ensures FraudSet(v.ds, Elements(t)) == FraudSet(v.ds, Refs(v.ds) * SeenIn(j, v, cs))
  {
    FewAllFound(j, v, cs, t);
    BestMembers(v.f, t, SeenIn(j, v, cs));
    forall x | x in Elements(t) && LabelOf(v.ds, x) == 1
      ensures x in Refs(v.ds) * SeenIn(j, v, cs)
    {
      OwnersAreOthers(j, v, cs, x);
    }
    SameFrauds(v.ds, Elements(t), Refs(v.ds) * SeenIn(j, v, cs));
  }

  lemma SameFrauds(ds: Dataset, a: set<Id>, b: set<Id>)
    requires b <= a && forall x :: x in a && LabelOf(ds, x) == 1 ==> x in b
    ensures FraudSet(ds, a) == FraudSet(ds, b)
  {
  }

  /** So the counts agree exactly when no fraud is left out. */
  lemma FewCountsAgree(j: Job, v: View, cs: set<nat>, t: seq<Id>, b: seq<Id>)
    requires Ready(j, v) && v.f == DistFrom(j.q, v.ds) && |v.ds.vectors| < 5
    requires Best5(v.f, t, SeenIn(j, v, cs)) && Best5(v.f, b, Pads() + Refs(v.ds))
    ensures Frauds(v.ds, t) == Frauds(v.ds, b) <==> FraudSet(v.ds, Refs(v.ds)) <= SeenIn(j, v, cs)
  {
    FewCount(j, v, cs, t);
    assert Pads() + Refs(v.ds) == Refs(v.ds) + Pads();
    FewRefsCount(j.q, v.ds, b, Pads());
    SameSize(FraudSet(v.ds, Refs(v.ds) * SeenIn(j, v, cs)), FraudSet(v.ds, Refs(v.ds)));
  }

  // ----- The searches against the scan -----

  method BuildAndSweep(m: Machine, q: Vec, ds: Dataset, centroids: seq<RVec>, assign: seq<nat>,
                       exchanges: nat -> seq<(nat, nat)>)
    returns (full: nat, found: seq<int>, ghost t: seq<Id>, ghost owner: seq<Id>)
    requires Works(m) && ValidDataset(ds) && Quantized(q) && |centroids| == 4096 && |assign| == |ds.vectors|
    requires forall c :: 0 <= c < 4096 ==> InCube(centroids[c])
    requires forall i :: 0 <= i < |assign| ==> assign[i] < K
    ensures Complete(ds, owner) && Injective(owner) && |owner| % 8 == 0 && (ds.vectors == [] ==> owner == [])
    ensures Best5(DistFrom(q, ds), t, Pads() + Owners(owner, 0, |owner|)) && ShowsDistances(DistFrom(q, ds), t, found)
    ensures full == Frauds(ds, t)
  {
    var r;
    ghost var reach;
    r, owner, reach := Build(m, ds, centroids, assign, exchanges);
    var j := Job(m, q, r.idx);
    ghost var v := View(DistFrom(q, ds), ds, owner, reach);
    assert Measures(v.f, q, ds);
    var sc := new IvfScratch();
    full := FraudCountFull(j, v, sc);
    found := sc.top.Distances(v.f, ds);
    t := sc.top.ids;
    WholeBlocks(ds, m, r.idx, owner, reach);
  }

  lemma WholeBlocks(ds: Dataset, m: Machine, idx: Index, owner: seq<Id>, reach: seq<real>)
    requires Clustered(ds, m, idx, owner, reach)
    ensures Complete(ds, owner) && Injective(owner) && |owner| % 8 == 0
  {
  }

  /** Builds the index, runs the full sweep and the brute-force scan. The list t is the
      best of all lanes of the index, b the best of all references. */
  method CompareFull(m: Machine, q: Vec, ds: Dataset, centroids: seq<RVec>, assign: seq<nat>,
                     exchanges: nat -> seq<(nat, nat)>)
    returns (full: nat, found: seq<int>, exact: nat, scanned: seq<int>, ghost t: seq<Id>, ghost owner: seq<Id>,
             ghost b: seq<Id>)
    requires Works(m) && ValidDataset(ds) && Quantized(q) && |centroids| == 4096 && |assign| == |ds.vectors|
    requires forall c :: 0 <= c < 4096 ==> InCube(centroids[c])
    requires forall i :: 0 <= i < |assign| ==> assign[i] < K
    ensures Complete(ds, owner) && Injective(owner)
    ensures Best5(DistFrom(q, ds), t, Pads() + Owners(owner, 0, |owner|)) && ShowsDistances(DistFrom(q, ds), t, found)
    ensures Best5(DistFrom(q, ds), b, Pads() + Refs(ds)) && ShowsDistances(DistFrom(q, ds), b, scanned)
    ensures full == Frauds(ds, t) && exact == Frauds(ds, b)
    ensures |ds.vectors| == 0 || |ds.vectors| >= 5 <==> found == scanned
    ensures |ds.vectors| < 5 || Decisive(DistFrom(q, ds), ds, b, Refs(ds)) ==> full == exact
    ensures RightCount(q, ds, full) && RightCount(q, ds, exact)
  {
    full, found, t, owner := BuildAndSweep(m, q, ds, centroids, assign, exchanges);
    exact, scanned, b := AgainstScan(q, ds, owner, full, found, t);
  }

  /** Runs the production search, on any sound index, and the scan. The list t is the
      best of the clusters scanned, b the best of all references. */
  method CompareIvf(j: Job, ds: Dataset, ghost v: View, sc: IvfScratch)
    returns (count: nat, found: seq<int>, exact: nat, scanned: seq<int>,
             ghost t: seq<Id>, ghost b: seq<Id>, ghost fast: seq<Id>, ghost first: set<nat>, ghost cs: set<nat>,
             ghost p: seq<nat>)
    requires Ready(j, v) && sc.Valid() && v.ds == ds && v.f == DistFrom(j.q, ds)
    modifies sc.top, sc.top.dist, sc.top.lab, sc.blockSum, sc.scanned, sc.centroidDists, sc.picked
    ensures Probed(j, v, sc.centroidDists[..], fast, first, cs, p) && MarkedSet(sc.scanned[..], 4096) == cs
    ensures Best5(v.f, t, SeenIn(j, v, cs)) && ShowsDistances(v.f, t, found) && count == Frauds(ds, t)
    ensures Best5(v.f, b, Pads() + Refs(ds)) && ShowsDistances(v.f, b, scanned) && exact == Frauds(ds, b)
    ensures |ds.vectors| >= 5 ==> (found == scanned <==> Covered(j, v, cs))
    ensures |ds.vectors| >= 5 && MembersAreNear(j) ==> found == scanned
    ensures |ds.vectors| >= 5 && found == scanned && Decisive(v.f, ds, b, Refs(ds)) ==> count == exact
    ensures |ds.vectors| < 5 ==> (count == exact <==> FraudSet(ds, Refs(ds)) <= SeenIn(j, v, cs))
  {
    count, fast, first, cs, p := FraudCountIvf(j, v, sc);
    t := sc.top.ids;
    found := sc.top.Distances(v.f, ds);
    exact, scanned, b := FraudCountBrute(j.q, ds);
    if |ds.vectors| >= 5 {
      WhenExact(j, v, cs, t, found, b, scanned);
      if MembersAreNear(j) {
        NearMembersAreCovered(j, v, sc.centroidDists[..], fast, first, cs, p);
      }
    } else {
      FewCountsAgree(j, v, cs, t, b);
    }
  }

  lemma WhenExact(j: Job, v: View, cs: set<nat>, t: seq<Id>, found: seq<int>, b: seq<Id>, scanned: seq<int>)
    requires Ready(j, v) && v.f == DistFrom(j.q, v.ds) && |v.ds.vectors| >= 5
    requires Best5(v.f, t, SeenIn(j, v, cs)) && ShowsDistances(v.f, t, found)
    requires Best5(v.f, b, Pads() + Refs(v.ds)) && ShowsDistances(v.f, b, scanned)
    ensures found == scanned <==> Covered(j, v, cs)
    ensures found == scanned && Decisive(v.f, v.ds, b, Refs(v.ds)) ==> Frauds(v.ds, t) == Frauds(v.ds, b)
  {
    CoveredMeansExact(j, v, cs, t, b);
    CoveredIsEnough(j, v, cs, t);
    assert found == scanned <==> forall i :: 0 <= i < 5 ==> v.f(t[i]) == v.f(b[i]);
    if found == scanned && Decisive(v.f, v.ds, b, Refs(v.ds)) {
      CountsMatch(j, v, cs, t, b);
    }
  }

  lemma CountsMatch(j: Job, v: View, cs: set<nat>, t: seq<Id>, b: seq<Id>)
    requires Ready(j, v) && v.f == DistFrom(j.q, v.ds) && |v.ds.vectors| >= 5
    requires Best5(v.f, t, SeenIn(j, v, cs)) && Best5(v.f, b, Pads() + Refs(v.ds))
    requires |t| == 5 && NothingNearerLeft(j, v, cs, t) && Decisive(v.f, v.ds, b, Refs(v.ds))
    ensures Frauds(v.ds, t) == Frauds(v.ds, b)
  {
    var left := Refs(v.ds) - SeenIn(j, v, cs);
    forall x | x in left
      ensures v.f(t[4]) <= v.f(x)
    {
    }
    SkipKeepsBest(v.f, t, SeenIn(j, v, cs), left);
    var more := SeenIn(j, v, cs) - Refs(v.ds);
    forall x | x in more
      ensures x.Phantom? || x.Pad?
    {
      OwnersAreOthers(j, v, cs, x);
    }
    assert SeenIn(j, v, cs) + left == Refs(v.ds) + more;
    OnlyRefsMatter(j.q, v.ds, t, more);
    assert Pads() + Refs(v.ds) == Refs(v.ds) + Pads();
    OnlyRefsMatter(j.q, v.ds, b, Pads());
    DecisiveCountUnique(v.f, v.ds, b, t, Refs(v.ds));
  }
}
