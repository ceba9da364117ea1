/** End to end: the specialist search against the brute-force scan. */
module SpecialistParity {
  import opened Geometry
  import opened TopFive
  import opened Float32
  import opened Blocks
  import opened Lanes
  import opened KdTree
  import opened SpecialistBuild
  import opened SpecialistSearch
  import opened SpecialistScore
  import opened Parity

  /** Builds the index, scores the query through it and by brute force, and
      returns both counts and both lists of distances. The list t is the best of all
      lanes of the index, b the best of all references. */
  method Compare(fl: real -> real, kernel: Kernel, fused: bool, q: Vec, ds: Dataset)
    returns (fast: nat, found: seq<int>, exact: nat, scanned: seq<int>, ghost t: seq<Id>, ghost owner: seq<Id>,
             ghost b: seq<Id>)
    requires Rounds(fl) && ValidDataset(ds) && Quantized(q) && |ds.vectors| <= 0x1_0000_0000
    ensures Complete(ds, owner) && Injective(owner)
    ensures Best5(DistFrom(q, ds), t, Pads() + Owners(owner, 0, |owner|)) && ShowsDistances(DistFrom(q, ds), t, found)
    ensures Best5(DistFrom(q, ds), b, Pads() + Refs(ds)) && ShowsDistances(DistFrom(q, ds), b, scanned)
    ensures fast == Frauds(ds, t) && exact == Frauds(ds, b)
    ensures |ds.vectors| == 0 || |ds.vectors| >= 5 <==> found == scanned
    ensures |ds.vectors| < 5 || Decisive(DistFrom(q, ds), ds, b, Refs(ds)) ==> fast == exact
    ensures RightCount(q, ds, fast) && RightCount(q, ds, exact)
  {
    fast, found, t, owner := BuildAndSearch(fl, kernel, fused, q, ds);
    exact, scanned, b := AgainstScan(q, ds, owner, fast, found, t);
  }

  method BuildAndSearch(fl: real -> real, kernel: Kernel, fused: bool, q: Vec, ds: Dataset)
    returns (fast: nat, found: seq<int>, ghost t: seq<Id>, ghost owner: seq<Id>)
    requires Rounds(fl) && ValidDataset(ds) && Quantized(q) && |ds.vectors| <= 0x1_0000_0000
    ensures Complete(ds, owner) && Injective(owner) && |owner| % 8 == 0 && (ds.vectors == [] ==> owner == [])
    ensures Best5(DistFrom(q, ds), t, Pads() + Owners(owner, 0, |owner|)) && ShowsDistances(DistFrom(q, ds), t, found)
    ensures fast == Frauds(ds, t)
  {
    var idx;
    ghost var trees;
    idx, owner, trees := Build(ds);
    assert |owner| == 8 * idx.blockCount;
    var u := Setup(fl, kernel, fused, q, idx);
    assert Measures(DistFrom(q, ds), q, ds);
    fast, found, t := SearchFor(DistFrom(q, ds), u, ds, owner, trees);
  }

  method SearchFor(ghost f: Id -> int, u: Setup, ghost ds: Dataset, ghost owner: seq<Id>, ghost trees: seq<Tree>)
    returns (fast: nat, found: seq<int>, ghost t: seq<Id>)
    requires SpecialistSearch.Ready(f, u, ds, owner) && Indexed(ds, u.idx, owner, trees)
    requires forall x: Id :: x.Pad? ==> f(x) == INFINITE
    ensures Best5(f, t, Pads() + Owners(owner, 0, |owner|)) && ShowsDistances(f, t, found) && fast == Frauds(ds, t)
  {
    var sc := new SearchScratch();
    fast := FraudCount(f, u, sc, ds, owner, trees);
    found := sc.top.Distances(f, ds);
    t := sc.top.ids;
  }
}
