/** What both indexes have in common: the references a run of lanes holds, the
    boxes around them, and when a box lets a run be skipped. */
module Lanes {
  import opened Sequences
  import opened Geometry
  import opened TopFive
  import opened Float32
  import opened Blocks

  /** Every lane of blocks lo up to hi is padding or lies inside the box. */
  ghost predicate Encloses(ds: Dataset, box: Box, owner: seq<Id>, lo: nat, hi: nat)
    requires ValidBox(box) && hi * 8 <= |owner|
  {
    forall g :: lo * 8 <= g < hi * 8 ==> owner[g].Phantom? || (owner[g].Ref? && InBox(box, Coords(ds, owner[g])))
  }

  /** Nothing below a node is nearer than the node's box. */
  lemma BoxBoundsLanes(f: Id -> int, q: Vec, ds: Dataset, owner: seq<Id>, box: Box, lo: nat, hi: nat, g: nat)
    requires ValidBox(box) && QuantizedBox(box) && Quantized(q) && hi * 8 <= |owner|
    requires Encloses(ds, box, owner, lo, hi) && lo * 8 <= g < hi * 8 && Measures(f, q, ds)
    ensures BoxBound(q, box, DIMS) <= f(owner[g])
  {
    assert MeasuresAt(f, q, ds, owner[g]);
    if owner[g].Phantom? {
      BoxBoundBelowPhantom(q, box, DIMS);
    } else {
      BoxBoundSound(q, box, Coords(ds, owner[g]), DIMS);
    }
  }

  /** Skipping all lanes below a pruned box keeps the top five right. */
  lemma PruneKeepsBest(f: Id -> int, fl: real -> real, fused: bool, addZero: bool, q: Vec, ds: Dataset, owner: seq<Id>,
                       box: Box, lo: nat, hi: nat, t: seq<Id>, seen: set<Id>)
    requires Rounds(fl) && Quantized(q) && ValidBox(box) && QuantizedBox(box) && lo <= hi && hi * 8 <= |owner|
    requires Encloses(ds, box, owner, lo, hi) && Measures(f, q, ds)
    requires Best5(f, t, seen)
    requires BoxSum(fl, fused, addZero, q, box, DIMS) >= Threshold(fl, f(t[4]))
    ensures Best5(f, t, seen + Owners(owner, lo * 8, hi * 8))
  {
    assert MeasuresAt(f, q, ds, t[4]);
    var worst := f(t[4]);
    if BoxBound(q, box, DIMS) < worst {
      NearBoxSurvives(fl, fused, addZero, q, box, worst);
    }
    forall g | lo * 8 <= g < hi * 8
      ensures worst <= f(owner[g])
    {
      BoxBoundsLanes(f, q, ds, owner, box, lo, hi, g);
    }
    RangeSkipped(f, t, seen, owner, lo * 8, hi * 8);
  }

  lemma {:induction false} OwnersPrefix(owner: seq<Id>, owner': seq<Id>, lo: nat, hi: nat)
    requires owner <= owner' && hi <= |owner|
    ensures Owners(owner', lo, hi) == Owners(owner, lo, hi)
    decreases hi
  {
    if lo < hi {
      OwnersPrefix(owner, owner', lo, hi - 1);
    }
  }

  /** From lane from on, owner holds exactly the references ms, each lane one of
      them or its own phantom. */
  ghost predicate Adds(owner: seq<Id>, from: nat, ms: seq<nat>)
    requires from <= |owner|
  {
    && (forall g :: from <= g < |owner| ==> owner[g] == Phantom(g) || (owner[g].Ref? && owner[g].i in ms))
    && (forall m :: m in ms ==> Ref(m) in Owners(owner, from, |owner|))
  }

  lemma AddsBoth(owner: seq<Id>, owner': seq<Id>, from: nat, ms: seq<nat>, ms': seq<nat>, all: seq<nat>)
    requires owner <= owner' && from <= |owner|
    requires Adds(owner, from, ms) && Adds(owner', |owner|, ms')
    requires forall m :: m in all <==> m in ms || m in ms'
    ensures Adds(owner', from, all)
  {
    OwnersPrefix(owner, owner', from, |owner|);
    OwnersSplit(owner', from, |owner|, |owner'|);
  }

  ghost predicate InData(ds: Dataset, ms: seq<nat>) {
    forall k :: 0 <= k < |ms| ==> ms[k] < |ds.vectors|
  }

  /** mn and mx are the smallest and largest coordinate d of the members ms, or
      the sentinels when there are none. */
  ghost predicate Spans(ds: Dataset, ms: seq<nat>, d: nat, mn: Int16, mx: Int16)
    requires d < DIMS && InData(ds, ms)
  {
    && (forall k :: 0 <= k < |ms| ==> mn <= ds.vectors[ms[k]][d] <= mx)
    && if ms == [] then mn == 32767 && mx == -32768
       else (exists k :: 0 <= k < |ms| && mn == ds.vectors[ms[k]][d])
            && (exists k :: 0 <= k < |ms| && mx == ds.vectors[ms[k]][d])
  }

  lemma SpansNext(ds: Dataset, ms: seq<nat>, m: nat, d: nat, mn: Int16, mx: Int16)
    requires d < DIMS && InData(ds, ms) && m < |ds.vectors| && Spans(ds, ms, d, mn, mx)
    ensures InData(ds, ms + [m])
    ensures var v := ds.vectors[m][d];
            Spans(ds, ms + [m], d, if v < mn then v else mn, if v > mx then v else mx)
  {
    var v, all := ds.vectors[m][d], ms + [m];
    var mn', mx' := if v < mn then v else mn, if v > mx then v else mx;
    if mn' == v {
      assert mn' == ds.vectors[all[|ms|]][d];
    } else {
      var k :| 0 <= k < |ms| && mn == ds.vectors[ms[k]][d];
      assert mn' == ds.vectors[all[k]][d];
    }
    if mx' == v {
      assert mx' == ds.vectors[all[|ms|]][d];
    } else {
      var k :| 0 <= k < |ms| && mx == ds.vectors[ms[k]][d];
      assert mx' == ds.vectors[all[k]][d];
    }
  }

  /** box is the tight bounding box of the members ms. */
  ghost predicate Tight(ds: Dataset, ms: seq<nat>, box: Box)
    requires InData(ds, ms) && ValidBox(box)
  {
    forall d :: 0 <= d < DIMS ==> Spans(ds, ms, d, box.min[d], box.max[d])
  }

  /** Widens the running extents by one member. */
  method Widen(ds: Dataset, ghost ms: seq<nat>, m: nat, nmin: array<Int16>, nmax: array<Int16>)
    requires nmin.Length == nmax.Length == 16 && nmin != nmax
    requires InData(ds, ms) && m < |ds.vectors|
    requires forall d :: 0 <= d < DIMS ==> Spans(ds, ms, d, nmin[d], nmax[d])
    modifies nmin, nmax
    ensures InData(ds, ms + [m])
    ensures forall d :: 0 <= d < DIMS ==> Spans(ds, ms + [m], d, nmin[d], nmax[d])
  {
    assert InData(ds, ms + [m]);
    for d := 0 to DIMS
      invariant forall e :: 0 <= e < d ==> Spans(ds, ms + [m], e, nmin[e], nmax[e])
      invariant forall e :: d <= e < DIMS ==> Spans(ds, ms, e, nmin[e], nmax[e])
    {
      WidenOne(ds, ms, m, d, nmin, nmax);
    }
  }

  method WidenOne(ds: Dataset, ghost ms: seq<nat>, m: nat, d: nat, nmin: array<Int16>, nmax: array<Int16>)
    requires nmin.Length == nmax.Length == 16 && nmin != nmax
    requires InData(ds, ms) && InData(ds, ms + [m]) && m < |ds.vectors| && d < DIMS
             && Spans(ds, ms, d, nmin[d], nmax[d])
    modifies nmin, nmax
    ensures Spans(ds, ms + [m], d, nmin[d], nmax[d])
    ensures forall e :: 0 <= e < 16 && e != d ==> nmin[e] == old(nmin[e]) && nmax[e] == old(nmax[e])
  {
    var v := ds.vectors[m][d];
    SpansNext(ds, ms, m, d, nmin[d], nmax[d]);
    if v < nmin[d] {
      nmin[d] := v;
    }
    if v > nmax[d] {
      nmax[d] := v;
    }
  }

  method BoundingBox(ds: Dataset, ms: seq<nat>) returns (box: Box)
    requires InData(ds, ms)
    ensures ValidBox(box) && Tight(ds, ms, box)
    ensures box.min[14] == box.min[15] == box.max[14] == box.max[15] == 0
  {
    var nmin := new Int16[16](_ => 32767);
    var nmax := new Int16[16](_ => -32768);
    for i := 0 to |ms|
      invariant InData(ds, ms[..i])
      invariant forall d :: 0 <= d < DIMS ==> Spans(ds, ms[..i], d, nmin[d], nmax[d])
    {
      assert ms[..i + 1] == ms[..i] + [ms[i]];
      Widen(ds, ms[..i], ms[i], nmin, nmax);
    }
    assert ms[..|ms|] == ms;
    nmin[14], nmin[15] := 0, 0;
    nmax[14], nmax[15] := 0, 0;
    box := Box(nmin[..], nmax[..]);
  }

  lemma TightEncloses(ds: Dataset, ms: seq<nat>, box: Box, k: nat)
    requires ValidDataset(ds) && InData(ds, ms) && ValidBox(box) && Tight(ds, ms, box) && k < |ms|
    ensures InBox(box, ds.vectors[ms[k]]) && QuantizedBox(box)
  {
  }

  /** The lanes of a leaf: its members in order, then phantoms up to a multiple of eight. */
  ghost function LeafLanes(ms: seq<nat>, base: nat, n: nat): (lanes: seq<Id>)
    ensures |lanes| == n
    ensures forall t :: 0 <= t < n ==> lanes[t] == if t < |ms| then Ref(ms[t]) else Phantom(base + t)
  {
    seq(n, t requires 0 <= t < n => if t < |ms| then Ref(ms[t]) else Phantom(base + t))
  }

  /** Phantom lanes are named after their position. */
  ghost predicate PhantomsPlaced(owner: seq<Id>) {
    forall g :: 0 <= g < |owner| && owner[g].Phantom? ==> owner[g] == Phantom(g)
  }

  ghost predicate Fresh(owner: seq<Id>, ms: seq<nat>) {
    DistinctRange(ms) && forall k :: 0 <= k < |ms| ==> Ref(ms[k]) !in owner
  }

  lemma LeafInjective(owner: seq<Id>, ms: seq<nat>, n: nat)
    requires Injective(owner) && PhantomsPlaced(owner) && Fresh(owner, ms)
    ensures Injective(owner + LeafLanes(ms, |owner|, n)) && PhantomsPlaced(owner + LeafLanes(ms, |owner|, n))
  {
    var owner' := owner + LeafLanes(ms, |owner|, n);
    forall g, h
      ensures Differ(owner', g, h)
    {
      if 0 <= g < h < |owner'| {
        if h < |owner| {
          assert Differ(owner, g, h);
        } else if g < |owner| {
          assert owner[g] in owner;
        }
      }
    }
  }

  lemma LeafAdds(owner: seq<Id>, ms: seq<nat>, n: nat)
    requires |ms| <= n
    ensures Adds(owner + LeafLanes(ms, |owner|, n), |owner|, ms)
  {
    var owner' := owner + LeafLanes(ms, |owner|, n);
    forall m | m in ms
      ensures Ref(m) in Owners(owner', |owner|, |owner'|)
    {
      var t :| 0 <= t < |ms| && ms[t] == m;
      assert owner'[|owner| + t] == Ref(m);
      OwnersContain(owner', |owner|, |owner'|, |owner| + t);
    }
  }

  lemma AddsEncloses(ds: Dataset, owner: seq<Id>, ms: seq<nat>, box: Box, lo: nat, hi: nat)
    requires ValidDataset(ds) && InData(ds, ms) && ValidBox(box) && Tight(ds, ms, box)
    requires lo * 8 <= |owner| == hi * 8 && Adds(owner, lo * 8, ms)
    ensures Encloses(ds, box, owner, lo, hi)
  {
  }

  /** Each lane holds a reference or its own padding. */
  ghost predicate Placed(ds: Dataset, owner: seq<Id>) {
    forall g :: 0 <= g < |owner| ==> owner[g] == Phantom(g) || (owner[g].Ref? && owner[g].i < |ds.vectors|)
  }

  /** Every reference is in some lane. */
  ghost predicate Complete(ds: Dataset, owner: seq<Id>) {
    Placed(ds, owner) && forall m: nat {:trigger Ref(m)} :: m < |ds.vectors| ==> Ref(m) in Owners(owner, 0, |owner|)
  }
}
