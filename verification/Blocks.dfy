/** Eight-lane blocks of vectors, which candidate each lane holds, and the scan of
    a block into a top five. Both indexes store their vectors this way. */
module Blocks {
  import opened Geometry
  import opened TopFive
  import opened Float32
  import opened Kernels

  ghost predicate Differ(owner: seq<Id>, g: int, h: int) {
    0 <= g < h < |owner| ==> owner[g] != owner[h]
  }

  /** No candidate owns two lanes. */
  ghost predicate Injective(owner: seq<Id>) {
    forall g, h {:trigger Differ(owner, g, h)} :: Differ(owner, g, h)
  }

  /** Lane l of block b holds the coordinates and label of the candidate that owns it. */
  ghost predicate Holds(ds: Dataset, data: seq<Int16>, labels: seq<nat>, owner: seq<Id>, b: nat, l: nat)
    requires l < LANES && (b + 1) * 112 <= |data| && b * 8 + l < |labels| == |owner|
  {
    var x := owner[b * 8 + l];
    !x.Pad? && LaneVec(data, b, l) == Coords(ds, x) && labels[b * 8 + l] == LabelOf(ds, x)
  }

  /** owner[8 * b + l] says which candidate lane l of block b holds; no candidate
      occupies two lanes. */
  ghost predicate Stored(ds: Dataset, data: seq<Int16>, labels: seq<nat>, owner: seq<Id>, blocks: nat) {
    && |data| == 112 * blocks && |labels| == 8 * blocks == |owner|
    && Injective(owner)
    && (forall b, l :: 0 <= b < blocks && 0 <= l < LANES ==> Holds(ds, data, labels, owner, b, l))
  }

  lemma LanesDiffer(owner: seq<Id>, g: nat, h: nat)
    requires Injective(owner) && g < h < |owner|
    ensures owner[g] != owner[h]
  {
    assert Differ(owner, g, h);
  }

  /** The candidates in lanes lo up to hi. */
  ghost function Owners(owner: seq<Id>, lo: nat, hi: nat): set<Id>
    requires hi <= |owner|
  {
    if lo < hi then Owners(owner, lo, hi - 1) + {owner[hi - 1]} else {}
  }

  lemma {:induction false} OwnersContain(owner: seq<Id>, lo: nat, hi: nat, g: nat)
    requires lo <= g < hi <= |owner|
    ensures owner[g] in Owners(owner, lo, hi)
    decreases hi
  {
    if g < hi - 1 {
      OwnersContain(owner, lo, hi - 1, g);
    }
  }

  lemma {:induction false} OwnerLane(owner: seq<Id>, lo: nat, hi: nat, x: Id) returns (g: nat)
    requires hi <= |owner| && x in Owners(owner, lo, hi)
    ensures lo <= g < hi && owner[g] == x
    decreases hi
  {
    if x == owner[hi - 1] {
      g := hi - 1;
    } else {
      g := OwnerLane(owner, lo, hi - 1, x);
    }
  }

  lemma {:induction false} OwnersSplit(owner: seq<Id>, lo: nat, mid: nat, hi: nat)
    requires lo <= mid <= hi <= |owner|
    ensures Owners(owner, lo, hi) == Owners(owner, lo, mid) + Owners(owner, mid, hi)
    ensures Injective(owner) ==> Owners(owner, lo, mid) !! Owners(owner, mid, hi)
    decreases hi
  {
    if mid < hi {
      OwnersSplit(owner, lo, mid, hi - 1);
      if Injective(owner) {
        OwnersNext(owner, lo, mid, hi - 1);
      }
    }
  }

  lemma OwnersNext(owner: seq<Id>, lo: nat, hi: nat, g: nat)
    requires lo <= hi <= g < |owner| && Injective(owner)
    ensures owner[g] !in Owners(owner, lo, hi)
  {
    if owner[g] in Owners(owner, lo, hi) {
      var h := OwnerLane(owner, lo, hi, owner[g]);
      LanesDiffer(owner, h, g);
      assert false;
    }
  }

  /** One more lane is accounted for: offered, or too far to matter. */
  lemma LaneAccounted(f: Id -> int, t: seq<Id>, seen: set<Id>, owner: seq<Id>, lo: nat, g: nat)
    requires lo <= g < |owner| && Injective(owner) && owner[g] !in seen
    requires Best5(f, t, seen + Owners(owner, lo, g))
    ensures Best5(f, Offer(f, t, owner[g]), seen + Owners(owner, lo, g + 1))
    ensures f(Offer(f, t, owner[g])[4]) <= f(t[4])
    ensures f(t[4]) <= f(owner[g]) ==> Best5(f, t, seen + Owners(owner, lo, g + 1))
  {
    OwnersNext(owner, lo, g, g);
    OfferKeepsBest(f, t, seen + Owners(owner, lo, g), owner[g]);
    assert seen + Owners(owner, lo, g) + {owner[g]} == seen + Owners(owner, lo, g + 1);
  }

  lemma RangeSkipped(f: Id -> int, t: seq<Id>, seen: set<Id>, owner: seq<Id>, lo: nat, hi: nat)
    requires lo <= hi <= |owner| && Best5(f, t, seen)
    requires forall g :: lo <= g < hi ==> f(t[4]) <= f(owner[g])
    ensures Best5(f, t, seen + Owners(owner, lo, hi))
  {
    forall x | x in Owners(owner, lo, hi)
      ensures f(t[4]) <= f(x)
    {
      var g := OwnerLane(owner, lo, hi, x);
    }
    SkipKeepsBest(f, t, seen, Owners(owner, lo, hi));
  }

  /** exact_i64 re-ranking of one lane. */
  method ExactI64Dist(q: Vec, data: seq<Int16>, b: nat, l: nat) returns (ssd: int)
    requires l < LANES && (b + 1) * 112 <= |data|
    ensures ssd == SqDist(q, LaneVec(data, b, l))
  {
    ghost var v := LaneVec(data, b, l);
    ssd := 0;
    for d := 0 to DIMS
      invariant ssd == PartialDist(q, v, d)
    {
      PartialDistNext(q, v, d);
      assert v[d] == data[At(b, d, l)];
      ssd := ssd + Square(q[d] as int - data[At(b, d, l)]);
    }
  }

  lemma PartialDistNext(q: Vec, v: Vec, d: nat)
    requires d < DIMS
    ensures PartialDist(q, v, d + 1) == PartialDist(q, v, d) + Square(q[d] as int - v[d])
  {
  }

  /** A lane the filter drops is at least as far as the worst it was compared with. */
  lemma FilteredIsFar(f: Id -> int, fl: real -> real, k: Kernel, q: Vec, ds: Dataset, data: seq<Int16>,
                      labels: seq<nat>, owner: seq<Id>, blocks: nat, b: nat, l: nat, worst: int)
    requires Rounds(fl) && Measures(f, q, ds) && Stored(ds, data, labels, owner, blocks) && b < blocks && l < LANES
             && worst <= INFINITE
    requires || FilterSum(fl, k, q, LaneVec(data, b, l), DIMS) >= Threshold(fl, worst)
             || !AnyBelow(fl, k, q, data, b, 8, Threshold(fl, worst))
             || !AnyBelow(fl, k, q, data, b, DIMS, Threshold(fl, worst))
    ensures worst <= f(owner[b * 8 + l])
  {
    assert MeasuresAt(f, q, ds, owner[b * 8 + l]);
    assert Holds(ds, data, labels, owner, b, l);
    if SqDist(q, LaneVec(data, b, l)) < worst {
      KernelMissesNothing(fl, k, q, data, b, worst, l);
    }
  }

  /** Runs the kernel on block b and re-ranks the surviving lanes exactly. */
  method ScanBlock(ghost f: Id -> int, fl: real -> real, k: Kernel, q: Vec, data: seq<Int16>, labels: seq<nat>, b: nat,
                   top: Top5, sum: array<real>, ghost ds: Dataset, ghost owner: seq<Id>, ghost blocks: nat,
                   ghost seen: set<Id>)
    requires Rounds(fl) && Measures(f, q, ds) && Stored(ds, data, labels, owner, blocks) && b < blocks
    requires sum.Length == LANES
    requires top.Shows(f, ds) && Best5(f, top.ids, seen)
    requires seen !! Owners(owner, b * 8, b * 8 + 8)
    modifies top, top.dist, top.lab, sum
    ensures top.Shows(f, ds)
    ensures Best5(f, top.ids, seen + Owners(owner, b * 8, b * 8 + 8))
  {
    var worst := top.WorstI64();
    assert MeasuresAt(f, q, ds, top.ids[4]);
    var worstF32 := Threshold(fl, worst);
    var alive := ScanBlock8(fl, k, q, data, b, worstF32, sum);
    if !alive {
      forall g | b * 8 <= g < b * 8 + 8
        ensures worst <= f(owner[g])
      {
        FilteredIsFar(f, fl, k, q, ds, data, labels, owner, blocks, b, g - b * 8, worst);
      }
      RangeSkipped(f, top.ids, seen, owner, b * 8, b * 8 + 8);
      return;
    }
    RerankLanes(f, fl, k, q, data, labels, b, top, sum[..], worst, ds, owner, blocks, seen);
  }

  /** Re-ranks one lane unless its filter sum reaches the threshold. */
  method RerankLane(ghost f: Id -> int, fl: real -> real, ghost k: Kernel, q: Vec, data: seq<Int16>, labels: seq<nat>,
                    b: nat, lane: nat, top: Top5, filterSum: real, worstF32: real, ghost worst: int,
                    ghost ds: Dataset, ghost owner: seq<Id>, ghost blocks: nat, ghost seen: set<Id>)
    requires Rounds(fl) && Measures(f, q, ds) && Stored(ds, data, labels, owner, blocks) && b < blocks && lane < LANES
    requires filterSum == FilterSum(fl, k, q, LaneVec(data, b, lane), DIMS)
    requires worstF32 == Threshold(fl, worst) && worst <= INFINITE
    requires top.Shows(f, ds) && f(top.ids[4]) <= worst
    requires Best5(f, top.ids, seen + Owners(owner, b * 8, b * 8 + lane)) && owner[b * 8 + lane] !in seen
    modifies top, top.dist, top.lab
    ensures top.Shows(f, ds) && f(top.ids[4]) <= worst
    ensures Best5(f, top.ids, seen + Owners(owner, b * 8, b * 8 + lane + 1))
  {
    ghost var x := owner[b * 8 + lane];
    LaneAccounted(f, top.ids, seen, owner, b * 8, b * 8 + lane);
    if filterSum >= worstF32 {
      FilteredIsFar(f, fl, k, q, ds, data, labels, owner, blocks, b, lane, worst);
      return;
    }
    assert Holds(ds, data, labels, owner, b, lane) && MeasuresAt(f, q, ds, x);
    var ssd := ExactI64Dist(q, data, b, lane);
    top.InsertI64(ssd, labels[b * 8 + lane], f, ds, x);
  }

  method RerankLanes(ghost f: Id -> int, fl: real -> real, ghost k: Kernel, q: Vec, data: seq<Int16>, labels: seq<nat>,
                     b: nat, top: Top5, sums: seq<real>, worst: int, ghost ds: Dataset, ghost owner: seq<Id>,
                     ghost blocks: nat, ghost seen: set<Id>)
    requires Rounds(fl) && Measures(f, q, ds) && Stored(ds, data, labels, owner, blocks) && b < blocks
    requires |sums| == LANES
    requires forall l :: 0 <= l < LANES ==> sums[l] == FilterSum(fl, k, q, LaneVec(data, b, l), DIMS)
    requires top.Shows(f, ds) && Best5(f, top.ids, seen)
    requires seen !! Owners(owner, b * 8, b * 8 + 8) && worst == top.dist[4]
    modifies top, top.dist, top.lab
    ensures top.Shows(f, ds)
    ensures Best5(f, top.ids, seen + Owners(owner, b * 8, b * 8 + 8))
  {
    var worstF32 := Threshold(fl, worst);
    assert MeasuresAt(f, q, ds, top.ids[4]);
    assert seen + Owners(owner, b * 8, b * 8) == seen;
    for lane := 0 to LANES
      invariant top.Shows(f, ds)
      invariant Best5(f, top.ids, seen + Owners(owner, b * 8, b * 8 + lane))
      invariant f(top.ids[4]) <= worst
    {
      OwnerUnseen(owner, seen, b, lane);
      RerankLane(f, fl, k, q, data, labels, b, lane, top, sums[lane], worstF32, worst, ds, owner, blocks, seen);
    }
  }

  lemma OwnerUnseen(owner: seq<Id>, seen: set<Id>, b: nat, lane: nat)
    requires lane < LANES && b * 8 + 8 <= |owner| && seen !! Owners(owner, b * 8, b * 8 + 8)
    ensures owner[b * 8 + lane] !in seen
  {
    OwnersContain(owner, b * 8, b * 8 + 8, b * 8 + lane);
  }

  lemma RunStep(owner: seq<Id>, seen: set<Id>, lo: nat, now: nat, hi: nat)
    requires Injective(owner) && lo <= now && now + 8 <= hi <= |owner| && seen !! Owners(owner, lo, hi)
    ensures seen + Owners(owner, lo, now) !! Owners(owner, now, now + 8)
    ensures seen + Owners(owner, lo, now) + Owners(owner, now, now + 8) == seen + Owners(owner, lo, now + 8)
  {
    OwnersSplit(owner, lo, now, now + 8);
    OwnersSplit(owner, lo, now + 8, hi);
  }

  /** Scans the blocks first up to end, in order. */
  method ScanRun(ghost f: Id -> int, fl: real -> real, k: Kernel, q: Vec, data: seq<Int16>, labels: seq<nat>,
                 first: nat, end: nat, top: Top5, sum: array<real>, ghost ds: Dataset, ghost owner: seq<Id>,
                 ghost blocks: nat, ghost seen: set<Id>)
    requires Rounds(fl) && Measures(f, q, ds) && Stored(ds, data, labels, owner, blocks) && first <= end <= blocks
    requires sum.Length == LANES
    requires top.Shows(f, ds) && Best5(f, top.ids, seen)
    requires seen !! Owners(owner, first * 8, end * 8)
    modifies top, top.dist, top.lab, sum
    ensures top.Shows(f, ds)
    ensures Best5(f, top.ids, seen + Owners(owner, first * 8, end * 8))
  {
    ghost var lo, s := first * 8, seen;
    for b := first to end
      invariant s == seen + Owners(owner, lo, b * 8)
      invariant top.Shows(f, ds) && Best5(f, top.ids, s)
    {
      RunStep(owner, seen, lo, b * 8, end * 8);
      ScanBlock(f, fl, k, q, data, labels, b, top, sum, ds, owner, blocks, s);
      s := s + Owners(owner, b * 8, b * 8 + 8);
    }
  }
}
