/** The reference scan: every vector in order, with a cascaded five-slot insert. */
module Brute {
  import opened Geometry
  import opened TopFive

  /** The ten locals of the scan: distances ascending, each with its label. */
  datatype Five = Five(d0: int, d1: int, d2: int, d3: int, d4: int, l0: nat, l1: nat, l2: nat, l3: nat, l4: nat)

  function BruteInsert(d: int, l: nat, s: Five): Five {
    if d >= s.d4 then s
    else if d < s.d0 then Five(d, s.d0, s.d1, s.d2, s.d3, l, s.l0, s.l1, s.l2, s.l3)
    else if d < s.d1 then Five(s.d0, d, s.d1, s.d2, s.d3, s.l0, l, s.l1, s.l2, s.l3)
    else if d < s.d2 then Five(s.d0, s.d1, d, s.d2, s.d3, s.l0, s.l1, l, s.l2, s.l3)
    else if d < s.d3 then Five(s.d0, s.d1, s.d2, d, s.d3, s.l0, s.l1, s.l2, l, s.l3)
    else Five(s.d0, s.d1, s.d2, s.d3, d, s.l0, s.l1, s.l2, s.l3, l)
  }

  /** The locals as they stand when the candidates in t are in the slots. */
  ghost function Mirror(f: Id -> int, ds: Dataset, t: seq<Id>): Five
    requires |t| == 5
  {
    Five(f(t[0]), f(t[1]), f(t[2]), f(t[3]), f(t[4]),
         LabelOf(ds, t[0]), LabelOf(ds, t[1]), LabelOf(ds, t[2]), LabelOf(ds, t[3]), LabelOf(ds, t[4]))
  }

  /** The cascade puts a candidate exactly where the insertion loop of Top5 does. */
  lemma CascadeIsOffer(f: Id -> int, ds: Dataset, t: seq<Id>, x: Id)
    requires |t| == 5 && Ascending(f, t)
    ensures BruteInsert(f(x), LabelOf(ds, x), Mirror(f, ds, t)) == Mirror(f, ds, Offer(f, t, x))
  {
  }

  /** Squared distance, abandoned as soon as it reaches cap. */
  method CappedDist(q: Vec, v: Vec, cap: int) returns (sum: int)
    ensures sum < cap <==> SqDist(q, v) < cap
    ensures sum < cap ==> sum == SqDist(q, v)
  {
    sum := 0;
    var d := 0;
    while d < DIMS
      invariant d <= DIMS && sum == PartialDist(q, v, d)
    {
      sum := sum + Square(q[d] as int - v[d]);
      d := d + 1;
      if sum >= cap {
        break;
      }
    }
    PartialDistMonotone(q, v, d, DIMS);
  }

  method CountMirrored(ghost f: Id -> int, ghost ds: Dataset, ghost t: seq<Id>, s: Five)
    returns (frauds: nat, dists: seq<int>)
    requires ValidDataset(ds) && |t| == 5 && s == Mirror(f, ds, t)
    ensures frauds == Frauds(ds, t) && ShowsDistances(f, t, dists)
  {
    dists := [s.d0, s.d1, s.d2, s.d3, s.d4];
    forall i | 0 <= i < 5
      ensures LabelOf(ds, t[i]) <= 1
    {
      LabelsAreBits(ds, t[i]);
    }
    FraudsOfFive(ds, t);
    frauds := 0;
    if s.l0 == 1 { frauds := frauds + 1; }
    if s.l1 == 1 { frauds := frauds + 1; }
    if s.l2 == 1 { frauds := frauds + 1; }
    if s.l3 == 1 { frauds := frauds + 1; }
    if s.l4 == 1 { frauds := frauds + 1; }
  }

  /** Pads and the first n references. */
  ghost function SeenUpTo(n: nat): set<Id> {
    if n == 0 then Pads() else SeenUpTo(n - 1) + {Ref(n - 1)}
  }

  lemma {:induction false} SeenUpToIs(n: nat)
    ensures forall x :: x in SeenUpTo(n) <==> x in Pads() || (x.Ref? && x.i < n)
  {
    if 0 < n {
      SeenUpToIs(n - 1);
    }
  }

  lemma ScanStep(f: Id -> int, top: seq<Id>, i: nat)
    requires Best5(f, top, SeenUpTo(i))
    ensures Best5(f, Offer(f, top, Ref(i)), SeenUpTo(i + 1))
  {
    SeenUpToIs(i);
    OfferKeepsBest(f, top, SeenUpTo(i), Ref(i));
  }

  lemma InsertStep(f: Id -> int, ds: Dataset, top: seq<Id>, seen: set<Id>, i: nat, sum: int, s: Five)
    requires i < |ds.labels| && Best5(f, top, seen) && s == Mirror(f, ds, top)
    requires sum < s.d4 <==> f(Ref(i)) < s.d4
    requires sum < s.d4 ==> sum == f(Ref(i))
    ensures (if sum < s.d4 then BruteInsert(sum, ds.labels[i], s) else s) == Mirror(f, ds, Offer(f, top, Ref(i)))
  {
    assert Spelled(f, top, seen, 0);
    CascadeIsOffer(f, ds, top, Ref(i));
  }

  /** The locals after the first n references. */
  ghost predicate ScannedTo(f: Id -> int, ds: Dataset, top: seq<Id>, s: Five, n: nat) {
    Best5(f, top, SeenUpTo(n)) && s == Mirror(f, ds, top)
  }

  /** Reference i: its distance, cut off at the worst, and the insertion. */
  method ScanOne(ghost f: Id -> int, q: Vec, ds: Dataset, i: nat, s: Five, ghost top: seq<Id>)
    returns (s': Five, ghost top': seq<Id>)
    requires ValidDataset(ds) && f == DistFrom(q, ds) && i < |ds.vectors|
    requires ScannedTo(f, ds, top, s, i)
    ensures ScannedTo(f, ds, top', s', i + 1)
  {
    var sum := CappedDist(q, ds.vectors[i], s.d4);
    ScanStep(f, top, i);
    InsertStep(f, ds, top, SeenUpTo(i), i, sum, s);
    s' := if sum < s.d4 then BruteInsert(sum, ds.labels[i], s) else s;
    top' := Offer(f, top, Ref(i));
  }

  /** The whole scan: the five distances it ends with and how many of the five
      are frauds. */
  method FraudCountBrute(q: Vec, ds: Dataset) returns (frauds: nat, dists: seq<int>, ghost top: seq<Id>)
    requires ValidDataset(ds)
    ensures Best5(DistFrom(q, ds), top, Pads() + Refs(ds)) && ShowsDistances(DistFrom(q, ds), top, dists)
    ensures frauds == Frauds(ds, top) && RightCount(q, ds, frauds)
  {
    var s;
    s, top := ScanAll(DistFrom(q, ds), q, ds);
    ScanEnds(ds);
    frauds, dists := CountMirrored(DistFrom(q, ds), ds, top, s);
  }

  /** The locals before the loop. */
  method StartScan(ghost f: Id -> int, ghost ds: Dataset) returns (s: Five, ghost top: seq<Id>)
    requires forall x: Id :: x.Pad? ==> f(x) == INFINITE
    ensures ScannedTo(f, ds, top, s, 0)
  {
    s := Five(INFINITE, INFINITE, INFINITE, INFINITE, INFINITE, 0, 0, 0, 0, 0);
    top := EMPTY;
    EmptyIsBest(f);
    assert SeenUpTo(0) == Pads();
  }

  lemma ScanEnds(ds: Dataset)
    ensures SeenUpTo(|ds.vectors|) == Pads() + Refs(ds)
  {
    SeenUpToIs(|ds.vectors|);
  }

  /** The loop over the references. */
  method ScanAll(ghost f: Id -> int, q: Vec, ds: Dataset) returns (s: Five, ghost top: seq<Id>)
    requires ValidDataset(ds) && f == DistFrom(q, ds)
    ensures ScannedTo(f, ds, top, s, |ds.vectors|)
  {
    s, top := StartScan(f, ds);
    for i := 0 to |ds.vectors|
      invariant ScannedTo(f, ds, top, s, i)
    {
      s, top := ScanOne(f, q, ds, i, s, top);
    }
  }
}
