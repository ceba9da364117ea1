/** An answer found among the lanes of a complete index against the answer of the
    brute-force scan: when the distances agree, and when the fraud counts do. */
module Parity {
  import opened Geometry
  import opened TopFive
  import opened Blocks
  import opened Lanes
  import opened Brute

  /** The references and the padding lanes of an index, apart. */
  ghost function Phantoms(owner: seq<Id>): set<Id> {
    set x | x in owner && x.Phantom?
  }

  lemma OwnersAreRefsAndPhantoms(ds: Dataset, owner: seq<Id>)
    requires Complete(ds, owner)
    ensures Owners(owner, 0, |owner|) == Refs(ds) + Phantoms(owner)
  {
    forall x | x in Owners(owner, 0, |owner|)
      ensures x in Refs(ds) + Phantoms(owner)
    {
      var g := OwnerLane(owner, 0, |owner|, x);
    }
    forall x | x in Phantoms(owner)
      ensures x in Owners(owner, 0, |owner|)
    {
      var g :| 0 <= g < |owner| && owner[g] == x;
      OwnersContain(owner, 0, |owner|, g);
    }
    forall x | x in Refs(ds)
      ensures x in Owners(owner, 0, |owner|)
    {
      assert x == Ref(x.i);
    }
  }

  lemma {:induction false} RefsCount(ds: Dataset, n: nat)
    requires n <= |ds.vectors|
    ensures |set i: nat | i < n :: Ref(i)| == n
  {
    var s := set i: nat | i < n :: Ref(i);
    if n == 0 {
      assert s == {};
    } else {
      RefsCount(ds, n - 1);
      assert s == (set i: nat | i < n - 1 :: Ref(i)) + {Ref(n - 1)};
    }
  }

  lemma RefIsNearer(q: Vec, ds: Dataset, x: Id, y: Id)
    requires ValidDataset(ds) && Quantized(q) && x in Refs(ds) && (y.Phantom? || y.Pad?)
    ensures Dist(q, ds, x) < Dist(q, ds, y)
  {
    PhantomFarther(q, ds.vectors[x.i], DIMS);
  }

  lemma RefsAreNearer(q: Vec, ds: Dataset, others: set<Id>)
    requires ValidDataset(ds) && Quantized(q) && forall y :: y in others ==> y.Phantom? || y.Pad?
    ensures forall x, y :: x in Refs(ds) && y in others ==> DistFrom(q, ds)(x) < DistFrom(q, ds)(y)
  {
    forall x, y | x in Refs(ds) && y in others
      ensures DistFrom(q, ds)(x) < DistFrom(q, ds)(y)
    {
      RefIsNearer(q, ds, x, y);
    }
  }

  /** With five references or more, placeholders and padding drop out. */
  lemma OnlyRefsMatter(q: Vec, ds: Dataset, t: seq<Id>, others: set<Id>)
    requires ValidDataset(ds) && Quantized(q) && |ds.vectors| >= 5
    requires forall y :: y in others ==> y.Phantom? || y.Pad?
    requires Best5(DistFrom(q, ds), t, Refs(ds) + others)
    ensures Best5(DistFrom(q, ds), t, Refs(ds))
  {
    RefsCount(ds, |ds.vectors|);
    RefsAreNearer(q, ds, others);
    ForgetFar(DistFrom(q, ds), t, Refs(ds), others);
  }

  lemma SomeOther(ds: Dataset, t: seq<Id>) returns (k: nat)
    requires |ds.vectors| < 5 == |t| && Distinct(t)
    ensures k < 5 && t[k] !in Refs(ds)
  {
    RefsCount(ds, |ds.vectors|);
    DistinctCount(t);
    if Elements(t) <= Refs(ds) {
      SubsetSize(Elements(t), Refs(ds));
      assert false;
    }
    var y :| y in Elements(t) && y !in Refs(ds);
    k :| 0 <= k < 5 && t[k] == y;
  }

  /** With fewer, all of them are in the list. */
  lemma FewRefsAllIn(q: Vec, ds: Dataset, t: seq<Id>, others: set<Id>)
    requires ValidDataset(ds) && Quantized(q) && |ds.vectors| < 5
    requires forall y :: y in others ==> y.Phantom? || y.Pad?
    requires Best5(DistFrom(q, ds), t, Refs(ds) + others)
    ensures Refs(ds) <= Elements(t)
  {
    var f := DistFrom(q, ds);
    assert Spelled(f, t, Refs(ds) + others, 0);
    var k := SomeOther(ds, t);
    forall x | x in Refs(ds)
      ensures x in t
    {
      RefIsNearer(q, ds, x, t[k]);
      assert f(x) < f(t[k]) <= f(t[4]);
    }
  }

  /** So the count is then simply the number of frauds in the dataset. */
  lemma FewRefsCount(q: Vec, ds: Dataset, t: seq<Id>, others: set<Id>)
    requires ValidDataset(ds) && Quantized(q) && |ds.vectors| < 5
    requires forall y :: y in others ==> y.Phantom? || y.Pad?
    requires Best5(DistFrom(q, ds), t, Refs(ds) + others)
    ensures Frauds(ds, t) == |FraudSet(ds, Refs(ds))|
  {
    assert Spelled(DistFrom(q, ds), t, Refs(ds) + others, 0);
    FewRefsAllIn(q, ds, t, others);
    FraudsCount(ds, t);
    forall x | x in t && x !in Refs(ds)
      ensures LabelOf(ds, x) == 0
    {
      var k :| 0 <= k < 5 && t[k] == x;
    }
    assert FraudSet(ds, Elements(t)) == FraudSet(ds, Refs(ds));
  }

  /** t is best among all lanes of a complete index, b among the references alone. */
  ghost predicate Compared(q: Vec, ds: Dataset, owner: seq<Id>, t: seq<Id>, b: seq<Id>) {
    && Complete(ds, owner) && Injective(owner)
    && Best5(DistFrom(q, ds), t, Pads() + Owners(owner, 0, |owner|))
    && Best5(DistFrom(q, ds), b, Pads() + Refs(ds))
  }

  lemma SplitOthers(q: Vec, ds: Dataset, owner: seq<Id>, t: seq<Id>, b: seq<Id>)
    requires Compared(q, ds, owner, t, b)
    ensures Best5(DistFrom(q, ds), t, Refs(ds) + (Pads() + Phantoms(owner)))
    ensures Best5(DistFrom(q, ds), b, Refs(ds) + Pads())
  {
    OwnersAreRefsAndPhantoms(ds, owner);
    assert Pads() + Owners(owner, 0, |owner|) == Refs(ds) + (Pads() + Phantoms(owner));
    assert Pads() + Refs(ds) == Refs(ds) + Pads();
  }

  /** The distances found through the index are those of the scan, slot by slot,
      exactly when the dataset is empty or holds at least five references: with
      one to four, padding lanes take the slots the scan leaves infinitely far. */
  lemma DistancesAgree(q: Vec, ds: Dataset, owner: seq<Id>, t: seq<Id>, b: seq<Id>)
    requires ValidDataset(ds) && Quantized(q) && Compared(q, ds, owner, t, b)
    requires |owner| % 8 == 0 && (ds.vectors == [] ==> owner == [])
    ensures |ds.vectors| == 0 || |ds.vectors| >= 5 <==>
            forall i :: 0 <= i < 5 ==> Dist(q, ds, t[i]) == Dist(q, ds, b[i])
  {
    var f := DistFrom(q, ds);
    SplitOthers(q, ds, owner, t, b);
    if |ds.vectors| >= 5 {
      OnlyRefsMatter(q, ds, t, Pads() + Phantoms(owner));
      OnlyRefsMatter(q, ds, b, Pads());
      BestDistancesUnique(f, t, b, Refs(ds));
      assert forall i :: 0 <= i < 5 ==> f(t[i]) == Dist(q, ds, t[i]) && f(b[i]) == Dist(q, ds, b[i]);
    } else if |ds.vectors| == 0 {
      assert Pads() + Owners(owner, 0, |owner|) == Pads() + Refs(ds);
      BestDistancesUnique(f, t, b, Pads() + Refs(ds));
      assert forall i :: 0 <= i < 5 ==> f(t[i]) == Dist(q, ds, t[i]) && f(b[i]) == Dist(q, ds, b[i]);
    } else {
      ScanLeavesInfinite(q, ds, b);
      PaddingFillsUp(q, ds, owner, t);
    }
  }

  lemma ScanLeavesInfinite(q: Vec, ds: Dataset, b: seq<Id>)
    requires ValidDataset(ds) && |ds.vectors| < 5 && Best5(DistFrom(q, ds), b, Refs(ds) + Pads())
    ensures Dist(q, ds, b[4]) == INFINITE
  {
    var f := DistFrom(q, ds);
    assert Spelled(f, b, Refs(ds) + Pads(), 0);
    var k := SomeOther(ds, b);
    assert f(b[k]) == INFINITE && f(b[k]) <= f(b[4]);
  }

  lemma PaddingFillsUp(q: Vec, ds: Dataset, owner: seq<Id>, t: seq<Id>)
    requires ValidDataset(ds) && Complete(ds, owner) && Injective(owner) && |owner| % 8 == 0 && ds.vectors != []
    requires Best5(DistFrom(q, ds), t, Refs(ds) + (Pads() + Phantoms(owner)))
    ensures Dist(q, ds, t[4]) < INFINITE
  {
    var f := DistFrom(q, ds);
    assert Spelled(f, t, Refs(ds) + (Pads() + Phantoms(owner)), 0);
    if t[4].Pad? {
      SomeLane(ds, owner);
      DistinctCount(t);
      LanesExceed(owner, Elements(t) - {t[4]});
      var x :| x in Owners(owner, 0, |owner|) && x !in Elements(t) - {t[4]};
      OwnersAreRefsAndPhantoms(ds, owner);
      FiniteLane(q, ds, x);
    }
  }

  lemma FiniteLane(q: Vec, ds: Dataset, x: Id)
    requires !x.Pad?
    ensures DistFrom(q, ds)(x) < INFINITE
  {
  }

  lemma SomeLane(ds: Dataset, owner: seq<Id>)
    requires Complete(ds, owner) && |owner| % 8 == 0 && ds.vectors != []
    ensures |owner| >= 8
  {
    assert Ref(0) in Owners(owner, 0, |owner|);
  }

  lemma {:induction false} OwnersCount(owner: seq<Id>, n: nat)
    requires Injective(owner) && n <= |owner|
    ensures |Owners(owner, 0, n)| == n
  {
    if 0 < n {
      OwnersCount(owner, n - 1);
      OwnersNext(owner, 0, n - 1, n - 1);
    }
  }

  /** Eight lanes cannot all be among four candidates. */
  lemma LanesExceed(owner: seq<Id>, few: set<Id>)
    requires Injective(owner) && |owner| >= 8 && |few| <= 4
    ensures exists x :: x in Owners(owner, 0, |owner|) && x !in few
  {
    OwnersCount(owner, |owner|);
    var lanes := Owners(owner, 0, |owner|);
    if lanes <= few {
      SubsetSize(lanes, few);
      assert false;
    }
    assert exists x :: x in lanes && x !in few;
  }

  /** The fraud count of any right answer through the index equals that of any
      right answer of the scan, if fewer than five references exist or the scan's
      answer is decisive. */
  lemma FraudCountsAgree(q: Vec, ds: Dataset, owner: seq<Id>, t: seq<Id>, b: seq<Id>)
    requires ValidDataset(ds) && Quantized(q) && Compared(q, ds, owner, t, b)
    requires |ds.vectors| < 5 || Decisive(DistFrom(q, ds), ds, b, Refs(ds))
    ensures Frauds(ds, t) == Frauds(ds, b)
  {
    SplitOthers(q, ds, owner, t, b);
    if |ds.vectors| < 5 {
      FewRefsCount(q, ds, t, Pads() + Phantoms(owner));
      FewRefsCount(q, ds, b, Pads());
    } else {
      OnlyRefsMatter(q, ds, t, Pads() + Phantoms(owner));
      OnlyRefsMatter(q, ds, b, Pads());
      DecisiveCountUnique(DistFrom(q, ds), ds, b, t, Refs(ds));
    }
  }

  /** Whatever the number of references and however ties fall, a count found through
      the index is a right answer. */
  lemma CountIsRight(q: Vec, ds: Dataset, owner: seq<Id>, t: seq<Id>, b: seq<Id>)
    requires ValidDataset(ds) && Quantized(q) && Compared(q, ds, owner, t, b)
    ensures RightCount(q, ds, Frauds(ds, t))
  {
    if |ds.vectors| < 5 {
      FraudCountsAgree(q, ds, owner, t, b);
    } else {
      var f := DistFrom(q, ds);
      SplitOthers(q, ds, owner, t, b);
      OnlyRefsMatter(q, ds, t, Pads() + Phantoms(owner));
      SkipKeepsBest(f, t, Refs(ds), Pads());
      assert Refs(ds) + Pads() == Pads() + Refs(ds);
    }
  }

  /** Sets a count and five distances found through a complete index against the scan. */
  method AgainstScan(q: Vec, ds: Dataset, ghost owner: seq<Id>, count: nat, found: seq<int>, ghost t: seq<Id>)
    returns (exact: nat, scanned: seq<int>, ghost b: seq<Id>)
    requires ValidDataset(ds) && Quantized(q) && count == Frauds(ds, t) && ShowsDistances(DistFrom(q, ds), t, found)
    requires Complete(ds, owner) && Injective(owner) && |owner| % 8 == 0 && (ds.vectors == [] ==> owner == [])
    requires Best5(DistFrom(q, ds), t, Pads() + Owners(owner, 0, |owner|))
    ensures Best5(DistFrom(q, ds), b, Pads() + Refs(ds)) && ShowsDistances(DistFrom(q, ds), b, scanned)
            && exact == Frauds(ds, b)
    ensures |ds.vectors| == 0 || |ds.vectors| >= 5 <==> found == scanned
    ensures |ds.vectors| < 5 || Decisive(DistFrom(q, ds), ds, b, Refs(ds)) ==> count == exact
    ensures RightCount(q, ds, count) && RightCount(q, ds, exact)
  {
    exact, scanned, b := FraudCountBrute(q, ds);
    DistancesAgree(q, ds, owner, t, b);
    SameDistances(q, ds, t, found, b, scanned);
    CountIsRight(q, ds, owner, t, b);
    if |ds.vectors| < 5 || Decisive(DistFrom(q, ds), ds, b, Refs(ds)) {
      FraudCountsAgree(q, ds, owner, t, b);
    }
  }

  lemma SameDistances(q: Vec, ds: Dataset, t: seq<Id>, found: seq<int>, b: seq<Id>, scanned: seq<int>)
    requires ShowsDistances(DistFrom(q, ds), t, found) && ShowsDistances(DistFrom(q, ds), b, scanned)
    ensures found == scanned <==> forall i :: 0 <= i < 5 ==> Dist(q, ds, t[i]) == Dist(q, ds, b[i])
  {
  }
}
