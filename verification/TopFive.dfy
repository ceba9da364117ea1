/** The running list of the five nearest candidates, and what it means for such
    a list to be right about everything seen so far. */
module TopFive {
  import opened Geometry

  // ----- What a correct top five is -----

  ghost predicate Distinct(t: seq<Id>) {
    forall i, j :: 0 <= i < j < |t| ==> t[i] != t[j]
  }

  ghost predicate Ascending(f: Id -> int, t: seq<Id>)
    requires |t| == 5
  {
    f(t[0]) <= f(t[1]) <= f(t[2]) <= f(t[3]) <= f(t[4])
  }

  /** t lists five distinct members of seen in ascending distance, and nothing
      left out of it is nearer than its last entry. */
  ghost predicate Best5(f: Id -> int, t: seq<Id>, seen: set<Id>) {
    |t| == 5 && forall n: nat {:trigger Spelled(f, t, seen, n)} :: Spelled(f, t, seen, n)
  }

  /** The content of Best5, which its quantifier keeps folded until a proof
      mentions it; the number is irrelevant. */
  ghost predicate Spelled(f: Id -> int, t: seq<Id>, seen: set<Id>, n: nat)
    requires |t| == 5
  {
    && Distinct(t)
    && t[0] in seen && t[1] in seen && t[2] in seen && t[3] in seen && t[4] in seen
    && Ascending(f, t)
    && (forall x :: x in seen && x !in t ==> f(t[4]) <= f(x))
  }

  /** dists are the distances of the five candidates in t. */
  ghost predicate ShowsDistances(f: Id -> int, t: seq<Id>, dists: seq<int>) {
    |t| == |dists| == 5 && forall i :: 0 <= i < 5 ==> dists[i] == f(t[i])
  }

  ghost function Elements(t: seq<Id>): (s: set<Id>)
    ensures forall x :: x in s <==> x in t
  {
    set x | x in t
  }

  lemma {:induction false} DistinctCount(t: seq<Id>)
    requires Distinct(t)
    ensures |Elements(t)| == |t|
  {
    if t == [] {
      assert Elements(t) == {};
    } else {
      var n := |t| - 1;
      DistinctCount(t[..n]);
      assert Elements(t) == Elements(t[..n]) + {t[n]};
    }
  }

  lemma BestMembers(f: Id -> int, t: seq<Id>, seen: set<Id>)
    requires Best5(f, t, seen)
    ensures forall x :: x in t ==> x in seen && f(x) <= f(t[4])
  {
    assert Spelled(f, t, seen, 0);
  }

  /** Seeing more never raises any of the five distances. */
  lemma BestDistancesShrink(f: Id -> int, t: seq<Id>, seen: set<Id>, t': seq<Id>, seen': set<Id>)
    requires Best5(f, t, seen) && Best5(f, t', seen') && seen <= seen'
    ensures forall i :: 0 <= i < 5 ==> f(t'[i]) <= f(t[i])
  {
    forall i | 0 <= i < 5
      ensures f(t'[i]) <= f(t[i])
    {
      SlotShrinks(f, t, seen, t', seen', i);
    }
  }

  /** Of i + 1 different candidates one is not among the first i of the other list. */
  lemma Unmatched(a: seq<Id>, b: seq<Id>) returns (x: Id)
    requires Distinct(a) && Distinct(b) && |b| < |a|
    ensures x in a && x !in b
  {
    DistinctCount(a);
    DistinctCount(b);
    if Elements(a) <= Elements(b) {
      SubsetSize(Elements(a), Elements(b));
      assert false;
    }
    x :| x in Elements(a) && x !in Elements(b);
  }

  lemma SlotShrinks(f: Id -> int, t: seq<Id>, seen: set<Id>, t': seq<Id>, seen': set<Id>, i: nat)
    requires Best5(f, t, seen) && Best5(f, t', seen') && seen <= seen' && i < 5
    ensures f(t'[i]) <= f(t[i])
  {
    assert Spelled(f, t, seen, 0) && Spelled(f, t', seen', 0);
    var b := t'[..i];
    assert forall k :: 0 <= k < i ==> b[k] == t'[k];
    var x := Unmatched(t[..i + 1], b);
    var j :| 0 <= j <= i && t[j] == x;
    assert f(x) <= f(t[i]);
    if x in t' {
      var k :| 0 <= k < 5 && t'[k] == x;
      assert i <= k;
    }
  }

  lemma SubsetSize(a: set<Id>, b: set<Id>)
    requires a <= b
    ensures |a| <= |b|
  {
    assert b == a + (b - a);
  }

  /** The five distances depend only on what was seen, not on the order. */
  lemma BestDistancesUnique(f: Id -> int, t: seq<Id>, t': seq<Id>, seen: set<Id>)
    requires Best5(f, t, seen) && Best5(f, t', seen)
    ensures forall i :: 0 <= i < 5 ==> f(t'[i]) == f(t[i])
  {
    assert Spelled(f, t, seen, 0) && Spelled(f, t', seen, 0);
    BestDistancesShrink(f, t, seen, t', seen);
    BestDistancesShrink(f, t', seen, t, seen);
  }

  // ----- Steps that keep it right -----

  /** The list before anything has been offered: five infinitely far placeholders. */
  const EMPTY: seq<Id> := [Pad(0), Pad(1), Pad(2), Pad(3), Pad(4)]

  lemma EmptyIsBest(f: Id -> int)
    requires forall x: Id :: x.Pad? ==> f(x) == INFINITE
    ensures Best5(f, EMPTY, Pads())
  {
  }

  /** Where x goes: behind every entry that is no farther, scanning down from p. */
  function SlotFor(f: Id -> int, t: seq<Id>, x: Id, p: nat): (r: nat)
    requires p <= |t|
    ensures r <= p
    ensures forall k :: r <= k < p ==> f(t[k]) > f(x)
    ensures 0 < r ==> f(t[r - 1]) <= f(x)
  {
    if p > 0 && f(t[p - 1]) > f(x) then SlotFor(f, t, x, p - 1) else p
  }

  /** t with x put at position p and the last entry dropped. */
  function Shifted(t: seq<Id>, x: Id, p: nat): (u: seq<Id>)
    requires |t| == 5 && p <= 4
    ensures |u| == 5
    ensures forall k {:trigger u[k]} :: 0 <= k < 5 ==> u[k] == if k < p then t[k] else if k == p then x else t[k - 1]
  {
    t[..p] + [x] + t[p..4]
  }

  function Offer(f: Id -> int, t: seq<Id>, x: Id): (u: seq<Id>)
    requires |t| == 5
    ensures |u| == 5
  {
    if f(x) >= f(t[4]) then t else Shifted(t, x, SlotFor(f, t, x, 4))
  }

  lemma OfferEntries(f: Id -> int, t: seq<Id>, x: Id, u: seq<Id>)
    requires |t| == 5 && f(x) < f(t[4]) && u == Offer(f, t, x)
    ensures |u| == 5 && x in u
    ensures forall i :: 0 <= i < 5 ==> u[i] == x || u[i] in t
    ensures var p := SlotFor(f, t, x, 4);
            forall k {:trigger u[k]} :: 0 <= k < 5 ==> u[k] == if k < p then t[k] else if k == p then x else t[k - 1]
    ensures forall y :: y in t ==> y in u || y == t[4]
  {
  }

  lemma OfferSorted(f: Id -> int, t: seq<Id>, x: Id, p: nat, u: seq<Id>)
    requires |t| == 5 && Distinct(t) && Ascending(f, t) && x !in t
    requires p < 5 && f(x) < f(t[4])
    requires 0 < p ==> f(t[p - 1]) <= f(x)
    requires forall k :: p <= k < 4 ==> f(x) < f(t[k])
    requires |u| == 5
    requires forall k {:trigger u[k]} :: 0 <= k < 5 ==> u[k] == if k < p then t[k] else if k == p then x else t[k - 1]
    ensures Distinct(u) && Ascending(f, u)
    ensures f(u[4]) <= f(t[4])
  {
  }

  lemma OfferFacts(f: Id -> int, t: seq<Id>, x: Id)
    requires |t| == 5 && Distinct(t) && Ascending(f, t) && x !in t && f(x) < f(t[4])
    ensures var u := Offer(f, t, x);
            && Distinct(u) && Ascending(f, u) && f(u[4]) <= f(t[4]) && x in u
            && (forall i :: 0 <= i < 5 ==> u[i] == x || u[i] in t)
            && (forall y :: y in t ==> y in u || y == t[4])
  {
    OfferEntries(f, t, x, Offer(f, t, x));
    OfferSorted(f, t, x, SlotFor(f, t, x, 4), Offer(f, t, x));
  }

  lemma BestAfter(f: Id -> int, t: seq<Id>, seen: set<Id>, x: Id, u: seq<Id>)
    requires Best5(f, t, seen)
    requires |u| == 5 && Distinct(u) && Ascending(f, u)
    requires f(u[4]) <= f(t[4]) && x in u
    requires forall i :: 0 <= i < 5 ==> u[i] == x || u[i] in t
    requires forall y :: y in t ==> y in u || y == t[4]
    ensures Best5(f, u, seen + {x})
  {
    assert Spelled(f, t, seen, 0);
    forall y | y in seen + {x} && y !in u
      ensures f(u[4]) <= f(y)
    {
      assert y in t ==> y == t[4];
    }
  }

  /** Offering a candidate not seen before keeps the list right. */
  lemma OfferKeepsBest(f: Id -> int, t: seq<Id>, seen: set<Id>, x: Id)
    requires Best5(f, t, seen) && x !in seen
    ensures Best5(f, Offer(f, t, x), seen + {x})
    ensures f(Offer(f, t, x)[4]) <= f(t[4])
  {
    assert Spelled(f, t, seen, 0);
    if f(x) < f(t[4]) {
      OfferFacts(f, t, x);
      BestAfter(f, t, seen, x, Offer(f, t, x));
    } else {
      SkipKeepsBest(f, t, seen, {x});
    }
  }

  lemma SlotForUnique(f: Id -> int, t: seq<Id>, x: Id, p: nat, r: nat)
    requires r <= p <= |t|
    requires forall k :: r <= k < p ==> f(t[k]) > f(x)
    requires 0 < r ==> f(t[r - 1]) <= f(x)
    ensures r == SlotFor(f, t, x, p)
  {
  }

  /** Ignoring candidates that are no nearer than the current worst is harmless. */
  lemma SkipKeepsBest(f: Id -> int, t: seq<Id>, seen: set<Id>, skipped: set<Id>)
    requires Best5(f, t, seen)
    requires forall x :: x in skipped ==> f(t[4]) <= f(x)
    ensures Best5(f, t, seen + skipped)
  {
    assert Spelled(f, t, seen, 0);
  }

  /** Candidates farther than five others can be forgotten. */
  lemma ForgetFar(f: Id -> int, t: seq<Id>, near: set<Id>, far: set<Id>)
    requires Best5(f, t, near + far) && |near| >= 5
    requires forall x, y :: x in near && y in far ==> f(x) < f(y)
    ensures Best5(f, t, near)
  {
    assert Spelled(f, t, near + far, 0);
    if i :| 0 <= i < 5 && t[i] !in near {
      if x :| x in near && x !in t {
        assert false;
      } else {
        assert near <= Elements(t) - {t[i]};
        DistinctCount(t);
        SubsetSize(near, Elements(t) - {t[i]});
      }
    }
  }

  // ----- How many of the five are fraud -----

  function Frauds(ds: Dataset, t: seq<Id>): nat {
    if t == [] then 0 else Frauds(ds, t[..|t| - 1]) + LabelOf(ds, t[|t| - 1])
  }

  /** n is the fraud count of some list of the five best among all references and the
      placeholders: a right answer to the query. */
  ghost predicate RightCount(q: Vec, ds: Dataset, n: nat) {
    exists t :: Best5(DistFrom(q, ds), t, Pads() + Refs(ds)) && n == Frauds(ds, t)
  }

  ghost function FraudSet(ds: Dataset, s: set<Id>): set<Id> {
    set x | x in s && LabelOf(ds, x) == 1
  }

  lemma FraudSetUnion(ds: Dataset, a: set<Id>, b: set<Id>)
    ensures FraudSet(ds, a + b) == FraudSet(ds, a) + FraudSet(ds, b)
  {
  }

  lemma {:induction false} FraudsCount(ds: Dataset, t: seq<Id>)
    requires ValidDataset(ds) && Distinct(t)
    ensures Frauds(ds, t) == |FraudSet(ds, Elements(t))|
  {
    if t != [] {
      var n := |t| - 1;
      FraudsCount(ds, t[..n]);
      assert Elements(t) == Elements(t[..n]) + {t[n]};
      FraudSetUnion(ds, Elements(t[..n]), {t[n]});
      LabelsAreBits(ds, t[n]);
      assert FraudSet(ds, {t[n]}) == if LabelOf(ds, t[n]) == 1 then {t[n]} else {};
    } else {
      assert FraudSet(ds, Elements(t)) == {};
    }
  }

  lemma LabelsAreBits(ds: Dataset, x: Id)
    requires ValidDataset(ds)
    ensures LabelOf(ds, x) <= 1
  {
  }

  /** Everything left out is strictly farther, or all candidates tied with the
      fifth carry one label. */
  ghost predicate Decisive(f: Id -> int, ds: Dataset, t: seq<Id>, seen: set<Id>)
    requires |t| == 5
  {
    || (forall x :: x in seen && x !in t ==> f(t[4]) < f(x))
    || (forall x :: x in seen && f(x) == f(t[4]) ==> LabelOf(ds, x) == LabelOf(ds, t[4]))
  }

  ghost function Nearer(f: Id -> int, seen: set<Id>, w: int): set<Id> {
    set x | x in seen && f(x) < w
  }

  lemma TiesAreUniform(f: Id -> int, ds: Dataset, t: seq<Id>, seen: set<Id>, l: nat)
    requires Best5(f, t, seen)
    requires forall x :: x in seen && f(x) == f(t[4]) ==> LabelOf(ds, x) == l
    ensures forall x :: x in Elements(t) - Nearer(f, seen, f(t[4])) ==> LabelOf(ds, x) == l
  {
    assert Spelled(f, t, seen, 0);
    forall x | x in Elements(t) - Nearer(f, seen, f(t[4]))
      ensures LabelOf(ds, x) == l
    {
      var k :| 0 <= k < 5 && t[k] == x;
      assert f(x) == f(t[4]);
    }
  }

  /** The fraud count when every tie at the fifth distance carries label l. */
  lemma UniformCount(f: Id -> int, ds: Dataset, t: seq<Id>, seen: set<Id>, l: nat)
    requires ValidDataset(ds) && Best5(f, t, seen)
    requires forall x :: x in seen && f(x) == f(t[4]) ==> LabelOf(ds, x) == l
    ensures var near := Nearer(f, seen, f(t[4]));
            Frauds(ds, t) == |FraudSet(ds, near)| + if l == 1 then 5 - |near| else 0
  {
    assert Spelled(f, t, seen, 0);
    var near := Nearer(f, seen, f(t[4]));
    var all := Elements(t);
    FraudsCount(ds, t);
    DistinctCount(t);
    assert near <= all;
    var ties := all - near;
    assert all == near + ties;
    FraudSetUnion(ds, near, ties);
    TiesAreUniform(f, ds, t, seen, l);
    assert FraudSet(ds, ties) == if l == 1 then ties else {};
  }

  /** A decisive list fixes the fraud count, whatever order produced it. */
  lemma DecisiveCountUnique(f: Id -> int, ds: Dataset, t: seq<Id>, t': seq<Id>, seen: set<Id>)
    requires ValidDataset(ds) && Best5(f, t, seen) && Best5(f, t', seen)
    requires Decisive(f, ds, t, seen)
    ensures Frauds(ds, t') == Frauds(ds, t)
  {
    assert Spelled(f, t, seen, 0) && Spelled(f, t', seen, 0);
    BestDistancesUnique(f, t, t', seen);
    if forall x :: x in seen && x !in t ==> f(t[4]) < f(x) {
      forall x | x in t'
        ensures x in t
      {
        var k :| 0 <= k < 5 && t'[k] == x;
        assert f(x) <= f(t[4]);
      }
      SameCount(ds, t, t');
    } else {
      UniformCount(f, ds, t, seen, LabelOf(ds, t[4]));
      UniformCount(f, ds, t', seen, LabelOf(ds, t[4]));
    }
  }

  lemma SameCount(ds: Dataset, t: seq<Id>, t': seq<Id>)
    requires ValidDataset(ds) && Distinct(t) && Distinct(t') && |t| == |t'|
    requires forall x :: x in t' ==> x in t
    ensures Frauds(ds, t') == Frauds(ds, t)
  {
    FraudsCount(ds, t);
    FraudsCount(ds, t');
    DistinctCount(t);
    DistinctCount(t');
    var a, b := Elements(t), Elements(t');
    assert a == b + (a - b);
    assert a == b;
  }

  lemma {:induction false} FraudsUpdate(ds: Dataset, t: seq<Id>, i: nat, x: Id)
    requires i < |t|
    ensures Frauds(ds, t[i := x]) == Frauds(ds, t) - LabelOf(ds, t[i]) + LabelOf(ds, x)
  {
    var n := |t| - 1;
    if i == n {
      assert t[i := x][..n] == t[..n];
    } else {
      FraudsUpdate(ds, t[..n], i, x);
      assert t[i := x][..n] == t[..n][i := x];
    }
  }

  lemma SwapTie(f: Id -> int, ds: Dataset, t: seq<Id>, seen: set<Id>, i: nat, x: Id)
    requires Best5(f, t, seen) && i < 5 && x in seen && x !in t
    requires f(t[i]) == f(x) == f(t[4])
    requires LabelOf(ds, t[i]) != LabelOf(ds, x)
    ensures Best5(f, t[i := x], seen) && Frauds(ds, t[i := x]) != Frauds(ds, t)
  {
    assert Spelled(f, t, seen, 0);
    FraudsUpdate(ds, t, i, x);
    assert forall y :: y in t && y != t[i] ==> y in t[i := x] by {
      forall y | y in t && y != t[i]
        ensures y in t[i := x]
      {
        var k :| 0 <= k < 5 && t[k] == y;
        assert t[i := x][k] == y;
      }
    }
  }

  /** The data determine the fraud count exactly when the list is decisive. */
  lemma FraudCountDetermined(f: Id -> int, ds: Dataset, t: seq<Id>, seen: set<Id>)
    requires ValidDataset(ds) && Best5(f, t, seen)
    ensures Decisive(f, ds, t, seen) <==>
            forall t' :: Best5(f, t', seen) ==> Frauds(ds, t') == Frauds(ds, t)
  {
    assert Spelled(f, t, seen, 0);
    if Decisive(f, ds, t, seen) {
      forall t' | Best5(f, t', seen)
        ensures Frauds(ds, t') == Frauds(ds, t)
      {
        DecisiveCountUnique(f, ds, t, t', seen);
      }
    } else {
      var w := f(t[4]);
      var x :| x in seen && x !in t && f(x) == w;
      var y :| y in seen && f(y) == w && LabelOf(ds, y) != LabelOf(ds, t[4]);
      if LabelOf(ds, x) != LabelOf(ds, t[4]) {
        SwapTie(f, ds, t, seen, 4, x);
      } else if y !in t {
        SwapTie(f, ds, t, seen, 4, y);
      } else {
        var i :| 0 <= i < 5 && t[i] == y;
        SwapTie(f, ds, t, seen, i, x);
      }
    }
  }

  // ----- The list itself -----

  /** Five distances kept ascending, each with its label. The ghost field records
      which candidate each slot holds. */
  class Top5 {
    const dist: array<int>
    const lab: array<nat>
    ghost var ids: seq<Id>

    ghost predicate Valid()
      reads this, dist, lab
    {
      dist.Length == 5 && lab.Length == 5 && (dist as object) != lab && |ids| == 5
    }

    /** The slots show the distances and labels of the candidates recorded. */
    ghost predicate Shows(f: Id -> int, ds: Dataset)
      reads this, dist, lab
    {
      && Valid()
      && (forall i :: 0 <= i < 5 ==> dist[i] == f(ids[i]) && lab[i] == LabelOf(ds, ids[i]))
    }

    constructor ()
      ensures Valid() && fresh(this) && fresh(dist) && fresh(lab)
    {
      dist := new int[5];
      lab := new nat[5];
      ids := EMPTY;
    }

    method Reset(ghost f: Id -> int, ghost ds: Dataset)
      requires Valid() && forall x: Id :: x.Pad? ==> f(x) == INFINITE
      modifies this, dist, lab
      ensures Shows(f, ds) && Best5(f, ids, Pads())
    {
      for i := 0 to 5
        invariant forall k :: 0 <= k < i ==> dist[k] == INFINITE && lab[k] == 0
      {
        dist[i] := INFINITE;
        lab[i] := 0;
      }
      ids := EMPTY;
      EmptyIsBest(f);
    }

    /** Shifts every slot farther than d one place down, dropping the last. */
    method MakeRoom(d: int) returns (pos: nat)
      requires Valid() && d < dist[4]
      modifies dist, lab
      ensures pos <= 4 && (0 < pos ==> dist[pos - 1] <= d)
      ensures forall k :: pos <= k < 4 ==> old(dist[k]) > d
      ensures forall k :: 0 <= k < pos ==> dist[k] == old(dist[k]) && lab[k] == old(lab[k])
      ensures forall k :: pos < k < 5 ==> dist[k] == old(dist[k - 1]) && lab[k] == old(lab[k - 1])
    {
      pos := 4;
      while pos > 0 && dist[pos - 1] > d
        invariant pos <= 4
        invariant forall k :: pos <= k < 4 ==> old(dist[k]) > d
        invariant forall k :: 0 <= k <= pos ==> dist[k] == old(dist[k]) && lab[k] == old(lab[k])
        invariant forall k :: pos < k < 5 ==> dist[k] == old(dist[k - 1]) && lab[k] == old(lab[k - 1])
      {
        dist[pos] := dist[pos - 1];
        lab[pos] := lab[pos - 1];
        pos := pos - 1;
      }
    }

    /** Offers one candidate x at distance d with label l. */
    method InsertI64(d: int, l: nat, ghost f: Id -> int, ghost ds: Dataset, ghost x: Id)
      requires Shows(f, ds) && d == f(x) && l == LabelOf(ds, x)
      modifies this, dist, lab
      ensures Shows(f, ds) && ids == Offer(f, old(ids), x)
    {
      if d >= dist[4] {
        return;
      }
      var pos := MakeRoom(d);
      dist[pos] := d;
      lab[pos] := l;
      SlotForUnique(f, ids, x, 4, pos);
      ids := Shifted(ids, x, pos);
    }

    function WorstI64(): int
      requires Valid()
      reads this, dist, lab
    {
      dist[4]
    }

    /** The five distances. */
    method Distances(ghost f: Id -> int, ghost ds: Dataset) returns (dists: seq<int>)
      requires Shows(f, ds)
      ensures ShowsDistances(f, ids, dists)
    {
      dists := dist[..];
    }

    /** The number of frauds among the five. */
    method FraudCount(ghost f: Id -> int, ghost ds: Dataset) returns (n: nat)
      requires Shows(f, ds)
      ensures n == Frauds(ds, ids)
    {
      n := lab[0] + lab[1] + lab[2] + lab[3] + lab[4];
      FraudsOfFive(ds, ids);
    }
  }

  lemma FraudsOfFive(ds: Dataset, t: seq<Id>)
    requires |t| == 5
    ensures Frauds(ds, t) == LabelOf(ds, t[0]) + LabelOf(ds, t[1]) + LabelOf(ds, t[2]) + LabelOf(ds, t[3])
              + LabelOf(ds, t[4])
  {
    assert t[..4][..3] == t[..3] && t[..3][..2] == t[..2] && t[..2][..1] == t[..1];
    assert Frauds(ds, t[..1]) == LabelOf(ds, t[0]);
    assert Frauds(ds, t[..3]) == LabelOf(ds, t[0]) + LabelOf(ds, t[1]) + LabelOf(ds, t[2]);
  }
}
