/** Picking the nearest clusters by centroid distance: the sorted insertion of
    the fast tier, the bounded max-heap of the escalation, the arg-min scan. */
module Centroids {
  import opened Sequences

  /** Stands for no cluster in a list of picks. */
  const NONE: nat := 65535
  const MAX_N_PROBE: nat := 256
  const FAR: real := 100000000000000000000000000000000000000.0

  function Min(a: nat, b: nat): nat {
    if a < b then a else b
  }

  // ---- The specification ----

  /** kept holds min(n, |open|) of the open ids, none of them farther than an
      open id left out. */
  ghost predicate Nearest(dists: seq<real>, open: set<nat>, kept: set<nat>, n: nat) {
    && kept <= open
    && (forall x :: x in open ==> x < |dists|)
    && |kept| == Min(n, |open|)
    && forall x, y :: x in kept && y in open && y !in kept ==> dists[x] <= dists[y]
  }

  ghost predicate InOrder(dists: seq<real>, p: seq<nat>) {
    && (forall i :: 0 <= i < |p| ==> p[i] < |dists|)
    && forall i, j :: 0 <= i < j < |p| ==> dists[p[i]] <= dists[p[j]]
  }

  ghost predicate Unused(p: seq<nat>, m: nat) {
    forall i :: m <= i < |p| ==> p[i] == 65535
  }

  /** s lists the ids in kept once each, nearest first. */
  ghost predicate Sorts(dists: seq<real>, s: seq<nat>, kept: set<nat>) {
    multiset(s) == multiset(kept) && InOrder(dists, s)
  }

  /** p lists the ids in kept once each, nearest first, then only sentinels. */
  ghost predicate ListsNearest(dists: seq<real>, p: seq<nat>, kept: set<nat>) {
    && |kept| <= |p|
    && Sorts(dists, p[..|kept|], kept)
    && Unused(p, |kept|)
  }

  /** p is a pick of the nearest |p| open ids. */
  ghost predicate Picks(dists: seq<real>, open: set<nat>, p: seq<nat>, kept: set<nat>) {
    Nearest(dists, open, kept, |p|) && ListsNearest(dists, p, kept)
  }

  predicate Less(x: nat, n: nat) {
    x < n
  }

  ghost function Below(n: nat): (s: set<nat>)
    ensures forall x: nat :: x in s <==> x < n
  {
    set x: nat | x < n && Less(x, n)
  }

  lemma ListedDistinct(p: seq<nat>, kept: set<nat>)
    requires multiset(p) == multiset(kept)
    ensures DistinctRange(p)
    ensures forall x :: x in p <==> x in kept
  {
    forall i, j | 0 <= i < j < |p|
      ensures p[i] != p[j]
    {
      if p[i] == p[j] {
        RepeatCounts(p, i, j);
        assert false;
      }
    }
    forall x
      ensures x in p <==> x in kept
    {
      assert x in multiset(p) <==> x in multiset(kept);
    }
  }

  // ---- How the kept set grows ----

  lemma KeepAll(dists: seq<real>, open: set<nat>, kept: set<nat>, n: nat, c: nat)
    requires Nearest(dists, open, kept, n) && |kept| < n
    requires c !in open && c < |dists|
    ensures kept == open
    ensures Nearest(dists, open + {c}, kept + {c}, n)
  {
    SubsetEqual(kept, open);
  }

  lemma SubsetEqual(a: set<nat>, b: set<nat>)
    requires a <= b && |a| == |b|
    ensures a == b
  {
    if x :| x in b && x !in a {
      assert a <= b - {x};
      SubsetSmaller(a, b - {x});
      assert false;
    }
  }

  lemma {:induction false} SubsetSmaller(a: set<nat>, b: set<nat>)
    requires a <= b
    ensures |a| <= |b|
  {
    if a != {} {
      var x :| x in a;
      SubsetSmaller(a - {x}, b - {x});
    }
  }

  lemma KeepOut(dists: seq<real>, open: set<nat>, kept: set<nat>, n: nat, c: nat)
    requires Nearest(dists, open, kept, n) && |kept| == n
    requires c !in open && c < |dists|
    requires forall x :: x in kept ==> dists[x] <= dists[c]
    ensures Nearest(dists, open + {c}, kept, n)
  {
  }

  lemma Replace(dists: seq<real>, open: set<nat>, kept: set<nat>, n: nat, c: nat, r: nat)
    requires Nearest(dists, open, kept, n) && |kept| == n
    requires c !in open && c < |dists| && r in kept
    requires forall x :: x in kept ==> dists[x] <= dists[r]
    requires dists[c] <= dists[r]
    ensures Nearest(dists, open + {c}, kept - {r} + {c}, n)
  {
  }

  // ---- Two picks in a row ----

  lemma JointNearest(dists: seq<real>, open: set<nat>, a: set<nat>, m: nat, b: set<nat>, n: nat)
    requires Nearest(dists, open, a, m) && Nearest(dists, open - a, b, n)
    ensures Nearest(dists, open, a + b, m + n)
    ensures forall x, y :: x in a && y in b ==> dists[x] <= dists[y]
  {
  }

  lemma InOrderJoins(dists: seq<real>, s: seq<nat>, t: seq<nat>)
    requires InOrder(dists, s) && InOrder(dists, t)
    requires forall x, y :: x in s && y in t ==> dists[x] <= dists[y]
    ensures InOrder(dists, s + t)
  {
  }

  lemma JointListing(dists: seq<real>, p: seq<nat>, a: set<nat>, q: seq<nat>, b: set<nat>)
    requires ListsNearest(dists, p, a) && ListsNearest(dists, q, b)
    requires |a| == |p| && a !! b
    requires forall x, y :: x in a && y in b ==> x < |dists| && y < |dists| && dists[x] <= dists[y]
    ensures ListsNearest(dists, p + q, a + b)
  {
    assert |a + b| == |a| + |b|;
    var s, t := p[..|a|], q[..|b|];
    assert (p + q)[..|a + b|] == s + t;
    assert multiset(a + b) == multiset(a) + multiset(b);
    ListedDistinct(s, a);
    ListedDistinct(t, b);
    InOrderJoins(dists, s, t);
  }

  lemma ShortListing(dists: seq<real>, p: seq<nat>, a: set<nat>, q: seq<nat>)
    requires ListsNearest(dists, p, a) && ListsNearest(dists, q, {})
    ensures ListsNearest(dists, p + q, a)
  {
    assert (p + q)[..|a|] == p[..|a|];
  }

  /** The fast picks followed by the escalation picks are one pick of both sizes. */
  lemma JointPicks(dists: seq<real>, open: set<nat>, p: seq<nat>, a: set<nat>, q: seq<nat>, b: set<nat>)
    requires Picks(dists, open, p, a) && Picks(dists, open - a, q, b)
    ensures Picks(dists, open, p + q, a + b)
  {
    JointNearest(dists, open, a, |p|, b, |q|);
    if |a| < |p| {
      SubsetEqual(a, open);
      assert b == {};
      ShortListing(dists, p, a, q);
      assert a + b == a;
    } else {
      JointListing(dists, p, a, q, b);
    }
  }

  // ---- Sorted insertion ----

  lemma WithoutOne(kept: set<nat>, r: nat)
    requires r in kept
    ensures multiset(kept) == multiset(kept - {r}) + multiset{r}
  {
  }

  lemma DropLastOrder(dists: seq<real>, s: seq<nat>)
    requires InOrder(dists, s) && s != []
    ensures InOrder(dists, s[..|s| - 1])
    ensures forall x :: x in s ==> x < |dists| && dists[x] <= dists[s[|s| - 1]]
  {
  }

  lemma DropLast(dists: seq<real>, s: seq<nat>, kept: set<nat>)
    requires Sorts(dists, s, kept) && s != []
    ensures s[|s| - 1] in kept
    ensures Sorts(dists, s[..|s| - 1], kept - {s[|s| - 1]})
    ensures forall x :: x in kept ==> x < |dists| && dists[x] <= dists[s[|s| - 1]]
  {
    DropLastOrder(dists, s);
    ListedDistinct(s, kept);
    var t, r := s[..|s| - 1], s[|s| - 1];
    assert s == t + [r];
    assert multiset(s) == multiset(t) + multiset{r};
    WithoutOne(kept, r);
    CancelOne(multiset(t), multiset(kept - {r}), r);
  }

  lemma CancelOne(a: multiset<nat>, b: multiset<nat>, r: nat)
    requires a + multiset{r} == b + multiset{r}
    ensures a == b
  {
    assert a == a + multiset{r} - multiset{r};
  }

  lemma InsertOrder(dists: seq<real>, s: seq<nat>, pos: nat, c: nat)
    requires InOrder(dists, s) && c < |dists| && pos <= |s|
    requires pos > 0 ==> dists[s[pos - 1]] <= dists[c]
    requires pos < |s| ==> dists[c] <= dists[s[pos]]
    ensures InOrder(dists, s[..pos] + [c] + s[pos..])
  {
  }

  lemma InsertAt(dists: seq<real>, s: seq<nat>, kept: set<nat>, pos: nat, c: nat)
    requires Sorts(dists, s, kept) && c !in kept && c < |dists| && pos <= |s|
    requires pos > 0 ==> dists[s[pos - 1]] <= dists[c]
    requires pos < |s| ==> dists[c] <= dists[s[pos]]
    ensures Sorts(dists, s[..pos] + [c] + s[pos..], kept + {c})
  {
    InsertOrder(dists, s, pos, c);
    assert s == s[..pos] + s[pos..];
    assert multiset(s) == multiset(s[..pos]) + multiset(s[pos..]);
    assert multiset(s[..pos] + [c] + s[pos..]) == multiset(s[..pos]) + multiset{c} + multiset(s[pos..]);
    WithoutOne(kept + {c}, c);
    assert kept + {c} - {c} == kept;
  }

  /** The ids whose distance the fast tier takes as finite. */
  ghost function CloseBelow(dists: seq<real>, n: nat): (s: set<nat>)
    requires n <= |dists|
  {
    set c: nat | c < n && dists[c] < 100000000000000000000000000000000000000.0
  }

  ghost predicate FastState(dists: seq<real>, c: nat, p: seq<nat>, kept: set<nat>, worst: real) {
    && c <= |dists| <= NONE
    && Picks(dists, CloseBelow(dists, c), p, kept)
    && worst == WorstOf(dists, p)
  }

  function WorstOf(dists: seq<real>, p: seq<nat>): real {
    if p != [] && p[|p| - 1] < |dists| then dists[p[|p| - 1]] else FAR
  }

  lemma FastSkip(dists: seq<real>, c: nat, p: seq<nat>, kept: set<nat>, worst: real)
    requires FastState(dists, c, p, kept, worst) && c < |dists|
    requires dists[c] >= worst || p == []
    ensures FastState(dists, c + 1, p, kept, worst)
  {
    var open := CloseBelow(dists, c);
    if dists[c] >= FAR {
      assert CloseBelow(dists, c + 1) == open;
    } else {
      assert CloseBelow(dists, c + 1) == open + {c};
      assert |kept| == |p|;
      if p != [] {
        assert p[..|kept|] == p;
        DropLast(dists, p, kept);
      }
      KeepOut(dists, open, kept, |p|, c);
    }
  }

  function Inserted(p: seq<nat>, pos: nat, c: nat): seq<nat>
    requires pos < |p|
  {
    p[..pos] + [c] + p[pos..|p| - 1]
  }

  lemma GrowListing(dists: seq<real>, p: seq<nat>, kept: set<nat>, s: seq<nat>, c: nat, pos: nat)
    requires |kept| < |p| && s == p[..|kept|] && Sorts(dists, s, kept) && Unused(p, |kept|)
    requires c !in kept && c < |dists| && pos <= |s|
    requires pos > 0 ==> dists[s[pos - 1]] <= dists[c]
    requires pos < |s| ==> dists[c] <= dists[s[pos]]
    ensures ListsNearest(dists, Inserted(p, pos, c), kept + {c})
  {
    var front := s[..pos] + [c] + s[pos..];
    InsertAt(dists, s, kept, pos, c);
    InsertedPrefix(p, pos, c, |kept|);
    ListingIs(dists, Inserted(p, pos, c), kept + {c}, front);
  }

  lemma ListingIs(dists: seq<real>, p: seq<nat>, kept: set<nat>, front: seq<nat>)
    requires |kept| <= |p| && p[..|kept|] == front && Sorts(dists, front, kept) && Unused(p, |kept|)
    ensures ListsNearest(dists, p, kept)
  {
  }

  lemma InsertedPrefix(p: seq<nat>, pos: nat, c: nat, m: nat)
    requires pos <= m < |p|
    ensures Inserted(p, pos, c)[..m + 1] == p[..m][..pos] + [c] + p[..m][pos..]
    ensures Unused(p, m) ==> Unused(Inserted(p, pos, c), m + 1)
  {
  }

  lemma FastGrow(dists: seq<real>, open: set<nat>, p: seq<nat>, kept: set<nat>, c: nat, pos: nat)
    requires Picks(dists, open, p, kept) && |kept| < |p| && c !in open && c < |dists| <= NONE
    requires pos <= |kept|
    requires pos > 0 ==> p[pos - 1] < |dists| && dists[p[pos - 1]] <= dists[c]
    requires p[pos] == NONE || (p[pos] < |dists| && dists[p[pos]] > dists[c])
    ensures Picks(dists, open + {c}, Inserted(p, pos, c), kept + {c})
  {
    KeepAll(dists, open, kept, |p|, c);
    GrowListing(dists, p, kept, p[..|kept|], c, pos);
  }

  lemma ReplaceListing(dists: seq<real>, p: seq<nat>, kept: set<nat>, s: seq<nat>, c: nat, pos: nat)
    requires pos < |p| && s == p[..|p| - 1] && Sorts(dists, s, kept)
    requires c !in kept && c < |dists|
    requires pos > 0 ==> dists[s[pos - 1]] <= dists[c]
    requires pos < |s| ==> dists[c] <= dists[s[pos]]
    ensures Sorts(dists, Inserted(p, pos, c), kept + {c})
  {
    InsertAt(dists, s, kept, pos, c);
    assert s[..pos] + [c] + s[pos..] == Inserted(p, pos, c);
  }

  lemma FullListing(dists: seq<real>, p: seq<nat>, kept: set<nat>)
    requires |kept| == |p|
    ensures ListsNearest(dists, p, kept) <==> Sorts(dists, p, kept)
  {
    assert p[..|p|] == p;
  }

  lemma FastReplace(dists: seq<real>, open: set<nat>, p: seq<nat>, kept: set<nat>, c: nat, pos: nat)
    requires Picks(dists, open, p, kept) && |kept| == |p| && c !in open && c < |dists| <= NONE
    requires pos < |p|
    requires pos > 0 ==> p[pos - 1] < |dists| && dists[p[pos - 1]] <= dists[c]
    requires p[pos] < |dists| && dists[p[pos]] > dists[c]
    ensures Picks(dists, open + {c}, Inserted(p, pos, c), kept - {p[|p| - 1]} + {c})
  {
    var r := p[|p| - 1];
    FullListing(dists, p, kept);
    DropLast(dists, p, kept);
    ListedDistinct(p, kept);
    assert dists[p[pos]] <= dists[r];
    Replace(dists, open, kept, |p|, c, r);
    ReplaceListing(dists, p, kept - {r}, p[..|p| - 1], c, pos);
    FullListing(dists, Inserted(p, pos, c), kept - {r} + {c});
  }

  ghost function AfterInsert(p: seq<nat>, kept: set<nat>, c: nat): set<nat>
    requires p != []
  {
    if |kept| < |p| then kept + {c} else kept - {p[|p| - 1]} + {c}
  }

  ghost predicate PlaceFor(dists: seq<real>, p: seq<nat>, d: real, pos: nat) {
    && pos <= |p|
    && (forall i :: 0 <= i < pos ==> p[i] < |dists| && dists[p[i]] <= d)
    && (pos < |p| ==> p[pos] == NONE || (p[pos] < |dists| && dists[p[pos]] > d))
  }

  lemma AlwaysRoom(dists: seq<real>, c: nat, p: seq<nat>, kept: set<nat>, worst: real, d: real)
    requires FastState(dists, c, p, kept, worst) && d < worst
    requires PlaceFor(dists, p, d, |p|)
    ensures p == []
  {
  }

  lemma FastInsert(dists: seq<real>, c: nat, p: seq<nat>, kept: set<nat>, worst: real, pos: nat, p': seq<nat>,
                   kept': set<nat>)
    requires FastState(dists, c, p, kept, worst) && c < |dists| && dists[c] < worst
    requires pos < |p| && p' == Inserted(p, pos, c) && PlaceFor(dists, p, dists[c], pos)
    requires kept' == AfterInsert(p, kept, c)
    ensures FastState(dists, c + 1, p', kept', WorstOf(dists, p'))
    ensures p'[|p| - 1] == NONE || p'[|p| - 1] < |dists|
  {
    var open := CloseBelow(dists, c);
    PicksInRange(dists, open, p, kept);
    WorstIsClose(dists, c, p, kept, worst);
    assert CloseBelow(dists, c + 1) == open + {c};
    if |kept| < |p| {
      FirstFree(dists, p, kept, pos);
      FastGrow(dists, open, p, kept, c, pos);
    } else {
      FastReplace(dists, open, p, kept, c, pos);
    }
    PicksInRange(dists, CloseBelow(dists, c + 1), p', kept');
  }

  lemma WorstIsClose(dists: seq<real>, c: nat, p: seq<nat>, kept: set<nat>, worst: real)
    requires FastState(dists, c, p, kept, worst)
    ensures worst <= FAR
  {
    if 0 < |kept| == |p| {
      DropLast(dists, p[..|kept|], kept);
    }
  }

  lemma FirstFree(dists: seq<real>, p: seq<nat>, kept: set<nat>, pos: nat)
    requires ListsNearest(dists, p, kept) && |dists| <= NONE && pos < |p|
    requires forall i :: 0 <= i < pos ==> p[i] < |dists|
    ensures pos <= |kept|
  {
    if |kept| < pos {
      UnusedAt(p, |kept|, |kept|);
      assert false;
    }
  }

  lemma UnusedAt(p: seq<nat>, m: nat, i: nat)
    requires Unused(p, m) && m <= i < |p|
    ensures p[i] == NONE
  {
  }

  method FindPlace(dists: seq<real>, picked: array<nat>, n: nat, d: real) returns (pos: nat)
    requires n <= picked.Length
    requires forall i :: 0 <= i < n ==> picked[i] == NONE || picked[i] < |dists|
    ensures PlaceFor(dists, picked[..n], d, pos)
  {
    pos := 0;
    while pos < n && picked[pos] != NONE && dists[picked[pos]] <= d
      invariant pos <= n
      invariant forall i :: 0 <= i < pos ==> picked[i] < |dists| && dists[picked[i]] <= d
    {
      pos := pos + 1;
    }
  }

  method ShiftIn(picked: array<nat>, n: nat, pos: nat, c: nat)
    requires pos < n <= picked.Length
    modifies picked
    ensures picked[..n] == Inserted(old(picked[..n]), pos, c)
    ensures picked[n..] == old(picked[n..])
  {
    var i := n - 1;
    while i > pos
      invariant pos <= i < n
      invariant forall k :: 0 <= k <= i ==> picked[k] == old(picked[k])
      invariant forall k :: i < k < n ==> picked[k] == old(picked[k - 1])
      invariant forall k :: n <= k < picked.Length ==> picked[k] == old(picked[k])
    {
      picked[i] := picked[i - 1];
      i := i - 1;
    }
    picked[pos] := c;
    InsertedSpelled(old(picked[..n]), picked[..n], pos, c);
  }

  lemma InsertedSpelled(p: seq<nat>, q: seq<nat>, pos: nat, c: nat)
    requires pos < |p| == |q| && q[pos] == c
    requires forall k :: 0 <= k < pos ==> q[k] == p[k]
    requires forall k :: pos < k < |p| ==> q[k] == p[k - 1]
    ensures q == Inserted(p, pos, c)
  {
  }

  /** The first of the smallest distances. */
  method PickArgminScalar(dists: seq<real>) returns (best: nat)
    requires 0 < |dists| <= NONE
    ensures best < |dists|
    ensures forall i :: 0 <= i < |dists| ==> dists[best] <= dists[i]
    ensures forall i :: 0 <= i < best ==> dists[best] < dists[i]
  {
    best := 0;
    var bestD := dists[0];
    for i := 1 to |dists|
      invariant best < i && bestD == dists[best]
      invariant forall k :: 0 <= k < i ==> dists[best] <= dists[k]
      invariant forall k :: 0 <= k < best ==> dists[best] < dists[k]
    {
      if dists[i] < bestD {
        bestD := dists[i];
        best := i;
      }
    }
  }

  method ClearPicks(picked: array<nat>, n: nat)
    requires n <= picked.Length
    modifies picked
    ensures forall i :: 0 <= i < n ==> picked[i] == NONE
    ensures picked[n..] == old(picked[n..])
  {
    for i := 0 to n
      invariant forall k :: 0 <= k < i ==> picked[k] == NONE
      invariant forall k :: n <= k < picked.Length ==> picked[k] == old(picked[k])
    {
      picked[i] := NONE;
    }
  }

  /** The ids a pick of n may choose from: the arg-min scan has no cut-off. */
  ghost function Eligible(dists: seq<real>, n: nat): set<nat> {
    if n == 1 then Below(|dists|) else CloseBelow(dists, |dists|)
  }

  lemma NothingPicked(dists: seq<real>, p: seq<nat>)
    requires |dists| <= NONE && forall i :: 0 <= i < |p| ==> p[i] == NONE
    ensures FastState(dists, 0, p, {}, FAR)
  {
    assert CloseBelow(dists, 0) == {};
    assert p[..0] == [];
  }

  method PickTopNCentroids(dists: seq<real>, n0: nat, picked: array<nat>) returns (ghost kept: set<nat>)
    requires |dists| <= NONE
    requires n0 == 1 && picked.Length >= 1 ==> |dists| > 0
    modifies picked
    ensures picked[Min(n0, picked.Length)..] == old(picked[Min(n0, picked.Length)..])
    ensures Picks(dists, Eligible(dists, n0), picked[..Min(n0, picked.Length)], kept)
  {
    if n0 == 1 && picked.Length >= 1 {
      picked[0] := PickArgminScalar(dists);
      kept := {picked[0]};
      assert picked[..1] == [picked[0]];
      OnlyOne(dists, picked[0]);
      return;
    }
    var n := Min(n0, picked.Length);
    ClearPicks(picked, n);
    var worst := FAR;
    kept := {};
    NothingPicked(dists, picked[..n]);
    for c := 0 to |dists|
      invariant FastState(dists, c, picked[..n], kept, worst)
      invariant picked[n..] == old(picked[n..])
    {
      worst, kept := OfferCentroid(dists, c, picked, n, worst, kept);
    }
  }

  method OfferCentroid(dists: seq<real>, c: nat, picked: array<nat>, n: nat, worst: real, ghost kept: set<nat>)
    returns (worst': real, ghost kept': set<nat>)
    requires n <= picked.Length && c < |dists|
    requires FastState(dists, c, picked[..n], kept, worst)
    modifies picked
    ensures picked[n..] == old(picked[n..])
    ensures FastState(dists, c + 1, picked[..n], kept', worst')
  {
    var d := dists[c];
    ghost var p := picked[..n];
    if d >= worst {
      FastSkip(dists, c, p, kept, worst);
      return worst, kept;
    }
    PicksInRange(dists, CloseBelow(dists, c), p, kept);
    var pos := FindPlace(dists, picked, n, d);
    if pos == n {
      AlwaysRoom(dists, c, p, kept, worst, d);
      FastSkip(dists, c, p, kept, worst);
      return worst, kept;
    }
    ShiftIn(picked, n, pos, c);
    kept' := AfterInsert(p, kept, c);
    ghost var p' := picked[..n];
    FastInsert(dists, c, p, kept, worst, pos, p', kept');
    assert p'[n - 1] == picked[n - 1];
    worst' := if picked[n - 1] == NONE then FAR else dists[picked[n - 1]];
    NewWorst(dists, c, p', kept', worst');
  }

  lemma NewWorst(dists: seq<real>, c: nat, p: seq<nat>, kept: set<nat>, worst: real)
    requires FastState(dists, c + 1, p, kept, WorstOf(dists, p)) && p != []
    requires p[|p| - 1] == NONE || p[|p| - 1] < |dists|
    requires worst == if p[|p| - 1] == NONE then FAR else dists[p[|p| - 1]]
    ensures FastState(dists, c + 1, p, kept, worst)
  {
  }

  lemma PicksInRange(dists: seq<real>, open: set<nat>, p: seq<nat>, kept: set<nat>)
    requires Picks(dists, open, p, kept)
    ensures forall i :: 0 <= i < |p| ==> p[i] == NONE || p[i] < |dists|
    ensures forall i :: 0 <= i < |kept| ==> p[i] < |dists|
  {
  }

  lemma OnlyOne(dists: seq<real>, best: nat)
    requires best < |dists| && forall i :: 0 <= i < |dists| ==> dists[best] <= dists[i]
    ensures Picks(dists, Below(|dists|), [best], {best})
  {
  }
}
