/** Scoring with the specialist index: same-key partition first, then the rest in
    order of their box bounds until no partition left can matter. */
module SpecialistScore {
  import opened Sequences
  import opened Geometry
  import opened TopFive
  import opened Float32
  import opened Kernels
  import opened Blocks
  import opened Lanes
  import opened KdTree
  import opened PartitionKeys
  import opened SpecialistSearch

  // ----- The trees of an index -----

  lemma {:induction false} TreesInOrder(ds: Dataset, idx: SpecialistIndex, owner: seq<Id>, trees: seq<Tree>, i: nat,
                                        j: nat)
    requires Indexed(ds, idx, owner, trees) && i < j < |trees|
    ensures Hi(trees[i]) <= Lo(trees[j])
  {
    assert Rooted(ds, idx.partitions, idx.nodes, owner, trees, j);
    if i < j - 1 {
      TreesInOrder(ds, idx, owner, trees, i, j - 1);
      assert Rooted(ds, idx.partitions, idx.nodes, owner, trees, j - 1);
    }
  }

  lemma TreesApart(ds: Dataset, idx: SpecialistIndex, owner: seq<Id>, trees: seq<Tree>, i: nat, j: nat)
    requires Indexed(ds, idx, owner, trees) && i < |trees| && j < |trees| && i != j
    ensures TreeIds(owner, trees[i]) !! TreeIds(owner, trees[j])
  {
    var a, b := if i < j then i else j, if i < j then j else i;
    assert Rooted(ds, idx.partitions, idx.nodes, owner, trees, a)
           && Rooted(ds, idx.partitions, idx.nodes, owner, trees, b);
    TreesInOrder(ds, idx, owner, trees, a, b);
    OwnersSplit(owner, Lo(trees[a]) * 8, Hi(trees[a]) * 8, Hi(trees[b]) * 8);
    OwnersSplit(owner, Hi(trees[a]) * 8, Lo(trees[b]) * 8, Hi(trees[b]) * 8);
  }

  // ----- Partitions accounted for, in the order they were visited -----

  ghost function Gathered(owner: seq<Id>, trees: seq<Tree>, order: seq<nat>): set<Id> {
    if order == [] then {}
    else
      var n := |order| - 1;
      Gathered(owner, trees, order[..n]) + if order[n] < |trees| then TreeIds(owner, trees[order[n]]) else {}
  }

  ghost predicate NoRepeat(order: seq<nat>, n: nat) {
    && (forall i :: 0 <= i < |order| ==> order[i] < n)
    && (forall i, j :: 0 <= i < j < |order| ==> order[i] != order[j])
  }

  lemma {:induction false} GatheredApart(ds: Dataset, idx: SpecialistIndex, owner: seq<Id>, trees: seq<Tree>,
                                         order: seq<nat>, i: nat)
    requires Indexed(ds, idx, owner, trees) && NoRepeat(order, |trees|) && i < |trees| && i !in order
    ensures Gathered(owner, trees, order) !! TreeIds(owner, trees[i])
  {
    if order != [] {
      var n := |order| - 1;
      GatheredApart(ds, idx, owner, trees, order[..n], i);
      TreesApart(ds, idx, owner, trees, order[n], i);
    }
  }

  lemma {:induction false} GatheredContains(owner: seq<Id>, trees: seq<Tree>, order: seq<nat>, k: nat)
    requires k < |order| && order[k] < |trees|
    ensures TreeIds(owner, trees[order[k]]) <= Gathered(owner, trees, order)
  {
    var n := |order| - 1;
    if k < n {
      assert order[..n][k] == order[k];
      GatheredContains(owner, trees, order[..n], k);
    }
  }

  lemma {:induction false} GatheredWithin(ds: Dataset, idx: SpecialistIndex, owner: seq<Id>, trees: seq<Tree>,
                                          order: seq<nat>)
    requires Indexed(ds, idx, owner, trees)
    ensures Gathered(owner, trees, order) <= Owners(owner, 0, |owner|)
  {
    if order != [] {
      var n := |order| - 1;
      GatheredWithin(ds, idx, owner, trees, order[..n]);
      if order[n] < |trees| {
        var t := trees[order[n]];
        assert Rooted(ds, idx.partitions, idx.nodes, owner, trees, order[n]);
        OwnersSplit(owner, 0, Lo(t) * 8, Hi(t) * 8);
        OwnersSplit(owner, 0, Hi(t) * 8, |owner|);
      }
    }
  }

  lemma {:induction false} GatheredCovers(ds: Dataset, idx: SpecialistIndex, owner: seq<Id>, trees: seq<Tree>,
                                          order: seq<nat>, k: nat)
    requires Indexed(ds, idx, owner, trees) && k <= |trees|
    requires forall i: nat :: i < |trees| ==> i in order
    ensures EndOf(trees, k) * 8 <= |owner|
    ensures Owners(owner, 0, EndOf(trees, k) * 8) <= Gathered(owner, trees, order)
  {
    if 0 < k {
      GatheredCovers(ds, idx, owner, trees, order, k - 1);
      assert Rooted(ds, idx.partitions, idx.nodes, owner, trees, k - 1);
      OwnersSplit(owner, 0, Lo(trees[k - 1]) * 8, Hi(trees[k - 1]) * 8);
      var i: nat := k - 1;
      assert i in order;
      var j :| 0 <= j < |order| && order[j] == i;
      GatheredContains(owner, trees, order, j);
    }
  }

  /** Once every partition has been visited, every lane is accounted for. */
  lemma GatheredAll(ds: Dataset, idx: SpecialistIndex, owner: seq<Id>, trees: seq<Tree>, order: seq<nat>)
    requires Indexed(ds, idx, owner, trees)
    requires forall i: nat :: i < |trees| ==> i in order
    ensures Gathered(owner, trees, order) == Owners(owner, 0, |owner|)
  {
    GatheredWithin(ds, idx, owner, trees, order);
    GatheredCovers(ds, idx, owner, trees, order, |trees|);
  }

  // ----- The sorted directory of the other partitions -----

  ghost predicate Ordered(es: seq<PartBound>) {
    forall i, j :: 0 <= i < j < |es| ==> es[i].bound <= es[j].bound
  }

  /** es lists every partition but skip exactly once, each with its box bound. */
  ghost predicate Lists(u: Setup, es: seq<PartBound>, skip: int) {
    && (forall j :: 0 <= j < |es| ==> es[j].idx < |u.idx.partitions| && es[j].idx != skip
                                      && es[j].bound == NodeBound(u, u.idx.partitions[es[j].idx].root))
    && (forall i, j :: 0 <= i < j < |es| ==> es[i].idx != es[j].idx)
    && (forall i: nat :: i < |u.idx.partitions| && i != skip ==> Listed(es, i))
  }

  ghost predicate Listed(es: seq<PartBound>, i: nat) {
    exists j :: 0 <= j < |es| && es[j].idx == i
  }

  lemma ListsPermuted(u: Setup, es: seq<PartBound>, es': seq<PartBound>, skip: int)
    requires Lists(u, es, skip) && multiset(es') == multiset(es)
    ensures Lists(u, es', skip)
  {
    forall j | 0 <= j < |es'|
      ensures es'[j] in es
    {
      assert es'[j] in multiset(es);
    }
    forall i, j | 0 <= i < j < |es'|
      ensures es'[i].idx != es'[j].idx
    {
      if es'[i].idx == es'[j].idx {
        var a :| 0 <= a < |es| && es[a] == es'[i];
        var b :| 0 <= b < |es| && es[b] == es'[j];
        RepeatCounts(es', i, j);
        NoRepeatCounts(es, es'[i]);
        assert false;
      }
    }
    forall i: nat | i < |u.idx.partitions| && i != skip
      ensures Listed(es', i)
    {
      assert Listed(es, i);
      var k :| 0 <= k < |es| && es[k].idx == i;
      assert es[k] in multiset(es');
    }
  }

  /** Insertion sort by ascending bound. */
  method SortBounds(a: array<PartBound>, n: nat)
    requires n <= a.Length
    modifies a
    ensures Ordered(a[..n]) && multiset(a[..n]) == old(multiset(a[..n]))
  {
    if n == 0 {
      return;
    }
    for i := 1 to n
      invariant SortedTo(a[..n], i)
      invariant multiset(a[..n]) == old(multiset(a[..n]))
    {
      InsertBound(a, n, i);
    }
  }

  ghost predicate SortedTo(s: seq<PartBound>, i: int) {
    i <= |s| && forall k, l :: 0 <= k < l < i ==> s[k].bound <= s[l].bound
  }

  /** s is sorted up to i but for a hole at h that cur belongs at or before. */
  ghost predicate AroundHole(s: seq<PartBound>, h: int, i: int, cur: PartBound) {
    && 0 <= h <= i < |s|
    && (forall k, l :: 0 <= k < l <= i && k != h && l != h ==> s[k].bound <= s[l].bound)
    && forall k :: h < k <= i ==> cur.bound < s[k].bound
  }

  lemma HoleMoves(s: seq<PartBound>, s': seq<PartBound>, j: int, i: int, cur: PartBound)
    requires j >= 0 && AroundHole(s, j + 1, i, cur) && s[j].bound > cur.bound && s' == s[j + 1 := s[j]]
    ensures AroundHole(s', j, i, cur)
  {
  }

  lemma HoleFilled(s: seq<PartBound>, h: int, i: int, cur: PartBound)
    requires AroundHole(s, h, i, cur) && (h == 0 || s[h - 1].bound <= cur.bound)
    ensures SortedTo(s[h := cur], i + 1)
  {
  }

  /** Moves entry i down among the sorted entries before it. */
  method InsertBound(a: array<PartBound>, n: nat, i: nat)
    requires 1 <= i < n <= a.Length && SortedTo(a[..n], i)
    modifies a
    ensures SortedTo(a[..n], i + 1)
    ensures multiset(a[..n]) == old(multiset(a[..n]))
  {
    var cur := a[i];
    var j := i - 1;
    assert a[..n][i := cur] == a[..n];
    while j >= 0 && a[j].bound > cur.bound
      invariant -1 <= j < i && AroundHole(a[..n], j + 1, i, cur)
      invariant multiset(a[..n][j + 1 := cur]) == old(multiset(a[..n]))
    {
      MoveHole(a, n, j, i, cur);
      j := j - 1;
    }
    FillHole(a, n, j + 1, i, cur);
  }

  /** Moves the hole one place down. */
  method MoveHole(a: array<PartBound>, ghost n: nat, j: int, ghost i: int, ghost cur: PartBound)
    requires 0 <= j < i < n <= a.Length && AroundHole(a[..n], j + 1, i, cur) && a[j].bound > cur.bound
    modifies a
    ensures AroundHole(a[..n], j, i, cur)
    ensures multiset(a[..n][j := cur]) == old(multiset(a[..n][j + 1 := cur]))
  {
    HoleMoves(a[..n], a[..n][j + 1 := a[j]], j, i, cur);
    MoveUp(a, n, j, cur);
  }

  /** Puts the entry into the hole. */
  method FillHole(a: array<PartBound>, ghost n: nat, h: int, ghost i: int, cur: PartBound)
    requires i < n <= a.Length && AroundHole(a[..n], h, i, cur) && (h == 0 || a[h - 1].bound <= cur.bound)
    modifies a
    ensures SortedTo(a[..n], i + 1)
    ensures multiset(a[..n]) == old(multiset(a[..n][h := cur]))
  {
    HoleFilled(a[..n], h, i, cur);
    ghost var s := a[..n];
    a[h] := cur;
    assert a[..n] == s[h := cur];
  }

  /** Copies entry j one place up, into the hole that cur left. */
  method MoveUp(a: array<PartBound>, ghost n: nat, j: int, ghost cur: PartBound)
    requires 0 <= j < n - 1 && n <= a.Length
    modifies a
    ensures a[..n] == old(a[..n][j + 1 := a[j]])
    ensures multiset(a[..n][j := cur]) == old(multiset(a[..n][j + 1 := cur]))
  {
    ghost var before := a[..n];
    a[j + 1] := a[j];
    assert a[..n] == before[j + 1 := before[j]];
    SwapCounts(before, j, cur);
  }

  lemma SwapCounts(s: seq<PartBound>, j: int, x: PartBound)
    requires 0 <= j < |s| - 1
    ensures multiset(s[j + 1 := s[j]][j := x]) == multiset(s[j + 1 := x])
  {
  }

  // ----- Scoring -----

  /** Candidates accounted for after visiting the partitions in order. */
  ghost function SeenAfter(owner: seq<Id>, trees: seq<Tree>, order: seq<nat>): set<Id> {
    Pads() + Gathered(owner, trees, order)
  }

  lemma SeenNext(ds: Dataset, idx: SpecialistIndex, owner: seq<Id>, trees: seq<Tree>, order: seq<nat>, i: nat)
    requires Indexed(ds, idx, owner, trees) && NoRepeat(order, |trees|) && i < |trees| && i !in order
    ensures SeenAfter(owner, trees, order + [i]) == SeenAfter(owner, trees, order) + TreeIds(owner, trees[i])
    ensures SeenAfter(owner, trees, order) !! TreeIds(owner, trees[i])
    ensures NoRepeat(order + [i], |trees|)
  {
    assert (order + [i])[..|order|] == order;
    GatheredApart(ds, idx, owner, trees, order, i);
    NoPads(ds, idx, owner, trees, i);
  }

  lemma NoPads(ds: Dataset, idx: SpecialistIndex, owner: seq<Id>, trees: seq<Tree>, i: nat)
    requires Indexed(ds, idx, owner, trees) && i < |trees|
    ensures Pads() !! TreeIds(owner, trees[i])
  {
    var t := trees[i];
    assert Rooted(ds, idx.partitions, idx.nodes, owner, trees, i);
    forall x | x in TreeIds(owner, t)
      ensures !x.Pad?
    {
      var g := OwnerLane(owner, Lo(t) * 8, Hi(t) * 8, x);
      assert Holds(ds, idx.blockData, idx.labels, owner, g / 8, g % 8);
    }
  }

  /** A partition whose bound reaches the threshold can be skipped. */
  lemma SkipPartition(f: Id -> int, u: Setup, ds: Dataset, owner: seq<Id>, trees: seq<Tree>, ids: seq<Id>,
                      order: seq<nat>, i: nat)
    requires Ready(f, u, ds, owner) && Indexed(ds, u.idx, owner, trees)
    requires NoRepeat(order, |trees|) && i < |trees| && i !in order
    requires Best5(f, ids, SeenAfter(owner, trees, order))
    requires NodeBound(u, u.idx.partitions[i].root) >= Threshold(u.fl, f(ids[4]))
    ensures Best5(f, ids, SeenAfter(owner, trees, order + [i])) && NoRepeat(order + [i], |trees|)
  {
    SeenNext(ds, u.idx, owner, trees, order, i);
    assert Rooted(ds, u.idx.partitions, u.idx.nodes, owner, trees, i);
    var t := trees[i];
    PruneKeepsBest(f, u.fl, u.fused, false, u.q, ds, owner, u.idx.nodes[t.node].box, Lo(t), Hi(t), ids,
        SeenAfter(owner, trees, order));
  }

  method VisitPartition(ghost f: Id -> int, u: Setup, sc: SearchScratch, i: nat, bound: real,
                        ghost ds: Dataset, ghost owner: seq<Id>, ghost trees: seq<Tree>, ghost order: seq<nat>)
    requires Ready(f, u, ds, owner) && Indexed(ds, u.idx, owner, trees) && sc.Valid() && sc.top.Shows(f, ds)
    requires NoRepeat(order, |trees|) && i < |trees| && i !in order
    requires bound == NodeBound(u, u.idx.partitions[i].root)
    requires Best5(f, sc.top.ids, SeenAfter(owner, trees, order))
    modifies sc.stackNodes, sc.stackBounds, sc.top, sc.top.dist, sc.top.lab, sc.blockSum
    ensures sc.Valid() && sc.top.Shows(f, ds)
    ensures Best5(f, sc.top.ids, SeenAfter(owner, trees, order + [i])) && NoRepeat(order + [i], |trees|)
  {
    SeenNext(ds, u.idx, owner, trees, order, i);
    assert Rooted(ds, u.idx.partitions, u.idx.nodes, owner, trees, i);
    SearchKdTree(f, u, u.idx.partitions[i].root, bound, sc, ds, owner, trees[i], SeenAfter(owner, trees, order));
  }

  /** The first partition with the given key, or -1. */
  method PartitionByKey(idx: SpecialistIndex, key: nat) returns (i: int)
    ensures -1 <= i < |idx.partitions|
    ensures 0 <= i ==> idx.partitions[i].key == key
    ensures forall k :: 0 <= k < (if i < 0 then |idx.partitions| else i) ==> idx.partitions[k].key != key
  {
    for j := 0 to |idx.partitions|
      invariant forall k :: 0 <= k < j ==> idx.partitions[k].key != key
    {
      if idx.partitions[j].key == key {
        return j;
      }
    }
    return -1;
  }

  /** The bound of a partition's own box, which is its root's box. */
  method PartitionBound(u: Setup, i: nat, ghost ds: Dataset, ghost owner: seq<Id>, ghost trees: seq<Tree>)
    returns (bound: real)
    requires Indexed(ds, u.idx, owner, trees) && i < |u.idx.partitions|
    ensures bound == NodeBound(u, u.idx.partitions[i].root)
  {
    assert Rooted(ds, u.idx.partitions, u.idx.nodes, owner, trees, i);
    bound := AabbLowerBoundF32(u.fl, u.fused, false, u.q, u.idx.partitions[i].box);
  }

  /** Bounds every partition but skip. */
  method CollectOthers(u: Setup, a: array<PartBound>, skip: int, ghost ds: Dataset, ghost owner: seq<Id>,
                       ghost trees: seq<Tree>)
    returns (n: nat)
    requires Indexed(ds, u.idx, owner, trees) && a.Length == MAX_PARTITIONS
    modifies a
    ensures n <= a.Length && Lists(u, a[..n], skip)
  {
    n := 0;
    for i := 0 to |u.idx.partitions|
      invariant n <= i
      invariant forall j :: 0 <= j < n ==> a[j].idx < i && a[j].idx != skip
                                           && a[j].bound == NodeBound(u, u.idx.partitions[a[j].idx].root)
      invariant forall j, k :: 0 <= j < k < n ==> a[j].idx != a[k].idx
      invariant forall k: nat :: k < i && k != skip ==> Listed(a[..n], k)
    {
      if i == skip {
        continue;
      }
      assert Rooted(ds, u.idx.partitions, u.idx.nodes, owner, trees, i);
      var lb := PartitionBound(u, i, ds, owner, trees);
      ghost var before := a[..n];
      a[n] := PartBound(lb, i);
      n := n + 1;
      assert a[..n] == before + [PartBound(lb, i)];
      ListedGrows(before, PartBound(lb, i));
    }
  }

  lemma ListedGrows(es: seq<PartBound>, e: PartBound)
    ensures Listed(es + [e], e.idx)
    ensures forall k: nat :: Listed(es, k) ==> Listed(es + [e], k)
  {
    assert (es + [e])[|es|] == e;
    forall k: nat | Listed(es, k)
      ensures Listed(es + [e], k)
    {
      var j :| 0 <= j < |es| && es[j].idx == k;
      assert (es + [e])[j].idx == k;
    }
  }

  /** The partition with the query's own key comes first, if there is one. */
  method VisitSameKey(ghost f: Id -> int, u: Setup, sc: SearchScratch, ghost ds: Dataset, ghost owner: seq<Id>,
                      ghost trees: seq<Tree>)
    returns (same: int, ghost order: seq<nat>)
    requires Ready(f, u, ds, owner) && Indexed(ds, u.idx, owner, trees) && sc.Valid() && sc.top.Shows(f, ds)
    requires Best5(f, sc.top.ids, Pads())
    modifies sc.stackNodes, sc.stackBounds, sc.top, sc.top.dist, sc.top.lab, sc.blockSum
    ensures sc.Valid() && sc.top.Shows(f, ds)
    ensures -1 <= same < |u.idx.partitions| && order == if same < 0 then [] else [same]
    ensures Best5(f, sc.top.ids, SeenAfter(owner, trees, order)) && NoRepeat(order, |trees|)
  {
    order := [];
    assert SeenAfter(owner, trees, order) == Pads();
    var key := ComputeKey(u.q);
    same := PartitionByKey(u.idx, key);
    if same >= 0 {
      VisitFirst(f, u, sc, same, ds, owner, trees);
      order := [same];
    }
  }

  method VisitFirst(ghost f: Id -> int, u: Setup, sc: SearchScratch, same: nat, ghost ds: Dataset,
                    ghost owner: seq<Id>, ghost trees: seq<Tree>)
    requires Ready(f, u, ds, owner) && Indexed(ds, u.idx, owner, trees) && sc.Valid() && sc.top.Shows(f, ds)
    requires same < |u.idx.partitions| && Best5(f, sc.top.ids, SeenAfter(owner, trees, []))
    modifies sc.stackNodes, sc.stackBounds, sc.top, sc.top.dist, sc.top.lab, sc.blockSum
    ensures sc.Valid() && sc.top.Shows(f, ds)
    ensures Best5(f, sc.top.ids, SeenAfter(owner, trees, [same])) && NoRepeat([same], |trees|)
  {
    ghost var order: seq<nat> := [];
    assert [same] == order + [same];
    var lb := PartitionBound(u, same, ds, owner, trees);
    if lb < Threshold(u.fl, sc.top.WorstI64()) {
      VisitPartition(f, u, sc, same, lb, ds, owner, trees, order);
    } else {
      SkipPartition(f, u, ds, owner, trees, sc.top.ids, order, same);
    }
  }

  /** order is first followed by the first i listed partitions. */
  ghost predicate Follows(order: seq<nat>, first: seq<nat>, es: seq<PartBound>, i: nat)
    requires i <= |es|
  {
    && |order| == |first| + i
    && (forall j :: 0 <= j < |first| ==> order[j] == first[j])
    && (forall j :: 0 <= j < i ==> order[|first| + j] == es[j].idx)
  }

  lemma NextIsNew(u: Setup, es: seq<PartBound>, skip: int, first: seq<nat>, order: seq<nat>, i: nat)
    requires Lists(u, es, skip) && i < |es| && first == (if skip < 0 then [] else [skip])
             && Follows(order, first, es, i)
    ensures es[i].idx !in order && es[i].idx < |u.idx.partitions|
    ensures Follows(order + [es[i].idx], first, es, i + 1)
  {
    forall j | 0 <= j < |order|
      ensures order[j] != es[i].idx
    {
      assert j >= |first| ==> order[|first| + (j - |first|)] == es[j - |first|].idx;
    }
  }

  /** Visits the listed partitions in order; from the first one whose bound
      reaches the threshold on, none can matter. */
  method Sweep(ghost f: Id -> int, u: Setup, sc: SearchScratch, n: nat, ghost skip: int,
               ghost ds: Dataset, ghost owner: seq<Id>, ghost trees: seq<Tree>, ghost first: seq<nat>)
    returns (ghost order: seq<nat>)
    requires Ready(f, u, ds, owner) && Indexed(ds, u.idx, owner, trees) && sc.Valid() && sc.top.Shows(f, ds)
    requires n <= MAX_PARTITIONS && Lists(u, sc.partBounds[..n], skip) && Ordered(sc.partBounds[..n])
    requires first == (if skip < 0 then [] else [skip]) && NoRepeat(first, |trees|)
    requires Best5(f, sc.top.ids, SeenAfter(owner, trees, first))
    modifies sc.stackNodes, sc.stackBounds, sc.top, sc.top.dist, sc.top.lab, sc.blockSum
    ensures sc.Valid() && sc.top.Shows(f, ds)
    ensures Best5(f, sc.top.ids, SeenAfter(owner, trees, order))
    ensures Follows(order, first, old(sc.partBounds[..n]), n)
  {
    ghost var es := sc.partBounds[..n];
    order := first;
    for i := 0 to n
      invariant sc.Valid() && sc.top.Shows(f, ds) && sc.partBounds[..n] == es
      invariant NoRepeat(order, |trees|) && Follows(order, first, es, i)
      invariant Best5(f, sc.top.ids, SeenAfter(owner, trees, order))
    {
      var entry := sc.partBounds[i];
      assert entry == es[i];
      NextIsNew(u, es, skip, first, order, i);
      if entry.bound >= Threshold(u.fl, sc.top.WorstI64()) {
        order := SkipRest(f, u, ds, owner, trees, sc.top.ids, es, skip, first, order, i);
        return;
      }
      VisitPartition(f, u, sc, entry.idx, entry.bound, ds, owner, trees, order);
      order := order + [entry.idx];
    }
  }

  /** Everything from entry i on can be skipped. */
  lemma {:induction false} SkipRest(f: Id -> int, u: Setup, ds: Dataset, owner: seq<Id>, trees: seq<Tree>, ids: seq<Id>,
                                   es: seq<PartBound>, skip: int, first: seq<nat>, sofar: seq<nat>,
                                   i: nat) returns (order: seq<nat>)
    requires Ready(f, u, ds, owner) && Indexed(ds, u.idx, owner, trees)
    requires Lists(u, es, skip) && Ordered(es) && i <= |es| && first == (if skip < 0 then [] else [skip])
    requires NoRepeat(sofar, |trees|) && Follows(sofar, first, es, i)
    requires Best5(f, ids, SeenAfter(owner, trees, sofar))
    requires i < |es| ==> es[i].bound >= Threshold(u.fl, f(ids[4]))
    ensures Follows(order, first, es, |es|) && Best5(f, ids, SeenAfter(owner, trees, order))
    decreases |es| - i
  {
    if i == |es| {
      order := sofar;
    } else {
      NextIsNew(u, es, skip, first, sofar, i);
      SkipPartition(f, u, ds, owner, trees, ids, sofar, es[i].idx);
      order := SkipRest(f, u, ds, owner, trees, ids, es, skip, first, sofar + [es[i].idx], i + 1);
    }
  }

  /** The search leaves the best five among every lane of the index, padding
      lanes included. */
  method FraudCount(ghost f: Id -> int, u: Setup, sc: SearchScratch, ghost ds: Dataset, ghost owner: seq<Id>,
                    ghost trees: seq<Tree>)
    returns (frauds: nat)
    requires Ready(f, u, ds, owner) && Indexed(ds, u.idx, owner, trees) && sc.Valid()
    requires forall x: Id :: x.Pad? ==> f(x) == INFINITE
    modifies sc.partBounds, sc.stackNodes, sc.stackBounds, sc.top, sc.top.dist, sc.top.lab, sc.blockSum
    ensures sc.Valid() && sc.top.Shows(f, ds)
    ensures Best5(f, sc.top.ids, Pads() + Owners(owner, 0, |owner|))
    ensures frauds == Frauds(ds, sc.top.ids)
  {
    sc.top.Reset(f, ds);
    var same;
    ghost var first;
    same, first := VisitSameKey(f, u, sc, ds, owner, trees);
    var nOther := CollectOthers(u, sc.partBounds, same, ds, owner, trees);
    ghost var listed := sc.partBounds[..nOther];
    SortBounds(sc.partBounds, nOther);
    ListsPermuted(u, listed, sc.partBounds[..nOther], same);
    ghost var es := sc.partBounds[..nOther];
    ghost var order := Sweep(f, u, sc, nOther, same, ds, owner, trees, first);
    AllVisited(u, es, same, |trees|, first, order);
    GatheredAll(ds, u.idx, owner, trees, order);
    frauds := sc.top.FraudCount(f, ds);
  }

  lemma AllVisited(u: Setup, es: seq<PartBound>, skip: int, n: nat, first: seq<nat>, order: seq<nat>)
    requires Lists(u, es, skip) && n == |u.idx.partitions| && skip < n
    requires first == (if skip < 0 then [] else [skip]) && Follows(order, first, es, |es|)
    ensures forall i: nat :: i < n ==> i in order
  {
    forall i: nat | i < n
      ensures i in order
    {
      if i == skip {
        assert order[0] == i;
      } else {
        assert Listed(es, i);
        var j :| 0 <= j < |es| && es[j].idx == i;
        assert order[|first| + j] == i;
      }
    }
  }
}
