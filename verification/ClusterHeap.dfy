/** The bounded max-heap that finds the nearest clusters not yet scanned. */
module ClusterHeap {
  import opened Bitmap
  import opened Centroids

  function Parent(k: nat): nat
    requires k > 0
  {
    (k - 1) / 2
  }

  ghost predicate Above(h: seq<real>, k: nat) {
    0 < k < |h| ==> h[Parent(k)] >= h[k]
  }

  ghost predicate Heap(h: seq<real>, n: nat) {
    n <= |h| && forall k :: 0 < k < n ==> Above(h, k)
  }

  /** The heap order holds, save that slot i may be larger than its parent. */
  ghost predicate Rising(h: seq<real>, n: nat, i: nat) {
    && i < n <= |h|
    && (forall k :: 0 < k < n && k != i ==> Above(h, k))
    && forall k :: 0 < k < n && i > 0 && Parent(k) == i ==> h[Parent(i)] >= h[k]
  }

  /** The heap order holds, save that slot i may be smaller than its children. */
  ghost predicate Sinking(h: seq<real>, n: nat, i: nat) {
    && n <= |h|
    && (forall k :: 0 < k < n && Parent(k) != i ==> Above(h, k))
    && forall k :: 0 < k < n && i > 0 && Parent(k) == i && i < n ==> h[Parent(i)] >= h[k]
  }

  function Swapped<T>(s: seq<T>, i: nat, j: nat): seq<T>
    requires i < |s| && j < |s|
  {
    s[i := s[j]][j := s[i]]
  }

  lemma RiseStep(h: seq<real>, n: nat, i: nat)
    requires Rising(h, n, i) && i > 0 && h[Parent(i)] < h[i]
    ensures Rising(Swapped(h, Parent(i), i), n, Parent(i))
  {
    var p := Parent(i);
    var g := Swapped(h, p, i);
    forall k | 0 < k < n && k != p
      ensures Above(g, k)
    {
      assert k != i ==> Above(h, k);
    }
    if p > 0 {
      assert Above(h, p);
      forall k | 0 < k < n && Parent(k) == p
        ensures g[Parent(p)] >= g[k]
      {
        assert k != i ==> Above(h, k);
      }
    }
  }

  lemma RiseDone(h: seq<real>, n: nat, i: nat)
    requires Rising(h, n, i) && (i > 0 ==> h[Parent(i)] >= h[i])
    ensures Heap(h, n)
  {
  }

  function LargestOf(h: seq<real>, n: nat, i: nat): (c: nat)
    requires i < n <= |h|
    ensures c < n && (c == i || (c > 0 && Parent(c) == i && h[c] > h[i]))
    ensures forall k :: 0 < k < n && Parent(k) == i ==> h[c] >= h[k]
    ensures h[c] >= h[i]
  {
    var l, r := 2 * i + 1, 2 * i + 2;
    var a := if l < n && h[l] > h[i] then l else i;
    if r < n && h[r] > h[a] then r else a
  }

  lemma SinkStep(h: seq<real>, n: nat, i: nat, c: nat)
    requires Sinking(h, n, i) && i < n && c == LargestOf(h, n, i) && c != i
    ensures Sinking(Swapped(h, c, i), n, c)
  {
  }

  lemma SinkDone(h: seq<real>, n: nat, i: nat)
    requires Sinking(h, n, i) && i < n && LargestOf(h, n, i) == i
    ensures Heap(h, n)
  {
  }

  lemma {:induction false} RootIsLargest(h: seq<real>, n: nat, k: nat)
    requires Heap(h, n) && k < n
    ensures h[0] >= h[k]
  {
    if k > 0 {
      RootIsLargest(h, n, Parent(k));
      assert Above(h, k);
    }
  }

  // ---- The two parallel arrays ----

  ghost predicate Keyed(dists: seq<real>, h: seq<real>, ids: seq<nat>, n: nat) {
    && n <= |h| && n <= |ids|
    && forall k :: 0 <= k < n ==> ids[k] < |dists| && h[k] == dists[ids[k]]
  }

  lemma SwapKeyed(dists: seq<real>, h: seq<real>, ids: seq<nat>, n: nat, i: nat, j: nat)
    requires Keyed(dists, h, ids, n) && i < n && j < n
    ensures Keyed(dists, Swapped(h, i, j), Swapped(ids, i, j), n)
    ensures multiset(Swapped(ids, i, j)[..n]) == multiset(ids[..n])
  {
  }

  method Exchange(ghost dists: seq<real>, heapDist: array<real>, heapIdx: array<nat>, ghost n: nat, i: nat, j: nat)
    requires i < n <= heapDist.Length && j < n <= heapIdx.Length
    requires Keyed(dists, heapDist[..], heapIdx[..], n)
    modifies heapDist, heapIdx
    ensures heapDist[..] == Swapped(old(heapDist[..]), i, j)
    ensures Keyed(dists, heapDist[..], heapIdx[..], n)
    ensures multiset(heapIdx[..n]) == old(multiset(heapIdx[..n]))
  {
    SwapKeyed(dists, heapDist[..], heapIdx[..], n, i, j);
    ghost var h, ids := heapDist[..], heapIdx[..];
    heapDist[i], heapDist[j] := heapDist[j], heapDist[i];
    heapIdx[i], heapIdx[j] := heapIdx[j], heapIdx[i];
    assert heapDist[..] == Swapped(h, i, j);
    assert heapIdx[..] == Swapped(ids, i, j);
    assert heapIdx[..][..n] == heapIdx[..n];
    assert ids[..n] == old(heapIdx[..n]);
  }

  method SiftUp(ghost dists: seq<real>, heapDist: array<real>, heapIdx: array<nat>, last: nat)
    requires last < heapDist.Length && last < heapIdx.Length
    requires Keyed(dists, heapDist[..], heapIdx[..], last + 1) && Rising(heapDist[..], last + 1, last)
    modifies heapDist, heapIdx
    ensures Keyed(dists, heapDist[..], heapIdx[..], last + 1) && Heap(heapDist[..], last + 1)
    ensures multiset(heapIdx[..last + 1]) == old(multiset(heapIdx[..last + 1]))
  {
    var i := last;
    while i > 0 && heapDist[Parent(i)] < heapDist[i]
      invariant Rising(heapDist[..], last + 1, i)
      invariant Keyed(dists, heapDist[..], heapIdx[..], last + 1)
      invariant multiset(heapIdx[..last + 1]) == old(multiset(heapIdx[..last + 1]))
    {
      RiseOnce(dists, heapDist, heapIdx, last + 1, i);
      i := Parent(i);
    }
    RiseDone(heapDist[..], last + 1, i);
  }

  method RiseOnce(ghost dists: seq<real>, heapDist: array<real>, heapIdx: array<nat>, ghost n: nat, i: nat)
    requires 0 < i < n <= heapDist.Length && n <= heapIdx.Length && heapDist[Parent(i)] < heapDist[i]
    requires Keyed(dists, heapDist[..], heapIdx[..], n) && Rising(heapDist[..], n, i)
    modifies heapDist, heapIdx
    ensures Keyed(dists, heapDist[..], heapIdx[..], n) && Rising(heapDist[..], n, Parent(i))
    ensures multiset(heapIdx[..n]) == old(multiset(heapIdx[..n]))
  {
    RiseStep(heapDist[..], n, i);
    Exchange(dists, heapDist, heapIdx, n, Parent(i), i);
  }

  method FindLargest(heapDist: array<real>, end: nat, i: nat) returns (largest: nat)
    requires i < end <= heapDist.Length
    ensures largest == LargestOf(heapDist[..], end, i)
  {
    var l, r := 2 * i + 1, 2 * i + 2;
    largest := i;
    if l < end && heapDist[l] > heapDist[largest] {
      largest := l;
    }
    if r < end && heapDist[r] > heapDist[largest] {
      largest := r;
    }
  }

  method SinkOnce(ghost dists: seq<real>, heapDist: array<real>, heapIdx: array<nat>, end: nat, i: nat)
    returns (largest: nat)
    requires i < end <= heapDist.Length && end <= heapIdx.Length
    requires Keyed(dists, heapDist[..], heapIdx[..], end) && Sinking(heapDist[..], end, i)
    modifies heapDist, heapIdx
    ensures i <= largest < end
    ensures if largest == i then Heap(heapDist[..], end) else Sinking(heapDist[..], end, largest)
    ensures Keyed(dists, heapDist[..], heapIdx[..], end)
    ensures multiset(heapIdx[..end]) == old(multiset(heapIdx[..end]))
  {
    largest := FindLargest(heapDist, end, i);
    if largest == i {
      SinkDone(heapDist[..], end, i);
    } else {
      SinkStep(heapDist[..], end, i, largest);
      Exchange(dists, heapDist, heapIdx, end, largest, i);
    }
  }

  method SiftDown(ghost dists: seq<real>, heapDist: array<real>, heapIdx: array<nat>, end: nat)
    requires end <= heapDist.Length && end <= heapIdx.Length
    requires Keyed(dists, heapDist[..], heapIdx[..], end) && Sinking(heapDist[..], end, 0)
    modifies heapDist, heapIdx
    ensures Keyed(dists, heapDist[..], heapIdx[..], end) && Heap(heapDist[..], end)
    ensures multiset(heapIdx[..end]) == old(multiset(heapIdx[..end]))
  {
    if end == 0 {
      return;
    }
    var i := 0;
    while true
      invariant i < end && Sinking(heapDist[..], end, i)
      invariant Keyed(dists, heapDist[..], heapIdx[..], end)
      invariant multiset(heapIdx[..end]) == old(multiset(heapIdx[..end]))
      decreases end - i
    {
      var largest := SinkOnce(dists, heapDist, heapIdx, end, i);
      if largest == i {
        break;
      }
      i := largest;
    }
  }

  // ---- The walk over the bitmap ----

  /** The heap holds the ids in kept. */
  ghost predicate HoldsKept(dists: seq<real>, h: seq<real>, ids: seq<nat>, kept: set<nat>) {
    && |kept| <= |h| && |kept| <= |ids|
    && Heap(h, |kept|)
    && Keyed(dists, h, ids, |kept|)
    && multiset(ids[..|kept|]) == multiset(kept)
  }

  lemma RootIsFarthest(dists: seq<real>, h: seq<real>, ids: seq<nat>, kept: set<nat>)
    requires HoldsKept(dists, h, ids, kept) && kept != {}
    ensures ids[0] in kept && ids[0] < |dists| && h[0] == dists[ids[0]]
    ensures forall x :: x in kept ==> x < |dists| && dists[x] <= dists[ids[0]]
  {
    var s := ids[..|kept|];
    ListedDistinct(s, kept);
    assert s[0] == ids[0];
    forall x | x in kept
      ensures x < |dists| && dists[x] <= dists[ids[0]]
    {
      var k :| 0 <= k < |s| && s[k] == x;
      RootIsLargest(h, |kept|, k);
    }
  }

  method Push(ghost dists: seq<real>, heapDist: array<real>, heapIdx: array<nat>, size: nat, d: real, c: nat,
              ghost kept: set<nat>)
    requires size == |kept| < heapDist.Length && size < heapIdx.Length
    requires HoldsKept(dists, heapDist[..], heapIdx[..], kept)
    requires c !in kept && c < |dists| && d == dists[c]
    modifies heapDist, heapIdx
    ensures HoldsKept(dists, heapDist[..], heapIdx[..], kept + {c})
  {
    Append(heapDist, heapIdx, size, d, c);
    AppendKept(dists, old(heapDist[..]), old(heapIdx[..]), heapDist[..], heapIdx[..], size, d, c, kept);
    assert heapIdx[..][..size + 1] == heapIdx[..size + 1];
    ghost var ids := heapIdx[..size + 1];
    SiftUp(dists, heapDist, heapIdx, size);
    assert heapIdx[..][..size + 1] == heapIdx[..size + 1];
    SiftedHolds(dists, heapDist[..], heapIdx[..], kept + {c}, ids);
  }

  lemma SiftedHolds(dists: seq<real>, h: seq<real>, ids: seq<nat>, kept: set<nat>, before: seq<nat>)
    requires |kept| <= |h| && |kept| <= |ids| && Heap(h, |kept|) && Keyed(dists, h, ids, |kept|)
    requires multiset(before) == multiset(kept) && multiset(ids[..|kept|]) == multiset(before)
    ensures HoldsKept(dists, h, ids, kept)
  {
  }

  /** What the arrays hold with one id appended to those in kept. */
  lemma AppendKept(dists: seq<real>, h0: seq<real>, ids0: seq<nat>, h: seq<real>, ids: seq<nat>, size: nat, d: real,
                   c: nat, kept: set<nat>)
    requires size == |kept| < |h0| && size < |ids0| && HoldsKept(dists, h0, ids0, kept)
    requires c !in kept && c < |dists| && d == dists[c] && h == h0[size := d] && ids == ids0[size := c]
    ensures Keyed(dists, h, ids, size + 1) && Rising(h, size + 1, size)
    ensures |kept + {c}| == size + 1 && multiset(ids[..size + 1]) == multiset(kept + {c})
  {
    assert ids[..size + 1] == ids0[..size] + [c];
    WithoutOne(kept + {c}, c);
    assert kept + {c} - {c} == kept;
    forall k | 0 < k < size
      ensures Above(h, k)
    {
      assert Above(h0, k);
    }
  }

  method Append(heapDist: array<real>, heapIdx: array<nat>, size: nat, d: real, c: nat)
    requires size < heapDist.Length && size < heapIdx.Length
    modifies heapDist, heapIdx
    ensures heapDist[..] == old(heapDist[..])[size := d] && heapIdx[..] == old(heapIdx[..])[size := c]
  {
    heapDist[size] := d;
    heapIdx[size] := c;
  }

  lemma RootReplaced(ids: seq<nat>, kept: set<nat>, c: nat)
    requires 0 < |kept| <= |ids| && multiset(ids[..|kept|]) == multiset(kept)
    requires c !in kept && ids[0] in kept
    ensures multiset(ids[0 := c][..|kept|]) == multiset(kept - {ids[0]} + {c})
  {
  }

  lemma RootOnlySinks(h: seq<real>, g: seq<real>, n: nat, m: nat)
    requires Heap(h, n) && m <= n && |g| == |h| && forall k :: 0 < k < n ==> g[k] == h[k]
    ensures Sinking(g, m, 0)
  {
    forall k | 0 < k < m && Parent(k) != 0
      ensures Above(g, k)
    {
      assert Above(h, k);
    }
  }

  method ReplaceRoot(ghost dists: seq<real>, heapDist: array<real>, heapIdx: array<nat>, n: nat, d: real, c: nat,
                     ghost kept: set<nat>)
    requires n == |kept| && 0 < n <= heapDist.Length && n <= heapIdx.Length
    requires HoldsKept(dists, heapDist[..], heapIdx[..], kept)
    requires c !in kept && c < |dists| && d == dists[c]
    modifies heapDist, heapIdx
    ensures HoldsKept(dists, heapDist[..], heapIdx[..], kept - {old(heapIdx[0])} + {c})
  {
    ghost var h, ids := heapDist[..], heapIdx[..];
    RootIsFarthest(dists, h, ids, kept);
    RootReplaced(ids, kept, c);
    heapDist[0] := d;
    heapIdx[0] := c;
    assert heapIdx[..n] == ids[0 := c][..n];
    RootOnlySinks(h, heapDist[..], n, n);
    SiftDown(dists, heapDist, heapIdx, n);
    assert heapIdx[..][..n] == heapIdx[..n];
    assert |kept - {ids[0]}| == n - 1;
  }

  lemma RootRemoved(ids: seq<nat>, kept: set<nat>)
    requires 0 < |kept| <= |ids| && multiset(ids[..|kept|]) == multiset(kept) && ids[0] in kept
    ensures multiset(ids[0 := ids[|kept| - 1]][..|kept| - 1]) == multiset(kept - {ids[0]})
  {
    var n, r := |kept|, ids[0];
    WithoutOne(kept, r);
    assert ids[..n] == [r] + ids[1..n];
    CancelOne(multiset(ids[1..n]), multiset(kept - {r}), r);
    if n > 1 {
      var z := ids[n - 1];
      assert ids[1..n] == ids[1..n - 1] + [z];
      assert ids[0 := z][..n - 1] == [z] + ids[1..n - 1];
    } else {
      assert ids[1..n] == [];
      assert ids[0 := ids[n - 1]][..n - 1] == [];
    }
  }

  method PopRoot(ghost dists: seq<real>, heapDist: array<real>, heapIdx: array<nat>, size: nat, ghost kept: set<nat>)
    requires size == |kept| && 0 < size <= heapDist.Length && size <= heapIdx.Length
    requires HoldsKept(dists, heapDist[..], heapIdx[..], kept)
    modifies heapDist, heapIdx
    ensures HoldsKept(dists, heapDist[..], heapIdx[..], kept - {old(heapIdx[0])})
  {
    ghost var h, ids := heapDist[..], heapIdx[..];
    RootIsFarthest(dists, h, ids, kept);
    RootRemoved(ids, kept);
    heapDist[0] := heapDist[size - 1];
    heapIdx[0] := heapIdx[size - 1];
    assert heapIdx[..size - 1] == ids[0 := ids[size - 1]][..size - 1];
    RootOnlySinks(h, heapDist[..], size, size - 1);
    assert |kept - {ids[0]}| == size - 1;
    SiftDown(dists, heapDist, heapIdx, size - 1);
    assert heapIdx[..][..size - 1] == heapIdx[..size - 1];
  }

  /** The heap after the first c clusters; spelled out only where it is asked for. */
  ghost predicate Walked(dists: seq<real>, words: seq<bv64>, c: nat, h: seq<real>, ids: seq<nat>, n: nat, size: nat,
                         worst: real, kept: set<nat>) {
    forall k {:trigger WalkedAt(dists, words, c, h, ids, n, size, worst, kept, k)} ::
      WalkedAt(dists, words, c, h, ids, n, size, worst, kept, k)
  }

  ghost predicate WalkedAt(dists: seq<real>, words: seq<bv64>, c: nat, h: seq<real>, ids: seq<nat>, n: nat, size: nat,
                           worst: real, kept: set<nat>, k: nat) {
    && 0 < n <= |h| == |ids|
    && c <= |dists| <= 64 * |words|
    && Nearest(dists, UnmarkedSet(words, c), kept, n)
    && size == |kept|
    && HoldsKept(dists, h, ids, kept)
    && worst == if size == n then h[0] else FAR
  }

  lemma UnmarkedNext(words: seq<bv64>, c: nat)
    requires c < 64 * |words|
    ensures UnmarkedSet(words, c + 1) == if Marked(words, c) then UnmarkedSet(words, c) else UnmarkedSet(words, c) + {c}
    ensures c !in UnmarkedSet(words, c)
  {
  }

  lemma WalkPast(dists: seq<real>, words: seq<bv64>, c: nat, h: seq<real>, ids: seq<nat>, n: nat, size: nat,
                 worst: real, kept: set<nat>)
    requires Walked(dists, words, c, h, ids, n, size, worst, kept) && c < |dists| <= 64 * |words|
    requires Marked(words, c) || (size == n && dists[c] >= worst)
    ensures Walked(dists, words, c + 1, h, ids, n, size, worst, kept)
  {
    assert WalkedAt(dists, words, c, h, ids, n, size, worst, kept, 0);
    UnmarkedNext(words, c);
    var open := UnmarkedSet(words, c);
    if !Marked(words, c) {
      RootIsFarthest(dists, h, ids, kept);
      KeepOut(dists, open, kept, n, c);
    }
  }

  lemma WalkKeeps(dists: seq<real>, words: seq<bv64>, c: nat, h: seq<real>, ids: seq<nat>, n: nat, size: nat,
                  worst: real, kept: set<nat>, kept': set<nat>)
    requires Walked(dists, words, c, h, ids, n, size, worst, kept) && c < |dists| <= 64 * |words| && ids != []
    requires !Marked(words, c) && (size == n ==> dists[c] < worst)
    requires kept' == if size < n then kept + {c} else kept - {ids[0]} + {c}
    ensures Nearest(dists, UnmarkedSet(words, c + 1), kept', n)
  {
    assert WalkedAt(dists, words, c, h, ids, n, size, worst, kept, 0);
    UnmarkedNext(words, c);
    var open := UnmarkedSet(words, c);
    if size < n {
      KeepAll(dists, open, kept, n, c);
    } else {
      RootIsFarthest(dists, h, ids, kept);
      Replace(dists, open, kept, n, c, ids[0]);
    }
  }

  method OfferUnscanned(dists: seq<real>, ghost words: seq<bv64>, c: nat, heapDist: array<real>, heapIdx: array<nat>,
                        n: nat, size: nat, worst: real, ghost kept: set<nat>)
    returns (size': nat, worst': real, ghost kept': set<nat>)
    requires Walked(dists, words, c, heapDist[..], heapIdx[..], n, size, worst, kept)
    requires c < |dists| <= 64 * |words| && !Marked(words, c)
    modifies heapDist, heapIdx
    ensures Walked(dists, words, c + 1, heapDist[..], heapIdx[..], n, size', worst', kept')
  {
    var d := dists[c];
    assert WalkedAt(dists, words, c, heapDist[..], heapIdx[..], n, size, worst, kept, 0);
    if size == n && d >= worst {
      WalkPast(dists, words, c, heapDist[..], heapIdx[..], n, size, worst, kept);
      return size, worst, kept;
    }
    kept' := if size < n then kept + {c} else kept - {heapIdx[0]} + {c};
    WalkKeeps(dists, words, c, heapDist[..], heapIdx[..], n, size, worst, kept, kept');
    assert c !in kept;
    size', worst' := size, worst;
    if size < n {
      Push(dists, heapDist, heapIdx, size, d, c, kept);
      size' := size + 1;
      if size' == n {
        worst' := heapDist[0];
      }
    } else {
      RootIsFarthest(dists, heapDist[..], heapIdx[..], kept);
      ReplaceRoot(dists, heapDist, heapIdx, n, d, c, kept);
      worst' := heapDist[0];
    }
  }

  // ---- Reading the heap out, farthest last ----

  /** out lists the popped ids in ascending order, none nearer than a kept one. */
  ghost predicate Popped(dists: seq<real>, out: seq<nat>, kept: set<nat>, gone: set<nat>) {
    && kept !! gone
    && Sorts(dists, out, gone)
    && forall x, y :: x in kept && y in gone ==> x < |dists| && y < |dists| && dists[x] <= dists[y]
  }

  lemma PopOne(dists: seq<real>, out: seq<nat>, kept: set<nat>, gone: set<nat>, r: nat)
    requires Popped(dists, out, kept, gone)
    requires r in kept && r < |dists| && forall x :: x in kept ==> x < |dists| && dists[x] <= dists[r]
    ensures Popped(dists, [r] + out, kept - {r}, gone + {r})
  {
    ListedDistinct(out, gone);
    InsertAt(dists, out, gone, 0, r);
    assert out[..0] + [r] + out[0..] == [r] + out;
  }

  method ExtractOne(ghost dists: seq<real>, heapDist: array<real>, heapIdx: array<nat>, size: nat, ghost heapSize: nat,
                    picked: array<nat>, ghost inside: set<nat>, ghost gone: set<nat>)
    returns (ghost inside': set<nat>, ghost gone': set<nat>)
    requires 0 < size == |inside| <= heapDist.Length && size <= heapIdx.Length && size <= heapSize <= picked.Length
    requires heapIdx != picked
    requires HoldsKept(dists, heapDist[..], heapIdx[..], inside)
    requires Popped(dists, picked[size..heapSize], inside, gone)
    modifies heapDist, heapIdx, picked
    ensures |inside'| == size - 1 && inside' + gone' == inside + gone
    ensures HoldsKept(dists, heapDist[..], heapIdx[..], inside')
    ensures Popped(dists, picked[size - 1..heapSize], inside', gone')
    ensures picked[heapSize..] == old(picked[heapSize..])
  {
    ghost var r := heapIdx[0];
    RootIsFarthest(dists, heapDist[..], heapIdx[..], inside);
    PopOne(dists, picked[size..heapSize], inside, gone, r);
    PutInFront(picked, size, heapSize, heapIdx[0]);
    PopRoot(dists, heapDist, heapIdx, size, inside);
    inside', gone' := inside - {r}, gone + {r};
  }

  /** Writes r in front of the ids read out so far. */
  method PutInFront(picked: array<nat>, size: nat, ghost heapSize: nat, r: nat)
    requires 0 < size <= heapSize <= picked.Length
    modifies picked
    ensures picked[size - 1..heapSize] == [r] + old(picked[size..heapSize])
    ensures picked[heapSize..] == old(picked[heapSize..])
  {
    picked[size - 1] := r;
  }

  lemma NothingPopped(dists: seq<real>, kept: set<nat>)
    requires forall x :: x in kept ==> x < |dists|
    ensures Popped(dists, [], kept, {})
  {
  }

  method Extract(ghost dists: seq<real>, heapDist: array<real>, heapIdx: array<nat>, heapSize: nat, picked: array<nat>,
                 ghost kept: set<nat>)
    requires heapSize == |kept| <= picked.Length && heapSize <= heapDist.Length && heapSize <= heapIdx.Length
    requires heapIdx != picked
    requires HoldsKept(dists, heapDist[..], heapIdx[..], kept) && forall x :: x in kept ==> x < |dists|
    modifies heapDist, heapIdx, picked
    ensures Sorts(dists, picked[..heapSize], kept)
    ensures picked[heapSize..] == old(picked[heapSize..])
  {
    var size := heapSize;
    ghost var inside, gone: set<nat> := kept, {};
    NothingPopped(dists, kept);
    assert picked[size..heapSize] == [];
    while size > 0
      invariant size <= heapSize && size == |inside| && inside + gone == kept
      invariant HoldsKept(dists, heapDist[..], heapIdx[..], inside)
      invariant Popped(dists, picked[size..heapSize], inside, gone)
      invariant picked[heapSize..] == old(picked[heapSize..])
    {
      inside, gone := ExtractOne(dists, heapDist, heapIdx, size, heapSize, picked, inside, gone);
      size := size - 1;
    }
    assert inside == {};
    assert gone == kept;
    assert picked[0..heapSize] == picked[..heapSize];
  }

  method WalkWord(dists: seq<real>, words: seq<bv64>, w: nat, heapDist: array<real>, heapIdx: array<nat>, n: nat,
                  size: nat, worst: real, ghost kept: set<nat>)
    returns (size': nat, worst': real, ghost kept': set<nat>, end: nat)
    requires w * 64 < |dists| <= 64 * |words|
             && Walked(dists, words, w * 64, heapDist[..], heapIdx[..], n, size, worst, kept)
    modifies heapDist, heapIdx
    ensures end == Min(w * 64 + 64, |dists|)
    ensures Walked(dists, words, end, heapDist[..], heapIdx[..], n, size', worst', kept')
  {
    var mask := words[w];
    var base := w * 64;
    end := Min(base + 64, |dists|);
    size', worst', kept' := size, worst, kept;
    for c := base to end
      invariant Walked(dists, words, c, heapDist[..], heapIdx[..], n, size', worst', kept')
    {
      assert c / 64 == w && c % 64 == c - base;
      size', worst', kept' := WalkOne(dists, words, mask, c, c - base, heapDist, heapIdx, n, size', worst', kept');
    }
  }

  /** One cluster: passed over if its bit is set, offered otherwise. */
  method WalkOne(dists: seq<real>, ghost words: seq<bv64>, mask: bv64, c: nat, bit: nat, heapDist: array<real>,
                 heapIdx: array<nat>, n: nat, size: nat, worst: real, ghost kept: set<nat>)
    returns (size': nat, worst': real, ghost kept': set<nat>)
    requires Walked(dists, words, c, heapDist[..], heapIdx[..], n, size, worst, kept) && c < |dists| <= 64 * |words|
    requires Test(mask, bit) <==> Marked(words, c)
    modifies heapDist, heapIdx
    ensures Walked(dists, words, c + 1, heapDist[..], heapIdx[..], n, size', worst', kept')
  {
    if Test(mask, bit) {
      WalkPast(dists, words, c, heapDist[..], heapIdx[..], n, size, worst, kept);
      return size, worst, kept;
    }
    size', worst', kept' := OfferUnscanned(dists, words, c, heapDist, heapIdx, n, size, worst, kept);
  }

  lemma WalkStarts(dists: seq<real>, words: seq<bv64>, h: seq<real>, ids: seq<nat>, n: nat)
    requires 0 < n <= |h| == |ids| && |dists| <= 64 * |words|
    ensures Walked(dists, words, 0, h, ids, n, 0, FAR, {})
  {
  }

  method WalkAll(dists: seq<real>, words: seq<bv64>, heapDist: array<real>, heapIdx: array<nat>, n: nat)
    returns (size: nat, ghost worst: real, ghost kept: set<nat>)
    requires 0 < n <= heapDist.Length == heapIdx.Length && |dists| <= 64 * |words|
    modifies heapDist, heapIdx
    ensures Walked(dists, words, |dists|, heapDist[..], heapIdx[..], n, size, worst, kept)
  {
    var bound := FAR;
    size, kept := 0, {};
    WalkStarts(dists, words, heapDist[..], heapIdx[..], n);
    var w: nat, c: nat := 0, 0;
    while w * 64 < |dists|
      invariant c == Min(w * 64, |dists|)
      invariant Walked(dists, words, c, heapDist[..], heapIdx[..], n, size, bound, kept)
    {
      size, bound, kept, c := WalkWord(dists, words, w, heapDist, heapIdx, n, size, bound, kept);
      w := w + 1;
    }
    worst := bound;
  }

  lemma ListingComplete(dists: seq<real>, p: seq<nat>, kept: set<nat>, s: seq<nat>)
    requires |kept| <= |p| && s == p[..|kept|] && Sorts(dists, s, kept) && Unused(p, |kept|)
    ensures ListsNearest(dists, p, kept)
  {
  }

  /** The nearest n0 clusters whose bit is clear, nearest first. */
  method PickNextNUnscanned(dists: seq<real>, scanned: seq<bv64>, n0: nat, picked: array<nat>)
    returns (ghost kept: set<nat>)
    requires |dists| <= 64 * |scanned| && |dists| <= NONE
    requires Min(n0, picked.Length) <= MAX_N_PROBE
    modifies picked
    ensures Picks(dists, UnmarkedSet(scanned, |dists|), picked[..Min(n0, picked.Length)], kept)
    ensures picked[Min(n0, picked.Length)..] == old(picked[Min(n0, picked.Length)..])
  {
    var n := Min(n0, picked.Length);
    kept := {};
    if n == 0 {
      return;
    }
    var heapDist := new real[256](_ => 0.0);
    var heapIdx := new nat[256](_ => 0);
    var heapSize: nat;
    ghost var worst;
    heapSize, worst, kept := WalkAll(dists, scanned, heapDist, heapIdx, n);
    assert WalkedAt(dists, scanned, |dists|, heapDist[..], heapIdx[..], n, heapSize, worst, kept, 0);
    ClearPicks(picked, n);
    ReadOut(dists, heapDist, heapIdx, heapSize, n, picked, kept);
  }

  method ReadOut(ghost dists: seq<real>, heapDist: array<real>, heapIdx: array<nat>, heapSize: nat, ghost n: nat,
                 picked: array<nat>, ghost kept: set<nat>)
    requires heapSize == |kept| <= n <= picked.Length && heapSize <= heapDist.Length && heapSize <= heapIdx.Length
    requires heapIdx != picked
    requires HoldsKept(dists, heapDist[..], heapIdx[..], kept) && forall x :: x in kept ==> x < |dists|
    requires forall i :: 0 <= i < n ==> picked[i] == NONE
    modifies heapDist, heapIdx, picked
    ensures ListsNearest(dists, picked[..n], kept)
    ensures picked[n..] == old(picked[n..])
  {
    Extract(dists, heapDist, heapIdx, heapSize, picked, kept);
    ghost var p := picked[..n];
    forall i | heapSize <= i < picked.Length
      ensures picked[i] == old(picked[i])
    {
      assert picked[heapSize..][i - heapSize] == old(picked[heapSize..])[i - heapSize];
    }
    ListingComplete(dists, p, kept, picked[..heapSize]);
  }
}
