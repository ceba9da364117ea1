/** Building the specialist index: bucket the references by key, build a balanced
    KD-tree over each bucket, and lay the leaves out in padded eight-lane blocks. */
module SpecialistBuild {
  import opened Sequences
  import opened Geometry
  import opened Kernels
  import opened Blocks
  import opened Lanes
  import opened KdTree
  import opened PartitionKeys

  /** The most members a tree of height h can hold. */
  function Capacity(h: nat): nat {
    if h == 0 then LEAF_SIZE else 2 * Capacity(h - 1)
  }

  /** Lane l of a single block holds candidate lanes[l]. */
  ghost predicate LaneFilled(ds: Dataset, blk: seq<Int16>, lbl: seq<nat>, lanes: seq<Id>, l: nat)
    requires |blk| == 112 && |lbl| == |lanes| == LANES && l < LANES
  {
    !lanes[l].Pad? && LaneVec(blk, 0, l) == Coords(ds, lanes[l]) && lbl[l] == LabelOf(ds, lanes[l])
  }

  ghost predicate BlockFilled(ds: Dataset, blocks: seq<seq<Int16>>, labels: seq<seq<nat>>, owner: seq<Id>, b: nat)
    requires b < |blocks| == |labels| && |owner| == 8 * |blocks|
  {
    AllFilled(ds, blocks[b], labels[b], owner[b * 8..b * 8 + 8])
  }

  ghost predicate AllFilled(ds: Dataset, blk: seq<Int16>, lbl: seq<nat>, lanes: seq<Id>) {
    && |blk| == 112 && |lbl| == |lanes| == LANES
    && (forall l :: 0 <= l < LANES ==> LaneFilled(ds, blk, lbl, lanes, l))
  }

  /** The blocks laid out so far, with the owners of their lanes. */
  ghost predicate Laid(ds: Dataset, blocks: seq<seq<Int16>>, labels: seq<seq<nat>>, owner: seq<Id>) {
    && |labels| == |blocks| && |owner| == 8 * |blocks|
    && (forall b :: 0 <= b < |blocks| ==> BlockFilled(ds, blocks, labels, owner, b))
  }

  lemma LaidMore(ds: Dataset, blocks: seq<seq<Int16>>, labels: seq<seq<nat>>, owner: seq<Id>, blk: seq<Int16>,
                 lbl: seq<nat>, lanes: seq<Id>)
    requires Laid(ds, blocks, labels, owner)
    requires AllFilled(ds, blk, lbl, lanes)
    ensures Laid(ds, blocks + [blk], labels + [lbl], owner + lanes)
  {
    var blocks', labels', owner' := blocks + [blk], labels + [lbl], owner + lanes;
    forall b | 0 <= b < |blocks'|
      ensures BlockFilled(ds, blocks', labels', owner', b)
    {
      if b < |blocks| {
        assert BlockFilled(ds, blocks, labels, owner, b);
        assert owner'[b * 8..b * 8 + 8] == owner[b * 8..b * 8 + 8];
      } else {
        assert owner'[b * 8..b * 8 + 8] == lanes;
      }
    }
  }

  /** Writes one vector into lane l of a block. */
  method CopyLane(blk: array<Int16>, l: nat, v: Vec)
    requires blk.Length == 112 && l < LANES
    modifies blk
    ensures LaneVec(blk[..], 0, l) == v
    ensures forall k :: 0 <= k < LANES && k != l ==> LaneVec(blk[..], 0, k) == old(LaneVec(blk[..], 0, k))
  {
    for d := 0 to DIMS
      invariant forall e :: 0 <= e < d ==> LaneVec(blk[..], 0, l)[e] == v[e]
      invariant forall k :: 0 <= k < LANES && k != l ==> LaneVec(blk[..], 0, k) == old(LaneVec(blk[..], 0, k))
    {
      CopyCoordinate(blk, d, l, v[d]);
    }
  }

  method CopyCoordinate(blk: array<Int16>, d: nat, l: nat, x: Int16)
    requires blk.Length == 112 && d < DIMS && l < LANES
    modifies blk
    ensures LaneVec(blk[..], 0, l) == old(LaneVec(blk[..], 0, l))[d := x]
    ensures forall k :: 0 <= k < LANES && k != l ==> LaneVec(blk[..], 0, k) == old(LaneVec(blk[..], 0, k))
  {
    ghost var before := blk[..];
    blk[At(0, d, l)] := x;
    OneCoordinate(before, blk[..], d, l, x);
  }

  /** Writing one coordinate of one lane. */
  lemma OneCoordinate(before: seq<Int16>, after: seq<Int16>, d: nat, l: nat, x: Int16)
    requires |before| == 112 && d < DIMS && l < LANES && after == before[At(0, d, l) := x]
    ensures LaneVec(after, 0, l) == LaneVec(before, 0, l)[d := x]
    ensures forall k :: 0 <= k < LANES && k != l ==> LaneVec(after, 0, k) == LaneVec(before, 0, k)
  {
    forall k: nat, e: nat | k < LANES && e < DIMS
      ensures LaneVec(after, 0, k)[e] == if k == l && e == d then x else LaneVec(before, 0, k)[e]
    {
      AtInjective(0, e, k, 0, d, l);
    }
  }

  /** The widest dimension of a box, the lowest one on ties. */
  method WidestDim(box: Box) returns (best: nat)
    requires ValidBox(box)
    ensures best < DIMS
    ensures forall d :: 0 <= d < DIMS ==> box.max[d] as int - box.min[d] <= box.max[best] as int - box.min[best]
    ensures forall d :: 0 <= d < best ==> box.max[d] as int - box.min[d] < box.max[best] as int - box.min[best]
  {
    best := 0;
    var bestWidth := box.max[0] as int - box.min[0];
    for d := 1 to DIMS
      invariant best < d && bestWidth == box.max[best] as int - box.min[best]
      invariant forall e :: 0 <= e < d ==> box.max[e] as int - box.min[e] <= bestWidth
      invariant forall e :: 0 <= e < best ==> box.max[e] as int - box.min[e] < bestWidth
    {
      var w := box.max[d] as int - box.min[d];
      if w > bestWidth {
        bestWidth, best := w, d;
      }
    }
  }

  // ----- Sorting the members of a node -----

  function Key(ds: Dataset, m: nat, dim: nat): int {
    if m < |ds.vectors| && dim < DIMS then ds.vectors[m][dim] else 0
  }

  ghost predicate SortedBy(ds: Dataset, s: seq<nat>, dim: nat) {
    forall i, j :: 0 <= i < j < |s| && s[i] < |ds.vectors| && s[j] < |ds.vectors| && dim < DIMS ==>
                     ds.vectors[s[i]][dim] <= ds.vectors[s[j]][dim]
  }

  /** Sorts members lo up to hi by one coordinate, in place. */
  method SortRange(ds: Dataset, members: array<nat>, lo: nat, hi: nat, dim: nat)
    requires lo <= hi <= members.Length
    modifies members
    ensures SortedBy(ds, members[lo..hi], dim)
    ensures multiset(members[lo..hi]) == old(multiset(members[lo..hi]))
    ensures forall k :: 0 <= k < lo || hi <= k < members.Length ==> members[k] == old(members[k])
  {
    for i := lo to hi
      invariant SortedTo(ds, members[..], lo, i, dim)
      invariant Rearranged(old(members[..]), members[..], lo, hi)
    {
      SiftDown(ds, members, lo, hi, i, dim);
    }
    RangeSorted(ds, old(members[..]), members[..], lo, hi, dim);
    assert members[..][lo..hi] == members[lo..hi] && old(members[..])[lo..hi] == old(members[lo..hi]);
  }

  lemma RangeSorted(ds: Dataset, s: seq<nat>, t: seq<nat>, lo: nat, hi: nat, dim: nat)
    requires Rearranged(s, t, lo, hi) && SortedTo(ds, t, lo, hi, dim)
    ensures SortedBy(ds, t[lo..hi], dim)
    ensures forall k :: 0 <= k < lo || hi <= k < |t| ==> t[k] == s[k]
  {
    forall k | 0 <= k < lo || hi <= k < |t|
      ensures t[k] == s[k]
    {
      if k < lo {
        assert t[..lo][k] == s[..lo][k];
      } else {
        assert t[hi..][k - hi] == s[hi..][k - hi];
      }
    }
  }

  /** after is before with the range lo..hi permuted and nothing else touched. */
  ghost predicate Rearranged(before: seq<nat>, after: seq<nat>, lo: nat, hi: nat) {
    && lo <= hi <= |before| == |after|
    && multiset(after[lo..hi]) == multiset(before[lo..hi])
    && after[..lo] == before[..lo] && after[hi..] == before[hi..]
  }

  lemma ExchangeRearranges(s: seq<nat>, lo: nat, hi: nat, j: nat)
    requires lo < j < hi <= |s|
    ensures Rearranged(s, s[j - 1 := s[j]][j := s[j - 1]], lo, hi)
  {
    var t := s[j - 1 := s[j]][j := s[j - 1]];
    var r, i := s[lo..hi], j - 1 - lo;
    assert t[lo..hi] == r[i := r[i + 1]][i + 1 := r[i]];
    NeighboursExchanged(r, i);
  }

  lemma NeighboursExchanged(r: seq<nat>, i: nat)
    requires i + 1 < |r|
    ensures multiset(r[i := r[i + 1]][i + 1 := r[i]]) == multiset(r)
  {
  }

  /** Moves member i down past every larger one before it. */
  method SiftDown(ds: Dataset, members: array<nat>, lo: nat, hi: nat, i: nat, dim: nat)
    requires lo <= i < hi <= members.Length
    requires SortedTo(ds, members[..], lo, i, dim)
    modifies members
    ensures SortedTo(ds, members[..], lo, i + 1, dim)
    ensures Rearranged(old(members[..]), members[..], lo, hi)
  {
    var j := i;
    SinkStart(ds, members[..], lo, i, dim);
    while j > lo && Key(ds, members[j - 1], dim) > Key(ds, members[j], dim)
      invariant Sinking(ds, members[..], lo, j, i, dim)
      invariant Rearranged(old(members[..]), members[..], lo, hi)
    {
      ghost var before := members[..];
      members[j - 1], members[j] := members[j], members[j - 1];
      ExchangeRearranges(before, lo, hi, j);
      assert members[..] == before[j - 1 := before[j]][j := before[j - 1]];
      SinkStep(ds, before, members[..], lo, j, i, dim);
      j := j - 1;
    }
    SinkDone(ds, members[..], lo, j, i, dim);
  }

  /** Entries lo to i are sorted but for entry j, which belongs at or before. */
  ghost predicate Sinking(ds: Dataset, s: seq<nat>, lo: nat, j: int, i: nat, dim: nat) {
    && lo <= j <= i < |s|
    && (forall k, l :: lo <= k < l <= i && k != j && l != j ==> Key(ds, s[k], dim) <= Key(ds, s[l], dim))
    && forall k :: j < k <= i ==> Key(ds, s[j], dim) < Key(ds, s[k], dim)
  }

  ghost predicate SortedTo(ds: Dataset, s: seq<nat>, lo: nat, i: nat, dim: nat) {
    i <= |s| && forall k, l :: lo <= k < l < i ==> Key(ds, s[k], dim) <= Key(ds, s[l], dim)
  }

  lemma SinkStart(ds: Dataset, s: seq<nat>, lo: nat, i: nat, dim: nat)
    requires lo <= i < |s| && SortedTo(ds, s, lo, i, dim)
    ensures Sinking(ds, s, lo, i, i, dim)
  {
  }

  lemma SinkStep(ds: Dataset, s: seq<nat>, s': seq<nat>, lo: nat, j: int, i: nat, dim: nat)
    requires Sinking(ds, s, lo, j, i, dim) && lo < j && Key(ds, s[j - 1], dim) > Key(ds, s[j], dim)
    requires s' == s[j - 1 := s[j]][j := s[j - 1]]
    ensures Sinking(ds, s', lo, j - 1, i, dim)
  {
  }

  lemma SinkDone(ds: Dataset, s: seq<nat>, lo: nat, j: int, i: nat, dim: nat)
    requires Sinking(ds, s, lo, j, i, dim) && (lo < j ==> Key(ds, s[j - 1], dim) <= Key(ds, s[j], dim))
    ensures SortedTo(ds, s, lo, i + 1, dim)
  {
  }

  // ----- Building one tree -----

  ghost predicate FitsHeight(n: nat, t: Tree) {
    forall h: nat :: n <= Capacity(h) ==> Height(t) <= h
  }

  /** Building a tree over the members ms took the builder from nodes0, owner0 to
      nodes, owner. */
  ghost predicate Grown(ds: Dataset, nodes0: seq<Node>, owner0: seq<Id>, nodes: seq<Node>, owner: seq<Id>, t: Tree,
                        ms: seq<nat>) {
    && nodes0 <= nodes && owner0 <= owner && t.node == |nodes0| < |nodes|
    && forall n: nat {:trigger TreeAdded(ds, |owner0|, nodes, owner, t, ms, n)} ::
         TreeAdded(ds, |owner0|, nodes, owner, t, ms, n)
  }

  /** The part of Grown that stays folded until a proof mentions it. */
  ghost predicate TreeAdded(ds: Dataset, from: nat, nodes: seq<Node>, owner: seq<Id>, t: Tree, ms: seq<nat>, n: nat)
    requires from <= |owner|
  {
    && Lo(t) * 8 == from && Hi(t) * 8 == |owner|
    && WellBuilt(ds, owner, nodes, t)
    && Adds(owner, from, ms)
    && FitsHeight(|ms|, t)
  }

  lemma LeafAdded(ds: Dataset, nodes0: seq<Node>, owner0: seq<Id>, nodes: seq<Node>, owner: seq<Id>, t: Tree,
                  ms: seq<nat>, box: Box, lo: nat, hi: nat, n: nat)
    requires ValidDataset(ds) && InData(ds, ms) && 0 < |ms| <= LEAF_SIZE && ValidBox(box) && Tight(ds, ms, box)
    requires |owner0| == lo * 8 && hi == lo + (|ms| + 7) / 8 && t == Leaf(|nodes0|, lo, hi)
    requires |nodes| == |nodes0| + 1 && nodes[..|nodes0|] == nodes0 && nodes[|nodes0|] == Node(-1, -1, lo, |ms|, box)
    requires owner == owner0 + LeafLanes(ms, |owner0|, (|ms| + 7) / 8 * 8)
    ensures TreeAdded(ds, |owner0|, nodes, owner, t, ms, n)
  {
    LeafAdds(owner0, ms, (|ms| + 7) / 8 * 8);
    assert FilledTo(owner, lo, hi, |ms|);
    AddsEncloses(ds, owner, ms, box, lo, hi);
    TightEncloses(ds, ms, box, 0);
  }

  lemma LeafGrown(ds: Dataset, nodes0: seq<Node>, owner0: seq<Id>, nodes: seq<Node>, owner: seq<Id>, t: Tree,
                  ms: seq<nat>, box: Box, lo: nat, hi: nat)
    requires ValidDataset(ds) && InData(ds, ms) && 0 < |ms| <= LEAF_SIZE && ValidBox(box) && Tight(ds, ms, box)
    requires |owner0| == lo * 8 && hi == lo + (|ms| + 7) / 8 && t == Leaf(|nodes0|, lo, hi)
    requires |nodes| == |nodes0| + 1 && nodes[..|nodes0|] == nodes0 && nodes[|nodes0|] == Node(-1, -1, lo, |ms|, box)
    requires owner == owner0 + LeafLanes(ms, |owner0|, (|ms| + 7) / 8 * 8)
    ensures Grown(ds, nodes0, owner0, nodes, owner, t, ms)
  {
    forall n: nat
      ensures TreeAdded(ds, |owner0|, nodes, owner, t, ms, n)
    {
      LeafAdded(ds, nodes0, owner0, nodes, owner, t, ms, box, lo, hi, n);
    }
  }

  lemma ForkGrown(ds: Dataset, nodes0: seq<Node>, owner0: seq<Id>, node: Node, nodes1: seq<Node>, owner1: seq<Id>,
                  nodes2: seq<Node>, owner2: seq<Id>, l: Tree, r: Tree, ls: seq<nat>, rs: seq<nat>, ms: seq<nat>,
                  node': Node, nodes: seq<Node>, t: Tree)
    requires ValidDataset(ds) && InData(ds, ms) && LEAF_SIZE < |ms| && ValidBox(node.box) && Tight(ds, ms, node.box)
    requires Grown(ds, nodes0 + [node], owner0, nodes1, owner1, l, ls)
             && Grown(ds, nodes1, owner1, nodes2, owner2, r, rs)
    requires |ls| == |ms| / 2 && |rs| == |ms| - |ms| / 2
    requires forall m :: m in ms <==> m in ls || m in rs
    requires node' == node.(left := l.node, right := r.node) && node.blockStart == node.len == 0
    requires |nodes0| < |nodes2| && nodes == nodes2[|nodes0| := node'] && t == Fork(|nodes0|, l, r)
    ensures Grown(ds, nodes0, owner0, nodes, owner2, t, ms)
  {
    assert TreeAdded(ds, |owner0|, nodes1, owner1, l, ls, 0) && TreeAdded(ds, |owner1|, nodes2, owner2, r, rs, 0);
    assert nodes0 <= nodes;
    WellBuiltGrows(ds, owner1, nodes1, l, owner2, nodes);
    WellBuiltGrows(ds, owner2, nodes2, r, owner2, nodes);
    AddsBoth(owner1, owner2, |owner0|, ls, rs, ms);
    AddsEncloses(ds, owner2, ms, node.box, Lo(t), Hi(t));
    TightEncloses(ds, ms, node.box, 0);
    ForkFits(|ms|, |nodes0|, l, r);
  }

  lemma ForkFits(n: nat, i: nat, l: Tree, r: Tree)
    requires LEAF_SIZE < n && FitsHeight(n / 2, l) && FitsHeight(n - n / 2, r)
    ensures FitsHeight(n, Fork(i, l, r))
  {
    forall h: nat | n <= Capacity(h)
      ensures Height(Fork(i, l, r)) <= h
    {
      assert h > 0 && n - n / 2 <= Capacity(h - 1);
    }
  }

  /** One block: the members from start on, then padding lanes. */
  method FillBlock(ds: Dataset, members: array<nat>, start: nat, hi: nat, ghost base: nat)
    returns (block: seq<Int16>, lbls: seq<nat>)
    requires start < hi <= members.Length && InData(ds, members[start..hi]) && ValidDataset(ds)
    ensures AllFilled(ds, block, lbls, LeafLanes(members[start..hi], base, 8))
  {
    var blk := new Int16[112](_ => 0);
    var lbl := new nat[LANES](_ => 0);
    ghost var lanes := LeafLanes(members[start..hi], base, 8);
    for l := 0 to LANES
      invariant forall k :: 0 <= k < l ==> LaneFilled(ds, blk[..], lbl[..], lanes, k)
    {
      FillLane(ds, members, start, hi, l, blk, lbl, lanes, base);
    }
    block, lbls := blk[..], lbl[..];
  }

  method FillLane(ds: Dataset, members: array<nat>, start: nat, hi: nat, l: nat, blk: array<Int16>, lbl: array<nat>,
                  ghost lanes: seq<Id>, ghost base: nat)
    requires start < hi <= members.Length && InData(ds, members[start..hi]) && ValidDataset(ds)
    requires l < LANES == lbl.Length && blk.Length == 112 && lbl != members
    requires lanes == LeafLanes(members[start..hi], base, 8)
    modifies blk, lbl
    ensures LaneFilled(ds, blk[..], lbl[..], lanes, l)
    ensures forall k :: 0 <= k < LANES && k != l && old(LaneFilled(ds, blk[..], lbl[..], lanes, k)) ==>
                          LaneFilled(ds, blk[..], lbl[..], lanes, k)
  {
    if start + l < hi {
      var m := members[start + l];
      assert members[start..hi][l] == m;
      CopyLane(blk, l, ds.vectors[m]);
      lbl[l] := ds.labels[m];
    } else {
      CopyLane(blk, l, PHANTOM_VEC);
      lbl[l] := 0;
    }
  }

  class Builder {
    var nodes: seq<Node>
    var blocks: seq<seq<Int16>>
    var labels: seq<seq<nat>>
    ghost var owner: seq<Id>

    constructor ()
      ensures nodes == [] && blocks == [] && labels == [] && owner == []
    {
      nodes, blocks, labels, owner := [], [], [], [];
    }

    ghost predicate Valid(ds: Dataset)
      reads this
    {
      Laid(ds, blocks, labels, owner) && Injective(owner) && PhantomsPlaced(owner)
    }

    /** Appends the block whose first member is at position start; lanes past hi
        are padding. */
    method AppendBlock(ds: Dataset, members: array<nat>, start: nat, hi: nat)
      requires start < hi <= members.Length && InData(ds, members[start..hi]) && ValidDataset(ds)
      requires Laid(ds, blocks, labels, owner)
      modifies this`blocks, this`labels, this`owner
      ensures Laid(ds, blocks, labels, owner) && |blocks| == old(|blocks|) + 1 && old(blocks) <= blocks
      ensures owner == old(owner) + LeafLanes(members[start..hi], old(|owner|), 8)
    {
      ghost var lanes := LeafLanes(members[start..hi], |owner|, 8);
      var blk, lbl := FillBlock(ds, members, start, hi, |owner|);
      LaidMore(ds, blocks, labels, owner, blk, lbl, lanes);
      blocks, labels, owner := blocks + [blk], labels + [lbl], owner + lanes;
    }

    /** Appends the blocks of a leaf holding members lo up to hi. */
    method AppendLeaf(ds: Dataset, members: array<nat>, lo: nat, hi: nat)
      requires lo <= hi <= members.Length && InData(ds, members[lo..hi]) && ValidDataset(ds)
      requires Valid(ds) && Fresh(owner, members[lo..hi])
      modifies this`blocks, this`labels, this`owner
      ensures Valid(ds) && old(blocks) <= blocks
      ensures |blocks| == old(|blocks|) + (hi - lo + 7) / 8
      ensures owner == old(owner) + LeafLanes(members[lo..hi], old(|owner|), (hi - lo + 7) / 8 * 8)
    {
      var n := (hi - lo + LANES - 1) / LANES;
      ghost var ms := members[lo..hi];
      for b := 0 to n
        invariant Laid(ds, blocks, labels, owner) && old(blocks) <= blocks && |blocks| == old(|blocks|) + b
        invariant owner == old(owner) + LeafLanes(ms, old(|owner|), b * 8)
      {
        assert members[lo + b * 8..hi] == ms[b * 8..];
        LeafLanesNext(ms, old(|owner|), b);
        AppendBlock(ds, members, lo + b * 8, hi);
      }
      LeafInjective(old(owner), ms, n * 8);
    }

    /** Builds the tree of members lo up to hi and returns the index of its root. */
    method BuildKdTree(ds: Dataset, members: array<nat>, lo: nat, hi: nat) returns (root: nat, ghost tree: Tree)
      requires ValidDataset(ds) && Valid(ds)
      requires lo < hi <= members.Length && InData(ds, members[lo..hi]) && Fresh(owner, members[lo..hi])
      modifies this, members
      ensures Valid(ds) && old(blocks) <= blocks && root == tree.node
      ensures Grown(ds, old(nodes), old(owner), nodes, owner, tree, old(members[lo..hi]))
      ensures multiset(members[lo..hi]) == old(multiset(members[lo..hi]))
      ensures forall k :: 0 <= k < lo || hi <= k < members.Length ==> members[k] == old(members[k])
      decreases hi - lo, 2
    {
      var box := BoundingBox(ds, members[lo..hi]);
      root := |nodes|;
      nodes := nodes + [Node(-1, -1, 0, 0, box)];
      if hi - lo <= LEAF_SIZE {
        tree := FillLeaf(ds, members, lo, hi, root, old(nodes));
      } else {
        tree := BuildHalves(ds, members, lo, hi, root, old(nodes));
      }
    }

    /** Turns the node just appended into a leaf. */
    method FillLeaf(ds: Dataset, members: array<nat>, lo: nat, hi: nat, nodeIdx: nat, ghost nodes0: seq<Node>)
      returns (ghost tree: Tree)
      requires ValidDataset(ds) && Valid(ds) && 0 < hi - lo <= LEAF_SIZE
      requires lo < hi <= members.Length && InData(ds, members[lo..hi]) && Fresh(owner, members[lo..hi])
      requires nodeIdx == |nodes0| == |nodes| - 1 && nodes[..nodeIdx] == nodes0
      requires ValidBox(nodes[nodeIdx].box) && Tight(ds, members[lo..hi], nodes[nodeIdx].box)
      requires nodes[nodeIdx].left == nodes[nodeIdx].right == -1
      modifies this
      ensures Valid(ds) && old(blocks) <= blocks && tree.node == nodeIdx
      ensures Grown(ds, nodes0, old(owner), nodes, owner, tree, members[lo..hi])
    {
      var node := nodes[nodeIdx];
      var startBlock := |blocks|;
      AppendLeaf(ds, members, lo, hi);
      nodes := nodes[nodeIdx := node.(blockStart := startBlock, len := hi - lo)];
      tree := Leaf(nodeIdx, startBlock, |blocks|);
      LeafGrown(ds, nodes0, old(owner), nodes, owner, tree, members[lo..hi], node.box, startBlock, |blocks|);
    }

    /** Splits the members of the node just appended and builds both halves. */
    method BuildHalves(ds: Dataset, members: array<nat>, lo: nat, hi: nat, nodeIdx: nat, ghost nodes0: seq<Node>)
      returns (ghost tree: Tree)
      requires ValidDataset(ds) && Valid(ds) && LEAF_SIZE < hi - lo
      requires lo < hi <= members.Length && InData(ds, members[lo..hi]) && Fresh(owner, members[lo..hi])
      requires nodeIdx == |nodes0| == |nodes| - 1 && nodes[..nodeIdx] == nodes0
      requires ValidBox(nodes[nodeIdx].box) && Tight(ds, members[lo..hi], nodes[nodeIdx].box)
      requires nodes[nodeIdx].blockStart == nodes[nodeIdx].len == 0
      modifies this, members
      ensures Valid(ds) && old(blocks) <= blocks && tree.node == nodeIdx
      ensures Grown(ds, nodes0, old(owner), nodes, owner, tree, old(members[lo..hi]))
      ensures multiset(members[lo..hi]) == old(multiset(members[lo..hi]))
      ensures forall k :: 0 <= k < lo || hi <= k < members.Length ==> members[k] == old(members[k])
      decreases hi - lo, 1
    {
      ghost var ms, owner0 := members[lo..hi], owner;
      var node := nodes[nodeIdx];
      assert nodes == nodes0 + [node];
      var mid, splitDim := SplitMembers(ds, members, lo, hi, node.box);
      ghost var ls, rs := members[lo..mid], members[mid..hi];
      HalvesFresh(ds, owner, ms, ls, rs);
      var left, right, lt, rt, nodes1, owner1 := BuildBoth(ds, members, lo, mid, hi);
      HalvesJoin(members, lo, mid, hi, ls, rs);
      ghost var nodes2 := nodes;
      nodes := nodes[nodeIdx := node.(left := left, right := right)];
      tree := Fork(nodeIdx, lt, rt);
      ForkGrown(ds, nodes0, owner0, node, nodes1, owner1, nodes2, owner, lt, rt, ls, rs, ms,
                node.(left := left, right := right), nodes, tree);
    }

    /** Builds the first half, then the second. */
    method BuildBoth(ds: Dataset, members: array<nat>, lo: nat, mid: nat, hi: nat)
      returns (left: nat, right: nat, ghost lt: Tree, ghost rt: Tree, ghost nodes1: seq<Node>, ghost owner1: seq<Id>)
      requires ValidDataset(ds) && Valid(ds) && lo < mid < hi <= members.Length
      requires InData(ds, members[lo..mid]) && Fresh(owner, members[lo..mid])
      requires InData(ds, members[mid..hi]) && Fresh(owner, members[mid..hi])
      requires forall m :: m in members[lo..mid] ==> m !in members[mid..hi]
      modifies this, members
      ensures Valid(ds) && old(blocks) <= blocks && left == lt.node && right == rt.node
      ensures Grown(ds, old(nodes), old(owner), nodes1, owner1, lt, old(members[lo..mid]))
      ensures Grown(ds, nodes1, owner1, nodes, owner, rt, old(members[mid..hi]))
      ensures multiset(members[lo..mid]) == old(multiset(members[lo..mid]))
      ensures multiset(members[mid..hi]) == old(multiset(members[mid..hi]))
      ensures forall k :: 0 <= k < lo || hi <= k < members.Length ==> members[k] == old(members[k])
      decreases hi - lo, 0
    {
      ghost var ls, rs := members[lo..mid], members[mid..hi];
      left, lt := BuildKdTree(ds, members, lo, mid);
      nodes1, owner1 := nodes, owner;
      assert members[mid..hi] == rs;
      StillFresh(ds, old(nodes), old(owner), nodes1, owner1, lt, ls, rs);
      label L:
      right, rt := BuildKdTree(ds, members, mid, hi);
      assert members[lo..mid] == old@L(members[lo..mid]);
    }
  }

  lemma HalvesJoin(members: array<nat>, lo: nat, mid: nat, hi: nat, ls: seq<nat>, rs: seq<nat>)
    requires lo <= mid <= hi <= members.Length
    requires multiset(members[lo..mid]) == multiset(ls) && multiset(members[mid..hi]) == multiset(rs)
    ensures multiset(members[lo..hi]) == multiset(ls + rs)
  {
    assert members[lo..hi] == members[lo..mid] + members[mid..hi];
  }

  /** Sorts the members on the widest dimension and returns the middle: no member
      of the first half exceeds one of the second in that dimension. */
  method SplitMembers(ds: Dataset, members: array<nat>, lo: nat, hi: nat, box: Box) returns (mid: nat, splitDim: nat)
    requires lo < hi <= members.Length && LEAF_SIZE < hi - lo && ValidBox(box)
    modifies members
    ensures mid == lo + (hi - lo) / 2
    ensures splitDim < DIMS
    ensures forall d ::
              0 <= d < DIMS ==> box.max[d] as int - box.min[d] <= box.max[splitDim] as int - box.min[splitDim]
    ensures forall i, j :: lo <= i < mid <= j < hi && members[i] < |ds.vectors| && members[j] < |ds.vectors| ==>
                             ds.vectors[members[i]][splitDim] <= ds.vectors[members[j]][splitDim]
    ensures multiset(members[lo..hi]) == old(multiset(members[lo..hi]))
    ensures multiset(members[lo..mid] + members[mid..hi]) == multiset(old(members[lo..hi]))
    ensures forall k :: 0 <= k < lo || hi <= k < members.Length ==> members[k] == old(members[k])
  {
    splitDim := WidestDim(box);
    SortRange(ds, members, lo, hi, splitDim);
    mid := lo + (hi - lo) / 2;
    forall i, j | lo <= i < mid <= j < hi && members[i] < |ds.vectors| && members[j] < |ds.vectors|
      ensures ds.vectors[members[i]][splitDim] <= ds.vectors[members[j]][splitDim]
    {
      assert members[i] == members[lo..hi][i - lo] && members[j] == members[lo..hi][j - lo];
    }
    assert members[lo..mid] + members[mid..hi] == members[lo..hi];
  }

  lemma HalvesFresh(ds: Dataset, owner: seq<Id>, ms: seq<nat>, ls: seq<nat>, rs: seq<nat>)
    requires InData(ds, ms) && Fresh(owner, ms) && multiset(ls + rs) == multiset(ms)
    ensures InData(ds, ls) && InData(ds, rs) && Fresh(owner, ls) && Fresh(owner, rs)
    ensures forall m :: m in ms <==> m in ls || m in rs
    ensures forall m :: m in ls ==> m !in rs
  {
    var all := ls + rs;
    PermutedDistinct(ms, all);
    PermutedMembers(ms, all);
    forall k | 0 <= k < |all|
      ensures all[k] < |ds.vectors| && Ref(all[k]) !in owner
    {
      assert all[k] in ms;
    }
    assert forall k :: 0 <= k < |ls| ==> all[k] == ls[k];
    assert forall k :: 0 <= k < |rs| ==> all[|ls| + k] == rs[k];
    forall m | m in ls
      ensures m !in rs
    {
      var i :| 0 <= i < |ls| && ls[i] == m;
      forall j | 0 <= j < |rs|
        ensures rs[j] != m
      {
        assert all[i] != all[|ls| + j];
      }
    }
  }

  /** The right half is still to be placed after the left half has been. */
  lemma StillFresh(ds: Dataset, nodes0: seq<Node>, owner0: seq<Id>, nodes1: seq<Node>, owner1: seq<Id>, l: Tree,
                   ls: seq<nat>, rs: seq<nat>)
    requires Grown(ds, nodes0, owner0, nodes1, owner1, l, ls) && Fresh(owner0, rs)
    requires forall m :: m in ls ==> m !in rs
    ensures Fresh(owner1, rs)
  {
    assert TreeAdded(ds, |owner0|, nodes1, owner1, l, ls, 0);
    forall k | 0 <= k < |rs|
      ensures Ref(rs[k]) !in owner1
    {
      forall g | 0 <= g < |owner1|
        ensures owner1[g] != Ref(rs[k])
      {
        if g < |owner0| {
          assert owner0[g] in owner0;
        } else {
          assert rs[k] in rs;
        }
      }
    }
  }

  lemma LeafLanesNext(ms: seq<nat>, base: nat, b: nat)
    requires b * 8 < |ms|
    ensures LeafLanes(ms, base, b * 8) + LeafLanes(ms[b * 8..], base + b * 8, 8) == LeafLanes(ms, base, (b + 1) * 8)
  {
  }

  // ----- The whole index -----

  function KeyOf(ds: Dataset, m: nat): nat {
    if m < |ds.vectors| then PartitionKey(ds.vectors[m]) else 256
  }

  /** The buckets of the first n references: each under its own key, once. */
  ghost predicate Bucketed(ds: Dataset, buckets: map<nat, seq<nat>>, n: nat) {
    && (forall k :: k in buckets ==> OneKey(ds, buckets[k], k, n))
    && (forall m: nat :: m < n ==> KeyOf(ds, m) in buckets && m in buckets[KeyOf(ds, m)])
  }

  ghost predicate OneKey(ds: Dataset, bucket: seq<nat>, k: nat, n: nat) {
    && k < 256 && bucket != [] && Ascending(bucket, n)
    && forall j :: 0 <= j < |bucket| ==> KeyOf(ds, bucket[j]) == k
  }

  ghost predicate Ascending(s: seq<nat>, n: nat) {
    && (forall i, j :: 0 <= i < j < |s| ==> s[i] < s[j])
    && (forall i :: 0 <= i < |s| ==> s[i] < n)
  }

  method Bucket(ds: Dataset) returns (buckets: map<nat, seq<nat>>)
    ensures Bucketed(ds, buckets, |ds.vectors|)
  {
    buckets := map[];
    for i := 0 to |ds.vectors|
      invariant Bucketed(ds, buckets, i)
    {
      buckets := BucketOne(ds, buckets, i);
    }
  }

  /** Puts reference i at the end of the bucket of its key. */
  method BucketOne(ds: Dataset, buckets: map<nat, seq<nat>>, i: nat) returns (after: map<nat, seq<nat>>)
    requires i < |ds.vectors| && Bucketed(ds, buckets, i)
    ensures Bucketed(ds, after, i + 1)
  {
    var key := ComputeKey(ds.vectors[i]);
    var old' := if key in buckets then buckets[key] else [];
    after := buckets[key := old' + [i]];
    BucketedNext(ds, buckets, after, i, key, old');
  }

  lemma BucketedNext(ds: Dataset, before: map<nat, seq<nat>>, after: map<nat, seq<nat>>, i: nat, key: nat,
                     old': seq<nat>)
    requires i < |ds.vectors| && key == KeyOf(ds, i) && Bucketed(ds, before, i)
    requires old' == (if key in before then before[key] else []) && after == before[key := old' + [i]]
    ensures Bucketed(ds, after, i + 1)
  {
    assert key in before ==> OneKey(ds, before[key], key, i);
    OneKeyNext(ds, old', i, key);
    forall k | k in after
      ensures OneKey(ds, after[k], k, i + 1)
    {
      if k != key {
        assert OneKey(ds, before[k], k, i);
      }
    }
    forall m: nat | m < i + 1
      ensures KeyOf(ds, m) in after && m in after[KeyOf(ds, m)]
    {
      MemberKept(ds, before, after, i, key, old', m);
    }
  }

  lemma OneKeyNext(ds: Dataset, old': seq<nat>, i: nat, key: nat)
    requires i < |ds.vectors| && key == KeyOf(ds, i) && (old' == [] || OneKey(ds, old', key, i))
    ensures OneKey(ds, old' + [i], key, i + 1)
  {
  }

  lemma MemberKept(ds: Dataset, before: map<nat, seq<nat>>, after: map<nat, seq<nat>>, i: nat, key: nat, old': seq<nat>,
                   m: nat)
    requires m <= i < |ds.vectors| && key == KeyOf(ds, i)
    requires m < i ==> KeyOf(ds, m) in before && m in before[KeyOf(ds, m)]
    requires old' == (if key in before then before[key] else []) && after == before[key := old' + [i]]
    ensures KeyOf(ds, m) in after && m in after[KeyOf(ds, m)]
  {
    if m == i {
      assert after[key][|old'|] == i;
    }
  }

  /** The elements of a set of numbers in ascending order. */
  method SortedKeys(ks: set<nat>) returns (keys: seq<nat>)
    ensures forall i, j :: 0 <= i < j < |keys| ==> keys[i] < keys[j]
    ensures forall k :: k in keys <==> k in ks
  {
    keys := [];
    var rest := ks;
    while rest != {}
      invariant forall i, j :: 0 <= i < j < |keys| ==> keys[i] < keys[j]
      invariant rest <= ks && forall k :: k in keys <==> k in ks && k !in rest
      decreases rest
    {
      var k :| k in rest;
      rest := rest - {k};
      keys := InsertKey(keys, k);
    }
  }

  function InsertKey(keys: seq<nat>, k: nat): (out: seq<nat>)
    requires (forall i, j :: 0 <= i < j < |keys| ==> keys[i] < keys[j]) && k !in keys
    ensures forall i, j :: 0 <= i < j < |out| ==> out[i] < out[j]
    ensures forall x :: x in out <==> x == k || x in keys
  {
    var n := |keys| - 1;
    if keys == [] || keys[n] < k then keys + [k]
    else
      assert keys == keys[..n] + [keys[n]];
      var front := InsertKey(keys[..n], k);
      StayBelow(keys[..n], k, front, keys[n]);
      front + [keys[n]]
  }

  lemma StayBelow(keys: seq<nat>, k: nat, front: seq<nat>, last: nat)
    requires k < last && (forall i :: 0 <= i < |keys| ==> keys[i] < last)
    requires forall x :: x in front ==> x == k || x in keys
    ensures forall i :: 0 <= i < |front| ==> front[i] < last
  {
    forall i | 0 <= i < |front|
      ensures front[i] < last
    {
      assert front[i] in front;
    }
  }

  lemma {:induction false} AscendingBound(keys: seq<nat>, n: nat)
    requires forall i, j :: 0 <= i < j < |keys| ==> keys[i] < keys[j]
    requires forall i :: 0 <= i < |keys| ==> keys[i] < n
    ensures |keys| <= n
  {
    if keys != [] {
      var last := |keys| - 1;
      AscendingBound(keys[..last], keys[last]);
    }
  }

  /** Partitions, trees and lanes after the first j keys have been built. */
  ghost predicate BuiltUpTo(ds: Dataset, keys: seq<nat>, j: nat, partitions: seq<Partition>, nodes: seq<Node>,
                            owner: seq<Id>, trees: seq<Tree>)
    requires j <= |keys|
  {
    && |partitions| == |trees| == j && EndOf(trees, j) * 8 == |owner|
    && (forall i :: 0 <= i < j ==> RootedFor(ds, keys, partitions, nodes, owner, trees, i))
    && (forall m: nat {:trigger KeyOf(ds, m)} :: m < |ds.vectors| ==>
          (KeyOf(ds, m) in keys[..j] <==> Ref(m) in Owners(owner, 0, |owner|)))
  }

  /** Tree i is well built, and holds the references of key i. */
  ghost predicate RootedFor(ds: Dataset, keys: seq<nat>, partitions: seq<Partition>, nodes: seq<Node>, owner: seq<Id>,
                            trees: seq<Tree>, i: nat)
    requires i < |trees| == |partitions| && i < |keys|
  {
    && Rooted(ds, partitions, nodes, owner, trees, i) && partitions[i].key == keys[i]
    && OfKey(ds, owner, trees[i], keys[i])
  }

  /** The references below t are exactly those with the given key. */
  ghost predicate OfKey(ds: Dataset, owner: seq<Id>, t: Tree, key: nat) {
    forall m: nat {:trigger KeyOf(ds, m)} :: m < |ds.vectors| ==> (Ref(m) in TreeIds(owner, t) <==> KeyOf(ds, m) == key)
  }

  lemma TreeOfKey(ds: Dataset, from: nat, nodes: seq<Node>, owner: seq<Id>, t: Tree, buckets: map<nat, seq<nat>>,
                  key: nat)
    requires from <= |owner| && key in buckets && Bucketed(ds, buckets, |ds.vectors|)
    requires TreeAdded(ds, from, nodes, owner, t, buckets[key], 0)
    ensures OfKey(ds, owner, t, key)
  {
    var ms := buckets[key];
    assert WellBuilt(ds, owner, nodes, t);
    forall m: nat | m < |ds.vectors|
      ensures Ref(m) in TreeIds(owner, t) <==> KeyOf(ds, m) == key
    {
      if KeyOf(ds, m) == key {
        assert m in ms;
      }
      if Ref(m) in Owners(owner, from, |owner|) {
        var g := OwnerLane(owner, from, |owner|, Ref(m));
        var j :| 0 <= j < |ms| && ms[j] == m;
      }
    }
  }

  lemma OfKeyGrows(ds: Dataset, owner: seq<Id>, owner': seq<Id>, t: Tree, key: nat)
    requires OfKey(ds, owner, t, key) && owner <= owner' && Lo(t) <= Hi(t) && Hi(t) * 8 <= |owner|
    ensures OfKey(ds, owner', t, key)
  {
    OwnersPrefix(owner, owner', Lo(t) * 8, Hi(t) * 8);
  }

  /** Building the tree of key j extends everything by one. */
  lemma BuiltNext(ds: Dataset, keys: seq<nat>, j: nat, buckets: map<nat, seq<nat>>, partitions: seq<Partition>,
                  nodes: seq<Node>, owner: seq<Id>, trees: seq<Tree>, nodes': seq<Node>, owner': seq<Id>, t: Tree,
                  p: Partition)
    requires ValidDataset(ds) && |ds.vectors| <= 0x1_0000_0000 && Bucketed(ds, buckets, |ds.vectors|)
    requires j < |keys| && keys[j] in buckets && BuiltUpTo(ds, keys, j, partitions, nodes, owner, trees)
    requires Grown(ds, nodes, owner, nodes', owner', t, buckets[keys[j]])
    requires t.node < |nodes'| && p == Partition(keys[j], t.node, nodes'[t.node].box)
    ensures BuiltUpTo(ds, keys, j + 1, partitions + [p], nodes', owner', trees + [t])
  {
    HeightBound(ds, buckets[keys[j]], t);
    assert TreeAdded(ds, |owner|, nodes', owner', t, buckets[keys[j]], 0);
    TreeOfKey(ds, |owner|, nodes', owner', t, buckets, keys[j]);
    TreesKept(ds, keys, j, partitions, nodes, owner, trees, nodes', owner', t, p);
    forall m: nat {:trigger KeyOf(ds, m)} | m < |ds.vectors|
      ensures KeyOf(ds, m) in keys[..j + 1] <==> Ref(m) in Owners(owner', 0, |owner'|)
    {
      KeyHeld(keys, j, KeyOf(ds, m), owner, owner', Ref(m));
    }
  }

  /** A reference is held so far exactly if its key is one of those built. */
  lemma KeyHeld(keys: seq<nat>, j: nat, key: nat, owner: seq<Id>, owner': seq<Id>, x: Id)
    requires j < |keys| && owner <= owner'
    requires key in keys[..j] <==> x in Owners(owner, 0, |owner|)
    requires key == keys[j] <==> x in Owners(owner', |owner|, |owner'|)
    ensures key in keys[..j + 1] <==> x in Owners(owner', 0, |owner'|)
  {
    OwnersPrefix(owner, owner', 0, |owner|);
    OwnersSplit(owner', 0, |owner|, |owner'|);
    assert keys[..j + 1] == keys[..j] + [keys[j]];
  }

  lemma TreesKept(ds: Dataset, keys: seq<nat>, j: nat, partitions: seq<Partition>, nodes: seq<Node>,
                  owner: seq<Id>, trees: seq<Tree>, nodes': seq<Node>, owner': seq<Id>, t: Tree, p: Partition)
    requires j < |keys| && BuiltUpTo(ds, keys, j, partitions, nodes, owner, trees)
    requires nodes <= nodes' && owner <= owner' && WellBuilt(ds, owner', nodes', t) && Lo(t) * 8 == |owner|
    requires Height(t) <= TREE_STACK_CAP && OfKey(ds, owner', t, keys[j])
    requires p == Partition(keys[j], t.node, nodes'[t.node].box)
    ensures var ps, ts := partitions + [p], trees + [t];
            forall i :: 0 <= i < j + 1 ==> RootedFor(ds, keys, ps, nodes', owner', ts, i)
  {
    var ps, ts := partitions + [p], trees + [t];
    LastTree(ds, keys, j, partitions, trees, nodes', owner', t, p);
    forall i | 0 <= i < j
      ensures RootedFor(ds, keys, ps, nodes', owner', ts, i)
    {
      TreeKept(ds, keys, j, partitions, nodes, owner, trees, nodes', owner', ts, ps, i);
    }
  }

  lemma LastTree(ds: Dataset, keys: seq<nat>, j: nat, partitions: seq<Partition>, trees: seq<Tree>,
                 nodes: seq<Node>, owner: seq<Id>, t: Tree, p: Partition)
    requires |partitions| == |trees| == j < |keys| && WellBuilt(ds, owner, nodes, t) && Lo(t) == EndOf(trees, j)
    requires Height(t) <= TREE_STACK_CAP && OfKey(ds, owner, t, keys[j])
    requires p == Partition(keys[j], t.node, nodes[t.node].box)
    ensures var ps, ts := partitions + [p], trees + [t]; RootedFor(ds, keys, ps, nodes, owner, ts, j)
  {
    NewTree(ds, partitions + [p], nodes, owner, trees + [t], j, trees);
  }

  lemma NewTree(ds: Dataset, ps: seq<Partition>, nodes: seq<Node>, owner: seq<Id>, ts: seq<Tree>, j: nat,
                trees: seq<Tree>)
    requires |ts| == |ps| == j + 1 && |trees| == j && trees <= ts
    requires WellBuilt(ds, owner, nodes, ts[j]) && Height(ts[j]) <= TREE_STACK_CAP && Lo(ts[j]) == EndOf(trees, j)
    requires ts[j].node == ps[j].root && nodes[ts[j].node].box == ps[j].box
    ensures Rooted(ds, ps, nodes, owner, ts, j)
  {
    assert EndOf(ts, j) == EndOf(trees, j);
  }

  lemma TreeKept(ds: Dataset, keys: seq<nat>, j: nat, partitions: seq<Partition>, nodes: seq<Node>,
                 owner: seq<Id>, trees: seq<Tree>, nodes': seq<Node>, owner': seq<Id>, ts: seq<Tree>,
                 ps: seq<Partition>, i: nat)
    requires i < j < |keys| && BuiltUpTo(ds, keys, j, partitions, nodes, owner, trees)
    requires nodes <= nodes' && owner <= owner' && trees <= ts && partitions <= ps && |ts| == |ps|
    ensures RootedFor(ds, keys, ps, nodes', owner', ts, i)
  {
    assert RootedFor(ds, keys, partitions, nodes, owner, trees, i);
    assert ts[i] == trees[i] && ps[i] == partitions[i] && EndOf(ts, i) == EndOf(trees, i);
    WellBuiltGrows(ds, owner, nodes, trees[i], owner', nodes');
    OfKeyGrows(ds, owner, owner', trees[i], keys[i]);
  }

  /** A bucket of fewer than 2^32 references makes a tree far lower than the stack. */
  lemma HeightBound(ds: Dataset, ms: seq<nat>, t: Tree)
    requires FitsHeight(|ms|, t) && |ds.vectors| <= 0x1_0000_0000 && Ascending(ms, |ds.vectors|)
    ensures Height(t) <= 25 < TREE_STACK_CAP
  {
    AscendingBound(ms, |ds.vectors|);
    assert Capacity(5) == 4096;
    assert Capacity(10) == 131072;
    assert Capacity(15) == 4194304;
    assert Capacity(20) == 134217728;
    assert Capacity(25) == 4294967296;
  }

  /** Flattens the blocks into one run of numbers and one of labels. */
  method Flatten(ds: Dataset, blocks: seq<seq<Int16>>, labels: seq<seq<nat>>, ghost owner: seq<Id>)
    returns (data: seq<Int16>, flat: seq<nat>)
    requires Laid(ds, blocks, labels, owner) && Injective(owner)
    ensures Stored(ds, data, flat, owner, |blocks|)
  {
    data, flat := [], [];
    for b := 0 to |blocks|
      invariant |data| == b * 112 && |flat| == b * 8
      invariant forall c :: 0 <= c < b ==> data[c * 112..c * 112 + 112] == blocks[c]
      invariant forall c :: 0 <= c < b ==> flat[c * 8..c * 8 + 8] == labels[c]
    {
      assert BlockFilled(ds, blocks, labels, owner, b);
      ghost var data0, flat0 := data, flat;
      data, flat := data + blocks[b], flat + labels[b];
      forall c | 0 <= c < b
        ensures data[c * 112..c * 112 + 112] == blocks[c] && flat[c * 8..c * 8 + 8] == labels[c]
      {
        assert data[c * 112..c * 112 + 112] == data0[c * 112..c * 112 + 112];
        assert flat[c * 8..c * 8 + 8] == flat0[c * 8..c * 8 + 8];
      }
    }
    forall b, l | 0 <= b < |blocks| && 0 <= l < LANES
      ensures Holds(ds, data, flat, owner, b, l)
    {
      FlatHolds(ds, blocks, labels, owner, data, flat, b, l);
    }
  }

  lemma FlatHolds(ds: Dataset, blocks: seq<seq<Int16>>, labels: seq<seq<nat>>, owner: seq<Id>, data: seq<Int16>,
                  flat: seq<nat>, b: nat, l: nat)
    requires Laid(ds, blocks, labels, owner) && b < |blocks| && l < LANES
    requires |data| == |blocks| * 112 && |flat| == |blocks| * 8
    requires data[b * 112..b * 112 + 112] == blocks[b] && flat[b * 8..b * 8 + 8] == labels[b]
    ensures Holds(ds, data, flat, owner, b, l)
  {
    assert BlockFilled(ds, blocks, labels, owner, b);
    assert LaneFilled(ds, blocks[b], labels[b], owner[b * 8..b * 8 + 8], l);
    assert flat[b * 8 + l] == flat[b * 8..b * 8 + 8][l] && owner[b * 8 + l] == owner[b * 8..b * 8 + 8][l];
    FlatLane(data, blocks[b], b, l);
  }

  /** A lane of a block where the block lies in the flat layout. */
  lemma FlatLane(data: seq<Int16>, blk: seq<Int16>, b: nat, l: nat)
    requires |blk| == 112 && (b + 1) * 112 <= |data| && data[b * 112..b * 112 + 112] == blk && l < LANES
    ensures LaneVec(data, b, l) == LaneVec(blk, 0, l)
  {
    forall d: nat | d < DIMS
      ensures LaneVec(data, b, l)[d] == LaneVec(blk, 0, l)[d]
    {
      assert data[b * 112 + At(0, d, l)] == data[b * 112..b * 112 + 112][At(0, d, l)];
    }
  }

  /** Builds the index. The partitions come in ascending key order, each holding
      exactly the references with its key. */
  method Build(ds: Dataset) returns (idx: SpecialistIndex, ghost owner: seq<Id>, ghost trees: seq<Tree>)
    requires ValidDataset(ds) && |ds.vectors| <= 0x1_0000_0000
    ensures Indexed(ds, idx, owner, trees) && Complete(ds, owner) && (ds.vectors == [] ==> owner == [])
    ensures forall i, j :: 0 <= i < j < |idx.partitions| ==> idx.partitions[i].key < idx.partitions[j].key
    ensures forall i :: 0 <= i < |trees| ==> OfKey(ds, owner, trees[i], idx.partitions[i].key)
  {
    var buckets := Bucket(ds);
    var keys := SortedKeys(buckets.Keys);
    KeysBounded(ds, buckets, keys);
    var builder := new Builder();
    var partitions := [];
    trees := [];
    for j := 0 to |keys|
      invariant fresh(builder) && builder.Valid(ds) && Placed(ds, builder.owner)
      invariant BuiltUpTo(ds, keys, j, partitions, builder.nodes, builder.owner, trees)
    {
      var p, t := BuildPartition(ds, builder, buckets, keys, j, partitions, trees);
      partitions, trees := partitions + [p], trees + [t];
    }
    owner := builder.owner;
    var data, flat := Flatten(ds, builder.blocks, builder.labels, owner);
    idx := SpecialistIndex(partitions, builder.nodes, |builder.blocks|, data, flat);
    EveryKeyBuilt(ds, buckets, keys, partitions, builder.nodes, owner, trees);
    KeysNeedVectors(ds, buckets, keys);
    AllRooted(ds, keys, partitions, builder.nodes, owner, trees);
  }

  lemma AllRooted(ds: Dataset, keys: seq<nat>, partitions: seq<Partition>, nodes: seq<Node>, owner: seq<Id>,
                  trees: seq<Tree>)
    requires BuiltUpTo(ds, keys, |keys|, partitions, nodes, owner, trees)
    ensures forall i :: 0 <= i < |trees| ==> Rooted(ds, partitions, nodes, owner, trees, i)
    ensures forall i :: 0 <= i < |partitions| ==> partitions[i].key == keys[i]
    ensures forall i :: 0 <= i < |trees| ==> OfKey(ds, owner, trees[i], partitions[i].key)
  {
    forall i | 0 <= i < |trees|
      ensures Rooted(ds, partitions, nodes, owner, trees, i) && partitions[i].key == keys[i]
              && OfKey(ds, owner, trees[i], partitions[i].key)
    {
      assert RootedFor(ds, keys, partitions, nodes, owner, trees, i);
    }
  }

  lemma KeysNeedVectors(ds: Dataset, buckets: map<nat, seq<nat>>, keys: seq<nat>)
    requires Bucketed(ds, buckets, |ds.vectors|) && forall k :: k in keys <==> k in buckets.Keys
    ensures keys != [] ==> ds.vectors != []
  {
    if keys != [] {
      assert keys[0] in keys;
      assert buckets[keys[0]][0] < |ds.vectors|;
    }
  }

  /** Fewer than 384 keys, so the directory of partitions always fits. */
  lemma KeysBounded(ds: Dataset, buckets: map<nat, seq<nat>>, keys: seq<nat>)
    requires Bucketed(ds, buckets, |ds.vectors|) && forall k :: k in keys <==> k in buckets.Keys
    requires forall i, j :: 0 <= i < j < |keys| ==> keys[i] < keys[j]
    ensures |keys| <= 256 < MAX_PARTITIONS
  {
    assert forall i :: 0 <= i < |keys| ==> keys[i] in keys;
    AscendingBound(keys, 256);
  }

  lemma EveryKeyBuilt(ds: Dataset, buckets: map<nat, seq<nat>>, keys: seq<nat>, partitions: seq<Partition>,
                      nodes: seq<Node>, owner: seq<Id>, trees: seq<Tree>)
    requires Bucketed(ds, buckets, |ds.vectors|) && forall k :: k in keys <==> k in buckets.Keys
    requires BuiltUpTo(ds, keys, |keys|, partitions, nodes, owner, trees) && Placed(ds, owner)
    ensures Complete(ds, owner)
  {
    assert keys[..|keys|] == keys;
    forall m: nat | m < |ds.vectors|
      ensures Ref(m) in Owners(owner, 0, |owner|)
    {
      assert KeyOf(ds, m) in keys;
    }
  }

  /** Builds the tree of key number j. */
  method BuildPartition(ds: Dataset, builder: Builder, buckets: map<nat, seq<nat>>, keys: seq<nat>, j: nat,
                        ghost partitions: seq<Partition>, ghost trees: seq<Tree>)
    returns (p: Partition, ghost t: Tree)
    requires ValidDataset(ds) && |ds.vectors| <= 0x1_0000_0000 && Bucketed(ds, buckets, |ds.vectors|)
    requires j < |keys| && keys[j] in buckets && (forall i :: 0 <= i < j ==> keys[i] < keys[j])
    requires builder.Valid(ds) && Placed(ds, builder.owner)
    requires BuiltUpTo(ds, keys, j, partitions, builder.nodes, builder.owner, trees)
    modifies builder
    ensures builder.Valid(ds) && Placed(ds, builder.owner)
    ensures BuiltUpTo(ds, keys, j + 1, partitions + [p], builder.nodes, builder.owner, trees + [t])
  {
    ghost var nodes0, owner0 := builder.nodes, builder.owner;
    var ms := buckets[keys[j]];
    var members := new nat[|ms|](i requires 0 <= i < |ms| => ms[i]);
    assert members[0..|ms|] == ms;
    BucketFresh(ds, owner0, buckets, keys, j, partitions, nodes0, trees);
    var root;
    root, t := builder.BuildKdTree(ds, members, 0, |ms|);
    p := Partition(keys[j], root, builder.nodes[root].box);
    BuiltNext(ds, keys, j, buckets, partitions, nodes0, owner0, trees, builder.nodes, builder.owner, t, p);
    StillPlaced(ds, nodes0, owner0, builder.nodes, builder.owner, t, ms);
  }

  lemma BucketFresh(ds: Dataset, owner: seq<Id>, buckets: map<nat, seq<nat>>, keys: seq<nat>, j: nat,
                    partitions: seq<Partition>, nodes: seq<Node>, trees: seq<Tree>)
    requires Bucketed(ds, buckets, |ds.vectors|) && j < |keys| && keys[j] in buckets
    requires forall i :: 0 <= i < j ==> keys[i] < keys[j]
    requires BuiltUpTo(ds, keys, j, partitions, nodes, owner, trees)
    ensures InData(ds, buckets[keys[j]]) && Fresh(owner, buckets[keys[j]])
  {
    var ms := buckets[keys[j]];
    assert keys[j] !in keys[..j];
    forall k | 0 <= k < |ms|
      ensures Ref(ms[k]) !in owner
    {
      assert KeyOf(ds, ms[k]) == keys[j];
      if Ref(ms[k]) in owner {
        var g :| 0 <= g < |owner| && owner[g] == Ref(ms[k]);
        OwnersContain(owner, 0, |owner|, g);
        assert false;
      }
    }
  }

  lemma StillPlaced(ds: Dataset, nodes0: seq<Node>, owner0: seq<Id>, nodes: seq<Node>, owner: seq<Id>, t: Tree,
                    ms: seq<nat>)
    requires Placed(ds, owner0) && Grown(ds, nodes0, owner0, nodes, owner, t, ms) && InData(ds, ms)
    ensures Placed(ds, owner)
  {
    assert TreeAdded(ds, |owner0|, nodes, owner, t, ms, 0);
    forall g | 0 <= g < |owner|
      ensures owner[g] == Phantom(g) || (owner[g].Ref? && owner[g].i < |ds.vectors|)
    {
      if |owner0| <= g && owner[g].Ref? {
        var k :| 0 <= k < |ms| && ms[k] == owner[g].i;
      }
    }
  }
}
