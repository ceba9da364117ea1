/** Exact search over the specialist index: the same-key tree first, then the
    other partitions by ascending box bound, each tree walked with an explicit
    bounded stack. */
module SpecialistSearch {
  import opened Geometry
  import opened TopFive
  import opened Float32
  import opened Kernels
  import opened Blocks
  import opened Lanes
  import opened KdTree

  datatype PartBound = PartBound(bound: real, idx: nat)

  class SearchScratch {
    const partBounds: array<PartBound>
    const stackNodes: array<nat>
    const stackBounds: array<real>
    const top: Top5
    const blockSum: array<real>

    ghost predicate Valid()
      reads this, top, top.dist, top.lab
    {
      && partBounds.Length == MAX_PARTITIONS
      && stackNodes.Length == TREE_STACK_CAP && stackBounds.Length == TREE_STACK_CAP && blockSum.Length == LANES
      && top.Valid()
      && blockSum != stackBounds && stackNodes != top.lab
      && (top.dist as object) != stackNodes && (top.dist as object) != stackBounds
      && (top.dist as object) != blockSum && (top.lab as object) != stackBounds && (top.lab as object) != blockSum
      && (stackNodes as object) != stackBounds && (stackNodes as object) != blockSum
      && (partBounds as object) != stackNodes && (partBounds as object) != stackBounds
          && (partBounds as object) != blockSum
      && (partBounds as object) != top.dist && (partBounds as object) != top.lab
    }

    constructor ()
      ensures Valid()
      ensures fresh(this) && fresh(partBounds) && fresh(stackNodes) && fresh(stackBounds) && fresh(blockSum)
      ensures fresh(top) && fresh(top.dist) && fresh(top.lab)
    {
      partBounds := new PartBound[MAX_PARTITIONS](_ => PartBound(0.0, 0));
      stackNodes := new nat[TREE_STACK_CAP];
      stackBounds := new real[TREE_STACK_CAP];
      top := new Top5();
      blockSum := new real[LANES];
    }
  }


  /** What the rounding function, the kernel choice and the query fix for one search. */
  datatype Setup = Setup(fl: real -> real, kernel: Kernel, fused: bool, q: Vec, idx: SpecialistIndex)

  ghost predicate Ready(f: Id -> int, u: Setup, ds: Dataset, owner: seq<Id>) {
    Rounds(u.fl) && Measures(f, u.q, ds) && Quantized(u.q)
        && Stored(ds, u.idx.blockData, u.idx.labels, owner, u.idx.blockCount)
  }

  ghost function NodeBound(u: Setup, i: nat): real {
    if i < |u.idx.nodes| && ValidBox(u.idx.nodes[i].box) then Bound(u.fl, u.fused, u.q, u.idx.nodes[i].box) else 0.0
  }

  /** The stack arrays list the pending trees, top last, each with its bound. */
  ghost predicate StackHolds(u: Setup, nodes: seq<nat>, bounds: seq<real>, p: Pending)
    decreases p
  {
    if p.Nothing? then |nodes| == 0 && |bounds| == 0
    else
      var n := |nodes| - 1;
      && 0 <= n && |bounds| == n + 1
      && nodes[n] == p.tree.node && bounds[n] == NodeBound(u, p.tree.node)
      && StackHolds(u, nodes[..n], bounds[..n], p.rest)
  }

  lemma StackDepth(u: Setup, nodes: seq<nat>, bounds: seq<real>, p: Pending)
    requires StackHolds(u, nodes, bounds, p)
    ensures |nodes| == |bounds| == Depth(p)
    decreases p
  {
  }

  lemma StackPushed(u: Setup, nodes: seq<nat>, bounds: seq<real>, p: Pending, t: Tree)
    requires StackHolds(u, nodes, bounds, p)
    ensures StackHolds(u, nodes + [t.node], bounds + [NodeBound(u, t.node)], Then(t, p))
  {
    StackDepth(u, nodes, bounds, p);
    assert (nodes + [t.node])[..|nodes|] == nodes;
    assert (bounds + [NodeBound(u, t.node)])[..|nodes|] == bounds;
  }

  /** The walk so far is right: the top five is best among the candidates of
      goal that are not pending any more. */
  ghost predicate Walking(f: Id -> int, u: Setup, ds: Dataset, owner: seq<Id>, ids: seq<Id>, p: Pending,
                          goal: set<Id>) {
    Outstanding(ds, owner, u.idx.nodes, p, goal) && Best5(f, ids, Seen(owner, p, goal))
  }

  /** A pending tree whose bound reaches the threshold can be dropped. */
  lemma Prune(f: Id -> int, u: Setup, ds: Dataset, owner: seq<Id>, ids: seq<Id>, p: Pending, goal: set<Id>)
    requires Ready(f, u, ds, owner) && p.Then? && Walking(f, u, ds, owner, ids, p, goal)
    requires NodeBound(u, p.tree.node) >= Threshold(u.fl, f(ids[4]))
    ensures Walking(f, u, ds, owner, ids, p.rest, goal) && Work(p.rest) < Work(p)
  {
    var t := p.tree;
    assert WellBuilt(ds, owner, u.idx.nodes, t);
    Finish(ds, owner, u.idx.nodes, p, goal);
    PruneKeepsBest(f, u.fl, u.fused, false, u.q, ds, owner, u.idx.nodes[t.node].box, Lo(t), Hi(t), ids,
        Seen(owner, p, goal));
  }

  /** An internal node is replaced by its near child, with the far child on the stack. */
  lemma PushFar(f: Id -> int, u: Setup, ds: Dataset, owner: seq<Id>, ids: seq<Id>, p: Pending, goal: set<Id>,
                near: Tree, far: Tree)
    requires Ready(f, u, ds, owner) && p.Then? && Walking(f, u, ds, owner, ids, p, goal) && Children(p.tree, near, far)
    ensures Depth(p.rest) < TREE_STACK_CAP
    ensures Walking(f, u, ds, owner, ids, Then(near, Then(far, p.rest)), goal)
    ensures Work(Then(near, Then(far, p.rest))) < Work(p)
  {
    Expand(ds, owner, u.idx.nodes, p, goal, near, far);
  }

  /** The far child is pruned. */
  lemma DropFar(f: Id -> int, u: Setup, ds: Dataset, owner: seq<Id>, ids: seq<Id>, p: Pending, goal: set<Id>,
                near: Tree, far: Tree)
    requires Ready(f, u, ds, owner) && p.Then? && Walking(f, u, ds, owner, ids, p, goal) && Children(p.tree, near, far)
    requires NodeBound(u, far.node) >= Threshold(u.fl, f(ids[4]))
    ensures Walking(f, u, ds, owner, ids, Then(near, p.rest), goal)
    ensures Work(Then(near, p.rest)) < Work(p)
  {
    PushFar(f, u, ds, owner, ids, p, goal, far, near);
    Prune(f, u, ds, owner, ids, Then(far, Then(near, p.rest)), goal);
  }

  /** Computes the bound of one node's box. */
  method BoundOf(u: Setup, i: nat) returns (bound: real)
    requires i < |u.idx.nodes| && ValidBox(u.idx.nodes[i].box)
    ensures bound == NodeBound(u, i)
  {
    bound := AabbLowerBoundF32(u.fl, u.fused, false, u.q, u.idx.nodes[i].box);
  }

  /** Bounds both children of an internal node and says which is nearer. */
  method NearAndFar(u: Setup, node: Node, ghost ds: Dataset, ghost owner: seq<Id>, ghost t: Tree)
    returns (nearIdx: nat, nearBound: real, farIdx: nat, farBound: real, ghost near: Tree, ghost far: Tree)
    requires WellBuilt(ds, owner, u.idx.nodes, t) && t.Fork? && node == u.idx.nodes[t.node]
    ensures Children(t, near, far) && nearIdx == near.node && farIdx == far.node && nearBound <= farBound
    ensures nearBound == NodeBound(u, nearIdx) && farBound == NodeBound(u, farIdx)
  {
    assert WellBuilt(ds, owner, u.idx.nodes, t.left) && WellBuilt(ds, owner, u.idx.nodes, t.right);
    var lb := BoundOf(u, node.left);
    var rb := BoundOf(u, node.right);
    if lb <= rb {
      nearIdx, nearBound, farIdx, farBound := node.left, lb, node.right, rb;
      near, far := t.left, t.right;
    } else {
      nearIdx, nearBound, farIdx, farBound := node.right, rb, node.left, lb;
      near, far := t.right, t.left;
    }
  }

  /** At an internal node: stack the far child if it could still matter, and go
      down into the near one if it could. */
  method Descend(ghost f: Id -> int, u: Setup, current: nat, worst: real, sc: SearchScratch, len: nat,
                 ghost ds: Dataset, ghost owner: seq<Id>, ghost p: Pending, ghost goal: set<Id>)
    returns (down: bool, next: nat, nextBound: real, len': nat, ghost p': Pending)
    requires Ready(f, u, ds, owner) && sc.Valid() && len <= TREE_STACK_CAP
    requires p.Then? && p.tree.Fork? && p.tree.node == current && Walking(f, u, ds, owner, sc.top.ids, p, goal)
    requires worst == Threshold(u.fl, f(sc.top.ids[4]))
    requires StackHolds(u, sc.stackNodes[..len], sc.stackBounds[..len], p.rest)
    modifies sc.stackNodes, sc.stackBounds
    ensures Walking(f, u, ds, owner, sc.top.ids, p', goal) && Work(p') < Work(p) && len' <= TREE_STACK_CAP
    ensures down ==> p'.Then? && next == p'.tree.node && nextBound == NodeBound(u, next)
                     && StackHolds(u, sc.stackNodes[..len'], sc.stackBounds[..len'], p'.rest)
    ensures !down ==> len' == len && StackHolds(u, sc.stackNodes[..len], sc.stackBounds[..len], p')
  {
    var nearIdx, nearBound, farIdx, farBound;
    ghost var near, far;
    nearIdx, nearBound, farIdx, farBound, near, far := NearAndFar(u, u.idx.nodes[current], ds, owner, p.tree);
    PushFar(f, u, ds, owner, sc.top.ids, p, goal, near, far);
    StackDepth(u, sc.stackNodes[..len], sc.stackBounds[..len], p.rest);
    down, next, nextBound, len' := nearBound < worst, nearIdx, nearBound, len;
    if farBound < worst && len < TREE_STACK_CAP {
      StackPushed(u, sc.stackNodes[..len], sc.stackBounds[..len], p.rest, far);
      PushChild(sc.stackNodes, sc.stackBounds, len, farIdx, farBound);
      len' := len + 1;
      p' := Then(near, Then(far, p.rest));
    } else {
      DropFar(f, u, ds, owner, sc.top.ids, p, goal, near, far);
      p' := Then(near, p.rest);
      if nearBound >= worst {
        Prune(f, u, ds, owner, sc.top.ids, p', goal);
        p' := p.rest;
      }
    }
  }

  /** Puts a node and its bound on the stack. */
  method PushChild(nodes: array<nat>, bounds: array<real>, len: nat, idx: nat, bound: real)
    requires len < nodes.Length && len < bounds.Length
    modifies nodes, bounds
    ensures nodes[..len + 1] == old(nodes[..len]) + [idx]
    ensures bounds[..len + 1] == old(bounds[..len]) + [bound]
  {
    nodes[len] := idx;
    bounds[len] := bound;
  }

  /** Scans the blocks of a leaf. */
  method ScanLeaf(ghost f: Id -> int, u: Setup, node: Node, sc: SearchScratch,
                  ghost ds: Dataset, ghost owner: seq<Id>, ghost p: Pending, ghost goal: set<Id>)
    requires Ready(f, u, ds, owner) && sc.Valid() && sc.top.Shows(f, ds)
    requires p.Then? && p.tree.Leaf? && Walking(f, u, ds, owner, sc.top.ids, p, goal)
             && node == u.idx.nodes[p.tree.node]
    modifies sc.top, sc.top.dist, sc.top.lab, sc.blockSum
    ensures sc.Valid() && sc.top.Shows(f, ds)
    ensures Walking(f, u, ds, owner, sc.top.ids, p.rest, goal) && Work(p.rest) < Work(p)
  {
    var numBlocks := (node.len + LANES - 1) / LANES;
    Finish(ds, owner, u.idx.nodes, p, goal);
    assert WellBuilt(ds, owner, u.idx.nodes, p.tree);
    ScanRun(f, u.fl, u.kernel, u.q, u.idx.blockData, u.idx.labels, node.blockStart, node.blockStart + numBlocks,
            sc.top, sc.blockSum, ds, owner, u.idx.blockCount, Seen(owner, p, goal));
  }

  /** One turn of the walk: prune the current node, scan it, or go below it. */
  method Visit(ghost f: Id -> int, u: Setup, current: nat, currentBound: real, sc: SearchScratch, len: nat,
               ghost ds: Dataset, ghost owner: seq<Id>, ghost p: Pending, ghost goal: set<Id>)
    returns (down: bool, next: nat, nextBound: real, len': nat, ghost p': Pending)
    requires Ready(f, u, ds, owner) && sc.Valid() && sc.top.Shows(f, ds) && len <= TREE_STACK_CAP
    requires p.Then? && current == p.tree.node && currentBound == NodeBound(u, current)
    requires Walking(f, u, ds, owner, sc.top.ids, p, goal)
    requires StackHolds(u, sc.stackNodes[..len], sc.stackBounds[..len], p.rest)
    modifies sc.stackNodes, sc.stackBounds, sc.top, sc.top.dist, sc.top.lab, sc.blockSum
    ensures sc.Valid() && sc.top.Shows(f, ds) && len' <= TREE_STACK_CAP
    ensures Walking(f, u, ds, owner, sc.top.ids, p', goal) && Work(p') < Work(p)
    ensures down ==> p'.Then? && next == p'.tree.node && nextBound == NodeBound(u, next)
                     && StackHolds(u, sc.stackNodes[..len'], sc.stackBounds[..len'], p'.rest)
    ensures !down ==> StackHolds(u, sc.stackNodes[..len'], sc.stackBounds[..len'], p')
  {
    var worst := Threshold(u.fl, sc.top.WorstI64());
    down, next, nextBound, len' := false, current, currentBound, len;
    p' := p.rest;
    assert WellBuilt(ds, owner, u.idx.nodes, p.tree);
    if currentBound < worst {
      var node := u.idx.nodes[current];
      if node.left < 0 || node.right < 0 {
        ScanLeaf(f, u, node, sc, ds, owner, p, goal);
      } else {
        down, next, nextBound, len', p' := Descend(f, u, current, worst, sc, len, ds, owner, p, goal);
      }
    } else {
      Prune(f, u, ds, owner, sc.top.ids, p, goal);
    }
  }

  lemma StackPopped(u: Setup, nodes: seq<nat>, bounds: seq<real>, p: Pending)
    requires StackHolds(u, nodes, bounds, p) && nodes != []
    ensures var n := |nodes| - 1;
            p.Then? && |bounds| == n + 1 && nodes[n] == p.tree.node && bounds[n] == NodeBound(u, nodes[n])
            && StackHolds(u, nodes[..n], bounds[..n], p.rest)
  {
  }

  /** The node on top of a stack of len entries and one more. */
  method PopTop(ghost u: Setup, nodes: array<nat>, bounds: array<real>, len: nat, ghost p: Pending)
    returns (current: nat, bound: real)
    requires len < nodes.Length && len < bounds.Length && StackHolds(u, nodes[..len + 1], bounds[..len + 1], p)
    ensures p.Then? && current == p.tree.node && bound == NodeBound(u, current)
    ensures StackHolds(u, nodes[..len], bounds[..len], p.rest)
  {
    StackPopped(u, nodes[..len + 1], bounds[..len + 1], p);
    current, bound := nodes[len], bounds[len];
    assert nodes[..len + 1][..len] == nodes[..len];
    assert bounds[..len + 1][..len] == bounds[..len];
  }

  lemma StartWalk(f: Id -> int, u: Setup, ds: Dataset, owner: seq<Id>, ids: seq<Id>, tree: Tree, seen: set<Id>)
    requires Best5(f, ids, seen) && seen !! TreeIds(owner, tree)
    requires WellBuilt(ds, owner, u.idx.nodes, tree) && Height(tree) <= TREE_STACK_CAP
    ensures Walking(f, u, ds, owner, ids, Then(tree, Nothing), seen + TreeIds(owner, tree))
  {
    assert PendingIds(owner, Nothing) == {} && PendingIds(owner, Then(tree, Nothing)) == TreeIds(owner, tree);
    assert Sound(ds, owner, u.idx.nodes, Nothing) && Depth(Nothing) == 0;
    assert Seen(owner, Then(tree, Nothing), seen + TreeIds(owner, tree)) == seen;
  }

  lemma EndWalk(f: Id -> int, u: Setup, ds: Dataset, owner: seq<Id>, ids: seq<Id>, goal: set<Id>)
    requires Walking(f, u, ds, owner, ids, Nothing, goal)
    ensures Best5(f, ids, goal)
  {
    assert Seen(owner, Nothing, goal) == goal;
  }

  /** Walks one tree. Every candidate below it ends up accounted for. */
  method SearchKdTree(ghost f: Id -> int, u: Setup, root: nat, rootBound: real, sc: SearchScratch,
                      ghost ds: Dataset, ghost owner: seq<Id>, ghost tree: Tree, ghost seen: set<Id>)
    requires Ready(f, u, ds, owner) && sc.Valid() && sc.top.Shows(f, ds)
    requires Best5(f, sc.top.ids, seen) && seen !! TreeIds(owner, tree)
    requires WellBuilt(ds, owner, u.idx.nodes, tree) && Height(tree) <= TREE_STACK_CAP
    requires tree.node == root && rootBound == NodeBound(u, root)
    modifies sc.stackNodes, sc.stackBounds, sc.top, sc.top.dist, sc.top.lab, sc.blockSum
    ensures sc.Valid() && sc.top.Shows(f, ds)
    ensures Best5(f, sc.top.ids, seen + TreeIds(owner, tree))
  {
    var stackLen: nat, current, currentBound := 0, root, rootBound;
    ghost var p, goal := Then(tree, Nothing), seen + TreeIds(owner, tree);
    StartWalk(f, u, ds, owner, sc.top.ids, tree, seen);
    while true
      invariant sc.Valid() && sc.top.Shows(f, ds) && stackLen <= TREE_STACK_CAP
      invariant p.Then? && current == p.tree.node && currentBound == NodeBound(u, current)
      invariant Walking(f, u, ds, owner, sc.top.ids, p, goal)
      invariant StackHolds(u, sc.stackNodes[..stackLen], sc.stackBounds[..stackLen], p.rest)
      decreases Work(p)
    {
      var down;
      down, current, currentBound, stackLen, p := Visit(f, u, current, currentBound, sc, stackLen, ds, owner, p, goal);
      if down {
        continue;
      }
      if stackLen == 0 {
        EndWalk(f, u, ds, owner, sc.top.ids, goal);
        return;
      }
      stackLen := stackLen - 1;
      current, currentBound := PopTop(u, sc.stackNodes, sc.stackBounds, stackLen, p);
    }
  }
}
