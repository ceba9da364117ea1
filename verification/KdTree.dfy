/** The specialist index: a directory of partitions, each the root of a KD-tree
    whose nodes live in one shared array and whose leaves own runs of blocks. */
module KdTree {
  import opened Geometry
  import opened Float32
  import opened Blocks
  import opened Lanes

  const LEAF_SIZE: nat := 128
  const TREE_STACK_CAP: nat := 64
  const MAX_PARTITIONS: nat := 384

  /** left and right are -1 in a leaf. */
  datatype Node = Node(left: int, right: int, blockStart: nat, len: nat, box: Box)

  datatype Partition = Partition(key: nat, root: nat, box: Box)

  datatype SpecialistIndex = SpecialistIndex(
    partitions: seq<Partition>, nodes: seq<Node>, blockCount: nat, blockData: seq<Int16>, labels: seq<nat>)

  /** The shape of one tree: which node each subtree sits at, and for leaves the
      run of blocks lo up to hi. */
  datatype Tree = Leaf(node: nat, lo: nat, hi: nat) | Fork(node: nat, left: Tree, right: Tree)

  ghost function Lo(t: Tree): nat {
    match t case Leaf(_, lo, _) => lo case Fork(_, l, _) => Lo(l)
  }

  ghost function Hi(t: Tree): nat {
    match t case Leaf(_, _, hi) => hi case Fork(_, _, r) => Hi(r)
  }

  ghost function Height(t: Tree): nat {
    match t
    case Leaf(_, _, _) => 0
    case Fork(_, l, r) => 1 + if Height(l) < Height(r) then Height(r) else Height(l)
  }

  ghost function Size(t: Tree): nat {
    match t case Leaf(_, _, _) => 1 case Fork(_, l, r) => 1 + Size(l) + Size(r)
  }

  /** Of the lanes of blocks lo up to hi the first len hold references, the rest padding. */
  ghost predicate FilledTo(owner: seq<Id>, lo: nat, hi: nat, len: nat)
    requires hi * 8 <= |owner|
  {
    forall g :: lo * 8 <= g < hi * 8 ==> (owner[g].Ref? <==> g < lo * 8 + len)
  }

  /** t describes the tree rooted at its node: children split the blocks, come
      after their parent in the array, and every box encloses the lanes below. */
  ghost predicate WellBuilt(ds: Dataset, owner: seq<Id>, nodes: seq<Node>, t: Tree)
    decreases t
  {
    && t.node < |nodes| && Lo(t) <= Hi(t) && Hi(t) * 8 <= |owner|
    && ValidBox(nodes[t.node].box) && QuantizedBox(nodes[t.node].box)
    && Encloses(ds, nodes[t.node].box, owner, Lo(t), Hi(t))
    && match t
       case Leaf(n, lo, hi) =>
         && nodes[n].left == -1 && nodes[n].right == -1
         && nodes[n].blockStart == lo && hi == lo + (nodes[n].len + 7) / 8
         && FilledTo(owner, lo, hi, nodes[n].len)
       case Fork(n, l, r) =>
         && nodes[n].left == l.node && nodes[n].right == r.node && n < l.node && n < r.node
         && nodes[n].blockStart == 0 && nodes[n].len == 0
         && Hi(l) == Lo(r)
         && WellBuilt(ds, owner, nodes, l) && WellBuilt(ds, owner, nodes, r)
  }

  /** The candidates stored below t. */
  ghost function TreeIds(owner: seq<Id>, t: Tree): set<Id> {
    if Lo(t) <= Hi(t) && Hi(t) * 8 <= |owner| then Owners(owner, Lo(t) * 8, Hi(t) * 8) else {}
  }

  lemma ForkIds(ds: Dataset, owner: seq<Id>, nodes: seq<Node>, t: Tree)
    requires WellBuilt(ds, owner, nodes, t) && t.Fork?
    ensures TreeIds(owner, t) == TreeIds(owner, t.left) + TreeIds(owner, t.right)
    ensures Injective(owner) ==> TreeIds(owner, t.left) !! TreeIds(owner, t.right)
  {
    assert WellBuilt(ds, owner, nodes, t.left) && WellBuilt(ds, owner, nodes, t.right);
    OwnersSplit(owner, Lo(t) * 8, Hi(t.left) * 8, Hi(t) * 8);
  }

  /** What the single-precision bound of a box computes to. */
  function Bound(fl: real -> real, fused: bool, q: Vec, box: Box): real
    requires ValidBox(box)
  {
    BoxSum(fl, fused, false, q, box, DIMS)
  }

  // ----- A complete index -----

  /** Where the blocks of the first k trees end. */
  ghost function EndOf(trees: seq<Tree>, k: nat): nat
    requires k <= |trees|
  {
    if k == 0 then 0 else Hi(trees[k - 1])
  }

  /** Tree i is well built, starts where the one before ends, and is what
      partition i points to. */
  ghost predicate Rooted(ds: Dataset, partitions: seq<Partition>, nodes: seq<Node>, owner: seq<Id>, trees: seq<Tree>,
                         i: nat)
    requires i < |trees| == |partitions|
  {
    && WellBuilt(ds, owner, nodes, trees[i]) && Height(trees[i]) <= TREE_STACK_CAP
    && trees[i].node == partitions[i].root && nodes[trees[i].node].box == partitions[i].box
    && Lo(trees[i]) == EndOf(trees, i)
  }

  /** One well-built tree per partition; together the trees tile the blocks. */
  ghost predicate Indexed(ds: Dataset, idx: SpecialistIndex, owner: seq<Id>, trees: seq<Tree>) {
    && Stored(ds, idx.blockData, idx.labels, owner, idx.blockCount)
    && |trees| == |idx.partitions| <= MAX_PARTITIONS
    && (forall i :: 0 <= i < |trees| ==> Rooted(ds, idx.partitions, idx.nodes, owner, trees, i))
    && EndOf(trees, |trees|) == idx.blockCount
  }

  // ----- Growing the arrays -----

  /** A tree survives appending nodes and lanes, and patching earlier nodes. */
  lemma {:induction false} WellBuiltGrows(ds: Dataset, owner: seq<Id>, nodes: seq<Node>, t: Tree, owner': seq<Id>,
                                          nodes': seq<Node>)
    requires WellBuilt(ds, owner, nodes, t) && owner <= owner'
    requires |nodes| <= |nodes'| && forall i :: t.node <= i < |nodes| ==> nodes'[i] == nodes[i]
    ensures WellBuilt(ds, owner', nodes', t)
    decreases t
  {
    if t.Fork? {
      WellBuiltGrows(ds, owner, nodes, t.left, owner', nodes');
      WellBuiltGrows(ds, owner, nodes, t.right, owner', nodes');
    }
  }

  // ----- Trees still to be visited -----

  /** The tree being visited, then the stack from its top down. */
  datatype Pending = Nothing | Then(tree: Tree, rest: Pending)

  ghost function Depth(p: Pending): nat {
    if p.Nothing? then 0 else 1 + Depth(p.rest)
  }

  ghost function Work(p: Pending): nat {
    if p.Nothing? then 0 else Size(p.tree) + Work(p.rest)
  }

  ghost function PendingIds(owner: seq<Id>, p: Pending): set<Id> {
    if p.Nothing? then {} else TreeIds(owner, p.tree) + PendingIds(owner, p.rest)
  }

  /** Pending trees are well built, share no candidate, and a tree with k others
      beneath it on the stack is at most 64 - k high. */
  ghost predicate Sound(ds: Dataset, owner: seq<Id>, nodes: seq<Node>, p: Pending) {
    p.Then? ==>
      && WellBuilt(ds, owner, nodes, p.tree)
      && Depth(p.rest) + Height(p.tree) <= TREE_STACK_CAP
      && TreeIds(owner, p.tree) !! PendingIds(owner, p.rest)
      && Sound(ds, owner, nodes, p.rest)
  }

  /** The candidates of goal that are no longer pending. */
  ghost function Seen(owner: seq<Id>, p: Pending, goal: set<Id>): set<Id> {
    goal - PendingIds(owner, p)
  }

  ghost predicate Outstanding(ds: Dataset, owner: seq<Id>, nodes: seq<Node>, p: Pending, goal: set<Id>) {
    Sound(ds, owner, nodes, p) && PendingIds(owner, p) <= goal
  }

  /** The tree being visited is accounted for. */
  lemma Finish(ds: Dataset, owner: seq<Id>, nodes: seq<Node>, p: Pending, goal: set<Id>)
    requires p.Then? && Outstanding(ds, owner, nodes, p, goal)
    ensures Outstanding(ds, owner, nodes, p.rest, goal) && Work(p.rest) < Work(p)
    ensures Seen(owner, p, goal) !! TreeIds(owner, p.tree)
    ensures Seen(owner, p.rest, goal) == Seen(owner, p, goal) + TreeIds(owner, p.tree)
  {
  }

  /** The tree being visited is replaced by its two children, in either order;
      there is always room on the stack for the one left for later. */
  lemma Expand(ds: Dataset, owner: seq<Id>, nodes: seq<Node>, p: Pending, goal: set<Id>, near: Tree, far: Tree)
    requires p.Then? && Outstanding(ds, owner, nodes, p, goal) && Injective(owner) && Children(p.tree, near, far)
    ensures Outstanding(ds, owner, nodes, Then(near, Then(far, p.rest)), goal)
    ensures Seen(owner, Then(near, Then(far, p.rest)), goal) == Seen(owner, p, goal)
    ensures Work(Then(near, Then(far, p.rest))) < Work(p)
    ensures Depth(p.rest) < TREE_STACK_CAP
  {
    ForkParts(ds, owner, nodes, p.tree, near, far);
    ExpandIds(owner, p, near, far);
    ExpandSound(ds, owner, nodes, near, far, p.rest);
  }

  lemma ExpandIds(owner: seq<Id>, p: Pending, near: Tree, far: Tree)
    requires p.Then? && TreeIds(owner, p.tree) == TreeIds(owner, near) + TreeIds(owner, far)
    ensures PendingIds(owner, Then(near, Then(far, p.rest))) == PendingIds(owner, p)
  {
    var all := Then(near, Then(far, p.rest));
    assert PendingIds(owner, all) == TreeIds(owner, near) + (TreeIds(owner, far) + PendingIds(owner, p.rest));
  }

  lemma ExpandSound(ds: Dataset, owner: seq<Id>, nodes: seq<Node>, near: Tree, far: Tree, rest: Pending)
    requires WellBuilt(ds, owner, nodes, near) && WellBuilt(ds, owner, nodes, far) && Sound(ds, owner, nodes, rest)
    requires Depth(rest) + 1 + Height(near) <= TREE_STACK_CAP && Depth(rest) + 1 + Height(far) <= TREE_STACK_CAP
    requires TreeIds(owner, near) !! TreeIds(owner, far)
    requires TreeIds(owner, near) !! PendingIds(owner, rest) && TreeIds(owner, far) !! PendingIds(owner, rest)
    ensures Sound(ds, owner, nodes, Then(near, Then(far, rest)))
  {
    assert Sound(ds, owner, nodes, Then(far, rest));
    assert PendingIds(owner, Then(far, rest)) == TreeIds(owner, far) + PendingIds(owner, rest);
  }

  lemma ForkParts(ds: Dataset, owner: seq<Id>, nodes: seq<Node>, t: Tree, near: Tree, far: Tree)
    requires WellBuilt(ds, owner, nodes, t) && Injective(owner) && Children(t, near, far)
    ensures WellBuilt(ds, owner, nodes, near) && WellBuilt(ds, owner, nodes, far)
    ensures TreeIds(owner, t) == TreeIds(owner, near) + TreeIds(owner, far)
    ensures TreeIds(owner, near) !! TreeIds(owner, far)
  {
    ForkIds(ds, owner, nodes, t);
  }

  ghost predicate Children(t: Tree, near: Tree, far: Tree) {
    t.Fork? && ((near == t.left && far == t.right) || (near == t.right && far == t.left))
  }
}
