/** The space the scorer searches: 14-dimensional int16 vectors under squared
    Euclidean distance, the dataset, and the identities of everything that can
    ever occupy a slot of a top-five list. */
module Geometry {
  import opened Bytes

  const DIMS: nat := 14
  const LANES: nat := 8
  const QUANT_SCALE: int := 10000
  const PHANTOM_COORD: int := 32767
  const INFINITE: int := 0x4000_0000_0000_0000

  type Int16 = I16

  type Vec = v: seq<Int16> | |v| == DIMS witness [0, 0, 0, 0, 0, 0, 0, 0, 0, 0, 0, 0, 0, 0]

  const PHANTOM_VEC: Vec := [32767, 32767, 32767, 32767, 32767, 32767, 32767, 32767, 32767, 32767, 32767, 32767, 32767,
                             32767]

  // 4294836225 is 65535 squared, the largest squared difference of two int16 values.

  function Square(x: int): (s: int)
    ensures 0 <= s
    ensures -65535 <= x <= 65535 ==> s <= 4294836225
  {
    SquareBound(x);
    x * x
  }

  lemma SquareBound(x: int)
    ensures 0 <= x * x
    ensures -65535 <= x <= 65535 ==> x * x <= 4294836225
  {
    if -65535 <= x <= 65535 {
      SquareMonotone(if x < 0 then -x else x, 65535);
    }
  }

  lemma SquareMonotone(x: int, y: int)
    requires 0 <= x <= y
    ensures x * x <= y * y
  {
    assert x * x <= x * y <= y * y;
  }

  function Abs(x: int): nat {
    if x < 0 then -x else x
  }

  lemma SquareOrder(x: int, y: int)
    requires Abs(x) <= Abs(y)
    ensures Square(x) <= Square(y)
    ensures Abs(x) < Abs(y) ==> Square(x) < Square(y)
  {
    var a, b := Abs(x), Abs(y);
    SquareMonotone(a, b);
    if a < b {
      assert a * a <= a * b < b * b;
    }
    assert x * x == a * a && y * y == b * b;
  }

  /** Squared distance over the first n dimensions. */
  function PartialDist(q: Vec, v: Vec, n: nat): (s: int)
    requires n <= DIMS
    ensures 0 <= s <= n * 4294836225
  {
    if n == 0 then 0 else PartialDist(q, v, n - 1) + Square(q[n - 1] as int - v[n - 1])
  }

  function SqDist(q: Vec, v: Vec): (s: int)
    ensures 0 <= s <= DIMS * 4294836225
  {
    PartialDist(q, v, DIMS)
  }

  lemma {:induction false} PartialDistMonotone(q: Vec, v: Vec, m: nat, n: nat)
    requires m <= n <= DIMS
    ensures PartialDist(q, v, m) <= PartialDist(q, v, n)
  {
    if m < n {
      PartialDistMonotone(q, v, m, n - 1);
    }
  }

  /** Coordinates that quantisation can produce: [-10000, 10000]. */
  predicate Quantized(v: Vec) {
    forall d :: 0 <= d < DIMS ==> -QUANT_SCALE <= v[d] <= QUANT_SCALE
  }

  datatype Dataset = Dataset(vectors: seq<Vec>, labels: seq<nat>)

  predicate ValidDataset(ds: Dataset) {
    && |ds.labels| == |ds.vectors|
    && (forall i :: 0 <= i < |ds.labels| ==> ds.labels[i] <= 1)
    && (forall i :: 0 <= i < |ds.vectors| ==> Quantized(ds.vectors[i]))
  }

  /** What a slot of a top-five list can hold: one of the five initial
      placeholders, a reference vector, or a padding lane of some block. */
  datatype Id = Pad(slot: nat) | Ref(i: nat) | Phantom(lane: nat)

  function Coords(ds: Dataset, id: Id): Vec {
    match id
    case Ref(i) => if i < |ds.vectors| then ds.vectors[i] else PHANTOM_VEC
    case _ => PHANTOM_VEC
  }

  function Dist(q: Vec, ds: Dataset, id: Id): (r: int)
    ensures 0 <= r <= INFINITE
    ensures id.Pad? <==> r == INFINITE
  {
    if id.Pad? then 0x4000_0000_0000_0000 else SqDist(q, Coords(ds, id))
  }

  function DistFrom(q: Vec, ds: Dataset): Id -> int {
    x => Dist(q, ds, x)
  }

  ghost predicate MeasuresAt(f: Id -> int, q: Vec, ds: Dataset, x: Id) {
    f(x) == Dist(q, ds, x)
  }

  /** f is the distance from q. The fact is spelled out only where it is asked for. */
  ghost predicate Measures(f: Id -> int, q: Vec, ds: Dataset) {
    forall x {:trigger MeasuresAt(f, q, ds, x)} :: MeasuresAt(f, q, ds, x)
  }

  function LabelOf(ds: Dataset, id: Id): nat {
    match id
    case Ref(i) => if i < |ds.labels| then ds.labels[i] else 0
    case _ => 0
  }

  function Pads(): (s: set<Id>)
    ensures forall x :: x in s <==> x.Pad? && x.slot < 5
  {
    set k: nat | k < 5 :: Pad(k)
  }

  function Refs(ds: Dataset): (s: set<Id>)
    ensures forall x :: x in s <==> x.Ref? && x.i < |ds.vectors|
  {
    set i: nat | i < |ds.vectors| :: Ref(i)
  }

  /** A phantom lane is strictly farther than every quantised vector. */
  lemma {:induction false} PhantomFarther(q: Vec, v: Vec, n: nat)
    requires Quantized(q) && Quantized(v) && n <= DIMS
    ensures PartialDist(q, v, n) <= PartialDist(q, PHANTOM_VEC, n)
    ensures 0 < n ==> PartialDist(q, v, n) < PartialDist(q, PHANTOM_VEC, n)
  {
    if 0 < n {
      PhantomFarther(q, v, n - 1);
      var a, b := q[n - 1] as int - v[n - 1], q[n - 1] as int - PHANTOM_COORD;
      SquareOrder(a, b);
    }
  }

  // ----- Bounding boxes -----

  /** An axis-aligned box, stored 16 lanes wide; only lanes 0..13 count. */
  datatype Box = Box(min: seq<Int16>, max: seq<Int16>)

  predicate ValidBox(b: Box) {
    |b.min| == 16 && |b.max| == 16
  }

  predicate InBox(b: Box, v: Vec)
    requires ValidBox(b)
  {
    forall d :: 0 <= d < DIMS ==> b.min[d] <= v[d] <= b.max[d]
  }

  /** How far coordinate x lies outside [lo, hi]. */
  function Gap(x: int, lo: int, hi: int): int {
    if x < lo then lo - x else if x > hi then x - hi else 0
  }

  /** Exact squared distance from q to the box over the first n dimensions. */
  function BoxBound(q: Vec, b: Box, n: nat): (s: int)
    requires ValidBox(b) && n <= DIMS
    ensures 0 <= s <= n * 4294836225
  {
    if n == 0 then 0 else BoxBound(q, b, n - 1) + Square(Gap(q[n - 1], b.min[n - 1], b.max[n - 1]))
  }

  /** A box bound never exceeds the distance to a vector inside the box. */
  lemma {:induction false} BoxBoundSound(q: Vec, b: Box, v: Vec, n: nat)
    requires ValidBox(b) && InBox(b, v) && n <= DIMS
    ensures BoxBound(q, b, n) <= PartialDist(q, v, n)
  {
    if 0 < n {
      BoxBoundSound(q, b, v, n - 1);
      var g, a := Gap(q[n - 1], b.min[n - 1], b.max[n - 1]), q[n - 1] as int - v[n - 1];
      assert b.min[n - 1] <= v[n - 1] <= b.max[n - 1];
      SquareOrder(g, a);
    }
  }

  /** The vector of the box nearest to q. */
  ghost function Clamped(q: Vec, b: Box): (v: Vec)
    requires ValidBox(b)
  {
    seq(14, d requires 0 <= d < 14 => if q[d] < b.min[d] then b.min[d] else if q[d] > b.max[d] then b.max[d] else q[d])
  }

  /** The bound is the distance to a vector of the box, so no larger one is right. */
  lemma {:induction false} BoxBoundReached(q: Vec, b: Box, n: nat)
    requires ValidBox(b) && n <= DIMS && forall d :: 0 <= d < DIMS ==> b.min[d] <= b.max[d]
    ensures InBox(b, Clamped(q, b)) && BoxBound(q, b, n) == PartialDist(q, Clamped(q, b), n)
  {
    if 0 < n {
      BoxBoundReached(q, b, n - 1);
      var x, y := q[n - 1] as int, Clamped(q, b)[n - 1] as int;
      SameSquare(Gap(x, b.min[n - 1], b.max[n - 1]), x - y);
    }
  }

  lemma SameSquare(x: int, y: int)
    requires x == y || x == -y
    ensures Square(x) == Square(y)
  {
  }

  predicate QuantizedBox(b: Box)
    requires ValidBox(b)
  {
    forall d :: 0 <= d < DIMS ==> b.min[d] <= QUANT_SCALE && -QUANT_SCALE <= b.max[d]
  }

  /** Nor does it exceed the distance to a phantom lane. */
  lemma {:induction false} BoxBoundBelowPhantom(q: Vec, b: Box, n: nat)
    requires ValidBox(b) && QuantizedBox(b) && Quantized(q) && n <= DIMS
    ensures BoxBound(q, b, n) <= PartialDist(q, PHANTOM_VEC, n)
  {
    if 0 < n {
      BoxBoundBelowPhantom(q, b, n - 1);
      var g := Gap(q[n - 1], b.min[n - 1], b.max[n - 1]);
      SquareOrder(g, q[n - 1] as int - PHANTOM_COORD);
    }
  }

  // ----- Block layout: blocks of 112 = 14 * 8 numbers, dimension-major -----

  /** Position of dimension d of lane l of block b in the block data. */
  function At(b: nat, d: nat, l: nat): nat {
    b * 112 + d * 8 + l
  }

  lemma AtInjective(b: nat, d: nat, l: nat, b': nat, d': nat, l': nat)
    requires d < DIMS && d' < DIMS && l < LANES && l' < LANES
    ensures At(b, d, l) == At(b', d', l') ==> b == b' && d == d' && l == l'
  {
  }
}
