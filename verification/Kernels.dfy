/** The eight-lane distance kernels and the box bound, as loops. */
module Kernels {
  import opened Geometry
  import opened Float32

  /** The vector in one lane of one block. */
  function LaneVec(data: seq<Int16>, b: nat, l: nat): (v: Vec)
    requires l < LANES && (b + 1) * 112 <= |data|
    ensures forall d :: 0 <= d < DIMS ==> v[d] == data[At(b, d, l)]
  {
    seq(DIMS, d requires 0 <= d < DIMS => data[At(b, d, l)])
  }

  /** Blocks hold fourteen groups of eight: coordinate d of lane l of block b. */
  lemma LaneStands(data: seq<Int16>, b: nat, d: nat, l: nat)
    requires l < 8 && d < 14 && b * 112 + 112 <= |data|
    ensures LaneVec(data, b, l)[d] == data[112 * b + 8 * d + l]
  {
  }

  /** Some lane's filter sum over the first n dimensions is below worst. */
  ghost predicate AnyBelow(fl: real -> real, k: Kernel, q: Vec, data: seq<Int16>, b: nat, n: nat, worst: real)
    requires (b + 1) * 112 <= |data| && n <= DIMS
  {
    exists l :: 0 <= l < LANES && FilterSum(fl, k, q, LaneVec(data, b, l), n) < worst
  }

  method SomeBelow(sum: array<real>, worst: real) returns (alive: bool)
    requires sum.Length == LANES
    ensures alive <==> exists l :: 0 <= l < LANES && sum[l] < worst
  {
    for l := 0 to LANES
      invariant forall k :: 0 <= k < l ==> worst <= sum[k]
    {
      if sum[l] < worst {
        return true;
      }
    }
    return false;
  }

  /** Adds dimension d of every lane to the running sums. */
  method AddDimension(fl: real -> real, fused: bool, q: Vec, data: seq<Int16>, b: nat, d: nat, sum: array<real>)
    requires sum.Length == LANES && (b + 1) * 112 <= |data| && d < DIMS
    modifies sum
    ensures forall l ::
              0 <= l < LANES ==> sum[l] == MulAdd(fl, fused, old(sum[l]), Diff(fl, q[d], LaneVec(data, b, l)[d]))
  {
    for l := 0 to LANES
      invariant forall k ::
                  0 <= k < l ==> sum[k] == MulAdd(fl, fused, old(sum[k]), Diff(fl, q[d], LaneVec(data, b, k)[d]))
      invariant forall k :: l <= k < LANES ==> sum[k] == old(sum[k])
    {
      sum[l] := MulAdd(fl, fused, sum[l], Diff(fl, q[d], data[At(b, d, l)]));
    }
  }

  method Clear(sum: array<real>)
    requires sum.Length == LANES
    modifies sum
    ensures forall l :: 0 <= l < LANES ==> sum[l] == 0.0
  {
    for l := 0 to LANES
      invariant forall k :: 0 <= k < l ==> sum[k] == 0.0
    {
      sum[l] := 0.0;
    }
  }

  method ScanBlock8Generic(fl: real -> real, fused: bool, q: Vec, data: seq<Int16>, b: nat, worst: real,
                           sum: array<real>)
    returns (alive: bool)
    requires sum.Length == LANES && (b + 1) * 112 <= |data|
    modifies sum
    ensures alive <==>
              AnyBelow(fl, Generic(fused), q, data, b, 8, worst)
              && AnyBelow(fl, Generic(fused), q, data, b, DIMS, worst)
    ensures alive ==> forall l :: 0 <= l < LANES ==> sum[l] == LaneSum(fl, fused, q, LaneVec(data, b, l), DIMS)
  {
    Clear(sum);
    for d := 0 to DIMS
      invariant forall l :: 0 <= l < LANES ==> sum[l] == LaneSum(fl, fused, q, LaneVec(data, b, l), d)
      invariant 8 <= d ==> AnyBelow(fl, Generic(fused), q, data, b, 8, worst)
    {
      AddDimension(fl, fused, q, data, b, d, sum);
      if d + 1 == 8 {
        alive := SomeBelow(sum, worst);
        if !alive {
          return;
        }
      }
    }
    alive := SomeBelow(sum, worst);
  }

  /** The merged accumulators of the vector kernel. */
  method Merge(fl: real -> real, even: array<real>, odd: array<real>, sum: array<real>)
    requires even.Length == odd.Length == sum.Length == LANES && sum != even && sum != odd
    modifies sum
    ensures forall l :: 0 <= l < LANES ==> sum[l] == fl(even[l] + odd[l])
  {
    for l := 0 to LANES
      invariant forall k :: 0 <= k < l ==> sum[k] == fl(even[k] + odd[k])
    {
      sum[l] := fl(even[l] + odd[l]);
    }
  }

  ghost predicate Accumulated(fl: real -> real, q: Vec, data: seq<Int16>, b: nat, parity: nat, d: nat, acc: array<real>)
    requires acc.Length == LANES && (b + 1) * 112 <= |data| && d <= DIMS
    reads acc
  {
    forall l :: 0 <= l < LANES ==> acc[l] == ParitySum(fl, q, LaneVec(data, b, l), parity, d)
  }

  /** Adds dimension d to the accumulator of its parity. */
  method AddToParity(fl: real -> real, q: Vec, data: seq<Int16>, b: nat, d: nat, even: array<real>, odd: array<real>)
    requires even.Length == odd.Length == LANES && even != odd && (b + 1) * 112 <= |data| && d < DIMS
    requires Accumulated(fl, q, data, b, 0, d, even) && Accumulated(fl, q, data, b, 1, d, odd)
    modifies even, odd
    ensures Accumulated(fl, q, data, b, 0, d + 1, even) && Accumulated(fl, q, data, b, 1, d + 1, odd)
  {
    if d % 2 == 0 {
      AddDimension(fl, true, q, data, b, d, even);
    } else {
      AddDimension(fl, true, q, data, b, d, odd);
    }
  }

  /** The checkpoint after d dimensions: merge, then compare every lane. */
  method MergeAndTest(fl: real -> real, ghost q: Vec, ghost data: seq<Int16>, ghost b: nat, ghost d: nat, worst: real,
                      even: array<real>, odd: array<real>, sum: array<real>) returns (alive: bool)
    requires even.Length == odd.Length == sum.Length == LANES && sum != even && sum != odd
    requires (b + 1) * 112 <= |data| && d <= DIMS
    requires Accumulated(fl, q, data, b, 0, d, even) && Accumulated(fl, q, data, b, 1, d, odd)
    modifies sum
    ensures alive <==> AnyBelow(fl, TwoAccumulators, q, data, b, d, worst)
    ensures forall l :: 0 <= l < LANES ==> sum[l] == MergedSum(fl, q, LaneVec(data, b, l), d)
  {
    Merge(fl, even, odd, sum);
    alive := SomeBelow(sum, worst);
  }

  method ScanBlock8TwoAccumulators(fl: real -> real, q: Vec, data: seq<Int16>, b: nat, worst: real, sum: array<real>)
    returns (alive: bool)
    requires sum.Length == LANES && (b + 1) * 112 <= |data|
    modifies sum
    ensures alive <==>
              AnyBelow(fl, TwoAccumulators, q, data, b, 8, worst)
              && AnyBelow(fl, TwoAccumulators, q, data, b, DIMS, worst)
    ensures alive ==> forall l :: 0 <= l < LANES ==> sum[l] == MergedSum(fl, q, LaneVec(data, b, l), DIMS)
  {
    var even, odd := new real[LANES], new real[LANES];
    Clear(even);
    Clear(odd);
    for d := 0 to DIMS
      invariant Accumulated(fl, q, data, b, 0, d, even) && Accumulated(fl, q, data, b, 1, d, odd)
      invariant 8 <= d ==> AnyBelow(fl, TwoAccumulators, q, data, b, 8, worst)
    {
      AddToParity(fl, q, data, b, d, even, odd);
      if d + 1 == 8 {
        alive := MergeAndTest(fl, q, data, b, 8, worst, even, odd, sum);
        if !alive {
          return;
        }
      }
    }
    alive := MergeAndTest(fl, q, data, b, DIMS, worst, even, odd, sum);
  }

  method ScanBlock8(fl: real -> real, k: Kernel, q: Vec, data: seq<Int16>, b: nat, worst: real, sum: array<real>)
    returns (alive: bool)
    requires sum.Length == LANES && (b + 1) * 112 <= |data|
    modifies sum
    ensures alive <==> AnyBelow(fl, k, q, data, b, 8, worst) && AnyBelow(fl, k, q, data, b, DIMS, worst)
    ensures alive ==> forall l :: 0 <= l < LANES ==> sum[l] == FilterSum(fl, k, q, LaneVec(data, b, l), DIMS)
  {
    match k
    case Generic(fused) => alive := ScanBlock8Generic(fl, fused, q, data, b, worst, sum);
    case TwoAccumulators => alive := ScanBlock8TwoAccumulators(fl, q, data, b, worst, sum);
  }

  /** A block reported dead holds no lane nearer than the current worst, and
      neither does a lane whose sum reaches the threshold in a live block. */
  lemma KernelMissesNothing(fl: real -> real, k: Kernel, q: Vec, data: seq<Int16>, b: nat, worst: int, l: nat)
    requires Rounds(fl) && (b + 1) * 112 <= |data| && l < LANES && worst <= INFINITE
    requires SqDist(q, LaneVec(data, b, l)) < worst
    ensures AnyBelow(fl, k, q, data, b, 8, Threshold(fl, worst))
    ensures AnyBelow(fl, k, q, data, b, DIMS, Threshold(fl, worst))
    ensures FilterSum(fl, k, q, LaneVec(data, b, l), DIMS) < Threshold(fl, worst)
  {
    NearLaneSurvives(fl, k, q, LaneVec(data, b, l), 8, worst);
    NearLaneSurvives(fl, k, q, LaneVec(data, b, l), DIMS, worst);
  }

  /** Lower bound on the squared distance from q to anything in the box. */
  method AabbLowerBoundF32(fl: real -> real, fused: bool, addZero: bool, q: Vec, box: Box) returns (sum: real)
    requires ValidBox(box)
    ensures sum == BoxSum(fl, fused, addZero, q, box, DIMS)
  {
    sum := 0.0;
    for d := 0 to DIMS
      invariant sum == BoxSum(fl, fused, addZero, q, box, d)
    {
      var x, lo, hi := q[d], box.min[d], box.max[d];
      var diff: real;
      if x < lo {
        diff := Diff(fl, lo, x);
      } else if x > hi {
        diff := Diff(fl, x, hi);
      } else {
        if !addZero {
          continue;
        }
        diff := 0.0;
      }
      sum := MulAdd(fl, fused, sum, diff);
    }
  }
}
