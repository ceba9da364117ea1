/** Single-precision filtering over an arbitrary rounding function, and the proof
    that the safety margin makes it harmless: whatever the filter drops really is
    no nearer than the current worst. */
module Float32 {
  import opened Geometry

  const KERNEL_SAFETY: real := 65536.0

  function AbsR(x: real): real {
    if x < 0.0 then -x else x
  }

  /** All that is assumed of rounding: a relative error of 2^-24 (plus a trillionth,
      which also covers underflow), and that integers up to 2^24 are represented.
      Round-to-nearest binary32 (section 4.3.1 of IEEE 754-2019) satisfies it in
      this range. */
  ghost predicate Rounds(fl: real -> real) {
    && (forall x: real {:trigger ErrorAt(fl, x)} :: ErrorAt(fl, x))
    && (forall n: int {:trigger ExactAt(fl, n)} :: ExactAt(fl, n))
  }

  ghost predicate ErrorAt(fl: real -> real, x: real) {
    AbsR(x) <= 1000000000000000000000000000000.0 ==> AbsR(fl(x) - x) <= AbsR(x) / 16777216.0 + 0.000000000001
  }

  ghost predicate ExactAt(fl: real -> real, n: int) {
    -16777216 <= n <= 16777216 ==> fl(n as real) == n as real
  }

  /** The compiler may fuse a multiply-add into one rounding or keep two. */
  function MulAdd(fl: real -> real, fused: bool, acc: real, d: real): real {
    if fused then fl(acc + d * d) else fl(acc + fl(d * d))
  }

  function Diff(fl: real -> real, a: int, b: int): real {
    fl(a as real - b as real)
  }

  lemma DiffExact(fl: real -> real, a: int, b: int)
    requires Rounds(fl) && -65535 <= a - b <= 65535
    ensures Diff(fl, a, b) == (a - b) as real
    ensures Diff(fl, a, b) * Diff(fl, a, b) == Square(a - b) as real
  {
    assert a as real - b as real == (a - b) as real;
    assert ExactAt(fl, a - b);
    CastSquare(a - b);
  }

  lemma CastSquare(x: int)
    ensures (x as real) * (x as real) == Square(x) as real
  {
  }

  /** The threshold the filters compare against. */
  function Threshold(fl: real -> real, worst: int): real {
    fl(fl(worst as real) + KERNEL_SAFETY)
  }

  // 60127707150 is 14 * 65535 squared, the largest exact distance; 3850 bounds the
  // rounding error of one accumulation step below it.

  ghost predicate Within(acc: real, exact: int, steps: int) {
    -1.0 * steps as real <= acc
    && exact as real - 3850.0 * steps as real <= acc <= exact as real + 3850.0 * steps as real
  }

  lemma StepWithin(fl: real -> real, fused: bool, acc: real, exact: int, steps: int, d: real, sq: int)
    requires Rounds(fl) && Within(acc, exact, steps) && 0 <= steps < DIMS
    requires d * d == sq as real && 0 <= sq <= 4294836225
    requires 0 <= exact && exact + sq <= 60127707150
    ensures Within(MulAdd(fl, fused, acc, d), exact + sq, steps + 1)
  {
    var p := if fused then d * d else fl(d * d);
    assert ErrorAt(fl, d * d) && ErrorAt(fl, acc + p);
    assert AbsR(p - sq as real) <= 257.0;
    assert -54000.0 <= acc <= 60127807150.0;
    assert MulAdd(fl, fused, acc, d) == fl(acc + p);
    assert AbsR(fl(acc + p) - (acc + p)) <= AbsR(acc + p) / 16777216.0 + 0.000000000001;
    assert acc + p < 0.0 ==> AbsR(acc + p) <= 100.0;
  }

  lemma DiffStep(fl: real -> real, fused: bool, acc: real, exact: int, steps: int, a: int, b: int)
    requires Rounds(fl) && Within(acc, exact, steps) && 0 <= steps < DIMS
    requires -65535 <= a - b <= 65535 && 0 <= exact <= steps * 4294836225
    ensures Within(MulAdd(fl, fused, acc, Diff(fl, a, b)), exact + Square(a - b), steps + 1)
  {
    DiffExact(fl, a, b);
    StepWithin(fl, fused, acc, exact, steps, Diff(fl, a, b), Square(a - b));
  }

  lemma ThresholdAbove(fl: real -> real, worst: int, exact: int)
    requires Rounds(fl) && 0 <= exact < worst <= INFINITE && exact <= 60127707150
    ensures exact as real + 58000.0 < Threshold(fl, worst)
  {
    var w := worst as real;
    assert ErrorAt(fl, w) && ErrorAt(fl, fl(w) + KERNEL_SAFETY);
    assert AbsR(fl(w) - w) <= w / 16777216.0 + 0.000000000001;
    var x := fl(w) + KERNEL_SAFETY;
    assert AbsR(fl(x) - x) <= AbsR(x) / 16777216.0 + 0.000000000001;
  }

  lemma ThresholdBelow(fl: real -> real, worst: int)
    requires Rounds(fl) && 0 <= worst <= 60127707150
    ensures Threshold(fl, worst) < worst as real + 73000.0
  {
    var w := worst as real;
    assert ErrorAt(fl, w) && ErrorAt(fl, fl(w) + KERNEL_SAFETY);
    assert AbsR(fl(w) - w) <= w / 16777216.0 + 0.000000000001;
    var x := fl(w) + KERNEL_SAFETY;
    assert AbsR(fl(x) - x) <= AbsR(x) / 16777216.0 + 0.000000000001;
  }

  // ----- Sums of squares in single precision -----

  /** One lane accumulated dimension by dimension. */
  function LaneSum(fl: real -> real, fused: bool, q: Vec, v: Vec, n: nat): real
    requires n <= DIMS
  {
    if n == 0 then 0.0
    else MulAdd(fl, fused, LaneSum(fl, fused, q, v, n - 1), Diff(fl, q[n - 1], v[n - 1]))
  }

  lemma {:induction false} LaneSumWithin(fl: real -> real, fused: bool, q: Vec, v: Vec, n: nat)
    requires Rounds(fl) && n <= DIMS
    ensures Within(LaneSum(fl, fused, q, v, n), PartialDist(q, v, n), n)
  {
    if 0 < n {
      LaneSumWithin(fl, fused, q, v, n - 1);
      DiffStep(fl, fused, LaneSum(fl, fused, q, v, n - 1), PartialDist(q, v, n - 1), n - 1, q[n - 1], v[n - 1]);
    }
  }

  /** The vector kernel keeps two fused accumulators: one for the dimensions of
      each parity. */
  function ParitySum(fl: real -> real, q: Vec, v: Vec, parity: nat, n: nat): real
    requires n <= DIMS
  {
    if n == 0 then 0.0
    else if (n - 1) % 2 == parity then
      MulAdd(fl, true, ParitySum(fl, q, v, parity, n - 1), Diff(fl, q[n - 1], v[n - 1]))
    else ParitySum(fl, q, v, parity, n - 1)
  }

  function MergedSum(fl: real -> real, q: Vec, v: Vec, n: nat): real
    requires n <= DIMS
  {
    fl(ParitySum(fl, q, v, 0, n) + ParitySum(fl, q, v, 1, n))
  }

  function ParityDist(q: Vec, v: Vec, parity: nat, n: nat): (s: int)
    requires n <= DIMS
    ensures 0 <= s <= ParitySteps(parity, n) * 4294836225
  {
    if n == 0 then 0
    else ParityDist(q, v, parity, n - 1) + if (n - 1) % 2 == parity then Square(q[n - 1] as int - v[n - 1]) else 0
  }

  lemma {:induction false} ParitiesAddUp(q: Vec, v: Vec, n: nat)
    requires n <= DIMS
    ensures ParityDist(q, v, 0, n) + ParityDist(q, v, 1, n) == PartialDist(q, v, n)
  {
    if 0 < n {
      ParitiesAddUp(q, v, n - 1);
    }
  }

  function ParitySteps(parity: nat, n: nat): nat {
    if n == 0 then 0 else ParitySteps(parity, n - 1) + if (n - 1) % 2 == parity then 1 else 0
  }

  lemma {:induction false} ParityStepsSplit(n: nat)
    ensures ParitySteps(0, n) + ParitySteps(1, n) == n
  {
    if 0 < n {
      ParityStepsSplit(n - 1);
    }
  }

  lemma {:induction false} ParitySumWithin(fl: real -> real, q: Vec, v: Vec, parity: nat, n: nat)
    requires Rounds(fl) && n <= DIMS && parity < 2
    ensures ParitySteps(parity, n) <= n
    ensures Within(ParitySum(fl, q, v, parity, n), ParityDist(q, v, parity, n), ParitySteps(parity, n))
  {
    if 0 < n {
      ParitySumWithin(fl, q, v, parity, n - 1);
      if (n - 1) % 2 == parity {
        DiffStep(fl, true, ParitySum(fl, q, v, parity, n - 1), ParityDist(q, v, parity, n - 1),
                 ParitySteps(parity, n - 1), q[n - 1], v[n - 1]);
      }
    }
  }

  lemma MergedSumBound(fl: real -> real, q: Vec, v: Vec, n: nat)
    requires Rounds(fl) && n <= DIMS
    ensures PartialDist(q, v, n) as real - 57600.0 <= MergedSum(fl, q, v, n) <= PartialDist(q, v, n) as real + 57600.0
  {
    ParitySumWithin(fl, q, v, 0, n);
    ParitySumWithin(fl, q, v, 1, n);
    ParitiesAddUp(q, v, n);
    ParityStepsSplit(n);
    var a, b := ParitySum(fl, q, v, 0, n), ParitySum(fl, q, v, 1, n);
    assert ErrorAt(fl, a + b);
    assert -14.0 <= a + b && PartialDist(q, v, n) as real - 53900.0 <= a + b;
    assert a + b <= PartialDist(q, v, n) as real + 53900.0;
    assert AbsR(fl(a + b) - (a + b)) <= AbsR(a + b) / 16777216.0 + 0.000000000001;
  }

  /** Which of the two kernels computes the filter sums. */
  datatype Kernel = Generic(fused: bool) | TwoAccumulators

  function FilterSum(fl: real -> real, k: Kernel, q: Vec, v: Vec, n: nat): real
    requires n <= DIMS
  {
    match k
    case Generic(fused) => LaneSum(fl, fused, q, v, n)
    case TwoAccumulators => MergedSum(fl, q, v, n)
  }

  /** A lane nearer than the current worst passes the filter after any number of
      dimensions, in either kernel, for every int16 query and lane. */
  lemma NearLaneSurvives(fl: real -> real, k: Kernel, q: Vec, v: Vec, n: nat, worst: int)
    requires Rounds(fl) && n <= DIMS && worst <= INFINITE && SqDist(q, v) < worst
    ensures FilterSum(fl, k, q, v, n) < Threshold(fl, worst)
  {
    PartialDistMonotone(q, v, n, DIMS);
    ThresholdAbove(fl, worst, SqDist(q, v));
    match k
    case Generic(fused) => LaneSumWithin(fl, fused, q, v, n);
    case TwoAccumulators => MergedSumBound(fl, q, v, n);
  }

  /** And a lane farther by more than 130600 is dropped, so the filter does filter. */
  lemma FarLaneDropped(fl: real -> real, k: Kernel, q: Vec, v: Vec, n: nat, worst: int)
    requires Rounds(fl) && n <= DIMS && 0 <= worst && worst + 130600 <= PartialDist(q, v, n)
    ensures FilterSum(fl, k, q, v, n) > Threshold(fl, worst)
  {
    ThresholdBelow(fl, worst);
    match k
    case Generic(fused) => LaneSumWithin(fl, fused, q, v, n);
    case TwoAccumulators => MergedSumBound(fl, q, v, n);
  }

  // ----- Box bounds in single precision -----

  /** A dimension inside the box either adds nothing or adds a rounded zero. */
  function BoxStep(fl: real -> real, fused: bool, addZero: bool, acc: real, x: int, lo: int, hi: int): real {
    if x < lo then MulAdd(fl, fused, acc, Diff(fl, lo, x))
    else if x > hi then MulAdd(fl, fused, acc, Diff(fl, x, hi))
    else if addZero then MulAdd(fl, fused, acc, 0.0)
    else acc
  }

  lemma BoxStepWithin(fl: real -> real, fused: bool, addZero: bool, acc: real, exact: int, steps: int, x: Int16,
                      lo: Int16, hi: Int16)
    requires Rounds(fl) && Within(acc, exact, steps) && 0 <= steps < DIMS
    requires 0 <= exact <= steps * 4294836225
    ensures Within(BoxStep(fl, fused, addZero, acc, x, lo, hi), exact + Square(Gap(x, lo, hi)), steps + 1)
  {
    if x < lo {
      DiffStep(fl, fused, acc, exact, steps, lo, x);
    } else if x > hi {
      DiffStep(fl, fused, acc, exact, steps, x, hi);
    } else {
      StepWithin(fl, fused, acc, exact, steps, 0.0, 0);
    }
  }

  function BoxSum(fl: real -> real, fused: bool, addZero: bool, q: Vec, b: Box, n: nat): real
    requires ValidBox(b) && n <= DIMS
  {
    if n == 0 then 0.0
    else BoxStep(fl, fused, addZero, BoxSum(fl, fused, addZero, q, b, n - 1), q[n - 1], b.min[n - 1], b.max[n - 1])
  }

  lemma {:induction false} BoxSumWithin(fl: real -> real, fused: bool, addZero: bool, q: Vec, b: Box, n: nat)
    requires Rounds(fl) && ValidBox(b) && n <= DIMS
    ensures Within(BoxSum(fl, fused, addZero, q, b, n), BoxBound(q, b, n), n)
  {
    if 0 < n {
      BoxSumWithin(fl, fused, addZero, q, b, n - 1);
      BoxStepWithin(fl, fused, addZero, BoxSum(fl, fused, addZero, q, b, n - 1), BoxBound(q, b, n - 1), n - 1,
                    q[n - 1], b.min[n - 1], b.max[n - 1]);
    }
  }

  /** A box nearer than the current worst is never pruned. */
  lemma NearBoxSurvives(fl: real -> real, fused: bool, addZero: bool, q: Vec, b: Box, worst: int)
    requires Rounds(fl) && ValidBox(b) && worst <= INFINITE && BoxBound(q, b, DIMS) < worst
    ensures BoxSum(fl, fused, addZero, q, b, DIMS) < Threshold(fl, worst)
  {
    BoxSumWithin(fl, fused, addZero, q, b, DIMS);
    ThresholdAbove(fl, worst, BoxBound(q, b, DIMS));
  }

  /** One farther by more than 130600 is. */
  lemma FarBoxPruned(fl: real -> real, fused: bool, addZero: bool, q: Vec, b: Box, worst: int)
    requires Rounds(fl) && ValidBox(b) && 0 <= worst && worst + 130600 <= BoxBound(q, b, DIMS)
    ensures BoxSum(fl, fused, addZero, q, b, DIMS) > Threshold(fl, worst)
  {
    BoxSumWithin(fl, fused, addZero, q, b, DIMS);
    ThresholdBelow(fl, worst);
  }
}
