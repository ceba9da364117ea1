/** The triangle filter as computed: single-precision distances to the centroid,
    single-precision radius, rounded roots. The safety margin still covers it. */
module TriangleRounding {
  import opened Geometry
  import opened Float32
  import opened Triangle

  /** All that is assumed of the rounded square root: its square has a relative
      error of 2^-22. float32(math.Sqrt(float64(x))) is well within that where x is a
      single-precision number, which is all it is applied to; on other reals, where
      it may underflow, any function that meets the bound will do. */
  ghost predicate RootRounds(root: real -> real) {
    forall x: real :: 0.0 <= x <= 1000000000000000000000000000000.0 ==>
                        && root(x) >= 0.0
                        && x - x / 4194304.0 <= root(x) * root(x) <= x + x / 4194304.0
  }

  /** Squared distance between real vectors, accumulated in single precision. */
  function RealSum(fl: real -> real, fused: bool, a: RVec, c: RVec, n: nat): real
    requires n <= DIMS
  {
    if n == 0 then 0.0 else MulAdd(fl, fused, RealSum(fl, fused, a, c, n - 1), fl(a[n - 1] - c[n - 1]))
  }

  /** acc is exact up to relative error e and absolute error t. */
  ghost predicate Near(acc: real, exact: real, e: real, t: real) {
    exact - exact * e - t <= acc <= exact + exact * e + t
  }

  lemma MulOrder(a: real, b: real, c: real)
    requires 0.0 <= a && b <= c
    ensures a * b <= a * c
  {
  }

  lemma AbsProduct(a: real, b: real)
    ensures AbsR(a * b) == AbsR(a) * AbsR(b)
  {
  }

  lemma SquareNear(x: real, y: real, k: real)
    requires AbsR(y - x) <= k && 0.0 <= k
    ensures AbsR(y * y - x * x) <= k * (2.0 * AbsR(x) + k)
  {
    var e, s := y - x, 2.0 * x + (y - x);
    assert y * y - x * x == e * s;
    AbsProduct(e, s);
    var E, S, M := AbsR(e), AbsR(s), 2.0 * AbsR(x) + k;
    assert S <= M;
    MulOrder(S, E, k);
    MulOrder(k, S, M);
  }

  /** k times 2X + k, spelled out for the rounding error k of X. */
  lemma ErrorSquared(X: real, k: real)
    requires 0.0 <= X <= 50000.0 && k == X / 16777216.0 + 0.000000000001
    ensures k * (2.0 * X + k) <= X * X / 8000000.0 + 0.00000011
  {
    var XX, kX := X * X, k * X;
    assert kX == XX / 16777216.0 + 0.000000000001 * X;
    assert k * k == kX / 16777216.0 + 0.000000000001 * k;
    assert k * (2.0 * X + k) == 2.0 * kX + k * k;
    assert XX >= 0.0;
  }

  lemma RoundedWithin(fl: real -> real, x: real) returns (y: real)
    requires Rounds(fl) && AbsR(x) <= 1000000000000.0
    ensures y == fl(x) && AbsR(y - x) <= AbsR(x) / 16777216.0 + 0.000000000001
  {
    y := fl(x);
    assert ErrorAt(fl, x);
  }

  lemma DiffSquareNear(x: real, y: real)
    requires AbsR(x) <= 50000.0 && AbsR(y - x) <= AbsR(x) / 16777216.0 + 0.000000000001
    ensures AbsR(y * y - x * x) <= x * x / 8000000.0 + 0.00000011
    ensures 0.0 <= x * x <= 2500000000.0
  {
    var X := AbsR(x);
    SquareNear(x, y, X / 16777216.0 + 0.000000000001);
    ErrorSquared(X, X / 16777216.0 + 0.000000000001);
    assert X * X == x * x;
    MulOrder(X, X, 50000.0);
    assert X * X <= X * 50000.0;
    MulOrder(X, 0.0, X);
  }

  lemma LinearProduct(sq: real, z: real, p: real)
    requires 0.0 <= sq <= 2500000000.0 && AbsR(z - sq) <= sq / 8000000.0 + 0.00000011
    requires p == z || AbsR(p - z) <= AbsR(z) / 16777216.0 + 0.000000000001
    ensures AbsR(p - sq) <= sq / 4194304.0 + 0.0000002 && AbsR(z) <= 2600000000.0
  {
  }

  /** The squared difference as computed, before it is added. */
  function Product(fl: real -> real, fused: bool, x: real): real {
    if fused then SquareR(fl(x)) else fl(SquareR(fl(x)))
  }

  lemma ProductNear(fl: real -> real, fused: bool, x: real)
    requires Rounds(fl) && AbsR(x) <= 50000.0
    ensures AbsR(Product(fl, fused, x) - SquareR(x)) <= SquareR(x) / 4194304.0 + 0.0000002
    ensures 0.0 <= SquareR(x) <= 2500000000.0
  {
    var y := RoundedWithin(fl, x);
    assert SquareR(x) == x * x;
    DiffSquareNear(x, y);
    var z := SquareR(y);
    LinearProduct(SquareR(x), z, z);
    var p := RoundedWithin(fl, z);
    LinearProduct(SquareR(x), z, p);
  }

  lemma LinearAdd(m: real, me: real, t: real, x: real, y: real)
    requires 0.0 <= m <= 102500000000.0 && 0.0 <= me <= m * 0.00001 && 0.0 <= t <= 0.001
    requires m - me - t - 0.0000002 <= x <= m + me + t + 0.0000002
    requires AbsR(y - x) <= AbsR(x) / 16777216.0 + 0.000000000001
    ensures m - (me + 2.0 * m / 16777216.0) - (t + 0.000001) <= y <= m + (me + 2.0 * m / 16777216.0) + (t + 0.000001)
  {
  }

  lemma AddNear(fl: real -> real, acc: real, exact: real, e: real, t: real, p: real, sq: real)
    requires Rounds(fl) && Near(acc, exact, e, t) && 0.0 <= exact <= 100000000000.0 && 0.0 <= sq <= 2500000000.0
    requires AbsR(p - sq) <= sq / 4194304.0 + 0.0000002
    requires 1.0 / 4194304.0 <= e <= 0.00001 && 0.0 <= t <= 0.001
    ensures Near(fl(acc + p), exact + sq, e + 2.0 / 16777216.0, t + 0.000001)
  {
    var m, ee, se := exact + sq, exact * e, sq * e;
    LeastShare(sq, e, se);
    SmallShare(exact, e, ee);
    SmallShare(sq, e, se);
    LinearSum(acc, exact, ee, t, p, sq, se);
    var y := RoundedWithin(fl, acc + p);
    LinearAdd(m, ee + se, t, acc + p, y);
    SharedError(exact, sq, e, ee, se);
  }

  lemma SharedError(exact: real, sq: real, e: real, ee: real, se: real)
    requires ee == exact * e && se == sq * e
    ensures (exact + sq) * (e + 2.0 / 16777216.0) == ee + se + 2.0 * (exact + sq) / 16777216.0
  {
    SumTimes(exact, sq, e);
    TimesSum(exact + sq, e, 2.0 / 16777216.0);
  }

  lemma LeastShare(x: real, e: real, xe: real)
    requires 0.0 <= x && 1.0 / 4194304.0 <= e && xe == x * e
    ensures x / 4194304.0 <= xe
  {
    MulOrder(x, 1.0 / 4194304.0, e);
  }

  lemma SmallShare(x: real, e: real, xe: real)
    requires 0.0 <= x && 0.0 <= e <= 0.00001 && xe == x * e
    ensures 0.0 <= xe <= x * 0.00001
  {
    ShareOrder(x, e, 0.00001);
  }

  lemma ShareOrder(x: real, e: real, c: real)
    requires 0.0 <= x && 0.0 <= e <= c
    ensures 0.0 <= x * e <= x * c
  {
  }

  lemma SumTimes(a: real, b: real, x: real)
    ensures (a + b) * x == a * x + b * x
  {
  }

  lemma TimesSum(a: real, x: real, y: real)
    ensures a * (x + y) == a * x + a * y
  {
  }

  lemma LinearSum(acc: real, exact: real, ee: real, t: real, p: real, sq: real, se: real)
    requires exact - ee - t <= acc <= exact + ee + t && AbsR(p - sq) <= sq / 4194304.0 + 0.0000002
    requires sq / 4194304.0 <= se && 0.0 <= ee + se <= (exact + sq) * 0.00001 && 0.0 <= t <= 0.001
    requires 0.0 <= exact <= 100000000000.0 && 0.0 <= sq <= 2500000000.0
    ensures exact + sq - (ee + se) - t - 0.0000002 <= acc + p <= exact + sq + (ee + se) + t + 0.0000002
    ensures AbsR(acc + p) <= 1000000000000.0
  {
  }

  ghost predicate Close(a: RVec, c: RVec, w: real) {
    forall d :: 0 <= d < DIMS ==> AbsR(a[d] - c[d]) <= w
  }

  lemma {:induction false} RDistBound(a: RVec, c: RVec, w: real, n: nat)
    requires Close(a, c, w) && 0.0 <= w && n <= DIMS
    ensures 0.0 <= RDist(a, c, n) <= n as real * (w * w)
  {
    if 0 < n {
      RDistBound(a, c, w, n - 1);
      AbsSquare(a[n - 1] - c[n - 1], w);
      OneMoreTerm(n, w * w);
    }
  }

  lemma AbsSquare(x: real, w: real)
    requires AbsR(x) <= w
    ensures 0.0 <= SquareR(x) <= w * w
  {
    MulOrder(AbsR(x), AbsR(x), w);
    MulOrder(w, AbsR(x), w);
    assert x * x == AbsR(x) * AbsR(x);
  }

  lemma OneMoreTerm(n: nat, s: real)
    requires n > 0
    ensures n as real * s == (n - 1) as real * s + s
  {
  }

  /** The computed distance is right up to a relative error of 32 * 2^-24. */
  lemma {:induction false} RealSumNear(fl: real -> real, fused: bool, a: RVec, c: RVec, n: nat)
    requires Rounds(fl) && Close(a, c, 50000.0) && n <= DIMS
    ensures Near(RealSum(fl, fused, a, c, n), RDist(a, c, n), (4 + 2 * n) as real / 16777216.0, n as real * 0.000001)
  {
    if 0 < n {
      RealSumNear(fl, fused, a, c, n - 1);
      RDistBound(a, c, 50000.0, n - 1);
      var x := a[n - 1] - c[n - 1];
      ProductNear(fl, fused, x);
      SumStep(fl, fused, RealSum(fl, fused, a, c, n - 1), RDist(a, c, n - 1), x, n);
    }
  }

  lemma SumStep(fl: real -> real, fused: bool, acc: real, exact: real, x: real, n: nat)
    requires Rounds(fl) && 1 <= n <= DIMS && 0.0 <= exact <= 100000000000.0
    requires Near(acc, exact, (2 + 2 * n) as real / 16777216.0, (n - 1) as real * 0.000001)
    requires AbsR(Product(fl, fused, x) - SquareR(x)) <= SquareR(x) / 4194304.0 + 0.0000002
             && 0.0 <= SquareR(x) <= 2500000000.0
    ensures Near(MulAdd(fl, fused, acc, fl(x)), exact + SquareR(x), (4 + 2 * n) as real / 16777216.0,
                 n as real * 0.000001)
  {
    var e, t := (2 + 2 * n) as real / 16777216.0, (n - 1) as real * 0.000001;
    AddNear(fl, acc, exact, e, t, Product(fl, fused, x), SquareR(x));
    assert e + 2.0 / 16777216.0 == (4 + 2 * n) as real / 16777216.0;
    assert t + 0.000001 == n as real * 0.000001;
    assert MulAdd(fl, fused, acc, fl(x)) == fl(acc + Product(fl, fused, x));
  }

  // ----- The filter -----

  /** How much the computed gap can exceed the corrected one. */
  lemma GapLoss(c: real, r: real, g: real, g2: real, d: real, far: real)
    requires 0.0 <= r < c <= 76000.0
    requires AbsR(g - (c - r)) <= (c - r) / 16777216.0 + 0.000000000001 && 200.0 <= g
    requires AbsR(g2 - g * g) <= g * g / 16777216.0 + 0.000000000001
    requires far == (c - c * 0.0000015 - 0.01) - (r + r * 0.0000015 + 0.01) && (0.0 <= far ==> far * far <= d)
    ensures g2 <= d + 50000.0
  {
    var w := c - r;
    assert w - 0.25 <= far <= w;
    assert 100.0 <= w <= 76000.0;
    assert g <= w + 0.01;
    SquareUp(far, g);
  }

  lemma SquareUp(far: real, g: real)
    requires 0.0 <= far && g <= far + 0.26 && 0.0 <= g <= 76001.0
    ensures g * g <= far * far + 39600.0 && g * g <= 5776152001.0
  {
    MulOrder(g, g, 76001.0);
    assert g * g <= g * 76001.0;
    if g <= far {
      MulOrder(g, g, far);
      MulOrder(far, g, far);
    } else {
      var up, sum := g - far, g + far;
      assert g * g == far * far + sum * up;
      MulOrder(sum, up, 0.26);
      assert sum * up <= sum * 0.26;
    }
  }

  /** A root of the computed centroid distance, shrunk, and a root of the computed
      radius, grown: still on the right sides of the exact values. */
  function Shrunk(c: real): real {
    c - c * 0.0000015 - 0.01
  }

  function Grown(r: real): real {
    r + r * 0.0000015 + 0.01
  }

  lemma Sides(s2: real, rho: real, cd: real, md: real, maxd: real, c: real, r: real)
    requires 0.0 <= rho <= 5600000000.0 && 0.0 <= s2 <= 5600000000.0
    requires cd <= s2 + s2 * 32.0 / 16777216.0 + 0.000014 && rho - rho * 32.0 / 16777216.0 - 0.000014 <= md <= maxd
             && 0.0 <= maxd
    requires 0.0 <= c && c * c <= cd + cd / 4194304.0
    requires 0.0 <= r && maxd - maxd / 4194304.0 <= r * r
    ensures 0.0 <= Shrunk(c) ==> Shrunk(c) * Shrunk(c) <= s2
    ensures rho <= Grown(r) * Grown(r) && 0.0 <= Grown(r)
  {
  }

  lemma CorrectedGap(s2: real, rho: real, d: real, p: real, c': real, r': real)
    requires s2 == d + 2.0 * p + rho && Cauchy(p, d, rho) && 0.0 <= d && 0.0 <= rho
    requires 0.0 <= r' <= c' && c' * c' <= s2 && rho <= r' * r'
    ensures (c' - r') * (c' - r') <= d
  {
    if r' < c' {
      TriangleSquares(d, p, rho, s2, c', r');
    } else {
      assert c' - r' == 0.0;
    }
  }

  ghost predicate FarEnough(d: real, c: real, r: real) {
    var far := Shrunk(c) - Grown(r);
    0.0 <= far ==> far * far <= d
  }

  lemma CentroidRootSmall(s2: real, cd: real, c: real)
    requires 0.0 <= s2 <= 5600000000.0 && cd <= s2 + s2 * 32.0 / 16777216.0 + 0.000014
    requires 0.0 <= c && c * c <= cd + cd / 4194304.0
    ensures c <= 76000.0
  {
  }

  /** The squared gap as computed exceeds the exact distance by less than the margin. */
  lemma GapBounded(d: real, c: real, r: real, g: real, g2: real)
    requires 0.0 <= r && 0.0 <= c <= 76000.0 && 0.0 <= d
    requires FarEnough(d, c, r)
    requires AbsR(g - (c - r)) <= AbsR(c - r) / 16777216.0 + 0.000000000001 && 0.0 < g
    requires AbsR(g2 - g * g) <= AbsR(g * g) / 16777216.0 + 0.000000000001
    ensures g2 <= d + 50000.0
  {
    MulOrder(g, 0.0, g);
    if g < 200.0 {
      MulOrder(g, g, 200.0);
      assert 0.0 <= g * g <= 40000.0;
    } else {
      GapLoss(c, r, g, g2, d, (c - c * 0.0000015 - 0.01) - (r + r * 0.0000015 + 0.01));
    }
  }

  /** Coordinates that a mean of quantised vectors can have. */
  ghost predicate InCube(c: RVec) {
    forall d :: 0 <= d < DIMS ==> -10000.0 <= c[d] <= 10000.0
  }

  lemma CubeDist(v: Vec, cen: RVec)
    requires Quantized(v) && InCube(cen)
    ensures Close(Widen(v), cen, 20000.0) && 0.0 <= RDist(Widen(v), cen, DIMS) <= 5600000000.0
  {
    RDistBound(Widen(v), cen, 20000.0, DIMS);
  }

  /** The distances the filter starts from are right up to 32 * 2^-24. */
  lemma FilterDistances(fl: real -> real, fused: bool, v: Vec, cen: RVec) returns (sum: real, exact: real)
    requires Rounds(fl) && Quantized(v) && InCube(cen)
    ensures sum == RealSum(fl, fused, Widen(v), cen, DIMS) && exact == RDist(Widen(v), cen, DIMS)
    ensures 0.0 <= exact <= 5600000000.0
    ensures exact - exact * 32.0 / 16777216.0 - 0.000014 <= sum <= exact + exact * 32.0 / 16777216.0 + 0.000014
  {
    CubeDist(v, cen);
    RealSumNear(fl, fused, Widen(v), cen, DIMS);
    sum, exact := RealSum(fl, fused, Widen(v), cen, DIMS), RDist(Widen(v), cen, DIMS);
  }

  lemma RootWithin(root: real -> real, x: real) returns (r: real)
    requires RootRounds(root) && 0.0 <= x <= 1000000000000.0
    ensures r == root(x) && 0.0 <= r <= 1000002.0 && x - x / 4194304.0 <= r * r <= x + x / 4194304.0
  {
    r := root(x);
    SquareLess(r, 1000002.0);
  }

  /** A cluster holding a vector nearer than the current worst is never skipped by
      the triangle filter, for quantised queries and members, provided the stored
      radius is the root of at least the member's computed distance. */
  lemma TriangleKeepsNear(fl: real -> real, root: real -> real, fused: bool, fusedRadius: bool, q: Vec, v: Vec,
                          cen: RVec, worst: int, maxd: real)
    requires Rounds(fl) && RootRounds(root) && Quantized(q) && Quantized(v) && InCube(cen) && worst <= INFINITE
    requires RealSum(fl, fusedRadius, Widen(v), cen, DIMS) <= maxd <= 1000000000000.0 && 0.0 <= maxd
    requires RealSum(fl, fused, Widen(q), cen, DIMS) > 0.0
    requires SqDist(q, v) < worst
    ensures var g := fl(root(RealSum(fl, fused, Widen(q), cen, DIMS)) - root(maxd));
            g > 0.0 ==> fl(SquareR(g)) < Threshold(fl, worst)
  {
    var c, r := ComputedGap(fl, root, fused, fusedRadius, q, v, cen, maxd);
    GapPasses(fl, SqDist(q, v) as real, c, r);
    ThresholdAbove(fl, worst, SqDist(q, v));
  }

  /** The two roots the filter subtracts, with the triangle inequality they obey. */
  lemma ComputedGap(fl: real -> real, root: real -> real, fused: bool, fusedRadius: bool, q: Vec, v: Vec, cen: RVec,
                    maxd: real) returns (c: real, r: real)
    requires Rounds(fl) && RootRounds(root) && Quantized(q) && Quantized(v) && InCube(cen)
    requires RealSum(fl, fusedRadius, Widen(v), cen, DIMS) <= maxd <= 1000000000000.0 && 0.0 <= maxd
    requires RealSum(fl, fused, Widen(q), cen, DIMS) > 0.0
    ensures c == root(RealSum(fl, fused, Widen(q), cen, DIMS)) && r == root(maxd)
    ensures 0.0 <= r <= 1000002.0 && 0.0 <= c <= 76000.0 && FarEnough(SqDist(q, v) as real, c, r)
  {
    var cd, s2 := FilterDistances(fl, fused, q, cen);
    var md, rho := FilterDistances(fl, fusedRadius, v, cen);
    c := RootWithin(root, cd);
    r := RootWithin(root, maxd);
    CentroidRootSmall(s2, cd, c);
    var d, p := TriangleLaw(q, v, cen);
    ExactGap(d, s2, rho, p, cd, md, maxd, c, r);
  }

  /** The law of cosines and Cauchy-Schwarz for a query, a member and a centroid. */
  lemma TriangleLaw(q: Vec, v: Vec, cen: RVec) returns (d: real, p: real)
    ensures d == SqDist(q, v) as real && 0.0 <= d
    ensures RDist(Widen(q), cen, DIMS) == d + 2.0 * p + RDist(Widen(v), cen, DIMS)
    ensures Cauchy(p, d, RDist(Widen(v), cen, DIMS))
  {
    RDistExpands(Widen(q), Widen(v), cen, DIMS);
    CauchySchwarz(Widen(q), Widen(v), cen, DIMS);
    RDistIsPartialDist(q, v, DIMS);
    d, p := SqDist(q, v) as real, Dot(Widen(q), Widen(v), cen, DIMS);
  }

  lemma ExactGap(d: real, s2: real, rho: real, p: real, cd: real, md: real, maxd: real, c: real, r: real)
    requires s2 == d + 2.0 * p + rho && Cauchy(p, d, rho) && 0.0 <= d
    requires 0.0 <= rho <= 5600000000.0 && 0.0 <= s2 <= 5600000000.0
    requires cd <= s2 + s2 * 32.0 / 16777216.0 + 0.000014 && rho - rho * 32.0 / 16777216.0 - 0.000014 <= md <= maxd
             && 0.0 <= maxd
    requires 0.0 <= c && c * c <= cd + cd / 4194304.0
    requires 0.0 <= r && maxd - maxd / 4194304.0 <= r * r
    ensures FarEnough(d, c, r)
  {
    Sides(s2, rho, cd, md, maxd, c, r);
    if Grown(r) <= Shrunk(c) {
      CorrectedGap(s2, rho, d, p, Shrunk(c), Grown(r));
    }
  }

  lemma GapPasses(fl: real -> real, d: real, c: real, r: real)
    requires Rounds(fl) && 0.0 <= r <= 1000002.0 && 0.0 <= c <= 76000.0 && 0.0 <= d
    requires FarEnough(d, c, r)
    ensures var g := fl(c - r); g > 0.0 ==> fl(SquareR(g)) <= d + 50000.0
  {
    var g := RoundedWithin(fl, c - r);
    if g > 0.0 {
      GapSquareFits(c, r, g);
      var g2 := RoundedWithin(fl, SquareR(g));
      GapBounded(d, c, r, g, g2);
    }
  }

  lemma GapSquareFits(c: real, r: real, g: real)
    requires 0.0 <= r && 0.0 <= c <= 76000.0 && 0.0 < g
             && AbsR(g - (c - r)) <= AbsR(c - r) / 16777216.0 + 0.000000000001
    ensures AbsR(g * g) <= 1000000000000.0
  {
    assert g <= 76001.0;
    MulOrder(g, g, 76001.0);
    assert g * g <= g * 76001.0;
    MulOrder(g, 0.0, g);
  }
}
