/** The triangle-inequality filter: why a cluster whose centroid is far enough
    away, given its radius, holds nothing near, rounding included. */
module Triangle {
  import opened Geometry
  import opened Float32

  type RVec = v: seq<real> | |v| == DIMS witness [0.0, 0.0, 0.0, 0.0, 0.0, 0.0, 0.0, 0.0, 0.0, 0.0, 0.0, 0.0, 0.0, 0.0]

  function Widen(v: Vec): (r: RVec)
    ensures forall d :: 0 <= d < DIMS ==> r[d] == v[d] as real
  {
    seq(DIMS, d requires 0 <= d < DIMS => v[d] as real)
  }

  function SquareR(x: real): real {
    x * x
  }

  function RDist(a: RVec, b: RVec, n: nat): (s: real)
    requires n <= DIMS
  {
    if n == 0 then 0.0 else RDist(a, b, n - 1) + SquareR(a[n - 1] - b[n - 1])
  }

  /** The inner product of a - b and b - c. */
  function Dot(a: RVec, b: RVec, c: RVec, n: nat): real
    requires n <= DIMS
  {
    if n == 0 then 0.0 else Dot(a, b, c, n - 1) + Times(a[n - 1] - b[n - 1], b[n - 1] - c[n - 1])
  }

  function Times(x: real, y: real): real {
    x * y
  }

  lemma SquareOfSum(x: real, y: real, z: real)
    requires z == x + y
    ensures SquareR(z) == SquareR(x) + 2.0 * Times(x, y) + SquareR(y)
  {
  }

  lemma {:induction false} RDistIsPartialDist(q: Vec, v: Vec, n: nat)
    requires n <= DIMS
    ensures RDist(Widen(q), Widen(v), n) == PartialDist(q, v, n) as real
  {
    if 0 < n {
      RDistIsPartialDist(q, v, n - 1);
      CastSquare(q[n - 1] as int - v[n - 1]);
    }
  }

  lemma {:induction false} RDistNonNegative(a: RVec, b: RVec, n: nat)
    requires n <= DIMS
    ensures RDist(a, b, n) >= 0.0
  {
    if 0 < n {
      RDistNonNegative(a, b, n - 1);
    }
  }

  lemma {:induction false} RDistExpands(a: RVec, b: RVec, c: RVec, n: nat)
    requires n <= DIMS
    ensures RDist(a, c, n) == RDist(a, b, n) + 2.0 * Dot(a, b, c, n) + RDist(b, c, n)
  {
    if 0 < n {
      RDistExpands(a, b, c, n - 1);
      SquareOfSum(a[n - 1] - b[n - 1], b[n - 1] - c[n - 1], a[n - 1] - c[n - 1]);
    }
  }

  // ----- Cauchy-Schwarz -----

  lemma ProductSign(a: real, x: real)
    requires a > 0.0 && a * x >= 0.0
    ensures x >= 0.0
  {
  }

  lemma ProductPositive(a: real, b: real)
    requires a > 0.0 && b > 0.0
    ensures a * b > 0.0
  {
  }

  lemma ProductNonNegative(a: real, b: real)
    requires a >= 0.0 && b >= 0.0
    ensures a * b >= 0.0
  {
  }

  lemma SquareLess(x: real, y: real)
    requires 0.0 <= y && x * x <= y * y
    ensures x <= y
  {
    if x > y {
      assert x * x - y * y == (x - y) * (x + y);
      ProductPositive(x - y, x + y);
    }
  }

  lemma CrossNonNegative(A: real, B: real, P: real, x: real, y: real)
    requires A >= 0.0 && B >= 0.0 && P * P <= A * B
    ensures A * (y * y) + B * (x * x) - 2.0 * (P * (x * y)) >= 0.0
  {
    var cross := A * (y * y) + B * (x * x) - 2.0 * (P * (x * y));
    if A == 0.0 {
      assert A * B == 0.0;
      SquareLess(P, 0.0);
      SquareLess(-P, 0.0);
      assert P == 0.0;
      assert P * (x * y) == 0.0 && A * (y * y) == 0.0;
      ProductNonNegative(B, x * x);
    } else {
      var d := A * y - P * x;
      assert d * d == A * A * (y * y) - 2.0 * (A * P * (x * y)) + P * P * (x * x);
      assert A * cross == d * d + (A * B - P * P) * (x * x);
      ProductNonNegative(A * B - P * P, x * x);
      ProductSign(A, cross);
    }
  }

  ghost predicate CauchyAt(P: real, A: real, B: real, n: nat) {
    P * P <= A * B
  }

  /** P^2 <= A * B, as Cauchy-Schwarz has it; spelled out only where it is asked for. */
  ghost predicate Cauchy(P: real, A: real, B: real) {
    forall n {:trigger CauchyAt(P, A, B, n)} :: CauchyAt(P, A, B, n)
  }

  /** One more coordinate keeps P^2 <= A * B. */
  lemma CauchyStep(A: real, B: real, P: real, x: real, y: real, A': real, B': real, P': real)
    requires A >= 0.0 && B >= 0.0 && Cauchy(P, A, B)
    requires A' == A + SquareR(x) && B' == B + SquareR(y) && P' == P + Times(x, y)
    ensures Cauchy(P', A', B')
  {
    assert CauchyAt(P, A, B, 0);
    CauchyExtended(A, B, P, x, y, A', B', P');
  }

  lemma CauchyExtended(A: real, B: real, P: real, x: real, y: real, A': real, B': real, P': real)
    requires A >= 0.0 && B >= 0.0 && P * P <= A * B
    requires A' == A + x * x && B' == B + y * y && P' == P + x * y
    ensures P' * P' <= A' * B'
  {
    var cross := A * (y * y) + B * (x * x) - 2.0 * (P * (x * y));
    assert A' * B' - P' * P' == A * B - P * P + cross;
    CrossNonNegative(A, B, P, x, y);
  }

  lemma {:induction false} CauchySchwarz(a: RVec, b: RVec, c: RVec, n: nat)
    requires n <= DIMS
    ensures Cauchy(Dot(a, b, c, n), RDist(a, b, n), RDist(b, c, n))
  {
    if 0 < n {
      CauchySchwarz(a, b, c, n - 1);
      RDistNonNegative(a, b, n - 1);
      RDistNonNegative(b, c, n - 1);
      CauchyStep(RDist(a, b, n - 1), RDist(b, c, n - 1), Dot(a, b, c, n - 1), a[n - 1] - b[n - 1], b[n - 1] - c[n - 1],
                 RDist(a, b, n), RDist(b, c, n), Dot(a, b, c, n));
    }
  }

  lemma CauchyMeans(P: real, A: real, B: real)
    requires Cauchy(P, A, B)
    ensures P * P <= A * B
  {
    assert CauchyAt(P, A, B, 0);
  }

  lemma TriangleUpper(d: real, p: real, rho: real, g: real, r: real)
    requires p * p <= d * rho && d >= 0.0 && rho >= 0.0
    requires 0.0 <= r && 0.0 <= g && d <= g * g && rho <= r * r
    ensures d + 2.0 * p + rho <= d + 2.0 * (g * r) + r * r
  {
    assert d * rho <= d * (r * r);
    assert d * (r * r) <= g * g * (r * r);
    assert g * g * (r * r) == (g * r) * (g * r);
    SquareLess(p, g * r);
  }

  /** The triangle inequality in squares: any c at most the root of s2 and any r at
      least the root of rho leave d at least (c - r)^2. */
  lemma TriangleSquares(d: real, p: real, rho: real, s2: real, c: real, r: real)
    requires s2 == d + 2.0 * p + rho && Cauchy(p, d, rho) && d >= 0.0 && rho >= 0.0
    requires 0.0 <= r < c && c * c <= s2 && rho <= r * r
    ensures (c - r) * (c - r) <= d
  {
    CauchyMeans(p, d, rho);
    var g := c - r;
    assert c * c == g * g + 2.0 * (g * r) + r * r;
    if d <= g * g {
      TriangleUpper(d, p, rho, g, r);
    }
  }

  /** The unrounded filter is sound: with the exact distance to the centroid and a
      radius covering v, the squared gap never exceeds the distance to v. */
  lemma TriangleSound(q: RVec, v: RVec, cen: RVec, c: real, r: real)
    requires 0.0 <= r < c && c * c <= RDist(q, cen, DIMS) && RDist(v, cen, DIMS) <= r * r
    ensures (c - r) * (c - r) <= RDist(q, v, DIMS)
  {
    RDistExpands(q, v, cen, DIMS);
    CauchySchwarz(q, v, cen, DIMS);
    RDistNonNegative(q, v, DIMS);
    RDistNonNegative(v, cen, DIMS);
    TriangleSquares(RDist(q, v, DIMS), Dot(q, v, cen, DIMS), RDist(v, cen, DIMS), RDist(q, cen, DIMS), c, r);
  }

  lemma {:induction false} NoDistance(a: RVec, n: nat)
    requires n <= DIMS
    ensures RDist(a, a, n) == 0.0
  {
    if 0 < n {
      NoDistance(a, n - 1);
    }
  }

  lemma NonzeroSquare(x: real, s: real)
    requires x > 0.0 && s == x * x
    ensures s > 0.0
  {
    assert s / x == x;
  }

  /** With the radius on the other side of the query the absolute value of the gap is
      no bound: the query may sit on a member of a wide cluster. */
  lemma AbsoluteGapFails(v: RVec, r: real) returns (q: RVec, cen: RVec, c: real)
    requires r > 0.0
    ensures 0.0 <= c < r && c * c == RDist(q, cen, DIMS) && RDist(v, cen, DIMS) <= r * r
    ensures RDist(q, v, DIMS) < (r - c) * (r - c)
  {
    q, cen, c := v, v, 0.0;
    NoDistance(v, DIMS);
    assert r - c == r;
    NonzeroSquare(r, (r - c) * (r - c));
    NonzeroSquare(r, r * r);
  }
}
