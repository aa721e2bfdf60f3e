/**
  Shared vocabulary of the relativity engine: four-vectors, 4x4 tensors
  indexed `g[a][b]`, 4x4x4 connection arrays indexed `Gamma[a][b][c]`
  (the coordinate order is always t, r, theta, phi), the trigonometric values
  of the polar angle supplied as plain numbers, and JavaScript numbers that
  may have become NaN or infinite.
 */
module Tensors {

  import opened Linear

  type Vec4 = v: seq<real> | |v| == 4 witness [0.0, 0.0, 0.0, 0.0]

  type Matrix4 = m: seq<Vec4> | |m| == 4 witness [ZeroVector(), ZeroVector(), ZeroVector(), ZeroVector()]

  type Christoffel4 = c: seq<Matrix4> | |c| == 4
    witness [ZeroMetric(), ZeroMetric(), ZeroMetric(), ZeroMetric()]

  /** Values of `Math.sin`, `Math.cos` and `Math.tan` at the polar angle theta.
      The transcendental functions themselves are not modelled: whoever calls
      the engine supplies their values. */
  datatype Angle = Angle(sin: real, cos: real, tan: real)

  /** A JavaScript number: a finite value, or NaN / plus or minus Infinity. */
  datatype Num = Finite(value: real) | NonFinite

  function ZeroVector(): (z: Vec4)
    ensures forall i :: 0 <= i < 4 ==> z[i] == 0.0
  {
    [0.0, 0.0, 0.0, 0.0]
  }

  /** The all-zero tensor every builder starts from (`createZeroMetric`). */
  function ZeroMetric(): (z: Matrix4)
    ensures forall a, b :: 0 <= a < 4 && 0 <= b < 4 ==> z[a][b] == 0.0
  {
    var z := ZeroVector();
    [z, z, z, z]
  }

  /** The all-zero connection array (`createZeroChristoffel`). */
  function ZeroChristoffel(): (z: Christoffel4)
    ensures forall a, b, c :: 0 <= a < 4 && 0 <= b < 4 && 0 <= c < 4 ==> z[a][b][c] == 0.0
  {
    var z := ZeroMetric();
    [z, z, z, z]
  }

  /** Assignment `g[a][b] = x` to one entry of a tensor. */
  function SetEntry(g: Matrix4, a: nat, b: nat, x: real): (h: Matrix4)
    requires a < 4 && b < 4
    ensures h[a][b] == x
    ensures forall i, j :: 0 <= i < 4 && 0 <= j < 4 && (i != a || j != b) ==> h[i][j] == g[i][j]
  {
    g[a := g[a][b := x]]
  }

  /** Assignment `Gamma[a][b][c] = x` to one entry of a connection array. */
  function SetSymbol(gamma: Christoffel4, a: nat, b: nat, c: nat, x: real): (h: Christoffel4)
    requires a < 4 && b < 4 && c < 4
    ensures h[a][b][c] == x
    ensures forall i, j, k :: 0 <= i < 4 && 0 <= j < 4 && 0 <= k < 4 && (i != a || j != b || k != c) ==>
              h[i][j][k] == gamma[i][j][k]
  {
    gamma[a := SetEntry(gamma[a], b, c, x)]
  }

  predicate Symmetric(g: Matrix4) {
    forall a, b :: 0 <= a < 4 && 0 <= b < 4 ==> g[a][b] == g[b][a]
  }

  predicate Diagonal(g: Matrix4) {
    forall a, b :: 0 <= a < 4 && 0 <= b < 4 && a != b ==> g[a][b] == 0.0
  }

  /** Entrywise negation: the same tensor under the opposite signature. */
  predicate Negated(g: Matrix4, h: Matrix4) {
    forall a, b :: 0 <= a < 4 && 0 <= b < 4 ==> h[a][b] == -g[a][b]
  }

  /** The rows `a < n` of the double sum over `g[a][b] * u[a] * u[b]`; row `a`
      is gathered as `u[a]` times the sum over `b` of `g[a][b] * u[b]`. */
  function PartialQuadratic(g: Matrix4, u: Vec4, n: nat): real
    requires n <= 4
  {
    if n == 0 then 0.0 else PartialQuadratic(g, u, n - 1) + u[n - 1] * Dot(g[n - 1], u, 4)
  }

  /** The quadratic form of `g`: the sum over all `a`, `b` of `g[a][b] * u[a] * u[b]`. */
  function Quadratic(g: Matrix4, u: Vec4): real {
    PartialQuadratic(g, u, 4)
  }

  lemma AccumulateTerm(x: real, d: real, gb: real, ub: real, d': real)
    requires d' == d + gb * ub
    ensures x * d' == x * d + gb * x * ub
  {
  }

  /** The inner `forEach`: adds the terms `row[b] * x * u[b]` of one row to `total`. */
  method AccumulateRow(total0: real, row: Vec4, x: real, u: Vec4) returns (total: real)
    ensures total == total0 + x * Dot(row, u, 4)
  {
    total := total0;
    var b := 0;
    while b < 4
      invariant 0 <= b <= 4
      invariant total == total0 + x * Dot(row, u, b)
    {
      AccumulateTerm(x, Dot(row, u, b), row[b], u[b], Dot(row, u, b + 1));
      total := total + row[b] * x * u[b];
      b := b + 1;
    }
  }

  /** The nested `forEach` that accumulates `g[a][b] * u[a] * u[b]` term by term. */
  method QuadraticLoop(g: Matrix4, u: Vec4) returns (total: real)
    ensures total == Quadratic(g, u)
  {
    total := 0.0;
    var a := 0;
    while a < 4
      invariant 0 <= a <= 4
      invariant total == PartialQuadratic(g, u, a)
    {
      total := AccumulateRow(total, g[a], u[a], u);
      a := a + 1;
    }
  }

  /** The double sum as the sum of its four rows. */
  lemma QuadraticRows(g: Matrix4, u: Vec4)
    ensures Quadratic(g, u) ==
      u[0] * Dot(g[0], u, 4) + u[1] * Dot(g[1], u, 4) + u[2] * Dot(g[2], u, 4) + u[3] * Dot(g[3], u, 4)
  {
    assert PartialQuadratic(g, u, 1) == u[0] * Dot(g[0], u, 4);
    assert PartialQuadratic(g, u, 2) == PartialQuadratic(g, u, 1) + u[1] * Dot(g[1], u, 4);
    assert PartialQuadratic(g, u, 3) == PartialQuadratic(g, u, 2) + u[2] * Dot(g[2], u, 4);
  }

  lemma RowTerms(x: real, g0: real, g1: real, g2: real, g3: real, u0: real, u1: real, u2: real, u3: real, d: real)
    requires d == g0 * u0 + g1 * u1 + g2 * u2 + g3 * u3
    ensures x * d == g0 * x * u0 + g1 * x * u1 + g2 * x * u2 + g3 * x * u3
  {
  }

  /** Row `a` of the double sum, written as the terms `g[a][b] * u[a] * u[b]`. */
  lemma RowSumTerms(g: Matrix4, u: Vec4, a: nat)
    requires a < 4
    ensures u[a] * Dot(g[a], u, 4) ==
      g[a][0] * u[a] * u[0] + g[a][1] * u[a] * u[1] + g[a][2] * u[a] * u[2] + g[a][3] * u[a] * u[3]
  {
    DotTerms4(g[a], u);
    RowTerms(u[a], g[a][0], g[a][1], g[a][2], g[a][3], u[0], u[1], u[2], u[3], Dot(g[a], u, 4));
  }

  /** For a diagonal tensor only the squares survive. */
  lemma DiagonalQuadratic(g: Matrix4, u: Vec4)
    requires Diagonal(g)
    ensures Quadratic(g, u) ==
      g[0][0] * u[0] * u[0] + g[1][1] * u[1] * u[1] + g[2][2] * u[2] * u[2] + g[3][3] * u[3] * u[3]
  {
    QuadraticRows(g, u);
    RowSumTerms(g, u, 0);
    RowSumTerms(g, u, 1);
    RowSumTerms(g, u, 2);
    RowSumTerms(g, u, 3);
  }

  /** A product whose two factors each scale by `k` scales by `k * k`. */
  lemma SquareFactor(x: real, d: real, k: real, t: real, t': real)
    requires t == x * d && t' == (k * x) * (k * d)
    ensures t' == k * k * t
  {
  }

  lemma {:induction false} PartialQuadraticScale(g: Matrix4, u: Vec4, k: real, n: nat)
    requires n <= 4
    ensures PartialQuadratic(g, Scale(k, u), n) == k * k * PartialQuadratic(g, u, n)
  {
    if n > 0 {
      var w := Scale(k, u);
      PartialQuadraticScale(g, u, k, n - 1);
      DotScale(g[n - 1], u, k, 4);
      SquareFactor(u[n - 1], Dot(g[n - 1], u, 4), k, u[n - 1] * Dot(g[n - 1], u, 4), w[n - 1] * Dot(g[n - 1], w, 4));
      Distribute(k * k, PartialQuadratic(g, u, n - 1), u[n - 1] * Dot(g[n - 1], u, 4), PartialQuadratic(g, u, n));
    }
  }

  /** The double sum is homogeneous of degree two: scaling the vector by `k`
      scales the result by `k * k`. */
  lemma QuadraticScale(g: Matrix4, u: Vec4, k: real)
    ensures Quadratic(g, Scale(k, u)) == k * k * Quadratic(g, u)
  {
    PartialQuadraticScale(g, u, k, 4);
  }

  /** The zero vector has zero quadratic form under every tensor. */
  lemma QuadraticZero(g: Matrix4)
    ensures Quadratic(g, ZeroVector()) == 0.0
  {
    var z := ZeroVector();
    QuadraticScale(g, z, 0.0);
    assert Scale(0.0, z) == z;
  }
}
