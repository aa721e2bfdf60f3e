/**
  The metric tensors of the current engine and the two quantities read from
  them: the squared length of a four-velocity and the time component that
  normalises a four-velocity. The Schwarzschild tensor uses the (+,-,-,-)
  signature; the Kerr tensor uses (-,+,+,+), puts its single off-diagonal
  term at (r, phi) and multiplies by `a` where the Boyer-Lindquist form has
  `a^2`. All of this is modelled as the code writes it. `Math.pow(x, 2)` is
  written `x * x`.
 */
module Metric {

  import opened Linear
  import opened Tensors
  import opened Arith

  /** The spatial part (r, theta, phi) of a four-velocity. */
  type Vec3 = v: seq<real> | |v| == 3 witness [0.0, 0.0, 0.0]

  /** The parameters of the space-time: Schwarzschild radius, radial
      coordinate, polar angle and, for Kerr, the spin parameter. */
  datatype MetricData =
    | Schwarzschild(rs: real, r: real, angle: Angle)
    | Kerr(rs: real, r: real, angle: Angle, a: real)

  function Sigma(r: real, a: real, angle: Angle): real {
    r * r + (a * angle.cos) * (a * angle.cos)
  }

  function Delta(rs: real, r: real, a: real): real {
    r * r - rs * r + a * a
  }

  /** The points where no tensor entry divides by zero. */
  predicate MetricDefined(md: MetricData) {
    match md
    case Schwarzschild(rs, r, _) => r != 0.0 && r != rs
    case Kerr(rs, r, angle, a) => Sigma(r, a, angle) != 0.0 && Delta(rs, r, a) != 0.0
  }

  /** The Schwarzschild tensor of the current engine, signature (+,-,-,-). */
  function SchwarzschildMetric(rs: real, r: real, angle: Angle): (g: Matrix4)
    requires r != 0.0 && r != rs
    ensures Diagonal(g)
    ensures g[0][0] * r == r - rs
    ensures g[0][0] * g[1][1] == -1.0
    ensures g[3][3] == g[2][2] * angle.sin * angle.sin
  {
    RatioNotOne(rs, r);
    var g := ZeroMetric();
    var g := SetEntry(g, 0, 0, 1.0 - rs / r);
    var g := SetEntry(g, 1, 1, -1.0 / (1.0 - rs / r));
    var g := SetEntry(g, 2, 2, -(r * r));
    var g := SetEntry(g, 3, 3, -((r * angle.sin) * (r * angle.sin)));
    ReciprocalProduct(1.0 - rs / r, g[1][1]);
    g
  }

  /** Flat space-time in spherical coordinates, signature (+,-,-,-): the
      line element dt^2 - dr^2 - r^2 dtheta^2 - r^2 sin^2(theta) dphi^2. */
  function FlatSpherical(r: real, angle: Angle): (g: Matrix4) {
    var s2 := angle.sin * angle.sin;
    [[1.0, 0.0, 0.0, 0.0], [0.0, -1.0, 0.0, 0.0], [0.0, 0.0, -(r * r), 0.0], [0.0, 0.0, 0.0, -(r * r * s2)]]
  }

  /** Without mass the Schwarzschild tensor is flat space-time. */
  lemma SchwarzschildMassless(r: real, angle: Angle)
    requires r != 0.0
    ensures SchwarzschildMetric(0.0, r, angle) == FlatSpherical(r, angle)
  {
    var g := SchwarzschildMetric(0.0, r, angle);
    var f := FlatSpherical(r, angle);
    SquareOfProduct(r, angle.sin);
    assert g[0] == f[0];
    assert g[1] == f[1];
    assert g[2] == f[2];
    assert g[3] == f[3];
  }

  /** The entries exercised by the repository's test of this tensor at rs = 1, r = 2. */
  lemma SchwarzschildAtTwo(angle: Angle)
    ensures SchwarzschildMetric(1.0, 2.0, angle)[0][0] == 0.5
    ensures SchwarzschildMetric(1.0, 2.0, angle)[1][1] == -2.0
    ensures SchwarzschildMetric(1.0, 2.0, angle)[2][2] == -4.0
    ensures SchwarzschildMetric(1.0, 2.0, angle)[3][3] == -4.0 * angle.sin * angle.sin
  {
  }

  /** The Kerr tensor of the current engine, signature (-,+,+,+). */
  function KerrMetric(rs: real, r: real, angle: Angle, a: real): (g: Matrix4)
    requires Sigma(r, a, angle) != 0.0 && Delta(rs, r, a) != 0.0
    ensures Symmetric(g)
    ensures forall i, j :: 0 <= i < 4 && 0 <= j < 4 && i != j && !(i == 1 && j == 3) && !(i == 3 && j == 1) ==>
              g[i][j] == 0.0
    ensures g[1][1] * Delta(rs, r, a) == g[2][2]
    ensures g[2][2] == Sigma(r, a, angle)
  {
    var sigma := Sigma(r, a, angle);
    var delta := Delta(rs, r, a);
    var sinTheta2 := angle.sin * angle.sin;
    var g := ZeroMetric();
    var g := SetEntry(g, 0, 0, -(1.0 - (rs * r) / sigma));
    var g := SetEntry(g, 1, 1, sigma / delta);
    var g := SetEntry(g, 2, 2, sigma);
    var g := SetEntry(g, 3, 3, (r * r + a * a + (rs * r * a) / sigma * sinTheta2) * sinTheta2);
    var g := SetEntry(g, 1, 3, (rs * r * a * sinTheta2) / sigma);
    SetEntry(g, 3, 1, g[1][3])
  }

  lemma NoSpinDefined(rs: real, r: real, angle: Angle)
    requires r != 0.0 && r != rs
    ensures Sigma(r, 0.0, angle) == r * r && Sigma(r, 0.0, angle) != 0.0
    ensures Delta(rs, r, 0.0) == r * r - rs * r && Delta(rs, r, 0.0) != 0.0
  {
    assert Sigma(r, 0.0, angle) == r * r;
    NonzeroProduct(r, r, Sigma(r, 0.0, angle));
    assert Delta(rs, r, 0.0) == r * (r - rs);
    NonzeroProduct(r, r - rs, Delta(rs, r, 0.0));
  }

  lemma NoSpinTime(rs: real, r: real, angle: Angle)
    requires r != 0.0 && r != rs
    ensures Sigma(r, 0.0, angle) != 0.0
    ensures (rs * r) / Sigma(r, 0.0, angle) == rs / r
  {
    NoSpinDefined(rs, r, angle);
    assert (rs * r) * r == rs * Sigma(r, 0.0, angle);
    QuotientsEqual(rs * r, Sigma(r, 0.0, angle), rs, r);
  }

  lemma NoSpinRadial(rs: real, r: real, angle: Angle)
    requires r != 0.0 && r != rs
    ensures Delta(rs, r, 0.0) != 0.0
    ensures Sigma(r, 0.0, angle) / Delta(rs, r, 0.0) == 1.0 / (1.0 - rs / r)
  {
    NoSpinDefined(rs, r, angle);
    RatioNotOne(rs, r);
    assert (rs / r) * r == rs;
    assert Sigma(r, 0.0, angle) * (1.0 - rs / r) == 1.0 * Delta(rs, r, 0.0);
    QuotientsEqual(Sigma(r, 0.0, angle), Delta(rs, r, 0.0), 1.0, 1.0 - rs / r);
  }

  /** With zero spin the Kerr tensor is the Schwarzschild tensor with every
      sign flipped: the two builders use opposite signatures. */
  lemma KerrWithoutSpin(rs: real, r: real, angle: Angle)
    requires r != 0.0 && r != rs
    ensures Sigma(r, 0.0, angle) != 0.0 && Delta(rs, r, 0.0) != 0.0
    ensures Negated(SchwarzschildMetric(rs, r, angle), KerrMetric(rs, r, angle, 0.0))
  {
    NoSpinDefined(rs, r, angle);
    NoSpinTime(rs, r, angle);
    NoSpinRadial(rs, r, angle);
    SquareOfProduct(r, angle.sin);
    var k := KerrMetric(rs, r, angle, 0.0);
    assert k[3][3] == (r * r) * (angle.sin * angle.sin);
    assert k[1][3] == 0.0;
  }

  /** The tensor a `MetricData` selects. */
  function Tensor(md: MetricData): (g: Matrix4)
    requires MetricDefined(md)
    ensures Symmetric(g)
    ensures forall i :: 1 <= i < 4 ==> g[0][i] == 0.0 && g[i][0] == 0.0
  {
    match md
    case Schwarzschild(rs, r, angle) => SchwarzschildMetric(rs, r, angle)
    case Kerr(rs, r, angle, a) => KerrMetric(rs, r, angle, a)
  }

  // ---------------------------------------------------------------------------
  // Lengths of four-vectors

  /** `getVectorSizeSquared`: the double sum of the selected tensor. */
  function VectorSizeSquared(v: Vec4, md: MetricData): real
    requires MetricDefined(md)
  {
    Quadratic(Tensor(md), v)
  }

  /** Under the Schwarzschild tensor only the squared components count. */
  lemma SchwarzschildSizeSquared(v: Vec4, rs: real, r: real, angle: Angle)
    requires r != 0.0 && r != rs
    ensures VectorSizeSquared(v, Schwarzschild(rs, r, angle)) ==
      (1.0 - rs / r) * v[0] * v[0] - 1.0 / (1.0 - rs / r) * v[1] * v[1]
      - (r * r) * v[2] * v[2] - ((r * angle.sin) * (r * angle.sin)) * v[3] * v[3]
  {
    var g := SchwarzschildMetric(rs, r, angle);
    DiagonalQuadratic(g, v);
  }

  /** Scaling a vector by `k` scales its squared length by `k * k`. */
  lemma VectorSizeSquaredScale(v: Vec4, md: MetricData, k: real)
    requires MetricDefined(md)
    ensures VectorSizeSquared(Scale(k, v), md) == k * k * VectorSizeSquared(v, md)
  {
    QuadraticScale(Tensor(md), v, k);
  }

  /** The law of `Math.sqrt` on its domain. */
  ghost predicate IsSquareRoot(sqrt: real -> real) {
    forall x: real :: 0.0 <= x ==> 0.0 <= sqrt(x) && sqrt(x) * sqrt(x) == x
  }

  /** `getVectorSize`: `Math.sqrt` of the squared length, NaN when that is negative. */
  function VectorSize(v: Vec4, md: MetricData, sqrt: real -> real): (size: Num)
    requires MetricDefined(md)
    ensures size.Finite? <==> 0.0 <= VectorSizeSquared(v, md)
  {
    var squared := VectorSizeSquared(v, md);
    if squared < 0.0 then NonFinite else Finite(sqrt(squared))
  }

  /** A finite length is the non-negative root of the squared length. */
  lemma VectorSizeIsRoot(v: Vec4, md: MetricData, sqrt: real -> real)
    requires MetricDefined(md) && IsSquareRoot(sqrt)
    ensures VectorSize(v, md, sqrt).Finite? ==>
      0.0 <= VectorSize(v, md, sqrt).value &&
      VectorSize(v, md, sqrt).value * VectorSize(v, md, sqrt).value == VectorSizeSquared(v, md)
  {
  }

  // ---------------------------------------------------------------------------
  // The time component of a four-velocity

  /** The four-vector with time component `u` and spatial part `s`. */
  function WithTime(u: real, s: Vec3): (v: Vec4) {
    [u, s[0], s[1], s[2]]
  }

  /** The double sum over the spatial indices only. */
  function SpatialSum(g: Matrix4, s: Vec3): real {
    Quadratic(g, WithTime(0.0, s))
  }

  /** The sum of `U^a g[0][a]` over the spatial indices. */
  function GtaSum(g: Matrix4, s: Vec3): real {
    Dot(g[0], WithTime(0.0, s), 4)
  }

  /** The spatial double sum and the `reduce` over `U^a g[0][a]`, term by term. */
  lemma SpatialTerms(g: Matrix4, s: Vec3)
    ensures GtaSum(g, s) == s[0] * g[0][1] + s[1] * g[0][2] + s[2] * g[0][3]
    ensures SpatialSum(g, s) ==
      s[0] * (g[1][1] * s[0] + g[1][2] * s[1] + g[1][3] * s[2]) +
      s[1] * (g[2][1] * s[0] + g[2][2] * s[1] + g[2][3] * s[2]) +
      s[2] * (g[3][1] * s[0] + g[3][2] * s[1] + g[3][3] * s[2])
  {
    var z := WithTime(0.0, s);
    QuadraticRows(g, z);
    DotTerms4(g[0], z);
    DotTerms4(g[1], z);
    DotTerms4(g[2], z);
    DotTerms4(g[3], z);
  }

  function Discriminant(g: Matrix4, s: Vec3): real {
    GtaSum(g, s) * GtaSum(g, s) - g[0][0] * (SpatialSum(g, s) - 1.0)
  }

  /** `getTimeVelocity`: the two roots `(-gtaSum +/- sqrtD) / g[0][0]`; NaN or
      infinite when the discriminant is negative or `g[0][0]` is zero. */
  function TimeVelocity(s: Vec3, md: MetricData, sqrt: real -> real): (roots: (Num, Num))
    requires MetricDefined(md)
    ensures roots.0.Finite? == roots.1.Finite?
    ensures roots.0.Finite? <==> 0.0 <= Discriminant(Tensor(md), s) && Tensor(md)[0][0] != 0.0
  {
    var g := Tensor(md);
    var gtaSum := GtaSum(g, s);
    var d := Discriminant(g, s);
    if d < 0.0 || g[0][0] == 0.0 then (NonFinite, NonFinite)
    else
      var sqrtD := sqrt(d);
      (Finite((-gtaSum + sqrtD) / g[0][0]), Finite((-gtaSum - sqrtD) / g[0][0]))
  }

  lemma SplitAlgebra(u: real, g00: real, gta: real, c1: real, c2: real, c3: real, s0: real, s1: real, s2: real,
                     d1: real, d2: real, d3: real, q: real, z: real)
    requires gta == c1 * s0 + c2 * s1 + c3 * s2
    requires q == u * (g00 * u + gta) + s0 * (c1 * u + d1) + s1 * (c2 * u + d2) + s2 * (c3 * u + d3)
    requires z == s0 * d1 + s1 * d2 + s2 * d3
    ensures q == g00 * u * u + 2.0 * u * gta + z
  {
  }

  /** Row `a` with the time component `u` put in is the row with time zero
      plus `u` times its time entry. */
  lemma RowSplit(g: Matrix4, u: real, s: Vec3, a: nat)
    requires a < 4
    ensures Dot(g[a], WithTime(u, s), 4) == g[a][0] * u + Dot(g[a], WithTime(0.0, s), 4)
  {
    DotTerms4(g[a], WithTime(u, s));
    DotTerms4(g[a], WithTime(0.0, s));
  }

  /** For a symmetric tensor the squared length is a quadratic polynomial in
      the time component. */
  lemma SplitTime(g: Matrix4, u: real, s: Vec3)
    requires Symmetric(g)
    ensures Quadratic(g, WithTime(u, s)) == g[0][0] * u * u + 2.0 * u * GtaSum(g, s) + SpatialSum(g, s)
  {
    var v := WithTime(u, s);
    var z := WithTime(0.0, s);
    QuadraticRows(g, v);
    QuadraticRows(g, z);
    RowSplit(g, u, s, 0);
    RowSplit(g, u, s, 1);
    RowSplit(g, u, s, 2);
    RowSplit(g, u, s, 3);
    DotTerms4(g[0], z);
    SplitAlgebra(u, g[0][0], GtaSum(g, s), g[1][0], g[2][0], g[3][0], s[0], s[1], s[2],
      Dot(g[1], z, 4), Dot(g[2], z, 4), Dot(g[3], z, 4), Quadratic(g, v), Quadratic(g, z));
  }

  lemma RootAlgebra(g00: real, gta: real, spatial: real, sq: real, u: real)
    requires g00 != 0.0
    requires sq * sq == gta * gta - g00 * (spatial - 1.0)
    requires u == (-gta + sq) / g00 || u == (-gta - sq) / g00
    ensures g00 * u * u + 2.0 * u * gta + spatial == 1.0
  {
    var w := g00 * u;
    assert w == -gta + sq || w == -gta - sq;
    assert w * w + 2.0 * w * gta == sq * sq - gta * gta;
    assert g00 * (g00 * u * u + 2.0 * u * gta) == w * w + 2.0 * w * gta;
    assert sq * sq - gta * gta == g00 * (1.0 - spatial);
    CancelFactor(g00, g00 * u * u + 2.0 * u * gta, 1.0 - spatial);
  }

  /** Either root of the quadratic in the time component, for any symmetric
      tensor, makes the squared length 1. */
  lemma QuadraticRoot(g: Matrix4, s: Vec3, sq: real, u: real)
    requires Symmetric(g) && g[0][0] != 0.0
    requires sq * sq == Discriminant(g, s)
    requires u == (-GtaSum(g, s) + sq) / g[0][0] || u == (-GtaSum(g, s) - sq) / g[0][0]
    ensures Quadratic(g, WithTime(u, s)) == 1.0
  {
    RootAlgebra(g[0][0], GtaSum(g, s), SpatialSum(g, s), sq, u);
    SplitTime(g, u, s);
  }

  /** A finite root, put in as the time component, gives a four-velocity of
      squared length 1. */
  lemma RootNormalises(s: Vec3, md: MetricData, sqrt: real -> real, u: real)
    requires MetricDefined(md) && IsSquareRoot(sqrt)
    requires TimeVelocity(s, md, sqrt).0.Finite?
    requires u == TimeVelocity(s, md, sqrt).0.value || u == TimeVelocity(s, md, sqrt).1.value
    ensures VectorSizeSquared(WithTime(u, s), md) == 1.0
  {
    var g := Tensor(md);
    QuadraticRoot(g, s, sqrt(Discriminant(g, s)), u);
  }

  /** Either finite root, put in as the time component, gives a four-velocity
      of squared length 1. */
  lemma TimeVelocityNormalises(s: Vec3, md: MetricData, sqrt: real -> real)
    requires MetricDefined(md) && IsSquareRoot(sqrt)
    ensures TimeVelocity(s, md, sqrt).0.Finite? ==>
      VectorSizeSquared(WithTime(TimeVelocity(s, md, sqrt).0.value, s), md) == 1.0
    ensures TimeVelocity(s, md, sqrt).1.Finite? ==>
      VectorSizeSquared(WithTime(TimeVelocity(s, md, sqrt).1.value, s), md) == 1.0
  {
    var roots := TimeVelocity(s, md, sqrt);
    if roots.0.Finite? {
      RootNormalises(s, md, sqrt, roots.0.value);
      RootNormalises(s, md, sqrt, roots.1.value);
    }
  }

  /** Both tensors have no time-space entries, so `gtaSum` is zero and the
      two roots differ only in sign. */
  lemma TimeVelocityOpposite(s: Vec3, md: MetricData, sqrt: real -> real)
    requires MetricDefined(md)
    ensures GtaSum(Tensor(md), s) == 0.0
    ensures TimeVelocity(s, md, sqrt).0.Finite? ==>
      TimeVelocity(s, md, sqrt).1.value == -TimeVelocity(s, md, sqrt).0.value
  {
    var g := Tensor(md);
    DotTerms4(g[0], WithTime(0.0, s));
  }
}
