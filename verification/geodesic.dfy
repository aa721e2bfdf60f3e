/**
  One forward-Euler step along a geodesic of the Schwarzschild space-time:
  the position moves along the four-velocity, and the four-velocity changes
  by the Christoffel contraction. The connection array is written with the
  radius in the denominators and with none of the lower-index mirror entries.
 */
module Geodesic {

  import opened Linear
  import opened Arith
  import opened Tensors

  // ---------------------------------------------------------------------------
  // Position step

  /** `nextCoordinates`: each coordinate advances by `stepSize` times its velocity. */
  function NextCoordinates(x: Vec4, u: Vec4, h: real): (y: Vec4) {
    seq(4, i requires 0 <= i < 4 => x[i] + h * u[i])
  }

  /** A step of size zero, or a step at rest, leaves the position unchanged. */
  lemma NextCoordinatesStill(x: Vec4, u: Vec4, h: real)
    requires h == 0.0 || u == ZeroVector()
    ensures NextCoordinates(x, u, h) == x
  {
  }

  /** Two steps along the same velocity make one step of the summed size. */
  lemma NextCoordinatesAdditive(x: Vec4, u: Vec4, h1: real, h2: real)
    ensures NextCoordinates(NextCoordinates(x, u, h1), u, h2) == NextCoordinates(x, u, h1 + h2)
  {
    forall i | 0 <= i < 4
      ensures NextCoordinates(NextCoordinates(x, u, h1), u, h2)[i] == NextCoordinates(x, u, h1 + h2)[i]
    {
      Distribute(u[i], h1, h2, h1 + h2);
    }
  }

  /** A step backwards undoes a step forwards. */
  lemma NextCoordinatesUndo(x: Vec4, u: Vec4, h: real)
    ensures NextCoordinates(NextCoordinates(x, u, h), u, -h) == x
  {
    NextCoordinatesAdditive(x, u, h, -h);
    NextCoordinatesStill(x, u, 0.0);
  }

  // ---------------------------------------------------------------------------
  // Connection

  /** The nine index triples the builder assigns. */
  const Assigned: seq<(int, int, int)> := [
    (0, 1, 0), (1, 1, 1), (1, 0, 0), (1, 3, 3), (1, 2, 2), (2, 1, 2), (3, 1, 3), (2, 3, 3), (3, 2, 3)
  ]

  /** The points where no entry divides by zero. */
  predicate ChristoffelDefined(rs: real, r: real, angle: Angle) {
    r != 0.0 && r != rs && angle.tan != 0.0
  }

  /** `christoffel`: the zero array with nine entries assigned; the
      bindings follow the source's assignments in order. */
  function Christoffel(rs: real, r: real, angle: Angle): (gamma: Christoffel4)
    requires ChristoffelDefined(rs, r, angle)
    ensures gamma[1][1][1] == -gamma[0][1][0]
    ensures gamma[3][1][3] == gamma[2][1][2] && gamma[2][1][2] * r == 1.0
    ensures gamma[1][3][3] == gamma[1][2][2] * angle.sin * angle.sin
    ensures gamma[1][2][2] == rs - r
    ensures gamma[3][2][3] * angle.tan == 1.0
  {
    var rMinusRs := r - rs;
    var rsMinusR := rs - r;
    NonzeroProduct(2.0 * r, rMinusRs, 2.0 * r * rMinusRs);
    NonzeroProduct(r, r, r * r);
    NonzeroProduct(r * r, r, r * r * r);
    var trt := rs / (2.0 * r * rMinusRs);
    var rrr := -trt;
    var rtt := (rs * rMinusRs) / (2.0 * (r * r * r));
    var rpp := rsMinusR * (angle.sin * angle.sin);
    var rhh := rsMinusR;
    var hrh := 1.0 / r;
    var prp := hrh;
    var hpp := -angle.sin * angle.cos;
    var php := 1.0 / angle.tan;
    var o := [0.0, 0.0, 0.0, 0.0];
    [
      [o, [trt, 0.0, 0.0, 0.0], o, o],
      [[rtt, 0.0, 0.0, 0.0], [0.0, rrr, 0.0, 0.0], [0.0, 0.0, rhh, 0.0], [0.0, 0.0, 0.0, rpp]],
      [o, [0.0, 0.0, hrh, 0.0], o, [0.0, 0.0, 0.0, hpp]],
      [o, [0.0, 0.0, 0.0, prp], [0.0, 0.0, 0.0, php], o]
    ]
  }

  /** Every entry outside the nine assigned triples is zero. */
  lemma ChristoffelSparse(rs: real, r: real, angle: Angle)
    requires ChristoffelDefined(rs, r, angle)
    ensures forall a, b, c :: 0 <= a < 4 && 0 <= b < 4 && 0 <= c < 4 && (a, b, c) !in Assigned ==>
              Christoffel(rs, r, angle)[a][b][c] == 0.0
  {
    var gamma := Christoffel(rs, r, angle);
    forall a, b, c | 0 <= a < 4 && 0 <= b < 4 && 0 <= c < 4 && (a, b, c) !in Assigned
      ensures gamma[a][b][c] == 0.0
    {
      if a == 0 {
        assert (b, c) != (1, 0) by { assert Assigned[0] == (0, 1, 0); }
      } else if a == 1 {
        assert (b, c) != (0, 0) && (b, c) != (1, 1) && (b, c) != (2, 2) && (b, c) != (3, 3) by {
          assert Assigned[1] == (1, 1, 1) && Assigned[2] == (1, 0, 0) && Assigned[3] == (1, 3, 3) && Assigned[4] == (1, 2, 2);
        }
      } else if a == 2 {
        assert (b, c) != (1, 2) && (b, c) != (3, 3) by { assert Assigned[5] == (2, 1, 2) && Assigned[7] == (2, 3, 3); }
      } else {
        assert (b, c) != (1, 3) && (b, c) != (2, 3) by { assert Assigned[6] == (3, 1, 3) && Assigned[8] == (3, 2, 3); }
      }
    }
  }

  /** The lower indices are not symmetrised: the mirror images of the
      assigned off-diagonal entries are zero. */
  lemma ChristoffelNotMirrored(rs: real, r: real, angle: Angle)
    requires ChristoffelDefined(rs, r, angle)
    ensures Christoffel(rs, r, angle)[0][0][1] == 0.0
    ensures Christoffel(rs, r, angle)[2][2][1] == 0.0
    ensures Christoffel(rs, r, angle)[3][3][1] == 0.0
    ensures Christoffel(rs, r, angle)[3][3][2] == 0.0
  {
    var gamma := Christoffel(rs, r, angle);
    assert (0, 0, 1) !in Assigned;
    assert (2, 2, 1) !in Assigned;
    assert (3, 3, 1) !in Assigned;
    assert (3, 3, 2) !in Assigned;
  }

  /** Without mass the time-radial entries vanish and only the flat-space
      entries remain. */
  lemma ChristoffelMassless(r: real, angle: Angle)
    requires ChristoffelDefined(0.0, r, angle)
    ensures Christoffel(0.0, r, angle)[0][1][0] == 0.0
    ensures Christoffel(0.0, r, angle)[1][1][1] == 0.0
    ensures Christoffel(0.0, r, angle)[1][0][0] == 0.0
    ensures Christoffel(0.0, r, angle)[1][2][2] == -r
  {
  }

  // ---------------------------------------------------------------------------
  // Velocity step

  /** `nextVelocities`: component `a` decreases by `stepSize` times the sum of
      `U[c] * U[b] * Gamma[a][b][c]` over `b` and `c`. */
  function NextVelocities(u: Vec4, rs: real, r: real, angle: Angle, h: real): (w: Vec4)
    requires ChristoffelDefined(rs, r, angle)
  {
    var gamma := Christoffel(rs, r, angle);
    seq(4, a requires 0 <= a < 4 => u[a] - h * Quadratic(gamma[a], u))
  }

  /** A step of size zero leaves the velocity unchanged. */
  lemma NextVelocitiesStill(u: Vec4, rs: real, r: real, angle: Angle)
    requires ChristoffelDefined(rs, r, angle)
    ensures NextVelocities(u, rs, r, angle, 0.0) == u
  {
  }

  /** A body at rest stays at rest. */
  lemma NextVelocitiesRest(rs: real, r: real, angle: Angle, h: real)
    requires ChristoffelDefined(rs, r, angle)
    ensures NextVelocities(ZeroVector(), rs, r, angle, h) == ZeroVector()
  {
    var gamma := Christoffel(rs, r, angle);
    forall a | 0 <= a < 4
      ensures Quadratic(gamma[a], ZeroVector()) == 0.0
    {
      QuadraticZero(gamma[a]);
    }
  }

  lemma TimeRowAlgebra(h: real, g: real, u0: real, u1: real, q: real, d: real)
    requires d == g * u0 && q == u1 * d
    ensures h * q == h * g * u1 * u0
  {
  }

  /** Only `Gamma[0][1][0]` acts on the time component: it changes by
      `-stepSize * Gamma[0][1][0] * U_r * U_t`, so it is unchanged when the
      radial velocity is zero. */
  lemma NextVelocitiesTime(u: Vec4, rs: real, r: real, angle: Angle, h: real)
    requires ChristoffelDefined(rs, r, angle)
    ensures NextVelocities(u, rs, r, angle, h)[0] ==
      u[0] - h * Christoffel(rs, r, angle)[0][1][0] * u[1] * u[0]
    ensures u[1] == 0.0 ==> NextVelocities(u, rs, r, angle, h)[0] == u[0]
  {
    var g := Christoffel(rs, r, angle)[0];
    QuadraticRows(g, u);
    DotTerms4(g[0], u);
    DotTerms4(g[1], u);
    DotTerms4(g[2], u);
    DotTerms4(g[3], u);
    TimeRowAlgebra(h, g[1][0], u[0], u[1], Quadratic(g, u), Dot(g[1], u, 4));
  }
}
