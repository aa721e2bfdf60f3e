/**
  The older Schwarzschild description kept beside the current engine: a metric
  with signature (-,+,+,+) and a connection array parametrised by the mass
  `m` as well as the Schwarzschild radius, with `cos / sin` where the current
  array has `1 / tan`. As in the current array, no lower-index mirror entry
  is written.
 */
module LegacyMetrics {

  import opened Arith
  import opened Tensors
  import Metric
  import Geodesic

  /** `schwarzschild.metric`, signature (-,+,+,+). */
  function LegacyMetric(rs: real, r: real, angle: Angle): (g: Matrix4)
    requires r != 0.0 && r != rs
    ensures Diagonal(g)
    ensures g[0][0] * g[1][1] == -1.0
    ensures g[3][3] == g[2][2] * angle.sin * angle.sin
  {
    RatioNotOne(rs, r);
    var g := ZeroMetric();
    var g := SetEntry(g, 0, 0, -(1.0 - rs / r));
    var g := SetEntry(g, 1, 1, 1.0 / (1.0 - rs / r));
    var g := SetEntry(g, 2, 2, r * r);
    var g := SetEntry(g, 3, 3, (r * angle.sin) * (r * angle.sin));
    ReciprocalProduct(1.0 - rs / r, -g[1][1]);
    SquareOfProduct(r, angle.sin);
    g
  }

  /** The two Schwarzschild builders differ by the sign of every entry. */
  lemma LegacyMetricNegated(rs: real, r: real, angle: Angle)
    requires r != 0.0 && r != rs
    ensures Negated(Metric.SchwarzschildMetric(rs, r, angle), LegacyMetric(rs, r, angle))
  {
  }

  /** The older metric coincides with the current Kerr tensor at zero spin. */
  lemma LegacyMetricIsKerrWithoutSpin(rs: real, r: real, angle: Angle)
    requires r != 0.0 && r != rs
    ensures Metric.Sigma(r, 0.0, angle) != 0.0 && Metric.Delta(rs, r, 0.0) != 0.0
    ensures LegacyMetric(rs, r, angle) == Metric.KerrMetric(rs, r, angle, 0.0)
  {
    Metric.KerrWithoutSpin(rs, r, angle);
    var g := LegacyMetric(rs, r, angle);
    var k := Metric.KerrMetric(rs, r, angle, 0.0);
    assert forall a, b :: 0 <= a < 4 && 0 <= b < 4 ==> g[a][b] == k[a][b];
    assert g[0] == k[0] && g[1] == k[1] && g[2] == k[2] && g[3] == k[3];
  }

  /** The points where no entry divides by zero. */
  predicate LegacyDefined(rs: real, r: real, angle: Angle) {
    r != 0.0 && r != rs && angle.sin != 0.0
  }

  /** `schwarzschild.christoffel`: the zero array with nine entries assigned;
      the bindings follow the source's assignments in order. */
  function LegacyChristoffel(m: real, r: real, rs: real, angle: Angle): (gamma: Christoffel4)
    requires LegacyDefined(rs, r, angle)
    ensures gamma[0][1][0] == gamma[1][1][1]
    ensures gamma[2][1][2] == gamma[3][1][3] && gamma[2][1][2] * r == 1.0
    ensures gamma[1][3][3] == gamma[1][2][2] * angle.sin * angle.sin
    ensures gamma[1][2][2] == rs - r
    ensures gamma[3][2][3] * angle.sin == angle.cos
  {
    var rMinusRs := r - rs;
    NonzeroProduct(r, rMinusRs, r * rMinusRs);
    NonzeroProduct(r, r, r * r);
    NonzeroProduct(r * r, r, r * r * r);
    var rtt := (m * rMinusRs) / (r * r * r);
    var rrr := m / (r * rMinusRs);
    var rhh := -rMinusRs;
    var rpp := -rMinusRs * (angle.sin * angle.sin);
    var trt := m / (r * rMinusRs);
    var hrh := 1.0 / r;
    var hpp := -angle.sin * angle.cos;
    var prp := 1.0 / r;
    var php := angle.cos / angle.sin;
    var o := [0.0, 0.0, 0.0, 0.0];
    [
      [o, [trt, 0.0, 0.0, 0.0], o, o],
      [[rtt, 0.0, 0.0, 0.0], [0.0, rrr, 0.0, 0.0], [0.0, 0.0, rhh, 0.0], [0.0, 0.0, 0.0, rpp]],
      [o, [0.0, 0.0, hrh, 0.0], o, [0.0, 0.0, 0.0, hpp]],
      [o, [0.0, 0.0, 0.0, prp], [0.0, 0.0, 0.0, php], o]
    ]
  }

  /** Every entry outside the nine assigned triples is zero; in particular the
      lower indices are not symmetrised. */
  lemma LegacyChristoffelSparse(m: real, r: real, rs: real, angle: Angle)
    requires LegacyDefined(rs, r, angle)
    ensures forall a, b, c :: 0 <= a < 4 && 0 <= b < 4 && 0 <= c < 4 && (a, b, c) !in Geodesic.Assigned ==>
              LegacyChristoffel(m, r, rs, angle)[a][b][c] == 0.0
    ensures LegacyChristoffel(m, r, rs, angle)[0][0][1] == 0.0
    ensures LegacyChristoffel(m, r, rs, angle)[2][2][1] == 0.0
    ensures LegacyChristoffel(m, r, rs, angle)[3][3][1] == 0.0
    ensures LegacyChristoffel(m, r, rs, angle)[3][3][2] == 0.0
  {
    var gamma := LegacyChristoffel(m, r, rs, angle);
    forall a, b, c | 0 <= a < 4 && 0 <= b < 4 && 0 <= c < 4 && (a, b, c) !in Geodesic.Assigned
      ensures gamma[a][b][c] == 0.0
    {
      var triples := Geodesic.Assigned;
      if a == 0 {
        assert (b, c) != (1, 0) by { assert triples[0] == (0, 1, 0); }
      } else if a == 1 {
        assert (b, c) != (0, 0) && (b, c) != (1, 1) && (b, c) != (2, 2) && (b, c) != (3, 3) by {
          assert triples[1] == (1, 1, 1) && triples[2] == (1, 0, 0) && triples[3] == (1, 3, 3) && triples[4] == (1, 2, 2);
        }
      } else if a == 2 {
        assert (b, c) != (1, 2) && (b, c) != (3, 3) by { assert triples[5] == (2, 1, 2) && triples[7] == (2, 3, 3); }
      } else {
        assert (b, c) != (1, 3) && (b, c) != (2, 3) by { assert triples[6] == (3, 1, 3) && triples[8] == (3, 2, 3); }
      }
    }
  }

  lemma HalfMassTimeRadial(rs: real, r: real)
    requires r != 0.0 && r != rs
    ensures r * (r - rs) != 0.0 && 2.0 * r * (r - rs) != 0.0
    ensures (rs / 2.0) / (r * (r - rs)) == rs / (2.0 * r * (r - rs))
  {
    NonzeroProduct(r, r - rs, r * (r - rs));
    NonzeroProduct(2.0 * r, r - rs, 2.0 * r * (r - rs));
    assert (rs / 2.0) * (2.0 * r * (r - rs)) == rs * (r * (r - rs));
    QuotientsEqual(rs / 2.0, r * (r - rs), rs, 2.0 * r * (r - rs));
  }

  lemma HalfMassRadialTime(rs: real, r: real)
    requires r != 0.0
    ensures r * r * r != 0.0
    ensures ((rs / 2.0) * (r - rs)) / (r * r * r) == (rs * (r - rs)) / (2.0 * (r * r * r))
  {
    NonzeroProduct(r, r, r * r);
    NonzeroProduct(r * r, r, r * r * r);
    assert ((rs / 2.0) * (r - rs)) * (2.0 * (r * r * r)) == (rs * (r - rs)) * (r * r * r);
    QuotientsEqual((rs / 2.0) * (r - rs), r * r * r, rs * (r - rs), 2.0 * (r * r * r));
  }

  /** With `m = rs / 2` and `cos / sin` equal to `1 / tan`, the older array agrees
      with the current one in every entry but `[1][1][1]`, whose sign is flipped. */
  lemma LegacyAgreesWithGeodesic(rs: real, r: real, angle: Angle)
    requires LegacyDefined(rs, r, angle) && Geodesic.ChristoffelDefined(rs, r, angle)
    requires angle.cos / angle.sin == 1.0 / angle.tan
    ensures forall a, b, c :: 0 <= a < 4 && 0 <= b < 4 && 0 <= c < 4 && (a, b, c) != (1, 1, 1) ==>
              LegacyChristoffel(rs / 2.0, r, rs, angle)[a][b][c] == Geodesic.Christoffel(rs, r, angle)[a][b][c]
    ensures LegacyChristoffel(rs / 2.0, r, rs, angle)[1][1][1] == -Geodesic.Christoffel(rs, r, angle)[1][1][1]
  {
    var legacy := LegacyChristoffel(rs / 2.0, r, rs, angle);
    var current := Geodesic.Christoffel(rs, r, angle);
    HalfMassTimeRadial(rs, r);
    HalfMassRadialTime(rs, r);
    LegacyChristoffelSparse(rs / 2.0, r, rs, angle);
    Geodesic.ChristoffelSparse(rs, r, angle);
    assert legacy[0][1][0] == current[0][1][0];
    assert legacy[1][0][0] == current[1][0][0];
  }
}
