/**
  Conversions between SI and geometrized units (G = c = 1) used by the
  mass and velocity inputs. The constants G, c and the solar mass are
  parameters; the conversions are defined for any non-zero G and c.
 */
module Units {

  import opened Arith

  /** Newton's constant, the speed of light and the solar mass, in SI units. */
  datatype PhysicalConstants = PhysicalConstants(gravitational: real, light: real, solarMass: real)

  predicate Usable(k: PhysicalConstants) {
    k.gravitational != 0.0 && k.light != 0.0
  }

  /** `solarMassToGeometrized`: a mass in solar masses as a length, `G M / c^2`. */
  function SolarMassToGeometrized(value: real, k: PhysicalConstants): (length: real)
    requires Usable(k)
    ensures length * (k.light * k.light) == value * k.solarMass * k.gravitational
  {
    var factor := (k.light * k.light) * (1.0 / k.gravitational);
    var siMass := value * k.solarMass;
    NonzeroProduct(k.light, k.light, k.light * k.light);
    NonzeroProduct(k.light * k.light, 1.0 / k.gravitational, factor);
    GeometrizedMassLaw(siMass, factor, k.light * k.light, k.gravitational, siMass / factor);
    siMass / factor
  }

  lemma GeometrizedMassLaw(m: real, factor: real, c2: real, g: real, q: real)
    requires g != 0.0 && factor != 0.0 && factor == c2 * (1.0 / g) && q == m / factor
    ensures q * c2 == m * g
  {
    assert q * factor == m;
    assert factor * g == c2;
    assert q * c2 == q * (factor * g);
  }

  lemma ScaleQuotient(x: real, t: real, c2: real, s: real, y: real)
    requires c2 != 0.0 && x * c2 == t && y * c2 == s * t
    ensures y == s * x
  {
    assert y * c2 == (s * x) * c2;
    CancelFactor(c2, y, s * x);
  }

  /** The mass conversion is linear: it commutes with scaling, and zero maps to zero. */
  lemma SolarMassToGeometrizedLinear(value: real, s: real, k: PhysicalConstants)
    requires Usable(k)
    ensures SolarMassToGeometrized(s * value, k) == s * SolarMassToGeometrized(value, k)
    ensures SolarMassToGeometrized(0.0, k) == 0.0
  {
    var c2 := k.light * k.light;
    NonzeroProduct(k.light, k.light, c2);
    var x := SolarMassToGeometrized(value, k);
    var y := SolarMassToGeometrized(s * value, k);
    assert y * c2 == s * (value * k.solarMass * k.gravitational);
    ScaleQuotient(x, value * k.solarMass * k.gravitational, c2, s, y);
    var z := SolarMassToGeometrized(0.0, k);
    assert z * c2 == 0.0;
    CancelFactor(c2, z, 0.0);
  }

  /** `velocityToGeometrized`: a speed as a fraction of the speed of light. */
  function VelocityToGeometrized(value: real, light: real): (v: real)
    requires light != 0.0
    ensures v * light == value
  {
    value / light
  }

  /** `velocityToSI`: a fraction of the speed of light as a speed. */
  function VelocityToSI(value: real, light: real): (v: real)
    ensures light != 0.0 ==> v / light == value
  {
    value * light
  }

  /** The two velocity conversions undo each other, in both orders. */
  lemma VelocityRoundTrip(value: real, light: real)
    requires light != 0.0
    ensures VelocityToSI(VelocityToGeometrized(value, light), light) == value
    ensures VelocityToGeometrized(VelocityToSI(value, light), light) == value
  {
  }

  /** Both velocity conversions are linear and map zero to zero. */
  lemma VelocityConversionsLinear(x: real, y: real, s: real, light: real)
    requires light != 0.0
    ensures VelocityToGeometrized(s * x + y, light) == s * VelocityToGeometrized(x, light) + VelocityToGeometrized(y, light)
    ensures VelocityToSI(s * x + y, light) == s * VelocityToSI(x, light) + VelocityToSI(y, light)
    ensures VelocityToGeometrized(0.0, light) == 0.0 && VelocityToSI(0.0, light) == 0.0
  {
    var gx := VelocityToGeometrized(x, light);
    var gy := VelocityToGeometrized(y, light);
    var g := VelocityToGeometrized(s * x + y, light);
    assert (s * gx + gy) * light == s * (gx * light) + gy * light;
    CancelFactor(light, g, s * gx + gy);
  }

  /** The values derived in the angular-velocity input from its state: the
      initial linear speed, the distance and the current angular speed. */
  datatype AngularReadings = AngularReadings(
    initialAngularVelocity: real,
    initialGeometrizedAngularVelocity: real,
    velocity: real,
    geometrizedAngularVelocity: real
  )

  function Readings(initialVelocity: real, angularVelocity: real, distance: real, light: real): (readings: AngularReadings)
    requires distance != 0.0 && light != 0.0
    ensures readings.initialAngularVelocity * distance == initialVelocity
    ensures readings.initialGeometrizedAngularVelocity * light == initialVelocity
    ensures readings.geometrizedAngularVelocity * light == angularVelocity * distance
  {
    var velocity := angularVelocity * distance;
    AngularReadings(
      initialVelocity / distance,
      VelocityToGeometrized(initialVelocity, light),
      velocity,
      VelocityToGeometrized(velocity, light))
  }

  /** The effect run on every change: while the animation is stopped the
      angular speed is reset to the initial one; while it plays it is kept. */
  function AngularVelocityAfterEffect(playing: bool, angularVelocity: real, initialVelocity: real, distance: real): (w: real)
    requires distance != 0.0
    ensures !playing ==> w * distance == initialVelocity
    ensures playing ==> w == angularVelocity
  {
    if playing then angularVelocity else initialVelocity / distance
  }

  /** After the reset the linear speed is the initial speed again, and its
      geometrized form agrees with the initial one. */
  lemma ResetRestoresVelocity(initialVelocity: real, angularVelocity: real, distance: real, light: real)
    requires distance != 0.0 && light != 0.0
    ensures Readings(initialVelocity, AngularVelocityAfterEffect(false, angularVelocity, initialVelocity, distance),
                     distance, light).velocity == initialVelocity
    ensures Readings(initialVelocity, AngularVelocityAfterEffect(false, angularVelocity, initialVelocity, distance),
                     distance, light).geometrizedAngularVelocity ==
            Readings(initialVelocity, angularVelocity, distance, light).initialGeometrizedAngularVelocity
  {
    var w := AngularVelocityAfterEffect(false, angularVelocity, initialVelocity, distance);
    assert w * distance == initialVelocity;
  }
}
