# react-relativity numerical core in Dafny

This project models the numerical engine of react-relativity, an animation of a test particle orbiting a central mass. The model covers four parts:

- **Unit conversion of the unit input** (`unit_input.dfy`, module `UnitInput`).
  - A unit is a vector of five exponents. The basis is either the SI units (s, m, kg, A, K) or the constants (c, G, ħ, ε₀, k_B).
  - Two literal half-integer matrices change between the two bases, applied by a matrix–vector product.
  - The module also covers:
    - building an exponent vector from (unit, exponent) pairs;
    - listing the converted side's units with their exponents, and the LaTeX unit formatter;
    - scaling a value by powers of the constants.
- **Metric tensors** (`metric.dfy`, module `Metric`): the current Schwarzschild and Kerr tensors, and two quantities read from them:
  - the squared length of a four-velocity (the double sum `Σ g[a][b] v[a] v[b]`) and its square root;
  - the quadratic solve for the time component that normalises a four-velocity.
- **Geodesic step** (`geodesic.dfy`, module `Geodesic`): the Schwarzschild Christoffel array and one forward-Euler step of position and velocity.
- **The older Schwarzschild variant** (`metrics.dfy`, module `LegacyMetrics`): its tensor and its Christoffel array. This variant uses the opposite sign convention and is parametrised by the mass `m`.
- **Geometrized units** (`units.dfy`, module `Units`): the mass and velocity conversions, and the arithmetic of the angular-velocity input.

Shared vocabulary is in three more files:
- `tensors.dfy` (module `Tensors`): four-vectors, tensors, connection arrays, the double sum and the loop that computes it.
- `linear.dfy` (module `Linear`): dot products.
- `arith.dfy` (module `Arith`): small real-arithmetic facts.

Modelling conventions:
- Numbers are exact reals.
- `Math.sin`, `Math.cos` and `Math.tan` of the polar angle are inputs (`Angle`).
- `Math.sqrt` and `Math.pow` are function parameters. Each lemma that needs one of them states the law it relies on as a precondition: `IsSquareRoot`, `ReciprocalPowersCancel`, or `pow(b, 0) == 1`.
- A JavaScript result that may be NaN or infinite is a `Num`.
- Points where a tensor entry divides by zero are excluded by preconditions.
- Formatting a number for LaTeX is a parameter `show`.

The code is modelled as written, including these oddities:
- The two Schwarzschild tensors use opposite signatures.
- The Kerr frame-dragging term sits at `[1][3]`/`[3][1]`.
- The Kerr `g[3][3]` multiplies by `a` where the Boyer–Lindquist form has `a²`.
- No Christoffel lower-index mirror entry is ever written.
- The time-velocity solver and `getVectorSize` do not report an error. They return NaN or infinity, which the model keeps as `NonFinite`.

For comparison, the textbook physics differs on two of these points. The Boyer–Lindquist form of the Kerr metric has its cross term at `(t, φ)`, that is `[0][3]`/`[3][0]`. The Levi-Civita connection is symmetric in its two lower indices, so every entry `Γ[a][b][c]` equals `Γ[a][c][b]`. The model keeps the code's arrays as they are.

## Model

| member | source | states |
|---|---|---|
| Tensors.ZeroMetric | src/utils/metrics.ts:66 | every entry of the starting tensor is 0 |
| Tensors.ZeroChristoffel | src/utils/metrics.ts:67 | every entry of the starting connection array is 0 |
| Tensors.AccumulateRow | src/utils/metric.ts:42-44 | the inner `forEach` adds row `a`'s contribution `v[a]·Σ_b g[a][b]·v[b]` to the running total |
| Tensors.QuadraticLoop | src/utils/metric.ts:40-45 | the nested `forEach` that adds `g[a][b]·v[a]·v[b]` term by term computes the double sum of the tensor |
| Tensors.RowSumTerms | src/utils/metric.ts:41-45 | one row of the double sum is `Σ_b g[a][b]·v[a]·v[b]` |
| Tensors.DiagonalQuadratic | src/utils/metric.ts:38-48 | for a diagonal tensor the double sum is `Σ_a g[a][a]·v[a]²` |
| Tensors.QuadraticScale | src/utils/metric.ts:38-48 | scaling the vector by `k` scales the double sum by `k²` |
| Tensors.QuadraticZero | src/utils/metric.ts:38-48 | the zero vector has double sum 0 under every tensor |
| UnitInput.MatVec | src/UnitInput.tsx:55-63 | no contract of its own: `UnitInput.ConvertUnit` shows the loops compute it, and `MatVecLinear`, `MatVecZero`, `SiRoundTrip` and `PlanckRoundTrip` state its properties |
| UnitInput.ConvertUnit | src/UnitInput.tsx:51-66 | the nested loops return five entries with `result[i] = Σ_j M[i][j]·v[j]` |
| UnitInput.MatricesInverse | src/UnitInput.tsx:33-47 | `planckToSi · siToPlank` and `siToPlank · planckToSi` are both the 5×5 identity |
| UnitInput.SiToPlanckTerms | src/UnitInput.tsx:41-47 | each Planck exponent is the stated half-integer combination of the SI exponents |
| UnitInput.PlanckToSiTerms | src/UnitInput.tsx:33-39 | each SI exponent is the stated combination of the Planck exponents |
| UnitInput.SiRoundTrip | src/UnitInput.tsx:33-66 | converting SI → Planck → SI returns every vector unchanged |
| UnitInput.PlanckRoundTrip | src/UnitInput.tsx:33-66 | converting Planck → SI → Planck returns every vector unchanged |
| UnitInput.MatVecLinear | src/UnitInput.tsx:55-63 | the conversion is linear: `M(k·x + y) = k·Mx + My` |
| UnitInput.MatVecZero | src/UnitInput.tsx:55-63 | the conversion maps the zero vector to zero |
| UnitInput.ConstantDimensions | src/UnitInput.tsx:33-39 | column `j` of `planckToSi` is the SI dimension of the `j`-th constant (for example c is s⁻¹·m), and `siToPlank` maps that dimension back to the unit vector of the constant |
| UnitInput.IndexOf | src/UnitInput.tsx:110 | `indexOf` gives the first position holding the name, or -1 when no position does |
| UnitInput.LastExponentUnnamed | src/UnitInput.tsx:105-112 | a unit that no pair names gets exponent 0 |
| UnitInput.BuildVector | src/UnitInput.tsx:105-112 | the entry of each unit of the chosen system is the exponent of the last pair naming it, and 0 when no pair does |
| UnitInput.UnitVectors | src/UnitInput.tsx:104-124 | the vector in the chosen system is built from the pairs, and the vector in the other system is its conversion; each vector is the conversion of the other |
| UnitInput.DisplayPairs | src/UnitInput.tsx:126-146 | the converted side lists each of its units with that unit's entry of the converted vector, in the order the units are listed |
| UnitInput.LatexName | src/UnitInput.tsx:74-85 | every symbol other than `h`, `e` and `k` is written as it is, and a symbol without a space gets a spelling without a space |
| UnitInput.LatexNameInjective | src/UnitInput.tsx:74-85 | different unit symbols get different LaTeX names, so the rendered text names each unit unambiguously |
| UnitInput.Segment | src/UnitInput.tsx:71-87 | a segment is empty exactly when the exponent is 0; exponent 1 gives the bare LaTeX symbol; any other exponent gives the symbol, then `^{`, then the shown exponent, then `}`, each read back at its position |
| UnitInput.SplitJoin | src/UnitInput.tsx:88 | splitting the space-joined segments at spaces gives the segments back, provided no segment contains a space |
| UnitInput.MakeUnitSegments | src/UnitInput.tsx:68-89 | `makeUnit` emits exactly one segment per pair, in order, separated by single spaces |
| UnitInput.MakeUnit | src/UnitInput.tsx:68-89 | no contract of its own: `MakeUnitSegments` and `SplitJoin` state that the text is the segments of the pairs, in order, separated by single spaces |
| UnitInput.ConvertValue | src/UnitInput.tsx:91-101 | no contract of its own: `ConvertDimensionless` and `ConvertValueRoundTrip` state its properties |
| UnitInput.ConvertDimensionless | src/UnitInput.tsx:91-101 | given `b^0 = 1`, the zero vector leaves the value unchanged in both directions |
| UnitInput.ProductsCancel | src/UnitInput.tsx:92-99 | given `(1/b)^e · b^e = 1`, the product of powers of the reciprocal constants times the product of powers of the constants is 1 |
| UnitInput.ConvertValueRoundTrip | src/UnitInput.tsx:91-101 | given `(1/b)^e · b^e = 1` for positive `b` (the five constants are positive), converting from SI and back, or to SI and back, returns the original value |
| Metric.SchwarzschildMetric | src/utils/metric.ts:6-17 | the tensor is diagonal, `g[0][0]·r = r - rs`, `g[0][0]·g[1][1] = -1`, and `g[3][3] = g[2][2]·sin²θ` |
| Metric.SchwarzschildMassless | src/utils/metric.ts:11-14 | with `rs = 0` the tensor is flat space-time in spherical coordinates |
| Metric.SchwarzschildAtTwo | src/utils/metric.ts:11-14 | at `rs = 1`, `r = 2` the diagonal is `0.5, -2, -4, -4·sin²θ` |
| Metric.KerrMetric | src/utils/metric.ts:19-36 | the tensor is symmetric, its only off-diagonal entries are `[1][3]` and `[3][1]`, `g[2][2] = Σ` and `g[1][1]·Δ = Σ` |
| Metric.KerrWithoutSpin | src/utils/metric.ts:24-33 | with `a = 0` the Kerr tensor is the entrywise negation of the Schwarzschild tensor |
| Metric.Tensor | src/utils/metric.ts:39 | either selected tensor is symmetric and has zero time–space entries |
| Metric.VectorSizeSquared | src/utils/metric.ts:38-48 | no contract of its own: it is the double sum of the selected tensor, which `Tensors.QuadraticLoop` shows the nested loop computes; `SchwarzschildSizeSquared`, `VectorSizeSquaredScale` and `SplitTime` state its properties |
| Metric.SchwarzschildSizeSquared | src/utils/metric.ts:38-48 | under the Schwarzschild tensor the squared length is `Σ_a g[a][a]·v[a]²`, written out entry by entry |
| Metric.VectorSizeSquaredScale | src/utils/metric.ts:38-48 | scaling a four-vector by `k` scales its squared length by `k²` |
| Metric.VectorSize | src/utils/metric.ts:50-53 | the length is a finite number exactly when the squared length is non-negative |
| Metric.VectorSizeIsRoot | src/utils/metric.ts:50-53 | a finite length is the non-negative number whose square is the squared length |
| Metric.SpatialTerms | src/utils/metric.ts:57-67 | `spatialSum` is the double sum over the spatial indices, and `gtaSum` is `Σ_i U^i·g[0][i+1]` |
| Metric.TimeVelocity | src/utils/metric.ts:55-74 | the two roots are finite together, and they are finite exactly when the discriminant is non-negative and `g[0][0] ≠ 0` |
| Metric.SplitTime | src/utils/metric.ts:57-69 | for a symmetric tensor the squared length is `g00·u² + 2u·gtaSum + spatialSum` in the time component `u` |
| Metric.TimeVelocityNormalises | src/utils/metric.ts:69-73 | each finite root, used as the time component, gives a four-velocity of squared length 1 |
| Metric.TimeVelocityOpposite | src/utils/metric.ts:65-73 | for both tensors `gtaSum = 0`, so the two roots are negatives of each other |
| Geodesic.NextCoordinates | src/utils/geodesic.ts:2-8 | no contract of its own: `NextCoordinatesStill`, `NextCoordinatesAdditive` and `NextCoordinatesUndo` state its properties |
| Geodesic.NextCoordinatesStill | src/utils/geodesic.ts:2-8 | a zero step, or a zero velocity, leaves the position unchanged |
| Geodesic.NextCoordinatesAdditive | src/utils/geodesic.ts:7 | two position steps along one velocity equal one step of the summed size |
| Geodesic.NextCoordinatesUndo | src/utils/geodesic.ts:7 | a step of `-h` undoes a step of `h` |
| Geodesic.Christoffel | src/utils/geodesic.ts:16-43 | `[1][1][1] = -[0][1][0]`; `[3][1][3] = [2][1][2]` with `[2][1][2]·r = 1`; `[1][3][3] = [1][2][2]·sin²θ`; `[1][2][2] = rs - r`; `[3][2][3]·tanθ = 1` |
| Geodesic.ChristoffelSparse | src/utils/geodesic.ts:17-34 | every entry outside the nine assigned index triples is 0 |
| Geodesic.ChristoffelNotMirrored | src/utils/geodesic.ts:36-40 | the lower-index mirrors `[0][0][1]`, `[2][2][1]`, `[3][3][1]` and `[3][3][2]` stay 0 |
| Geodesic.ChristoffelMassless | src/utils/geodesic.ts:23-30 | with `rs = 0` the entries `[0][1][0]`, `[1][1][1]` and `[1][0][0]` vanish and `[1][2][2] = -r` |
| Geodesic.NextVelocities | src/utils/geodesic.ts:45-60 | no contract of its own: `NextVelocitiesStill`, `NextVelocitiesRest` and `NextVelocitiesTime` state its properties |
| Geodesic.NextVelocitiesStill | src/utils/geodesic.ts:45-60 | a zero step leaves the velocity unchanged |
| Geodesic.NextVelocitiesRest | src/utils/geodesic.ts:45-60 | the zero velocity is a fixed point of the step |
| Geodesic.NextVelocitiesTime | src/utils/geodesic.ts:52-58 | the new time component is `U_t - h·Γ[0][1][0]·U_r·U_t`, so it is unchanged when `U_r = 0` |
| LegacyMetrics.LegacyMetric | src/utils/metrics.ts:75-83 | the tensor is diagonal, `g[0][0]·g[1][1] = -1`, and `g[3][3] = g[2][2]·sin²θ` |
| LegacyMetrics.LegacyMetricNegated | src/utils/metrics.ts:77-80 | the older tensor is the entrywise negation of the current Schwarzschild tensor |
| LegacyMetrics.LegacyMetricIsKerrWithoutSpin | src/utils/metrics.ts:75-83 | the older tensor equals the current Kerr tensor at zero spin |
| LegacyMetrics.LegacyChristoffel | src/utils/metrics.ts:84-106 | `[0][1][0] = [1][1][1]`; `[2][1][2] = [3][1][3]` with `[2][1][2]·r = 1`; `[1][3][3] = [1][2][2]·sin²θ`; `[1][2][2] = rs - r`; `[3][2][3]·sinθ = cosθ` |
| LegacyMetrics.LegacyChristoffelSparse | src/utils/metrics.ts:87-102 | every entry outside the nine assigned triples is 0, including the four unmirrored lower-index images |
| LegacyMetrics.LegacyAgreesWithGeodesic | src/utils/metrics.ts:88-96 | with `m = rs/2` and `cosθ/sinθ = 1/tanθ`, every entry equals the current array's except `[1][1][1]`, which has the opposite sign |
| Units.SolarMassToGeometrized | src/utils/units.ts:4-8 | the geometrized length `L` satisfies `L·c² = value·solarMass·G` |
| Units.SolarMassToGeometrizedLinear | src/utils/units.ts:4-8 | the mass conversion commutes with scaling and maps 0 to 0 |
| Units.VelocityToGeometrized | src/utils/units.ts:21-23 | the result times `c` is the speed |
| Units.VelocityToSI | src/utils/units.ts:26-28 | the result divided by `c` is the fraction of light speed |
| Units.VelocityRoundTrip | src/utils/units.ts:21-28 | the two velocity conversions undo each other, in both orders |
| Units.VelocityConversionsLinear | src/utils/units.ts:21-28 | both velocity conversions are linear and map 0 to 0 |
| Units.Readings | src/utils/units.ts:70-75 | `initialAngularVelocity·distance = initialVelocity`; `initialGeometrizedAngularVelocity·c = initialVelocity` (the linear speed, not the angular one); `geometrizedAngularVelocity·c = angularVelocity·distance` |
| Units.AngularVelocityAfterEffect | src/utils/units.ts:77-80 | when not playing, the angular speed is reset to one whose product with the distance is the initial speed; when playing, it is kept |
| Units.ResetRestoresVelocity | src/utils/units.ts:70-80 | after the reset the linear speed is the initial speed again |

## Left out

- The React wiring of the unit input is left out. The `makeUnit` memo (`src/UnitInput.tsx:148-153`) only applies `MakeUnit` to the two displayed lists. The two input handlers (`src/UnitInput.tsx:178-190`) only call `ConvertValue` with the Planck vector, from SI for the SI field and to SI for the Planck field. On the origin side the display memo passes its pairs through unchanged; the converted side is `DisplayPairs`.
- The `useState`/`useEffect`/`useMemo` wiring of the hooks in `src/utils/units.ts` is left out. It holds no logic beyond the arithmetic modelled above, and the effect is modelled as the function `AngularVelocityAfterEffect`.
- `setArrayState` (`src/utils/utils.ts`), the canvas drawing and animation loop (`src/utils/canvas.tsx`, `src/App.tsx`) and `jest.config.ts` are not part of this model. They are rendering and configuration, not computation.
- The values of `G`, `c` and the solar mass come from a constants file that is not part of this model. They are parameters; the mass conversion asks only that `G` and `c` be non-zero.
- The unit-input constant table (`src/UnitInput.tsx:11-17`) is kept as decimal literals. The value-conversion round trip uses only that they are positive.
- `Math.sin`, `Math.cos` and `Math.tan` are inputs. Nothing relates them to one another, except where `LegacyAgreesWithGeodesic` assumes `cos/sin = 1/tan`.
- `Math.sqrt` and `Math.pow` are parameters. The lemmas that need them assume the laws they use.
- Rounding is not modelled: all arithmetic is on exact reals, so agreement with IEEE-754 doubles holds up to rounding only.
- NaN and Infinity at division by zero (`r = 0`, `r = rs`, `Σ = 0`, `Δ = 0`, `tanθ = 0`, `sinθ = 0`, `c = 0`, `distance = 0`) are not modelled. Preconditions exclude these points. The two places where the code's NaN is part of its normal result are modelled with `Num`: the square root of a negative squared length, and a negative discriminant or `g[0][0] = 0` in the time solve.
- Formatting a number for LaTeX is the parameter `show`, not JavaScript's number-to-string conversion.
- The unit input's types only let names from the two unit lists reach the vector builder. The model accepts any name, and a name from neither list changes no entry.
- The repository's tests are not used as a reference. The metric test expects `-36` for the fourth diagonal entry at `rs = 1`, `r = 2`, but the code gives `-4·sin²θ`; the test also imports an export that does not exist. The units test imports functions that do not exist. `SchwarzschildAtTwo` states what the code computes.
- The physics of the Kerr tensor (`a` in place of `a²`, the `[1][3]` placement) and the missing Christoffel mirrors are not corrected. Both are modelled as written.
- Numerical quality of the integration (orbit stability, norm drift over many steps) is out of scope. Only single steps exist in the modelled code.
