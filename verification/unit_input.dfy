/**
  Dimensional bookkeeping of the unit-input widget. A unit is a vector of five
  exponents, either over the SI base units (s, m, kg, A, K) or over the
  physical constants (c, G, hbar, epsilon_0, k_B). Two constant half-integer
  matrices change basis between the two; a numeric value is carried across by
  multiplying with the matching product of constant magnitudes.
 */
module UnitInput {

  import opened Linear

  type Vec5 = v: seq<real> | |v| == 5 witness [0.0, 0.0, 0.0, 0.0, 0.0]

  type Matrix5 = m: seq<Vec5> | |m| == 5 witness [Zero5(), Zero5(), Zero5(), Zero5(), Zero5()]

  function Zero5(): (z: Vec5)
    ensures forall i :: 0 <= i < 5 ==> z[i] == 0.0
  {
    [0.0, 0.0, 0.0, 0.0, 0.0]
  }

  /** The two bases a unit can be written in. */
  datatype System = Si | Planck

  /** Symbols of the SI base units, in vector order. */
  const SiUnits: seq<string> := ["s", "m", "kg", "A", "K"]

  /** Symbols of the constants, in vector order: c, G, hbar ("h"),
      epsilon_0 ("e") and k_B ("k"). */
  const PlanckUnits: seq<string> := ["c", "G", "h", "e", "k"]

  function Units(system: System): (units: seq<string>)
    ensures |units| == 5
  {
    match system
    case Si => SiUnits
    case Planck => PlanckUnits
  }

  /** SI magnitudes of c, G, hbar, epsilon_0 and k_B, as written in the source. */
  const Constants: seq<real> := [
    299800000.0,
    0.00000000006674,
    0.0000000000000000000000000000000001054,
    0.000000000008854,
    0.00000000000000000000001381
  ]

  /** Column j holds the SI exponents of the j-th constant. */
  const PlanckToSi: Matrix5 := [
    [-1.0, -2.0, -1.0, 4.0, -2.0],
    [1.0, 3.0, 2.0, -3.0, 2.0],
    [0.0, -1.0, 1.0, -1.0, 1.0],
    [0.0, 0.0, 0.0, 2.0, 0.0],
    [0.0, 0.0, 0.0, 0.0, -1.0]
  ]

  /** Column j holds the exponents over the constants of the j-th SI base unit. */
  const SiToPlanck: Matrix5 := [
    [-2.5, -1.5, 0.5, 3.0, 2.5],
    [0.5, 0.5, -0.5, -0.5, -0.5],
    [0.5, 0.5, 0.5, 0.0, 0.5],
    [0.0, 0.0, 0.0, 0.5, 0.0],
    [0.0, 0.0, 0.0, 0.0, -1.0]
  ]

  // ---------------------------------------------------------------------------
  // Change of basis

  /** The matrix-vector product: entry i is the sum over j of `m[i][j] * v[j]`. */
  function MatVec(m: Matrix5, v: Vec5): (r: Vec5) {
    seq(5, i requires 0 <= i < 5 => Dot(m[i], v, 5))
  }

  /** `convertUnit`: the matrix-vector product computed by two nested loops. */
  method ConvertUnit(matrix: Matrix5, unit: Vec5) returns (result: Vec5)
    ensures result == MatVec(matrix, unit)
  {
    result := Zero5();
    var i := 0;
    while i < |matrix|
      invariant 0 <= i <= 5
      invariant forall k :: 0 <= k < i ==> result[k] == Dot(matrix[k], unit, 5)
    {
      var sum := 0.0;
      var j := 0;
      while j < |matrix[i]|
        invariant 0 <= j <= 5
        invariant sum == Dot(matrix[i], unit, j)
      {
        sum := sum + matrix[i][j] * unit[j];
        j := j + 1;
      }
      result := result[i := sum];
      i := i + 1;
    }
  }

  function Column(m: Matrix5, j: nat): (c: Vec5)
    requires j < 5
  {
    seq(5, k requires 0 <= k < 5 => m[k][j])
  }

  /** The matrix product: entry (i, j) is row i of `a` against column j of `b`. */
  function MatMul(a: Matrix5, b: Matrix5): (c: Matrix5) {
    seq(5, i requires 0 <= i < 5 => seq(5, j requires 0 <= j < 5 => Dot(a[i], Column(b, j), 5)))
  }

  function Basis(j: nat): (e: Vec5)
    requires j < 5
  {
    seq(5, i requires 0 <= i < 5 => if i == j then 1.0 else 0.0)
  }

  function Identity(): (id: Matrix5) {
    seq(5, i requires 0 <= i < 5 => Basis(i))
  }

  lemma ProductEntry(a: Matrix5, b: Matrix5, i: nat, j: nat)
    requires i < 5 && j < 5
    ensures MatMul(a, b)[i][j] ==
      a[i][0] * b[0][j] + a[i][1] * b[1][j] + a[i][2] * b[2][j] + a[i][3] * b[3][j] + a[i][4] * b[4][j]
  {
    DotTerms5(a[i], Column(b, j));
  }

  lemma {:induction false} ProductIsIdentity(a: Matrix5, b: Matrix5)
    requires forall i, j :: 0 <= i < 5 && 0 <= j < 5 ==>
      a[i][0] * b[0][j] + a[i][1] * b[1][j] + a[i][2] * b[2][j] + a[i][3] * b[3][j] + a[i][4] * b[4][j]
      == if i == j then 1.0 else 0.0
    ensures MatMul(a, b) == Identity()
  {
    forall i, j | 0 <= i < 5 && 0 <= j < 5
      ensures MatMul(a, b)[i][j] == Identity()[i][j]
    {
      ProductEntry(a, b, i, j);
    }
    forall i | 0 <= i < 5
      ensures MatMul(a, b)[i] == Identity()[i]
    {
    }
  }

  /** The two literal matrices are inverse to each other, in both orders. */
  lemma MatricesInverse()
    ensures MatMul(PlanckToSi, SiToPlanck) == Identity()
    ensures MatMul(SiToPlanck, PlanckToSi) == Identity()
  {
    ProductIsIdentity(PlanckToSi, SiToPlanck);
    ProductIsIdentity(SiToPlanck, PlanckToSi);
  }

  /** Converting into the constants' basis, written out row by row. */
  lemma SiToPlanckTerms(v: Vec5)
    ensures MatVec(SiToPlanck, v) == [
      -2.5 * v[0] - 1.5 * v[1] + 0.5 * v[2] + 3.0 * v[3] + 2.5 * v[4],
      0.5 * v[0] + 0.5 * v[1] - 0.5 * v[2] - 0.5 * v[3] - 0.5 * v[4],
      0.5 * v[0] + 0.5 * v[1] + 0.5 * v[2] + 0.5 * v[4],
      0.5 * v[3],
      -v[4]
    ]
  {
    var r := MatVec(SiToPlanck, v);
    DotTerms5(SiToPlanck[0], v);
    DotTerms5(SiToPlanck[1], v);
    DotTerms5(SiToPlanck[2], v);
    DotTerms5(SiToPlanck[3], v);
    DotTerms5(SiToPlanck[4], v);
    assert r[0] == -2.5 * v[0] - 1.5 * v[1] + 0.5 * v[2] + 3.0 * v[3] + 2.5 * v[4];
    assert r[1] == 0.5 * v[0] + 0.5 * v[1] - 0.5 * v[2] - 0.5 * v[3] - 0.5 * v[4];
    assert r[2] == 0.5 * v[0] + 0.5 * v[1] + 0.5 * v[2] + 0.5 * v[4];
    assert r[3] == 0.5 * v[3];
    assert r[4] == -v[4];
  }

  /** Converting into the SI basis, written out row by row. */
  lemma PlanckToSiTerms(v: Vec5)
    ensures MatVec(PlanckToSi, v) == [
      -v[0] - 2.0 * v[1] - v[2] + 4.0 * v[3] - 2.0 * v[4],
      v[0] + 3.0 * v[1] + 2.0 * v[2] - 3.0 * v[3] + 2.0 * v[4],
      -v[1] + v[2] - v[3] + v[4],
      2.0 * v[3],
      -v[4]
    ]
  {
    var r := MatVec(PlanckToSi, v);
    DotTerms5(PlanckToSi[0], v);
    DotTerms5(PlanckToSi[1], v);
    DotTerms5(PlanckToSi[2], v);
    DotTerms5(PlanckToSi[3], v);
    DotTerms5(PlanckToSi[4], v);
    assert r[0] == -v[0] - 2.0 * v[1] - v[2] + 4.0 * v[3] - 2.0 * v[4];
    assert r[1] == v[0] + 3.0 * v[1] + 2.0 * v[2] - 3.0 * v[3] + 2.0 * v[4];
    assert r[2] == -v[1] + v[2] - v[3] + v[4];
    assert r[3] == 2.0 * v[3];
    assert r[4] == -v[4];
  }

  /** An SI exponent vector survives the trip through the constants' basis. */
  lemma SiRoundTrip(v: Vec5)
    ensures MatVec(PlanckToSi, MatVec(SiToPlanck, v)) == v
  {
    SiToPlanckTerms(v);
    PlanckToSiTerms(MatVec(SiToPlanck, v));
  }

  /** An exponent vector over the constants survives the trip through SI. */
  lemma PlanckRoundTrip(v: Vec5)
    ensures MatVec(SiToPlanck, MatVec(PlanckToSi, v)) == v
  {
    PlanckToSiTerms(v);
    SiToPlanckTerms(MatVec(PlanckToSi, v));
  }

  /** The change of basis is linear. */
  lemma MatVecLinear(m: Matrix5, k: real, x: Vec5, y: Vec5)
    ensures MatVec(m, Add(Scale(k, x), y)) == Add(Scale(k, MatVec(m, x)), MatVec(m, y))
  {
    forall i | 0 <= i < 5
      ensures MatVec(m, Add(Scale(k, x), y))[i] == Add(Scale(k, MatVec(m, x)), MatVec(m, y))[i]
    {
      DotAdd(m[i], Scale(k, x), y, 5);
      DotScale(m[i], x, k, 5);
    }
  }

  /** The dimensionless unit stays dimensionless. */
  lemma MatVecZero(m: Matrix5)
    ensures MatVec(m, Zero5()) == Zero5()
  {
    forall i | 0 <= i < 5
      ensures MatVec(m, Zero5())[i] == 0.0
    {
      DotScale(m[i], Zero5(), 0.0, 5);
      assert Scale(0.0, Zero5()) == Zero5();
    }
  }

  /** SI exponents (s, m, kg, A, K) of each constant, from its physical units:
      c = m/s, G = m^3 kg^-1 s^-2, hbar = kg m^2 s^-1,
      epsilon_0 = A^2 s^4 kg^-1 m^-3, k_B = kg m^2 s^-2 K^-1. */
  function SiDimension(constant: string): (d: Vec5) {
    match constant
    case "c" => [-1.0, 1.0, 0.0, 0.0, 0.0]
    case "G" => [-2.0, 3.0, -1.0, 0.0, 0.0]
    case "h" => [-1.0, 2.0, 1.0, 0.0, 0.0]
    case "e" => [4.0, -3.0, -1.0, 2.0, 0.0]
    case "k" => [-2.0, 2.0, 1.0, 0.0, -1.0]
    case _ => Zero5()
  }

  /** Each constant, taken on its own, converts to its SI dimension, and each
      SI dimension converts back to that constant alone. */
  lemma ConstantDimensions(j: nat)
    requires j < 5
    ensures MatVec(PlanckToSi, Basis(j)) == SiDimension(PlanckUnits[j])
    ensures MatVec(SiToPlanck, SiDimension(PlanckUnits[j])) == Basis(j)
  {
    PlanckToSiTerms(Basis(j));
    PlanckRoundTrip(Basis(j));
  }

  // ---------------------------------------------------------------------------
  // Building an exponent vector from (unit, exponent) pairs

  /** `Array.prototype.indexOf`: the first position holding `x`, or -1. */
  function IndexOf<T(==)>(xs: seq<T>, x: T): (i: int)
    ensures -1 <= i < |xs|
    ensures 0 <= i ==> xs[i] == x && x !in xs[..i]
    ensures i == -1 ==> x !in xs
  {
    if |xs| == 0 then -1
    else if xs[0] == x then 0
    else
      var r := IndexOf(xs[1..], x);
      assert xs == [xs[0]] + xs[1..];
      if r == -1 then -1 else r + 1
  }

  /** The exponent of the last pair naming `unit`, or 0 when none does. */
  function LastExponent(pairs: seq<(string, real)>, unit: string): real {
    if |pairs| == 0 then 0.0
    else if pairs[|pairs| - 1].0 == unit then pairs[|pairs| - 1].1
    else LastExponent(pairs[..|pairs| - 1], unit)
  }

  /** A unit that no pair names keeps exponent zero. */
  lemma {:induction false} LastExponentUnnamed(pairs: seq<(string, real)>, unit: string)
    requires forall k :: 0 <= k < |pairs| ==> pairs[k].0 != unit
    ensures LastExponent(pairs, unit) == 0.0
  {
    if |pairs| > 0 {
      LastExponentUnnamed(pairs[..|pairs| - 1], unit);
    }
  }

  lemma UnitsDistinct(system: System)
    ensures forall i, j :: 0 <= i < j < 5 ==> Units(system)[i] != Units(system)[j]
  {
  }

  /** The `forEach` loop of the memo: each pair writes its exponent at the
      index of its unit; a name outside the list (index -1) writes no entry. */
  method BuildVector(system: System, pairs: seq<(string, real)>) returns (v: Vec5)
    ensures forall j :: 0 <= j < 5 ==> v[j] == LastExponent(pairs, Units(system)[j])
  {
    var units := Units(system);
    UnitsDistinct(system);
    v := Zero5();
    var i := 0;
    while i < |pairs|
      invariant 0 <= i <= |pairs|
      invariant forall j :: 0 <= j < 5 ==> v[j] == LastExponent(pairs[..i], units[j])
    {
      var (unit, exponent) := pairs[i];
      var index := IndexOf(units, unit);
      assert pairs[..i + 1][..i] == pairs[..i];
      if index >= 0 {
        v := v[index := exponent];
      }
      i := i + 1;
    }
    assert pairs[..|pairs|] == pairs;
  }

  /** The memo building both vectors: the origin's vector from its pairs, the
      other by change of basis. Either way the two vectors describe the same
      dimension. */
  method UnitVectors(origin: System, pairs: seq<(string, real)>) returns (siVector: Vec5, planckVector: Vec5)
    ensures forall j :: 0 <= j < 5 ==>
      (if origin == Si then siVector[j] else planckVector[j]) == LastExponent(pairs, Units(origin)[j])
    ensures siVector == MatVec(PlanckToSi, planckVector)
    ensures planckVector == MatVec(SiToPlanck, siVector)
  {
    match origin
    case Si =>
      siVector := BuildVector(Si, pairs);
      planckVector := ConvertUnit(SiToPlanck, siVector);
      SiRoundTrip(siVector);
    case Planck =>
      planckVector := BuildVector(Planck, pairs);
      siVector := ConvertUnit(PlanckToSi, planckVector);
      PlanckRoundTrip(planckVector);
  }

  /** The memo for the converted side's display: each listed unit is paired
      with the vector entry at its position in the unit list. */
  function DisplayPairs(system: System, names: seq<string>, vector: Vec5): (pairs: seq<(string, real)>)
    requires forall k :: 0 <= k < |names| ==> names[k] in Units(system)
    ensures |pairs| == |names|
    ensures forall k :: 0 <= k < |names| ==> pairs[k].0 == names[k]
    ensures forall k, j :: 0 <= k < |names| && 0 <= j < 5 && Units(system)[j] == names[k] ==>
              pairs[k].1 == vector[j]
  {
    UnitsDistinct(system);
    seq(|names|, k requires 0 <= k < |names| => (names[k], vector[IndexOf(Units(system), names[k])]))
  }

  // ---------------------------------------------------------------------------
  // LaTeX rendering of a unit

  predicate IsUnitName(name: string) {
    name in SiUnits || name in PlanckUnits
  }

  /** The LaTeX spelling of a unit symbol: hbar, epsilon_0 and k_B get their
      own spellings, every other symbol is written as it is. */
  function LatexName(name: string): (latex: string)
    ensures name != "h" && name != "e" && name != "k" ==> latex == name
    ensures ' ' !in name ==> ' ' !in latex
  {
    match name
    case "h" => "\\hbar"
    case "e" => "\\epsilon_0"
    case "k" => "k_B"
    case _ => name
  }

  /** Distinct unit symbols render differently, so the text names its units unambiguously. */
  lemma LatexNameInjective(a: string, b: string)
    requires IsUnitName(a) && IsUnitName(b)
    ensures LatexName(a) == LatexName(b) <==> a == b
  {
  }

  /** The text of one (unit, exponent) pair; `show` is the number-to-text
      conversion of the exponent. */
  function Segment(name: string, exponent: real, show: real -> string): (s: string)
    requires IsUnitName(name)
    ensures s == "" <==> exponent == 0.0
    ensures exponent != 0.0 ==> LatexName(name) <= s
    ensures exponent == 1.0 ==> s == LatexName(name)
    ensures exponent != 0.0 && exponent != 1.0 ==> s[|s| - 1] == '}'
    ensures exponent != 0.0 && exponent != 1.0 ==>
      var n := |LatexName(name)|;
      |s| == n + 3 + |show(exponent)| && s[n..n + 2] == "^{" && s[n + 2..|s| - 1] == show(exponent)
  {
    if exponent == 0.0 then ""
    else
      var symbol := LatexName(name);
      if exponent != 1.0 then symbol + "^{" + show(exponent) + "}" else symbol
  }

  /** `Array.prototype.join`. */
  function Join(parts: seq<string>, sep: char): string {
    if |parts| == 0 then ""
    else if |parts| == 1 then parts[0]
    else parts[0] + [sep] + Join(parts[1..], sep)
  }

  /** `String.prototype.split` on a single character. */
  function Split(s: string, sep: char): (parts: seq<string>)
    ensures |parts| >= 1
    decreases |s|
  {
    var i := IndexOf(s, sep);
    if i < 0 then [s] else [s[..i]] + Split(s[i + 1..], sep)
  }

  /** Joining parts that do not contain the separator can be undone by splitting. */
  lemma {:induction false} SplitJoin(parts: seq<string>, sep: char)
    requires |parts| >= 1
    requires forall k :: 0 <= k < |parts| ==> sep !in parts[k]
    ensures Split(Join(parts, sep), sep) == parts
  {
    if |parts| > 1 {
      var rest := Join(parts[1..], sep);
      var s := parts[0] + [sep] + rest;
      assert s[..|parts[0]|] == parts[0];
      assert IndexOf(s, sep) == |parts[0]| by {
        var i := IndexOf(s, sep);
        assert s[|parts[0]|] == sep;
        assert sep !in s[..|parts[0]|];
      }
      assert s[|parts[0]| + 1..] == rest;
      SplitJoin(parts[1..], sep);
    }
  }

  function Segments(pairs: seq<(string, real)>, show: real -> string): (segments: seq<string>)
    requires forall k :: 0 <= k < |pairs| ==> IsUnitName(pairs[k].0)
    ensures |segments| == |pairs|
  {
    seq(|pairs|, k requires 0 <= k < |pairs| => Segment(pairs[k].0, pairs[k].1, show))
  }

  /** `makeUnit`: the segments of all pairs joined by single spaces. */
  function MakeUnit(pairs: seq<(string, real)>, show: real -> string): string
    requires forall k :: 0 <= k < |pairs| ==> IsUnitName(pairs[k].0)
  {
    Join(Segments(pairs, show), ' ')
  }

  /** A segment contains no space as long as the rendered exponent contains none. */
  lemma SegmentHasNoSpace(name: string, exponent: real, show: real -> string)
    requires IsUnitName(name)
    requires ' ' !in show(exponent)
    ensures ' ' !in Segment(name, exponent, show)
  {
    var symbol := LatexName(name);
    assert ' ' !in symbol;
    if exponent != 0.0 && exponent != 1.0 {
      assert Segment(name, exponent, show) == symbol + "^{" + show(exponent) + "}";
    }
  }

  /** The rendered text has exactly one space-separated segment per pair, in order. */
  lemma MakeUnitSegments(pairs: seq<(string, real)>, show: real -> string)
    requires |pairs| >= 1
    requires forall k :: 0 <= k < |pairs| ==> IsUnitName(pairs[k].0)
    requires forall k :: 0 <= k < |pairs| ==> ' ' !in show(pairs[k].1)
    ensures Split(MakeUnit(pairs, show), ' ') == Segments(pairs, show)
    ensures |Split(MakeUnit(pairs, show), ' ')| == |pairs|
  {
    var segments := Segments(pairs, show);
    forall k | 0 <= k < |pairs|
      ensures ' ' !in segments[k]
    {
      SegmentHasNoSpace(pairs[k].0, pairs[k].1, show);
    }
    SplitJoin(segments, ' ');
  }

  // ---------------------------------------------------------------------------
  // Converting a value

  datatype Direction = ToSi | FromSi

  /** `1 / b`, named so that the power law below is instantiated only at reciprocals. */
  function Reciprocal(b: real): real
    requires b != 0.0
  {
    1.0 / b
  }

  /** The constants, or their reciprocals when converting away from SI. */
  function ConstantsUsed(direction: Direction): (bases: seq<real>)
    ensures |bases| == 5
  {
    match direction
    case ToSi => Constants
    case FromSi => [Reciprocal(Constants[0]), Reciprocal(Constants[1]), Reciprocal(Constants[2]),
                    Reciprocal(Constants[3]), Reciprocal(Constants[4])]
  }

  /** The `reduce` with initial value 1: the product over `i < n` of `pow(bases[i], exponents[i])`. */
  function Product(bases: seq<real>, exponents: seq<real>, pow: (real, real) -> real, n: nat): real
    requires n <= |bases| && n <= |exponents|
  {
    if n == 0 then 1.0 else Product(bases, exponents, pow, n - 1) * pow(bases[n - 1], exponents[n - 1])
  }

  /** `convertValue`; `pow` stands for `Math.pow`. */
  function ConvertValue(value: real, vector: Vec5, direction: Direction, pow: (real, real) -> real): real {
    value * Product(ConstantsUsed(direction), vector, pow, |vector|)
  }

  /** The law of `Math.pow` the round trip rests on: for a positive base,
      the powers of the base and of its reciprocal cancel. */
  ghost predicate ReciprocalPowersCancel(pow: (real, real) -> real) {
    forall b: real, e: real {:trigger pow(Reciprocal(b), e)} :: 0.0 < b ==> pow(Reciprocal(b), e) * pow(b, e) == 1.0
  }

  lemma ProductOfOnes(bases: seq<real>, exponents: seq<real>, pow: (real, real) -> real, n: nat)
    requires n <= |bases| && n <= |exponents|
    requires forall i :: 0 <= i < n ==> pow(bases[i], exponents[i]) == 1.0
    ensures Product(bases, exponents, pow, n) == 1.0
  {
  }

  /** A dimensionless value is the same number in both systems. */
  lemma ConvertDimensionless(value: real, direction: Direction, pow: (real, real) -> real)
    requires forall b: real :: pow(b, 0.0) == 1.0
    ensures ConvertValue(value, Zero5(), direction, pow) == value
  {
    ProductOfOnes(ConstantsUsed(direction), Zero5(), pow, |Zero5()|);
  }

  lemma MultiplyPairs(a: real, b: real, x: real, y: real, p: real, q: real)
    requires a * b == 1.0 && x * y == 1.0 && p == a * x && q == b * y
    ensures p * q == 1.0
  {
    assert p * q == (a * b) * (x * y);
  }

  lemma ConstantsPositive()
    ensures forall i :: 0 <= i < 5 ==> 0.0 < Constants[i]
  {
  }

  lemma PowersCancel(pow: (real, real) -> real, b: real, e: real, x: real, y: real)
    requires ReciprocalPowersCancel(pow) && 0.0 < b && x == Reciprocal(b) && y == b
    ensures pow(x, e) * pow(y, e) == 1.0
  {
    assert pow(Reciprocal(b), e) * pow(b, e) == 1.0;
  }

  /** Each constant's power cancels the same power of its reciprocal. */
  lemma ConstantPowersCancel(pow: (real, real) -> real, exponents: seq<real>)
    requires ReciprocalPowersCancel(pow) && |exponents| == 5
    ensures forall i :: 0 <= i < 5 ==>
      PowersInverse(pow, ConstantsUsed(FromSi)[i], ConstantsUsed(ToSi)[i], exponents[i])
  {
    ConstantsPositive();
    forall i | 0 <= i < 5
      ensures PowersInverse(pow, ConstantsUsed(FromSi)[i], ConstantsUsed(ToSi)[i], exponents[i])
    {
      PowersCancel(pow, Constants[i], exponents[i], ConstantsUsed(FromSi)[i], ConstantsUsed(ToSi)[i]);
    }
  }

  /** The powers of `x` and of `y` to the same exponent multiply to 1. */
  predicate PowersInverse(pow: (real, real) -> real, x: real, y: real, e: real) {
    pow(x, e) * pow(y, e) == 1.0
  }

  /** Two products whose factors cancel pairwise multiply to 1. */
  lemma {:induction false} ProductsReciprocal(xs: seq<real>, ys: seq<real>, exponents: seq<real>, pow: (real, real) -> real, n: nat)
    requires n <= |xs| && n <= |ys| && n <= |exponents|
    requires forall i :: 0 <= i < n ==> PowersInverse(pow, xs[i], ys[i], exponents[i])
    ensures Product(xs, exponents, pow, n) * Product(ys, exponents, pow, n) == 1.0
  {
    if n > 0 {
      ProductsReciprocal(xs, ys, exponents, pow, n - 1);
      MultiplyPairs(
        Product(xs, exponents, pow, n - 1), Product(ys, exponents, pow, n - 1),
        pow(xs[n - 1], exponents[n - 1]), pow(ys[n - 1], exponents[n - 1]),
        Product(xs, exponents, pow, n), Product(ys, exponents, pow, n));
    }
  }

  /** The product over the reciprocal constants cancels the product over the constants. */
  lemma ProductsCancel(exponents: seq<real>, pow: (real, real) -> real)
    requires |exponents| == 5
    requires ReciprocalPowersCancel(pow)
    ensures Product(ConstantsUsed(FromSi), exponents, pow, |exponents|) * Product(ConstantsUsed(ToSi), exponents, pow, |exponents|) == 1.0
  {
    ConstantPowersCancel(pow, exponents);
    ProductsReciprocal(ConstantsUsed(FromSi), ConstantsUsed(ToSi), exponents, pow, |exponents|);
  }

  lemma Cancel(v: real, p: real, q: real, w: real)
    requires p * q == 1.0 && w == v * p
    ensures w * q == v
  {
    assert w * q == v * (p * q);
  }

  /** Converting a value out of SI and back, or into SI and back, returns it unchanged. */
  lemma ConvertValueRoundTrip(value: real, vector: Vec5, pow: (real, real) -> real)
    requires ReciprocalPowersCancel(pow)
    ensures ConvertValue(ConvertValue(value, vector, FromSi, pow), vector, ToSi, pow) == value
    ensures ConvertValue(ConvertValue(value, vector, ToSi, pow), vector, FromSi, pow) == value
  {
    var p := Product(ConstantsUsed(FromSi), vector, pow, |vector|);
    var q := Product(ConstantsUsed(ToSi), vector, pow, |vector|);
    ProductsCancel(vector, pow);
    Cancel(value, p, q, ConvertValue(value, vector, FromSi, pow));
    assert q * p == 1.0;
    Cancel(value, q, p, ConvertValue(value, vector, ToSi, pow));
  }
}
