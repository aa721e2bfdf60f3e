/**
  Finite sums over real vectors, the one piece of arithmetic both the tensor
  code and the unit conversion are built from, with the algebraic laws the
  other modules use.
 */
module Linear {

  /** The vector `k * v`, componentwise. */
  function Scale(k: real, v: seq<real>): (w: seq<real>)
    ensures |w| == |v|
    ensures forall i :: 0 <= i < |v| ==> w[i] == k * v[i]
  {
    seq(|v|, i requires 0 <= i < |v| => k * v[i])
  }

  /** The vector `x + y`, componentwise. */
  function Add(x: seq<real>, y: seq<real>): (w: seq<real>)
    requires |x| == |y|
    ensures |w| == |x|
    ensures forall i :: 0 <= i < |x| ==> w[i] == x[i] + y[i]
  {
    seq(|x|, i requires 0 <= i < |x| => x[i] + y[i])
  }

  /** The sum over `i < n` of `x[i] * y[i]`, accumulated left to right. */
  function Dot(x: seq<real>, y: seq<real>, n: nat): real
    requires n <= |x| && n <= |y|
  {
    if n == 0 then 0.0 else Dot(x, y, n - 1) + x[n - 1] * y[n - 1]
  }

  /** Distributivity, stated about the term `x * w` that already names the sum
      (keeping the caller's proof context free of fresh products). */
  lemma Distribute(x: real, y: real, z: real, w: real)
    requires w == y + z
    ensures x * w == x * y + x * z
  {
  }

  /** Scaling the second argument scales the dot product. */
  lemma {:induction false} DotScale(x: seq<real>, y: seq<real>, k: real, n: nat)
    requires n <= |x| && n <= |y|
    ensures Dot(x, Scale(k, y), n) == k * Dot(x, y, n)
  {
    if n > 0 {
      DotScale(x, y, k, n - 1);
      Distribute(k, Dot(x, y, n - 1), x[n - 1] * y[n - 1], Dot(x, y, n));
    }
  }

  /** The dot product distributes over a sum in its second argument. */
  lemma {:induction false} DotAdd(x: seq<real>, y: seq<real>, z: seq<real>, n: nat)
    requires |y| == |z| && n <= |x| && n <= |y|
    ensures Dot(x, Add(y, z), n) == Dot(x, y, n) + Dot(x, z, n)
  {
    if n > 0 {
      DotAdd(x, y, z, n - 1);
      Distribute(x[n - 1], y[n - 1], z[n - 1], Add(y, z)[n - 1]);
    }
  }

  /** A dot product of four-vectors written out. */
  lemma DotTerms4(x: seq<real>, y: seq<real>)
    requires |x| == 4 && |y| == 4
    ensures Dot(x, y, 4) == x[0] * y[0] + x[1] * y[1] + x[2] * y[2] + x[3] * y[3]
  {
    assert Dot(x, y, 1) == x[0] * y[0];
    assert Dot(x, y, 2) == Dot(x, y, 1) + x[1] * y[1];
    assert Dot(x, y, 3) == Dot(x, y, 2) + x[2] * y[2];
  }

  /** A dot product of five-vectors written out. */
  lemma DotTerms5(x: seq<real>, y: seq<real>)
    requires |x| == 5 && |y| == 5
    ensures Dot(x, y, 5) == x[0] * y[0] + x[1] * y[1] + x[2] * y[2] + x[3] * y[3] + x[4] * y[4]
  {
    assert Dot(x, y, 1) == x[0] * y[0];
    assert Dot(x, y, 2) == Dot(x, y, 1) + x[1] * y[1];
    assert Dot(x, y, 3) == Dot(x, y, 2) + x[2] * y[2];
    assert Dot(x, y, 4) == Dot(x, y, 3) + x[3] * y[3];
  }
}
