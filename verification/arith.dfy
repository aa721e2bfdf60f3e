/**
  Small facts of real arithmetic. Each names its terms in its parameters, so
  that a caller hands over products and quotients whole instead of leaving
  the solver to rediscover them.
 */
module Arith {

  lemma NonzeroProduct(x: real, y: real, p: real)
    requires x != 0.0 && y != 0.0 && p == x * y
    ensures p != 0.0
  {
  }

  lemma CancelFactor(k: real, x: real, y: real)
    requires k != 0.0 && k * x == k * y
    ensures x == y
  {
  }

  /** `1 - rs / r` vanishes only at `r == rs`. */
  lemma RatioNotOne(rs: real, r: real)
    requires r != 0.0 && r != rs
    ensures 1.0 - rs / r != 0.0
  {
    if rs / r == 1.0 {
      assert rs == (rs / r) * r;
    }
  }

  /** Two quotients agree when their cross products do. */
  lemma QuotientsEqual(n1: real, d1: real, n2: real, d2: real)
    requires d1 != 0.0 && d2 != 0.0 && n1 * d2 == n2 * d1
    ensures n1 / d1 == n2 / d2
  {
    var q1 := n1 / d1;
    var q2 := n2 / d2;
    assert n1 == q1 * d1;
    assert n2 == q2 * d2;
    assert q1 * d1 * d2 == q2 * d2 * d1;
    assert (q1 - q2) * (d1 * d2) == 0.0;
  }

  lemma ReciprocalProduct(x: real, y: real)
    requires x != 0.0 && y == -1.0 / x
    ensures x * y == -1.0
  {
  }

  lemma SquareOfProduct(r: real, s: real)
    ensures (r * s) * (r * s) == r * r * (s * s)
  {
  }
}
