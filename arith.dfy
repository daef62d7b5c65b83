/** Small facts of real arithmetic, stated over plain variables so that callers can use them as steps. */
module Arith {

  function Abs(x: real): real
  {
    if x < 0.0 then -x else x
  }

  lemma MulNonNegative(x: real, y: real)
    requires x >= 0.0 && y >= 0.0
    ensures x * y >= 0.0
  {
  }

  lemma MulPositive(x: real, y: real)
    requires x > 0.0 && y > 0.0
    ensures x * y > 0.0
  {
  }

  lemma MulBelow(t: real, u: real)
    requires t > 0.0 && 0.0 <= u < 1.0
    ensures t * u < t
  {
    assert t * (1.0 - u) > 0.0;
  }

  lemma DivMul(x: real, y: real)
    requires y != 0.0
    ensures (x / y) * y == x
  {
  }

  /** A nonzero factor cancels. */
  lemma CancelFactor(x: real, y: real, h: real)
    requires h != 0.0 && x * h == y * h
    ensures x == y
  {
    assert (x - y) * h == 0.0;
  }

  lemma Triangle(a: real, b: real, c: real, e1: real, e2: real)
    requires Abs(a - b) <= e1 && Abs(b - c) <= e2
    ensures Abs(a - c) <= e2 + e1
  {
  }

  /** A count times a price splits into a part and the rest of the count. */
  lemma SplitCount(total: int, part: int, p: real)
    ensures total as real * p == (total - part) as real * p + part as real * p
  {
  }
}
