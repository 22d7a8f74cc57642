/** Python's numeric conversions that the game relies on, stated over exact reals. */
module PyNum {

  /** Python's `int(x)` applied to a float: truncation toward zero (not floor). */
  function Trunc(x: real): (n: int)
    ensures 0.0 <= x ==> 0 <= n && n as real <= x < n as real + 1.0
    ensures x < 0.0 ==> n <= 0 && n as real - 1.0 < x <= n as real
  {
    if 0.0 <= x then x.Floor else -((-x).Floor)
  }

  /** Truncation never leaves an integer interval that contains its argument. */
  lemma TruncWithin(x: real, lo: int, hi: int)
    requires lo as real <= x <= hi as real
    ensures lo <= Trunc(x) <= hi
  {
  }

  /** An integer-valued real truncates to itself. */
  lemma TruncOfInt(n: int)
    ensures Trunc(n as real) == n
  {
  }
}
