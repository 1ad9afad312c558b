/**
 Numeric conversions of the original language.
 */
module Conversions {

  /** A conversion of a floating-point number to int: toward zero. */
  function Truncate(x: real): int {
    if x >= 0.0 then x.Floor else -((-x).Floor)
  }

  lemma TruncateIs(x: real)
    ensures x >= 0.0 ==> Truncate(x) as real <= x < Truncate(x) as real + 1.0
    ensures x < 0.0 ==> Truncate(x) as real - 1.0 < x <= Truncate(x) as real
  {
  }

  lemma TruncateInt(n: int)
    ensures Truncate(n as real) == n
  {
    assert (n as real).Floor == n;
    assert (-(n as real)) == (-n) as real;
    assert ((-n) as real).Floor == -n;
  }
}
