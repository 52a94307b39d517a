/** Python's int() applied to a float temperature: truncation toward zero. */
module Temperature {

  /**
   * The integer part of x, rounding toward zero (unlike Dafny's Floor, which
   * rounds toward negative infinity).
   */
  function TruncateTowardZero(x: real): (n: int)
    ensures 0.0 <= x ==> 0 <= n && n as real <= x < n as real + 1.0
    ensures x < 0.0 ==> n <= 0 && n as real - 1.0 < x <= n as real
  {
    if 0.0 <= x then x.Floor else -((-x).Floor)
  }

  /** The two bounds above leave exactly one integer: truncation is determined by them. */
  lemma TruncationIsUnique(x: real, m: int)
    requires 0.0 <= x ==> 0 <= m && m as real <= x < m as real + 1.0
    requires x < 0.0 ==> m <= 0 && m as real - 1.0 < x <= m as real
    ensures m == TruncateTowardZero(x)
  {
  }

  /** Truncation differs from rounding and from flooring on negative inputs. */
  lemma TruncationExamples()
    ensures TruncateTowardZero(21.7) == 21
    ensures TruncateTowardZero(-21.7) == -21
    ensures TruncateTowardZero(-21.7) != (-21.7).Floor
  {
  }
}
