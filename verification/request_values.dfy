/**
 * Values as they reach the handlers: decoded JSON body values and query
 * arguments converted with `float`, with Python's float comparisons.
 */
module RequestValues {

  /** A Python float: a real value, an infinity, or IEEE NaN. */
  datatype Float = Real(x: real) | PosInf | NegInf | NaN

  /**
   * A decoded JSON request value, as far as the handlers tell values apart:
   * a number (Python int or float), a string, or anything else (null, a
   * boolean, a list, an object).
   */
  datatype Json = JNumber(f: Float) | JString(s: string) | JOther

  /** Python's `a < c` for a float `a` and a finite bound: false whenever `a` is NaN. */
  predicate Below(a: Float, c: real) {
    a.NegInf? || (a.Real? && a.x < c)
  }

  /** Python's `a > c` for a float `a` and a finite bound: false whenever `a` is NaN. */
  predicate Above(a: Float, c: real) {
    a.PosInf? || (a.Real? && a.x > c)
  }

  /** Python's `d <= a` for a finite `d`: true for +inf, false for -inf and NaN. */
  predicate AtMost(d: real, a: Float) {
    a.PosInf? || (a.Real? && d <= a.x)
  }

  /** True when `a` lies in the finite interval `[lo, hi]`; no infinity and no NaN does. */
  predicate Between(a: Float, lo: real, hi: real) {
    a.Real? && lo <= a.x <= hi
  }
}
