/** Python floats as the risk rules use them: only comparisons against
    constants matter. A value is a real number or NaN, and every ordered
    comparison involving NaN is false. */
module Floats {

  datatype Float = Num(x: real) | NaN

  /** `f > t`. */
  predicate Above(f: Float, t: real) {
    f.Num? && f.x > t
  }

  /** `f >= t`. */
  predicate AtLeast(f: Float, t: real) {
    f.Num? && f.x >= t
  }
}
