/** Values the audit passes read from the time-series library, reduced to what
    the audit code itself looks at: the last sample of a series and how Go's `>`
    compares such a sample with a threshold. */
module Samples {

  datatype Option<+T> = None | Some(value: T)

  /** A float64 sample, as far as an ordered comparison can tell samples apart.
      The arithmetic that produced it belongs to the time-series library. */
  datatype Float = NaN | PosInf | NegInf | Finite(v: real)

  /** Go's `x > t` for a float64 `x` and a finite threshold `t`: NaN compares
      false, +Inf compares true, -Inf compares false. */
  predicate Greater(x: Float, t: real)
  {
    x.PosInf? || (x.Finite? && x.v > t)
  }

  /** A present (non-nil) time series, represented by the value its `Last()` returns. */
  datatype Series = Series(last: Float)
}
