/**
 * The f64 values the matching engine computes with. Only comparisons, subtraction,
 * squaring and addition take part, so a finite value is modelled as an exact real and
 * NaN is kept as a value of its own. Infinities, rounding and the sign of zero are not
 * part of this model.
 */
module Floats {

  datatype Float = Fin(r: real) | NaN

  /** The 0.0 that `Array1::zeros`, `Array2::zeros` and `[0.; DIM]` fill buffers with. */
  const Zero: Float := Fin(0.0)

  /** IEEE-754 `<`: false as soon as either side is NaN. */
  predicate Less(a: Float, b: Float)
  {
    a.Fin? && b.Fin? && a.r < b.r
  }

  /** `f64::is_nan` */
  predicate IsNaN(a: Float)
  {
    a.NaN?
  }

  /** IEEE-754 subtraction: NaN in, NaN out. */
  function Sub(a: Float, b: Float): (d: Float)
    ensures d.NaN? <==> a.NaN? || b.NaN?
    ensures d.Fin? ==> d.r == a.r - b.r
  {
    if a.Fin? && b.Fin? then Fin(a.r - b.r) else NaN
  }

  /** IEEE-754 addition: NaN in, NaN out. */
  function Add(a: Float, b: Float): (s: Float)
    ensures s.NaN? <==> a.NaN? || b.NaN?
    ensures s.Fin? ==> s.r == a.r + b.r
  {
    if a.Fin? && b.Fin? then Fin(a.r + b.r) else NaN
  }

  /** `f64::powi(2)` */
  function Square(a: Float): (s: Float)
    ensures s.NaN? <==> a.NaN?
    ensures s.Fin? ==> s.r == a.r * a.r
  {
    if a.Fin? then Fin(a.r * a.r) else NaN
  }

  /**
   * The order the matcher ranks distances by, written independently of the comparisons
   * the source performs: NaN is the worst distance, finite distances compare as reals.
   * NotWorse(a, b) says that a is at least as good a match distance as b.
   */
  ghost predicate NotWorse(a: Float, b: Float)
  {
    b.NaN? || (a.Fin? && a.r <= b.r)
  }
}
