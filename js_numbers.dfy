/**
 * JavaScript numbers as the market and calculator code uses them: a value
 * `parseFloat` or an arithmetic operation produced, either NaN or a finite
 * value. Rounding to double precision and the infinities are not modelled.
 */
module JsNumbers {

  datatype Number = NaN | Finite(value: real)

  /** `a === b`: NaN is not equal to anything, itself included. */
  predicate StrictEquals(a: Number, b: Number)
  {
    a.Finite? && b.Finite? && a.value == b.value
  }

  /** `a > b`: false whenever either side is NaN. */
  predicate Greater(a: Number, b: Number)
  {
    a.Finite? && b.Finite? && a.value > b.value
  }

  /** `a < b`. */
  predicate Less(a: Number, b: Number)
  {
    Greater(b, a)
  }

  /** `a + b`: NaN as soon as one side is NaN. */
  function Plus(a: Number, b: Number): (r: Number)
    ensures r.Finite? <==> a.Finite? && b.Finite?
  {
    if a.Finite? && b.Finite? then Finite(a.value + b.value) else NaN
  }

  function Minus(a: Number, b: Number): (r: Number)
    ensures r.Finite? <==> a.Finite? && b.Finite?
  {
    if a.Finite? && b.Finite? then Finite(a.value - b.value) else NaN
  }

  function Times(a: Number, b: Number): (r: Number)
    ensures r.Finite? <==> a.Finite? && b.Finite?
  {
    if a.Finite? && b.Finite? then Finite(a.value * b.value) else NaN
  }

  /** `a / b` for a divisor that is NaN or not zero; a zero divisor, whose quotient is infinite or NaN, gives NaN. */
  function Quotient(a: Number, b: Number): (r: Number)
    ensures r.Finite? <==> a.Finite? && b.Finite? && b.value != 0.0
  {
    if a.Finite? && b.Finite? && b.value != 0.0 then Finite(a.value / b.value) else NaN
  }

  lemma StrictEqualsNotReflexiveOnNaN()
    ensures !StrictEquals(NaN, NaN)
  {
  }

  /** Two numbers that are not `===` compare one way or the other, unless one is NaN. */
  lemma CompareFinite(a: Number, b: Number)
    requires a.Finite? && b.Finite? && !StrictEquals(a, b)
    ensures Greater(a, b) != Greater(b, a)
  {
  }
}
