/** IEEE-style double values where the engine's behaviour depends on them being
    infinite or not-a-number: cut coefficients and offsets, LP bounds, the master's
    surrogate bounds `theta` (minus infinity on the fallback path) and dual gaps.
    Rounding is not modelled: a finite value is an exact real. */
module Floats {

  datatype Float = Fin(val: real) | Inf(negative: bool) | NaN

  const PosInf: Float := Inf(false)
  const NegInf: Float := Inf(true)

  /** `math.isnan(x)`. */
  predicate IsNaN(x: Float) {
    x.NaN?
  }

  /** Unary minus; NaN stays NaN and an infinity changes sign. */
  function Neg(x: Float): (r: Float)
    ensures IsNaN(r) <==> IsNaN(x)
    ensures x.Fin? ==> r == Fin(-x.val)
    ensures x.Inf? ==> r == Inf(!x.negative)
  {
    match x
    case Fin(v) => Fin(-v)
    case Inf(neg) => Inf(!neg)
    case NaN => NaN
  }

  lemma NegInvolutive(x: Float)
    ensures Neg(Neg(x)) == x
  {
  }

  /** `x - y` for a finite `y`: an infinity absorbs the finite subtrahend. */
  function SubReal(x: Float, y: real): (r: Float)
    ensures IsNaN(r) <==> IsNaN(x)
    ensures x.Fin? ==> r == Fin(x.val - y)
    ensures x.Inf? ==> r == x
  {
    match x
    case Fin(v) => Fin(v - y)
    case Inf(_) => x
    case NaN => NaN
  }

  /** Python's `x > c` for a finite `c`; every comparison with NaN is false. */
  predicate GreaterThan(x: Float, c: real) {
    match x
    case Fin(v) => v > c
    case Inf(neg) => !neg
    case NaN => false
  }

  /** `abs(a) <= abs(b)` for values that are not NaN (false when either is NaN). */
  predicate AbsLe(a: Float, b: Float) {
    !a.NaN? && !b.NaN? && (b.Inf? || (a.Fin? && Abs(a.val) <= Abs(b.val)))
  }

  function Abs(x: real): real {
    if x < 0.0 then -x else x
  }

  /** Magnitude comparison is a total preorder on the values that are not NaN. */
  lemma AbsLeTotal(a: Float, b: Float)
    requires !IsNaN(a) && !IsNaN(b)
    ensures AbsLe(a, b) || AbsLe(b, a)
    ensures AbsLe(a, a)
  {
  }

  lemma AbsLeTransitive(a: Float, b: Float, c: Float)
    requires AbsLe(a, b) && AbsLe(b, c)
    ensures AbsLe(a, c)
  {
  }
}
