/** The pieces of C/C++ arithmetic the library relies on, stated over `real`
    and `int`: `std::round`, truncating integer division, `std::max`, the
    IEEE infinities used as the initial running minimum and maximum, and the
    assumptions made about `sqrt` and `exp`, which are supplied by the caller
    as functions. */
module Numerics {

  /** A double that may also be +INFINITY or -INFINITY. */
  datatype XReal = NegInf | Fin(v: real) | PosInf

  predicate XLe(a: XReal, b: XReal) {
    match (a, b)
    case (NegInf, _) => true
    case (_, PosInf) => true
    case (Fin(x), Fin(y)) => x <= y
    case _ => false
  }

  /** `std::min<double>(m, x)`. */
  function XMin(m: XReal, x: real): (r: XReal)
    ensures XLe(r, m) && XLe(r, Fin(x))
    ensures r == m || r == Fin(x)
  {
    if XLe(m, Fin(x)) then m else Fin(x)
  }

  /** `std::max<double>(m, x)`. */
  function XMax(m: XReal, x: real): (r: XReal)
    ensures XLe(m, r) && XLe(Fin(x), r)
    ensures r == m || r == Fin(x)
  {
    if XLe(Fin(x), m) then m else Fin(x)
  }

  /** `std::max<double>(a, b)`. */
  function MaxR(a: real, b: real): (r: real)
    ensures r >= a && r >= b && (r == a || r == b)
  {
    if a < b then b else a
  }

  /** `std::round`: nearest integer, halfway cases away from zero. */
  function Round(x: real): (r: int)
    ensures x - 0.5 <= r as real <= x + 0.5
    ensures r as real == x + 0.5 ==> x > 0.0
    ensures r as real == x - 0.5 ==> x < 0.0
  {
    if x >= 0.0 then (x + 0.5).Floor else -((0.5 - x).Floor)
  }

  /** C++ `a / b` on integers: the quotient truncated toward zero. */
  function TruncDiv(a: int, b: int): (q: int)
    requires b != 0
    ensures a >= 0 && b > 0 ==> q == a / b
    ensures b > 0 ==> (q <= 0 <==> a < b)
  {
    var m := (if a < 0 then -a else a) / (if b < 0 then -b else b);
    if (a < 0) != (b < 0) then -m else m
  }

  /** What the model assumes of the `sqrt` it is given: non-negative on the
      non-negative reals, positive on the positive ones, and monotone. */
  ghost predicate SqrtOk(sqrt: real -> real) {
    (forall x :: 0.0 <= x ==> 0.0 <= sqrt(x)) &&
    (forall x :: 0.0 < x ==> 0.0 < sqrt(x)) &&
    (forall x, y :: 0.0 <= x <= y ==> sqrt(x) <= sqrt(y))
  }

  /** What the model assumes of the `exp` it is given: monotone, and at least
      1 on non-negative arguments. */
  ghost predicate ExpOk(exp: real -> real) {
    (forall x, y :: x <= y ==> exp(x) <= exp(y)) &&
    (forall x :: 0.0 <= x ==> 1.0 <= exp(x))
  }

  lemma MulMonotone(a: int, b: int, c: int)
    requires a <= b && 0 <= c
    ensures a * c <= b * c
  {
  }

  /** The quotient times the divisor is at most the dividend, by less than
      one divisor. */
  lemma DivMul(a: int, d: int)
    requires d > 0
    ensures (a / d) * d <= a < (a / d) * d + d
  {
  }

  /** Multiplying a shifted factor. */
  lemma MulShift(q: int, k: int, d: int)
    ensures (q + k) * d == q * d + k * d
  {
  }

  lemma MulMonotoneReal(a: real, b: real, c: real)
    requires a <= b && 0.0 <= c
    ensures a * c <= b * c
  {
  }

  /** `a` and `b` have the same length and agree outside the cells
      `[lo, hi)`: what an in-place fill of those cells leaves alone. */
  ghost predicate AgreeOutside(a: seq<real>, b: seq<real>, lo: int, hi: int) {
    |a| == |b| && forall k :: 0 <= k < |a| && !(lo <= k < hi) ==> a[k] == b[k]
  }
}
