/**
 * The closeness test the checkers use for every magnitude comparison:
 * numpy's `allclose` rule with its default tolerances, on exact reals.
 */
module Closeness {

  /** Absolute tolerance (numpy default 1e-8). */
  const ATOL: real := 0.00000001
  /** Relative tolerance (numpy default 1e-5). */
  const RTOL: real := 0.00001

  function Abs(x: real): (r: real)
    ensures r >= 0.0 && (r == x || r == -x)
  {
    if x < 0.0 then -x else x
  }

  /** `a` is close to the reference value `b`: |a - b| <= atol + rtol * |b|. */
  predicate Close(a: real, b: real)
  {
    Abs(a - b) <= ATOL + RTOL * Abs(b)
  }

  /** Every value is close to itself, so exact equality always passes. */
  lemma CloseSelf(a: real)
    ensures Close(a, a)
  {
  }

  /** Closeness to zero is the absolute tolerance alone. */
  lemma CloseToZero(a: real)
    ensures Close(a, 0.0) <==> Abs(a) <= ATOL
  {
  }
}
