/** Facts about products and quotients of reals, which the solver's
    non-linear arithmetic does not find on its own inside larger proofs. */
module RealArith {
  /** The product of two non-negative reals is non-negative. */
  lemma NonNegativeProduct(x: real, y: real)
    requires x >= 0.0 && y >= 0.0
    ensures x * y >= 0.0
  {
  }

  /** The product of two positive reals is positive. */
  lemma PositiveProduct(x: real, y: real)
    requires x > 0.0 && y > 0.0
    ensures x * y > 0.0
  {
  }

  /** a / b, the number that b multiplies back to a. */
  function Quotient(a: real, b: real): (q: real)
    requires b != 0.0
    ensures q * b == a
  {
    a / b
  }
}
