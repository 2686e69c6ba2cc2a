/** Integer arithmetic that several components share. */
module Arithmetic {
  /** Division that cuts off towards zero. */
  function Quotient(a: int, n: nat): int
    requires 0 < n
  {
    if 0 <= a then a / n else -((-a) / n)
  }

  lemma OneMore(factor: int, count: int)
    ensures factor * (count + 1) == factor * count + factor
  {
  }
}
