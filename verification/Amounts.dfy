/** Amounts as contracts accept them. */
module Amounts {

  const MAX_AMOUNT: nat := 1000000000000000000000000000000000000000000000000

  // Digits without a leading zero, up to 10 to the power of 48.
  predicate ValidAmount(x: int) {
    1 <= x <= MAX_AMOUNT
  }
}
