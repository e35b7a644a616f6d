/** The one fact about products that the divisions of traffic need. */
module Arithmetic {
  lemma MultiplyMonotone(a: int, b: int, d: nat)
    ensures a <= b ==> a * d <= b * d
  {
  }
}
