/** Order facts about products, which the solver is handed one at a time. */
module Arithmetic {

  lemma MulMonotone(a: int, x: int, y: int)
    requires 0 <= a && x <= y
    ensures a * x <= a * y && x * a <= y * a
  {
  }
}
