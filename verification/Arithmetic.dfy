/** The smaller and the larger of two integers, and products that keep an order. */
module Arithmetic {

  function Min(x: int, y: int): int { if x <= y then x else y }

  function Max(x: int, y: int): int { if x >= y then x else y }

  lemma MulMono(x: int, y: int, k: int)
    requires x <= y && k >= 0
    ensures x * k <= y * k && k * x <= k * y
  {
    assert (y - x) * k >= 0;
  }

  lemma ScaleMono(x: real, y: real, k: real)
    requires x <= y && k >= 0.0
    ensures x * k <= y * k && k * x <= k * y
  {
    assert (y - x) * k >= 0.0;
  }
}
