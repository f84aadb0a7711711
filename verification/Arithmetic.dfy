/** The few facts about products and floor division that the pricing proofs need. */
module Arithmetic {

  function Min(a: int, b: int): int {
    if a <= b then a else b
  }

  function Max(a: int, b: int): int {
    if a <= b then b else a
  }

  function Abs(a: int): int {
    if a < 0 then -a else a
  }

  lemma MulLe(a: int, b: int, c: int)
    requires a <= b && 0 <= c
    ensures a * c <= b * c
  {
  }

  lemma MulLt(a: int, b: int, c: int)
    requires a < b && 0 < c
    ensures a * c < b * c
  {
  }

  lemma MulNonneg(a: int, b: int)
    requires 0 <= a && 0 <= b
    ensures 0 <= a * b
  {
  }

  lemma MulPositive(a: int, b: int)
    requires 0 < a && 0 < b
    ensures 0 < a * b
  {
  }

  /** Cancelling a positive factor. */
  lemma CancelLe(a: int, b: int, c: int)
    requires 0 < c && a * c <= b * c
    ensures a <= b
  {
    if b < a { MulLt(b, a, c); }
  }

  lemma CancelLt(a: int, b: int, c: int)
    requires 0 < c && a * c < b * c
    ensures a < b
  {
    if b <= a { MulLe(b, a, c); }
  }

  /** Floor division brackets its numerator. */
  lemma FloorBounds(a: int, b: int)
    requires 0 < b
    ensures a / b * b <= a < a / b * b + b
  {
  }

  /** The floor is the greatest integer whose product stays below the numerator. */
  lemma FloorAtLeast(q: int, a: int, b: int)
    requires 0 < b && q * b <= a
    ensures q <= a / b
  {
    FloorBounds(a, b);
    CancelLt(q, a / b + 1, b);
  }

  lemma FloorAtMost(q: int, a: int, b: int)
    requires 0 < b && a < (q + 1) * b
    ensures a / b <= q
  {
    FloorBounds(a, b);
    CancelLt(a / b, q + 1, b);
  }

  lemma FloorNonneg(a: int, b: int)
    requires 0 < b && 0 <= a
    ensures 0 <= a / b
  {
    FloorAtLeast(0, a, b);
  }
}
