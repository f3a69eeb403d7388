/**
 * The A-/A+ buttons the matching-pairs exercise and the timed quiz both render:
 * the font size starts at 16 and steps by 2 within [12, 24].
 */
module Accessibility {
  const InitialFontSize := 16

  /** `Math.max(12, prev - 2)`. */
  function Smaller(size: int): int {
    if size - 2 > 12 then size - 2 else 12
  }

  /** `Math.min(24, prev + 2)`. */
  function Larger(size: int): int {
    if size + 2 < 24 then size + 2 else 24
  }

  /** From a size in range both buttons stay in range, move by at most one step, and in their own direction. */
  lemma FontStaysInRange(size: int)
    requires 12 <= size <= 24
    ensures 12 <= Smaller(size) <= 24 && 12 <= Larger(size) <= 24
    ensures Smaller(size) <= size <= Larger(size)
    ensures size - Smaller(size) <= 2 && Larger(size) - size <= 2
  {
  }
}
