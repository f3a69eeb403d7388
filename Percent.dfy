/**
 * `Math.round((correct / total) * 100)`, the percentage both the drag-and-drop exercise
 * and the lesson quiz report, in exact integer arithmetic.
 */
module Percent {
  import opened Wrappers
  import opened Text

  /**
   * The nearest integer to 100·c/n, halves rounded up (`Math.round`). With n = 0 the
   * quotient is NaN or Infinity, which is no percentage at all.
   */
  function RoundedPercent(c: nat, n: nat): (r: Option<int>)
    ensures r.None? <==> n == 0
    ensures r.Some? ==> 2 * n * r.value - n <= 200 * c < 2 * n * r.value + n
  {
    if n == 0 then None else Some((200 * c + n) / (2 * n))
  }

  /** The percentage of at most n out of n lies in [0, 100]. */
  lemma PercentBounds(c: nat, n: nat)
    requires 0 < n && c <= n
    ensures 0 <= RoundedPercent(c, n).value <= 100
  {
    var r := RoundedPercent(c, n).value;
    if r > 100 {
      MulMonotone(101, r, 2 * n);
    }
  }

  /** Fewer correct answers never round to more. */
  lemma PercentMonotone(c: nat, d: nat, n: nat)
    requires 0 < n && c <= d
    ensures RoundedPercent(c, n).value <= RoundedPercent(d, n).value
  {
    var rc := RoundedPercent(c, n).value;
    var rd := RoundedPercent(d, n).value;
    if rd < rc {
      MulMonotone(rd + 1, rc, 2 * n);
    }
  }

  /** For fewer than 200 items, 100 is reported exactly when every item is right. */
  lemma FullMarksExactly(c: nat, n: nat)
    requires 0 < n < 200 && c <= n
    ensures RoundedPercent(c, n) == Some(100) <==> c == n
  {
    var x := 200 * c + n;
    if c < n {
      assert x < 100 * (2 * n);
      var r := x / (2 * n);
      assert (2 * n) * r <= x;
      MulMonotone(100, r, 2 * n);
    } else {
      DivideInRange(x, 2 * n, 100);
    }
  }

  /** From 200 items on, one wrong item still rounds up to 100. */
  lemma FullMarksWithAMistake(n: nat)
    requires n >= 200
    ensures RoundedPercent(n - 1, n) == Some(100)
  {
    var x := 200 * (n - 1) + n;
    assert 100 * (2 * n) <= x < 100 * (2 * n) + 2 * n;
    DivideInRange(x, 2 * n, 100);
  }

  /** A dividend between q·d and q·d + d divides to q. */
  lemma DivideInRange(x: int, d: int, q: int)
    requires d > 0 && q * d <= x < q * d + d
    ensures x / d == q
  {
    var r := x / d;
    assert x == d * r + x % d;
    if r < q {
      MulMonotone(r + 1, q, d);
    } else if r > q {
      MulMonotone(q + 1, r, d);
    }
  }
}
