/**
 * How JavaScript turns numbers into text, as the templates, the deck builder and the
 * timers use it: the decimal form of an integer (`String(n)`, template literals),
 * `padStart(2, '0')`, ASCII `toLowerCase`, `includes` on strings and `trim() == ''`.
 */
module Text {
  import opened Wrappers

  predicate IsDigit(c: char) {
    '0' <= c <= '9'
  }

  predicate AllDigits(s: string) {
    forall i :: 0 <= i < |s| ==> IsDigit(s[i])
  }

  function DigitChar(d: nat): (c: char)
    requires d < 10
    ensures IsDigit(c) && c as int - '0' as int == d
  {
    ('0' as int + d) as char
  }

  function DigitValue(c: char): (d: nat)
    requires IsDigit(c)
    ensures d < 10
  {
    c as int - '0' as int
  }

  /** The decimal form of a natural number, without leading zeros. */
  function NatToString(n: nat): (s: string)
    ensures 1 <= |s| && AllDigits(s)
    ensures |s| == 1 <==> n < 10
    ensures s[0] != '0' || n == 0
  {
    if n < 10 then [DigitChar(n)] else NatToString(n / 10) + [DigitChar(n % 10)]
  }

  /** The decimal form of an integer, with a leading '-' when negative (JavaScript `String(i)`). */
  function IntToString(i: int): (s: string)
    ensures 1 <= |s|
    ensures i >= 0 ==> s == NatToString(i)
    ensures i < 0 ==> s[0] == '-' && s[1..] == NatToString(-i)
  {
    if i < 0 then "-" + NatToString(-i) else NatToString(i)
  }

  /** Reads a string of decimal digits back as a number: the inverse of NatToString. */
  function ParseNat(s: string): nat
    requires AllDigits(s)
  {
    if s == [] then 0 else ParseNat(s[..|s| - 1]) * 10 + DigitValue(s[|s| - 1])
  }

  lemma {:induction false} ParseNatToString(n: nat)
    ensures ParseNat(NatToString(n)) == n
  {
    if n >= 10 {
      var s := NatToString(n);
      assert s[..|s| - 1] == NatToString(n / 10);
      ParseNatToString(n / 10);
    }
  }

  /** Distinct numbers have distinct decimal forms. */
  lemma NatToStringInjective(m: nat, n: nat)
    requires NatToString(m) == NatToString(n)
    ensures m == n
  {
    ParseNatToString(m);
    ParseNatToString(n);
  }

  /** `s.padStart(2, '0')`. */
  function PadStart2(s: string): (r: string)
    ensures |r| == if |s| < 2 then 2 else |s|
    ensures r[|r| - |s|..] == s
    ensures forall i :: 0 <= i < |r| - |s| ==> r[i] == '0'
  {
    if |s| == 0 then "00" else if |s| == 1 then "0" + s else s
  }

  /** ASCII `toLowerCase`. */
  function LowerChar(c: char): char {
    if 'A' <= c <= 'Z' then (c as int - 'A' as int + 'a' as int) as char else c
  }

  function Lower(s: string): (r: string)
    ensures |r| == |s|
    ensures forall i :: 0 <= i < |s| ==> r[i] == LowerChar(s[i])
  {
    if s == [] then [] else [LowerChar(s[0])] + Lower(s[1..])
  }

  /** `s.includes(sub)`: `sub` occurs in `s` at some position. */
  predicate Contains(s: string, sub: string) {
    exists i :: 0 <= i <= |s| && OccursAt(s, sub, i)
  }

  predicate OccursAt(s: string, sub: string, i: nat) {
    i + |sub| <= |s| && s[i..i + |sub|] == sub
  }

  predicate EndsWith(s: string, suffix: string) {
    |suffix| <= |s| && s[|s| - |suffix|..] == suffix
  }

  lemma EmptyIsContained(s: string)
    ensures Contains(s, "")
  {
    assert OccursAt(s, "", 0);
  }

  /** A suffix of the second part is a suffix of the concatenation. */
  lemma EndsWithConcat(a: string, b: string, suffix: string)
    requires |suffix| <= |b|
    ensures EndsWith(a + b, suffix) <==> EndsWith(b, suffix)
  {
    assert (a + b)[|a + b| - |suffix|..] == b[|b| - |suffix|..];
  }

  /** The characters JavaScript's `trim` removes (the ASCII ones). */
  predicate IsSpace(c: char) {
    c == ' ' || c == '\t' || c == '\n' || c == '\r' || c == '\U{000B}' || c == '\U{000C}'
  }

  /** `s.trim() === ''`. */
  predicate IsBlank(s: string) {
    forall i :: 0 <= i < |s| ==> IsSpace(s[i])
  }

  /** JavaScript's `%` truncates toward zero: the remainder takes the sign of the dividend. */
  function JsRem(a: int, b: int): (r: int)
    requires b > 0
    ensures (a - r) % b == 0
    ensures a >= 0 ==> 0 <= r < b
    ensures a < 0 ==> -b < r <= 0
  {
    if a >= 0 then
      RemOfNonNegative(a, b);
      a % b
    else
      RemOfNegative(a, b);
      -((-a) % b)
  }

  lemma RemOfNonNegative(a: int, b: int)
    requires a >= 0 && b > 0
    ensures (a - a % b) % b == 0 && 0 <= a % b < b
  {
    var q := a / b;
    assert a - a % b == b * q;
    MulMod(b, q);
  }

  lemma RemOfNegative(a: int, b: int)
    requires a < 0 && b > 0
    ensures (a - -((-a) % b)) % b == 0 && 0 <= (-a) % b < b
  {
    var q := (-a) / b;
    assert a - -((-a) % b) == b * -q;
    MulMod(b, -q);
  }

  /** A multiple of b leaves no remainder. */
  lemma MulMod(b: int, q: int)
    requires b > 0
    ensures (b * q) % b == 0
  {
    var x := b * q;
    var d := x / b;
    assert x == b * d + x % b;
    assert b * (q - d) == x % b;
    MulMonotone(1, q - d, b);
    MulMonotone(q - d, -1, b);
  }

  /** The remainder's sign and size pin it down: no other value has the three properties. */
  lemma JsRemUnique(a: int, b: int, r: int)
    requires b > 0 && (a - r) % b == 0
    requires a >= 0 ==> 0 <= r < b
    requires a < 0 ==> -b < r <= 0
    ensures r == JsRem(a, b)
  {
    var s := JsRem(a, b);
    var p := (a - r) / b;
    var q := (a - s) / b;
    assert a - r == b * p;
    assert a - s == b * q;
    assert r - s == b * (q - p);
    MulMonotone(1, q - p, b);
    MulMonotone(q - p, -1, b);
  }

  /** `Math.floor(a / b)` for a positive divisor; Dafny's division already rounds down for b > 0. */
  function FloorDiv(a: int, b: int): (q: int)
    requires b > 0
    ensures q * b <= a < q * b + b
  {
    a / b
  }

  /** Multiplying by a positive number keeps the order. */
  lemma MulMonotone(a: int, b: int, p: int)
    ensures a <= b && p > 0 ==> a * p <= b * p
  {
    assert b * p - a * p == (b - a) * p;
  }

  /** Flooring division by a positive number keeps the order. */
  lemma FloorDivMonotone(x: int, y: int, p: int)
    requires p > 0 && x <= y
    ensures FloorDiv(x, p) <= FloorDiv(y, p)
  {
    var qx := FloorDiv(x, p);
    var qy := FloorDiv(y, p);
    if qy < qx {
      MulMonotone(qy + 1, qx, p);
      assert false;
    }
  }
}
