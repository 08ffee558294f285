/** Conversions and range helpers shared by the controllers. */
module Arithmetic {

  /** A C cast from floating point to integer: truncation toward zero. */
  function Trunc(x: real): (n: int)
    ensures x >= 0.0 ==> 0.0 <= n as real <= x < n as real + 1.0
    ensures x <= 0.0 ==> n as real - 1.0 < x <= n as real <= 0.0
  {
    if x >= 0.0 then x.Floor else -(-x).Floor
  }

  function Abs(x: int): nat { if x < 0 then -x else x }

  /** Range::CoerceIntoRange. */
  function Coerce(low: int, high: int, value: int): int {
    if value < low then low else if value > high then high else value
  }

  function Sign(x: int): int { if x < 0 then -1 else if x > 0 then 1 else 0 }

  /** The least `n` with `n * b >= a`. */
  function CeilDiv(a: nat, b: nat): (n: nat)
    requires b > 0
    ensures n * b >= a
    ensures n > 0 ==> (n - 1) * b < a
  {
    if a <= b then (if a == 0 then 0 else 1) else 1 + CeilDiv(a - b, b)
  }

  /** Integer quotient of naturals. */
  function FloorDiv(a: nat, b: nat): (n: nat)
    requires b > 0
    ensures n * b <= a < n * b + b
  {
    if a < b then 0 else 1 + FloorDiv(a - b, b)
  }

  lemma MulMonotone(x: int, y: int, b: nat)
    requires x <= y
    ensures x * b <= y * b
  {
    assert (y - x) * b >= 0;
    assert (y - x) * b == y * b - x * b;
  }

  /** Cancelling a positive factor. */
  lemma MulCancel(x: int, y: int, b: nat)
    requires b > 0 && x * b < y * b
    ensures x < y
  {
    if x >= y { MulMonotone(y, x, b); }
  }

  lemma MulCancelAtMost(x: int, y: int, b: nat)
    requires b > 0 && x * b <= y * b
    ensures x <= y
  {
    assert (y + 1) * b == y * b + b;
    if x > y { MulMonotone(y + 1, x, b); }
  }

  lemma QuotientAtMost(a: nat, b: nat, m: nat)
    requires b > 0 && a <= m * b
    ensures FloorDiv(a, b) <= m
    ensures a == m * b ==> FloorDiv(a, b) == m
  {
    hide FloorDiv;
    var n := FloorDiv(a, b);
    assert (m + 1) * b == m * b + b && (n + 1) * b == n * b + b;
    MulCancel(n, m + 1, b);
    if a == m * b { MulCancel(m, n + 1, b); }
  }

  /** `CeilDiv` is the least sufficient count. */
  lemma CeilDivLeast(a: nat, b: nat, n: nat)
    requires b > 0
    ensures n * b >= a <==> n >= CeilDiv(a, b)
  {
    hide CeilDiv;
    var c := CeilDiv(a, b);
    if n >= c {
      MulMonotone(c, n, b);
    } else {
      MulMonotone(n, c - 1, b);
    }
  }
}
