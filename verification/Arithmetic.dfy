/** The few facts about products and quotients the counting arguments need. */
module Arithmetic {

  lemma Scale(b: nat, y: int, x: int)
    requires y <= x
    ensures b * y <= b * x
  {
  }

  lemma Spread(b: int, k: int)
    ensures b * (k + 1) == b * k + b
  {
  }

  lemma CancelFactor(b: nat, x: int, y: int)
    requires b * x < b * y
    ensures x < y
  {
    if y <= x {
      Scale(b, y, x);
    }
  }

  lemma Quotient(n: nat, b: nat, q: int)
    requires b >= 1 && b * q <= n < b * (q + 1)
    ensures n / b == q
  {
    var d := n / b;
    assert n == b * d + n % b;
    Spread(b, d);
    CancelFactor(b, d, q + 1);
    CancelFactor(b, q, d + 1);
  }

  lemma DivMonotone(a: nat, b: nat, d: nat)
    requires d > 0 && a <= b
    ensures a / d <= b / d
  {
    var x, y := a / d, b / d;
    assert a == d * x + a % d && b == d * y + b % d;
    Spread(d, y);
    CancelFactor(d, x, y + 1);
  }

  lemma DivShift(a: nat, d: nat)
    requires d > 0
    ensures (a + d) / d == a / d + 1
  {
    var x := a / d;
    assert a == d * x + a % d;
    Spread(d, x);
    Spread(d, x + 1);
    Quotient(a + d, d, x + 1);
  }
}
