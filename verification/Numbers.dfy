// Division as digits of numbers need it: the digit of a number at some place, to some base, and how
// the digits of a number stand to those of its quotient by the base. Bytes, hex digits and decimal
// digits are stated with it.

module Numbers {

  lemma Scaled(d: nat, a: nat, b: nat)
    requires a <= b
    ensures d * a <= d * b
  {}

  lemma QuotientIs(n: nat, d: nat, q: nat)
    requires d > 0 && d * q <= n < d * (q + 1)
    ensures n / d == q
  {
    var r := n / d;
    assert d * r <= n < d * (r + 1);
    if r < q {
      Scaled(d, r + 1, q);
    } else if q < r {
      Scaled(d, q + 1, r);
    }
  }

  lemma Regrouped(a: nat, b: nat, c: nat)
    ensures a * (b * c) == a * b * c
  {}

  lemma Bounds(n: nat, d: nat)
    requires d > 0
    ensures d * (n / d) <= n < d * (n / d + 1)
  {}

  lemma DividedTwice(n: nat, c: nat, d: nat)
    requires c > 0 && d > 0
    ensures c * d > 0 && n / c / d == n / (c * d)
  {
    var m := n / c;
    var q := m / d;
    Bounds(n, c);
    Bounds(m, d);
    Scaled(c, d * q, m);
    Scaled(c, m + 1, d * (q + 1));
    Regrouped(c, d, q);
    Regrouped(c, d, q + 1);
    Positive(c, d);
    QuotientIs(n, c * d, q);
  }

  lemma Positive(c: nat, d: nat)
    requires c > 0 && d > 0
    ensures c * d > 0
  {}

  /** base^n */
  function Power(base: nat, n: nat): (p: nat)
    requires base > 0
    ensures p > 0
  {
    if n == 0 then 1 else Positive(base, Power(base, n - 1)); base * Power(base, n - 1)
  }

  // The digit of v at position k, counted from the right.
  function Digit(v: nat, base: nat, k: nat): nat
    requires base > 0
  {
    v / Power(base, k) % base
  }

  lemma DigitFurtherLeft(v: nat, base: nat, k: nat)
    requires base > 0
    ensures Digit(v / base, base, k) == Digit(v, base, k + 1)
    ensures Digit(v, base, 0) == v % base
  {
    DividedTwice(v, base, Power(base, k));
    assert Power(base, 0) == 1;
  }
}
