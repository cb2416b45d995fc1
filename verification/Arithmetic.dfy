/** Division and remainder. */
module Arithmetic {

  lemma MultipleIsLarge(x: int, b: nat)
    ensures x >= 1 ==> x * b >= b
    ensures x <= -1 ==> x * b <= 0 - b
  {
  }

  lemma QuotientUnique(n: nat, b: nat, q: nat, r: nat)
    requires b > 0 && r < b && n == q * b + r
    ensures n / b == q && n % b == r
  {
    var q', r' := n / b, n % b;
    assert (q - q') * b == r' - r;
    MultipleIsLarge(q - q', b);
  }

  lemma QuotientAndRemainder(n: nat, b: nat)
    requires b > 0
    ensures n == (n / b) * b + n % b
  {
  }

  lemma DivideTwice(n: nat, a: nat, b: nat)
    requires a > 0 && b > 0
    ensures a * b > 0 && n / (a * b) == (n / a) / b
  {
    var q, r := (n / a) / b, (n / a) % b;
    QuotientAndRemainder(n, a);
    QuotientAndRemainder(n / a, b);
    Remainder(a, b, n % a, r);
    Regrouped(q, a, b, r, n % a);
    QuotientUnique(n, a * b, q, r * a + n % a);
  }

  lemma Regrouped(q: nat, a: nat, b: nat, r: nat, s: nat)
    ensures (q * b + r) * a + s == q * (a * b) + (r * a + s)
  {
  }

  lemma Remainder(a: nat, b: nat, r: nat, r': nat)
    requires r < a && r' < b
    ensures r' * a + r < a * b
  {
    MultipleIsLarge(b - r', a);
    assert (b - r') * a == b * a - r' * a;
  }
}
