/**
 Quotients and remainders, where the solver needs help.
 */
module Arithmetic {
  lemma SmallMultiple(d: int, n: nat)
    requires 0 < d * n + n < 2 * n
    ensures d == 0
  {
  }

  lemma UniqueRemainder(a: nat, q: nat, r: nat, n: nat)
    requires 0 < n && a == q * n + r && r < n
    ensures a / n == q && a % n == r
  {
    var q', r' := a / n, a % n;
    assert a == q' * n + r';
    assert (q - q') * n == q * n - q' * n;
    SmallMultiple(q - q', n);
  }

  lemma RemainderOfHalf(a: nat, n: nat)
    requires 0 < n
    ensures 2 * (a / 2 % n) + a % 2 == a % (2 * n)
  {
    var q, r := a / 2 / n, a / 2 % n;
    assert a / 2 == q * n + r;
    assert q * (2 * n) == 2 * (q * n);
    UniqueRemainder(a, q, 2 * r + a % 2, 2 * n);
  }
}
