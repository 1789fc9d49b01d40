// Floor division by an unknown divisor, in the small steps the solver needs.
module Arithmetic {

  lemma StepsOf(a: int, b: int, k: nat)
    requires a < b
    ensures k * a + k <= k * b
  {
    var gap: nat := b - a - 1;
    assert b == a + 1 + gap;
    assert k * (a + 1 + gap) == k * a + k + k * gap;
  }

  lemma DivMod(x: int, k: nat, q: int)
    requires k >= 1
    ensures x == k * (x / k) + x % k
    ensures x / k == q <==> k * q <= x < k * q + k
  {
    var d := x / k;
    if d < q { StepsOf(d, q, k); } else if q < d { StepsOf(q, d, k); }
  }

  lemma BelowNextMultiple(n: nat, k: nat)
    requires k >= 1
    ensures n / k >= 0 && n < k * (n / k + 1)
  {
    DivMod(n, k, n / k);
    StepsOf(n / k, n / k + 1, k);
  }

  lemma Quotient(s: real, n: real, lo: real, hi: real)
    requires n > 0.0 && lo * n <= s <= hi * n
    ensures lo <= s / n <= hi
  {
    var m := s / n;
    assert m * n == s;
    assert m < lo ==> m * n < lo * n;
    assert m > hi ==> m * n > hi * n;
  }
}
