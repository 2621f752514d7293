/** Quotients and remainders by a variable divisor, where the solver needs help. */
module Division {

  lemma DivUnique(q: nat, r: nat, x: nat, n: nat)
    requires n > 0 && r < n && x == q * n + r
    ensures x / n == q
  {
    var (q', r') := (x / n, x % n);
    assert x == q' * n + r';
    assert (q' - q) * n == q' * n - q * n;
    FactorBounds(q' - q, n);
  }

  lemma FactorBounds(d: int, n: nat)
    ensures d >= 1 ==> d * n >= n
    ensures d <= -1 ==> d * n + n <= 0
  {
    if d >= 1 {
      assert d * n == (d - 1) * n + n;
    } else if d <= -1 {
      assert d * n + n == -((-d - 1) * n);
    }
  }

  lemma ModuloStep(x: nat, n: nat)
    requires n > 0
    ensures (x + 1) % n == if x % n + 1 == n then 0 else x % n + 1
  {
    var (q, r) := (x / n, x % n);
    assert x == q * n + r;
    if r + 1 == n {
      assert (q + 1) * n == q * n + n;
      DivUnique(q + 1, 0, x + 1, n);
    } else {
      DivUnique(q, r + 1, x + 1, n);
    }
  }
}
