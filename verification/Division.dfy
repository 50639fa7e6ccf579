/** Facts about multiples, quotients and remainders. */
module Division {

  lemma Multiples(m: int, k: int)
    requires m > 0
    ensures k >= 1 ==> m * k >= m
    ensures k <= -1 ==> m * k <= -m
    ensures -m < m * k < m ==> k == 0
  {
    if k >= 1 {
      assert m * k == m + m * (k - 1);
    } else if k <= -1 {
      assert m * k == -m + m * (k + 1);
    }
  }

  lemma DivModOf(m: int, q: int, r: int)
    requires 0 <= r < m
    ensures (m * q + r) / m == q && (m * q + r) % m == r
  {
    var v := m * q + r;
    assert v == m * (v / m) + v % m;
    assert m * (v / m - q) == r - v % m;
    Multiples(m, v / m - q);
  }

  /** Two positions less than a buffer apart use different slots. */
  lemma SlotsDiffer(n: int, a: int, b: int)
    requires n > 0 && a < b < a + n
    ensures a % n != b % n
  {
    var q := b / n - a / n;
    assert a == n * (a / n) + a % n && b == n * (b / n) + b % n;
    assert b - a == n * q + (b % n - a % n);
    Multiples(n, q);
  }

  lemma DivBetween(sum: int, n: int, lo: int, hi: int)
    requires n > 0 && n * lo <= sum <= n * hi
    ensures lo <= sum / n <= hi
  {
    var q := sum / n;
    assert sum == n * q + sum % n;
    assert n * (lo - q) == n * lo - n * q && n * (hi - q) == n * hi - n * q;
    Multiples(n, lo - q);
    Multiples(n, hi - q);
  }
}
