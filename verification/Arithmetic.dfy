/** The few facts about products, quotients and remainders that the solver needs spelled out. */
module Arithmetic {

  lemma MulMono(a: int, b: int, n: nat)
    requires a <= b
    ensures a * n <= b * n
  {
    assert b * n - a * n == (b - a) * n;
  }

  lemma MulStep(q: int, n: int)
    ensures (q + 1) * n == q * n + n
  {
  }

  lemma SmallMultiple(d: int, n: nat)
    requires -(n as int) < d * n < n
    ensures d == 0
  {
    if d >= 1 {
      MulMono(1, d, n);
    } else if d <= -1 {
      MulMono(d, -1, n);
    }
  }

  lemma DivMod(x: int, n: nat)
    requires n > 0
    ensures x == x / n * n + x % n && 0 <= x % n < n
  {
  }

  /** Quotient and remainder are determined by their defining equation. */
  lemma DivModUnique(x: int, n: nat, q: int, r: nat)
    requires n > 0 && x == q * n + r && r < n
    ensures x / n == q && x % n == r
  {
    DivMod(x, n);
    var d := q - x / n;
    assert d * n == q * n - x / n * n;
    SmallMultiple(d, n);
  }

  lemma ModStep(k: nat, n: nat)
    requires n > 0
    ensures (k + 1) % n == if k % n + 1 == n then 0 else k % n + 1
  {
    DivMod(k, n);
    MulStep(k / n, n);
    if k % n + 1 == n {
      DivModUnique(k + 1, n, k / n + 1, 0);
    } else {
      DivModUnique(k + 1, n, k / n, k % n + 1);
    }
  }

  lemma ModAddOne(k: nat, n: nat)
    requires n > 0
    ensures (k + n) % n == k % n
  {
    DivMod(k, n);
    MulStep(k / n, n);
    DivModUnique(k + n, n, k / n + 1, k % n);
  }

  /** Two numbers of equal remainder that are less than n apart are equal. */
  lemma ModApart(i: nat, j: nat, n: nat)
    requires n > 0 && i <= j < i + n && i % n == j % n
    ensures i == j
  {
    DivMod(i, n);
    DivMod(j, n);
    var d := j / n - i / n;
    assert d * n == j / n * n - i / n * n;
    SmallMultiple(d, n);
  }
}
