/** Division facts used for ring buffers and for blocks of a file. */
module Arith {
  lemma MulBound(n: int, d: int)
    requires n >= 0
    ensures d >= 1 ==> n * d >= n
    ensures d <= -1 ==> n * d <= -n
  {
  }

  /** Quotient and remainder are unique. */
  lemma DivMod(x: int, n: nat, q: int, r: int)
    requires 0 <= r < n && x == n * q + r
    ensures x / n == q && x % n == r
  {
    var d := q - x / n;
    MulBound(n, d);
    assert n * d == n * q - n * (x / n);
  }

  lemma NextMod(i: int, n: nat)
    requires n > 0
    ensures (i % n + 1) % n == (i + 1) % n
  {
    var (q, r) := (i / n, i % n);
    if r + 1 == n {
      DivMod(i + 1, n, q + 1, 0);
      DivMod(r + 1, n, 1, 0);
    } else {
      DivMod(i + 1, n, q, r + 1);
      DivMod(r + 1, n, 0, r + 1);
    }
  }

  /** Distinct numbers less than `n` apart have distinct remainders. */
  lemma ModApart(i: int, j: int, n: nat)
    requires 0 <= i < j < i + n
    ensures i % n != j % n
  {
    var (q, r) := (i / n, i % n);
    if r + (j - i) < n {
      DivMod(j, n, q, r + (j - i));
    } else {
      DivMod(j, n, q + 1, r + (j - i) - n);
    }
  }

  lemma BumpMod(h: int, x: int, n: nat)
    requires n > 0 && h == (x - 1) % n
    ensures (h + 1) % n == x % n
  {
    NextMod(x - 1, n);
  }
}
