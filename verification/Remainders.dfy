/** Division with remainder by a variable divisor. */
module Remainders {
  lemma Multiple(e: int, n: nat)
    requires n > 0
    ensures (e >= 1 ==> e * n >= n) && (e <= -1 ==> e * n + n <= 0)
  {
    if e >= 1 { assert (e - 1) * n >= 0; }
    if e <= -1 { assert (-1 - e) * n >= 0; }
  }

  /** Two representations with the same remainder range are the same. */
  lemma UniqueQuotient(n: nat, d: int, r: int, d': int, r': int)
    requires n > 0 && d * n + r == d' * n + r' && 0 <= r < n && 0 <= r' < n
    ensures d == d' && r == r'
  {
    assert (d - d') * n == d * n - d' * n;
    Multiple(d - d', n);
  }

  lemma Euclid(x: int, n: nat)
    requires n > 0
    ensures x == x / n * n + x % n && 0 <= x % n < n
  {
  }

  lemma Quotient(x: int, n: nat, d: int, r: int)
    requires n > 0 && x == d * n + r && 0 <= r < n
    ensures x / n == d && x % n == r
  {
    Euclid(x, n);
    UniqueQuotient(n, x / n, x % n, d, r);
  }

  /** q is the remainder of h on division by m. */
  predicate Remainder(q: int, h: int, m: int)
    requires m > 0
  {
    0 <= q < m && (h - q) % m == 0
  }

  lemma RemainderOf(h: nat, m: nat)
    requires m > 0
    ensures Remainder(h % m, h, m)
  {
    Euclid(h, m);
    Quotient(h - h % m, m, h / m, 0);
  }
}
