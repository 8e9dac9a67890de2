/** Powers of two, and the arithmetic of positions on a ring. */
module Rings {
  function Pow2(n: nat): (p: nat)
    ensures p > 0
  {
    if n == 0 then 1 else 2 * Pow2(n - 1)
  }

  lemma AtLeast(n: int, d: int)
    requires n >= 1 && d > 0
    ensures n * d >= d
  {
    assert (n - 1) * d >= 0;
  }

  /** Division by d is unique. */
  lemma UniqueQuotient(d: int, q: int, r: int, q': int, r': int)
    requires d > 0 && q * d + r == q' * d + r' && 0 <= r < d && 0 <= r' < d
    ensures q == q' && r == r'
  {
    assert (q - q') * d == r' - r;
    if q > q' { AtLeast(q - q', d); } else if q < q' { AtLeast(q' - q, d); }
  }

  lemma ModOf(n: int, q: int, r: int, d: int)
    requires 0 <= r < d && n == q * d + r
    ensures n % d == r && n / d == q
  {
    assert n == (n / d) * d + n % d;
    UniqueQuotient(d, q, r, n / d, n % d);
  }

  /** One step past either end comes back on the other side. */
  lemma WrapOnce(n: int, size: int)
    requires size > 0 && -size <= n < 2 * size
    ensures n % size == if n < 0 then n + size else if n < size then n else n - size
  {
    var q := if n < 0 then -1 else if n < size then 0 else 1;
    ModOf(n, q, n - q * size, size);
  }

  /** Distance around the ring is plain distance while it is less than the ring. */
  lemma RingDistance(q: nat, h: nat, d: nat)
    requires d > 0 && h <= q < h + d
    ensures (q % d - h % d) % d == q - h
  {
    var x := q % d - h % d;
    var m := x / d;
    assert q == (q / d) * d + q % d && h == (h / d) * d + h % d;
    assert x == m * d + x % d;
    assert (q / d - h / d) * d == (q / d) * d - (h / d) * d;
    assert (m + (q / d - h / d)) * d == m * d + (q / d - h / d) * d;
    assert q - h == (m + (q / d - h / d)) * d + x % d;
    UniqueQuotient(d, 0, q - h, m + (q / d - h / d), x % d);
  }

  lemma QuotientNat(a: nat, d: nat)
    requires d > 0
    ensures a / d >= 0
  {
    assert a == (a / d) * d + a % d;
    assert a / d < 0 ==> -(a / d) * d >= d by { if a / d < 0 { AtLeast(-(a / d), d); } }
  }
}
