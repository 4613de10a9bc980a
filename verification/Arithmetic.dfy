// Powers of two, and facts about integer division by a variable divisor.

module Arithmetic {
  function Pow2(n: nat): (p: nat)
    ensures p >= 1
  {
    if n == 0 then 1 else 2 * Pow2(n - 1)
  }

  lemma ProductAtLeast(a: nat, b: nat, m: nat)
    requires a < b
    ensures a * m + m <= b * m
  {
    assert b * m == (a + 1) * m + (b - a - 1) * m;
    assert (a + 1) * m == a * m + m;
  }

  // Quotients are determined by division with remainder.
  lemma QuotientIs(x: nat, m: nat, q: nat, r: nat)
    requires r < m && x == q * m + r
    ensures x / m == q
  {
    var p, s := x / m, x % m;
    assert x == p * m + s;
    if p < q {
      ProductAtLeast(p, q, m);
    } else if q < p {
      ProductAtLeast(q, p, m);
    }
  }

  lemma LastDigit(q: nat, r: nat)
    requires r < 256
    ensures (q * 256 + r) / 256 == q && (q * 256 + r) % 256 == r
  {
  }

  lemma RoundDown(x: nat, m: nat)
    requires m >= 1
    ensures 0 <= x / m * m <= x
  {
    assert x == x / m * m + x % m;
  }

  lemma DivideTwice(x: nat, m: nat, k: nat)
    requires m >= 1 && k >= 1
    ensures m * k >= 1 && x / (m * k) == x / m / k
  {
    var y := x / m;
    var q, r, s := y / k, y % k, x % m;
    assert y == q * k + r;
    assert x == y * m + s;
    assert (q * k + r) * m == q * (m * k) + r * m by {
      assert (q * k + r) * m == (q * k) * m + r * m;
      assert (q * k) * m == q * (m * k);
    }
    ProductAtLeast(r, k, m);
    assert k * m == m * k;
    QuotientIs(x, m * k, q, r * m + s);
  }

  // A block of size m that starts at a multiple of m stays below a multiple of m.
  lemma BlockBelow(x: nat, m: nat, k: nat)
    requires m >= 1 && x < m * k
    ensures x / m * m + m <= m * k
  {
    var q := x / m;
    assert x == q * m + x % m;
    assert m * k == k * m;
    if q > k {
      ProductAtLeast(k, q, m);
    }
    ProductAtLeast(q, k, m);
  }

  // Inside a block of m * k numbers, the first one and the one m further differ
  // in their quotient by m but not by the block size.
  lemma FirstAndNext(q: nat, m: nat, k: nat, size: nat)
    requires m >= 1 && k >= 2 && size == m * k
    ensures m < size
    ensures q * size / size == q && (q * size + m) / size == q
    ensures (q * size + m) / m == q * size / m + 1
  {
    ProductAtLeast(1, k, m);
    assert k * m == size;
    QuotientIs(q * size, size, q, 0);
    QuotientIs(q * size + m, size, q, m);
    assert q * size == (q * k) * m;
    QuotientIs(q * size, m, q * k, 0);
    assert (q * k + 1) * m == (q * k) * m + m;
    QuotientIs(q * size + m, m, q * k + 1, 0);
  }

  lemma BoundaryInside(x: nat, m: nat, k: nat, size: nat)
    requires m >= 1 && k >= 2 && size == m * k && size >= 1
    ensures m < size
    ensures (x / size * size + m) / m == x / size * size / m + 1
  {
    var q := x / size;
    FirstAndNext(q, m, k, size);
  }
}
