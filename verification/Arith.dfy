/** Facts about products, quotients and remainders that the other modules need. */
module Arith {

  lemma Multiple(m: int, e: int)
    requires m > 0
    ensures e >= 1 ==> m * e >= m && m * e >= e
    ensures e <= -1 ==> m * e <= -m
    ensures e == 0 ==> m * e == 0
  {
  }

  lemma DivShrinks(d: nat, p: nat)
    requires p > 0
    ensures 0 <= d / p <= d
  {
    assert d == p * (d / p) + d % p;
    Multiple(p, d / p);
  }

  lemma SplitDigit(d: nat, p: nat)
    requires p > 0
    ensures d % (256 * p) == d % 256 + 256 * ((d / 256) % p)
  {
    var q, b := d / 256, d % 256;
    var x, y := q / p, q % p;
    assert d == 256 * q + b && q == p * x + y;
    assert d == (256 * p) * x + (256 * y + b) by {
      assert 256 * (p * x + y) == (256 * p) * x + 256 * y;
    }
    Remainder(d, 256 * p, x, 256 * y + b);
  }

  lemma Remainder(d: int, m: nat, x: int, r: int)
    requires m > 0 && d == m * x + r && 0 <= r < m
    ensures d % m == r && d / m == x
  {
    var e := d / m - x;
    assert m * e == r - d % m by {
      assert d == m * (d / m) + d % m;
      assert m * e == m * (d / m) - m * x;
    }
    Multiple(m, e);
  }

  lemma Regroup(p: nat, x: nat, y: nat)
    requires y < 256
    ensures p * (256 * x + y) == (256 * p) * x + p * y
    ensures 0 <= p * y <= p * 255
  {
    assert p * (255 - y) >= 0;
  }

  lemma DivTwiceAt(d: nat, p: nat, q: nat, r: nat)
    requires p > 0 && r < p && d == p * q + r
    ensures d / (256 * p) == q / 256
  {
    Regroup(p, q / 256, q % 256);
    Remainder(d, 256 * p, q / 256, p * (q % 256) + r);
  }

  lemma DivTwice(d: nat, p: nat)
    requires p > 0
    ensures d / (256 * p) == (d / p) / 256
  {
    var q, r := d / p, d % p;
    assert d == p * q + r;
    DivShrinks(d, p);
    DivTwiceAt(d, p, q, r);
  }

  lemma Dist(a: int, b: int, c: int)
    ensures (a + b) * c == a * c + b * c
  {
  }

  lemma DistSub(a: int, b: int, c: int)
    ensures (a - b) * c == a * c - b * c
  {
  }

  lemma Assoc(a: int, b: int, c: int)
    ensures (a * b) * c == a * (b * c)
  {
  }

  lemma Comm(a: int, b: int)
    ensures a * b == b * a
  {
  }

  lemma Nonneg(a: int, b: int)
    requires a >= 0 && b >= 0
    ensures a * b >= 0
  {
  }

  /** Quotient and remainder, as an equation without division. */
  lemma Divided(x: nat, p: nat) returns (h: nat, l: nat)
    requires p > 0
    ensures x == h * p + l && l < p && h == x / p && l == x % p
  {
    h, l := x / p, x % p;
    assert x == p * (x / p) + x % p;
    Comm(p, h);
  }

  lemma DivModIs(x: int, p: nat, h: int, l: int)
    requires p > 0 && x == h * p + l && 0 <= l < p
    ensures x / p == h && x % p == l
  {
    Comm(h, p);
    Remainder(x, p, h, l);
  }

  /** `l * c` stays below `p * c` by at least `c`. */
  lemma BoundedProduct(l: nat, p: nat, c: nat)
    requires l < p
    ensures 0 <= l * c <= p * c - c
  {
    Nonneg(l, c);
    Nonneg(p - 1 - l, c);
    DistSub(p - 1, l, c);
    DistSub(p, 1, c);
  }
}
