/** Bitwise operations on natural numbers, and what they are in arithmetic. */
module Bits {
  import opened Arith

  function Pow2(k: nat): (p: nat)
    ensures p > 0
  {
    if k == 0 then 1 else 2 * Pow2(k - 1)
  }

  function And(x: nat, y: nat): (r: nat)
    decreases x
  {
    if x == 0 || y == 0 then 0 else (x % 2) * (y % 2) + 2 * And(x / 2, y / 2)
  }

  function Or(x: nat, y: nat): (r: nat)
    decreases x + y
  {
    if x == 0 then y else if y == 0 then x
    else (if x % 2 == 1 || y % 2 == 1 then 1 else 0) + 2 * Or(x / 2, y / 2)
  }

  lemma {:induction false} Pow2Add(a: nat, b: nat)
    ensures Pow2(a + b) == Pow2(a) * Pow2(b)
  {
    if a > 0 {
      Pow2Add(a - 1, b);
      assert Pow2(a + b) == 2 * Pow2(a - 1 + b);
      assert Pow2(a) * Pow2(b) == 2 * (Pow2(a - 1) * Pow2(b));
    }
  }

  lemma {:induction false} Pow2Monotone(a: nat, b: nat)
    requires a <= b
    ensures Pow2(a) <= Pow2(b)
  {
    if a < b { Pow2Monotone(a, b - 1); }
  }

  lemma Pow2Halves(k: nat, y: nat)
    requires k > 0
    ensures Pow2(k) % 2 == 0 && Pow2(k) / 2 == Pow2(k - 1)
    ensures y < Pow2(k) ==> y / 2 < Pow2(k - 1)
  {
    var p := Pow2(k - 1);
    assert Pow2(k) == 2 * p;
    HalfBelow(p, y);
  }

  lemma HalfBelow(p: nat, y: nat)
    ensures (2 * p) % 2 == 0 && (2 * p) / 2 == p && (y < 2 * p ==> y / 2 < p)
  {
  }

  lemma AndOdd(x: nat, y: nat)
    requires y % 2 == 1
    ensures And(x, y) == x % 2 + 2 * And(x / 2, y / 2)
  {
  }

  /** Clearing all but the low `k` bits is the remainder. */
  lemma {:induction false} LowMask(x: nat, k: nat)
    ensures And(x, Pow2(k) - 1) == x % Pow2(k)
    decreases k
  {
    if k == 0 {
      assert Pow2(0) == 1 && And(x, 0) == 0;
    } else {
      var p := Pow2(k - 1);
      MaskHalves(p);
      AndOdd(x, 2 * p - 1);
      LowMask(x / 2, k - 1);
      ModHalves(x, p);
    }
  }

  lemma MaskHalves(p: nat)
    requires p > 0
    ensures (2 * p - 1) / 2 == p - 1 && (2 * p - 1) % 2 == 1
  {
  }

  lemma ModHalves(x: nat, p: nat)
    requires p > 0
    ensures x % (2 * p) == x % 2 + 2 * ((x / 2) % p)
  {
    var q, b := x / 2, x % 2;
    assert q == p * (q / p) + q % p;
    assert x == (2 * p) * (q / p) + (2 * (q % p) + b) by {
      assert 2 * (p * (q / p)) == (2 * p) * (q / p);
    }
    Remainder(x, 2 * p, q / p, 2 * (q % p) + b);
  }

  /** Numbers without common bits: or is addition. */
  lemma {:induction false} OrDisjoint(x: nat, y: nat, k: nat)
    requires x % Pow2(k) == 0 && y < Pow2(k)
    ensures Or(x, y) == x + y
    decreases k
  {
    if k > 0 && x > 0 && y > 0 {
      ModHalves(x, Pow2(k - 1));
      Pow2Halves(k, y);
      OrDisjoint(x / 2, y / 2, k - 1);
    }
  }

  ghost predicate PowerOf2(x: nat) { exists c: nat :: x == Pow2(c) }

  /** The test `x & (x - 1) == 0`. */
  lemma {:induction false} PowerTest(x: nat) returns (c: nat)
    requires x > 0
    ensures And(x, x - 1) == 0 ==> x == Pow2(c)
    ensures And(x, x - 1) != 0 ==> !PowerOf2(x)
    decreases x
  {
    c := 0;
    if x > 1 {
      if x % 2 == 0 {
        assert (x - 1) / 2 == x / 2 - 1;
        var d := PowerTest(x / 2);
        c := d + 1;
        if And(x, x - 1) != 0 { EvenNotPower(x); }
      } else {
        assert (x - 1) / 2 == x / 2;
        AndSelf(x / 2);
        OddNotPower(x);
        c := 0;
      }
    }
  }

  lemma {:induction false} AndSelf(x: nat)
    ensures And(x, x) == x
    decreases x
  {
    if x > 0 { AndSelf(x / 2); }
  }

  lemma OddNotPower(x: nat)
    requires x > 1 && x % 2 == 1
    ensures !PowerOf2(x)
  {
    forall c: nat ensures x != Pow2(c) {
      if c > 0 { Pow2Halves(c, 0); }
    }
  }

  lemma EvenNotPower(x: nat)
    requires x > 1 && x % 2 == 0 && !PowerOf2(x / 2)
    ensures !PowerOf2(x)
  {
    forall c: nat ensures x != Pow2(c) {
      if c > 0 { Pow2Halves(c, 0); assert x / 2 != Pow2(c - 1); }
    }
  }

  // --------------------------------------------------------------- bit by bit

  predicate Bit(x: nat, k: nat) { (x / Pow2(k)) % 2 == 1 }

  lemma BitHalf(x: nat, k: nat)
    requires k > 0
    ensures Bit(x, k) == Bit(x / 2, k - 1)
  {
    var p := Pow2(k - 1);
    var h, b := x / 2, x % 2;
    var q, r := h / p, h % p;
    assert x == 2 * h + b && h == p * q + r;
    assert 2 * (p * q) == (2 * p) * q;
    Remainder(x, 2 * p, q, 2 * r + b);
  }

  lemma BitZero(x: nat)
    ensures Bit(x, 0) == (x % 2 == 1)
  {
    assert Pow2(0) == 1 && x / 1 == x;
  }

  /** The lowest bit of the conjunction. */
  function LowBoth(x: nat, y: nat): nat { if x % 2 == 1 && y % 2 == 1 then 1 else 0 }

  lemma LowProduct(a: nat, b: nat)
    requires a < 2 && b < 2
    ensures a * b == if a == 1 && b == 1 then 1 else 0
  {
    if a == 1 { assert a * b == b; } else { assert a * b == 0; }
  }

  lemma AndHalves(x: nat, y: nat)
    ensures And(x, y) == LowBoth(x, y) + 2 * And(x / 2, y / 2)
  {
    LowProduct(x % 2, y % 2);
    if x == 0 || y == 0 { assert And(x, y) == 0 && And(x / 2, y / 2) == 0; }
  }

  lemma {:induction false} AndBelow(x: nat, y: nat)
    ensures And(x, y) <= x && And(x, y) <= y
    decreases x
  {
    if x != 0 {
      AndHalves(x, y);
      AndBelow(x / 2, y / 2);
    }
  }

  lemma {:induction false} AndBits(x: nat, y: nat, k: nat)
    ensures Bit(And(x, y), k) <==> Bit(x, k) && Bit(y, k)
    decreases k
  {
    AndHalves(x, y);
    Halves(And(x, y), And(x / 2, y / 2), LowBoth(x, y));
    if k == 0 {
      BitZero(x);
      BitZero(y);
      BitZero(And(x, y));
    } else {
      BitHalf(x, k);
      BitHalf(y, k);
      BitHalf(And(x, y), k);
      AndBits(x / 2, y / 2, k - 1);
    }
  }

  lemma Halves(s: nat, h: nat, b: nat)
    requires s == b + 2 * h && b < 2
    ensures s / 2 == h && s % 2 == b
  {
  }

  /** The sum without the common bits is the inclusive or; without them twice, the exclusive or. */
  lemma SumHalves(x: nat, y: nat, s: nat, h: nat)
    requires And(x, y) <= x + y && s == x + y - And(x, y)
    requires And(x / 2, y / 2) <= x / 2 + y / 2 && h == x / 2 + y / 2 - And(x / 2, y / 2)
    ensures s / 2 == h && (s % 2 == 1 <==> x % 2 == 1 || y % 2 == 1)
  {
    AndHalves(x, y);
    Halves(s, h, x % 2 + y % 2 - LowBoth(x, y));
  }

  lemma {:induction false} OrBits(x: nat, y: nat, s: nat, k: nat)
    requires And(x, y) <= x + y && s == x + y - And(x, y)
    ensures Bit(s, k) <==> Bit(x, k) || Bit(y, k)
    decreases k
  {
    AndBelow(x / 2, y / 2);
    var h := x / 2 + y / 2 - And(x / 2, y / 2);
    SumHalves(x, y, s, h);
    if k == 0 {
      BitZero(x);
      BitZero(y);
      BitZero(s);
    } else {
      BitHalf(x, k);
      BitHalf(y, k);
      BitHalf(s, k);
      OrBits(x / 2, y / 2, h, k - 1);
    }
  }

  lemma DifferenceHalves(x: nat, y: nat, s: nat, h: nat)
    requires 2 * And(x, y) <= x + y && s == x + y - 2 * And(x, y)
    requires 2 * And(x / 2, y / 2) <= x / 2 + y / 2 && h == x / 2 + y / 2 - 2 * And(x / 2, y / 2)
    ensures s / 2 == h && (s % 2 == 1 <==> x % 2 != y % 2)
  {
    AndHalves(x, y);
    Halves(s, h, x % 2 + y % 2 - 2 * LowBoth(x, y));
  }

  lemma {:induction false} XorBits(x: nat, y: nat, s: nat, k: nat)
    requires 2 * And(x, y) <= x + y && s == x + y - 2 * And(x, y)
    ensures Bit(s, k) <==> Bit(x, k) != Bit(y, k)
    decreases k
  {
    AndBelow(x / 2, y / 2);
    var h := x / 2 + y / 2 - 2 * And(x / 2, y / 2);
    DifferenceHalves(x, y, s, h);
    if k == 0 {
      BitZero(x);
      BitZero(y);
      BitZero(s);
    } else {
      BitHalf(x, k);
      BitHalf(y, k);
      BitHalf(s, k);
      XorBits(x / 2, y / 2, h, k - 1);
    }
  }

  lemma {:induction false} OrBelow(x: nat, y: nat, n: nat)
    requires x < Pow2(n) && y < Pow2(n)
    ensures x + y - And(x, y) < Pow2(n)
    decreases n
  {
    if n > 0 {
      Pow2Halves(n, x);
      Pow2Halves(n, y);
      OrBelow(x / 2, y / 2, n - 1);
      AndBelow(x, y);
      AndBelow(x / 2, y / 2);
      SumHalves(x, y, x + y - And(x, y), x / 2 + y / 2 - And(x / 2, y / 2));
    }
  }
}
