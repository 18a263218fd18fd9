/**
 64-bit division out of 32-bit halves: the special cases and the branch-free shift-subtract loop, for
 every dividend and every nonzero divisor, and the signed wrappers.
 */
module Division {
  import opened Arith
  import opened Bits

  const W32: int := 0x1_0000_0000
  const W64: int := 0x1_0000_0000_0000_0000
  const HALF64: int := 0x8000_0000_0000_0000

  type Su = x: int | 0 <= x < W32
  type Du = x: int | 0 <= x < W64
  type Di = x: int | -HALF64 <= x < HALF64

  function Whole(h: Su, l: Su): Du { h * W32 + l }

  function High(x: Du): Su { x / W32 }

  function Low(x: Du): Su { x % W32 }

  function Shl(x: Su, k: nat): Su { (x * Pow2(k)) % W32 }

  function Shr(x: Su, k: nat): Su {
    DivShrinks(x, Pow2(k));
    x / Pow2(k)
  }

  lemma Pow2Of32()
    ensures Pow2(8) == 256 && Pow2(16) == 65536 && Pow2(31) == 0x8000_0000 && Pow2(32) == W32 && Pow2(64) == W64
    ensures Pow2(63) == HALF64
  {
    assert Pow2(8) == 256;
    Pow2Add(8, 8);
    Pow2Add(16, 16);
    Pow2Add(32, 32);
    assert Pow2(32) == 2 * Pow2(31);
    assert Pow2(64) == 2 * Pow2(63);
  }

  // ------------------------------------------------------ shifting in halves

  lemma SplitProduct(x: nat, p: nat, c: nat, h: nat, l: nat)
    requires x == h * p + l && l < p && c > 0 && p * c == W32
    ensures x * c == h * W32 + l * c && 0 <= l * c < W32
    ensures (x * c) % W32 == l * c
  {
    Dist(h * p, l, c);
    Assoc(h, p, c);
    BoundedProduct(l, p, c);
    DivModIs(x * c, W32, h, l * c);
  }

  /** A shift left by `32 - s` splits a word into what leaves at the top and what stays. */
  lemma SplitShift(x: Su, s: nat)
    requires s <= 32
    ensures x * Pow2(32 - s) == Shr(x, s) * W32 + (x % Pow2(s)) * Pow2(32 - s)
    ensures 0 <= (x % Pow2(s)) * Pow2(32 - s) < W32
    ensures Shl(x, 32 - s) == (x % Pow2(s)) * Pow2(32 - s)
  {
    Pow2Of32();
    Pow2Add(s, 32 - s);
    var h, l := Divided(x, Pow2(s));
    SplitProduct(x, Pow2(s), Pow2(32 - s), h, l);
  }

  lemma QuotientBound(x: nat, p: nat, c: nat)
    requires p > 0 && x < p * c
    ensures x / p < c
  {
    var h, l := Divided(x, p);
    Comm(p, c);
    DistSub(h, c, p);
    Multiple(p, h - c);
    Comm(p, h - c);
  }

  /** `c` divides `l * c`, and a smaller number can be or-ed in below. */
  lemma OrBelow(l: nat, y: nat, k: nat)
    requires y < Pow2(k)
    ensures Or(l * Pow2(k), y) == l * Pow2(k) + y
  {
    Nonneg(l, Pow2(k));
    DivModIs(l * Pow2(k), Pow2(k), l, 0);
    OrDisjoint(l * Pow2(k), y, k);
  }

  lemma OrAt(l: nat, p: nat, k: nat, y: nat)
    requires l < p && y < Pow2(k) && p * Pow2(k) == W32
    ensures Or(l * Pow2(k), y) == l * Pow2(k) + y < W32
  {
    OrBelow(l, y, k);
    BoundedProduct(l, p, Pow2(k));
  }

  lemma HighBound(nl: Su, s: nat)
    requires s <= 32
    ensures Pow2(s) * Pow2(32 - s) == W32 && Shr(nl, s) < Pow2(32 - s)
  {
    Pow2Of32();
    Pow2Add(s, 32 - s);
    QuotientBound(nl, Pow2(s), Pow2(32 - s));
  }

  lemma ShlIs(x: Su, s: nat) returns (l: nat)
    requires s <= 32
    ensures l < Pow2(s) && Shl(x, 32 - s) == l * Pow2(32 - s)
  {
    SplitShift(x, s);
    var h;
    h, l := Divided(x, Pow2(s));
  }

  lemma ShiftOr(nh: Su, nl: Su, s: nat)
    requires 1 <= s <= 31
    ensures Or(Shl(nh, 32 - s), Shr(nl, s)) == Shl(nh, 32 - s) + Shr(nl, s) < W32
  {
    var l := ShlIs(nh, s);
    HighBound(nl, s);
    OrAt(l, Pow2(s), 32 - s, Shr(nl, s));
  }

  lemma SmallDivAt(nh: nat, nl: nat, p: nat, c: nat, h: nat, l: nat)
    requires nl == h * p + l && l < p && c > 0 && p * c == W32
    ensures nh * W32 + nl == (nh * c + h) * p + l
  {
    Comm(p, c);
    Assoc(nh, c, p);
    Dist(nh * c, h, p);
  }

  lemma SmallDiv(nh: Su, nl: Su, s: nat)
    requires 1 <= s <= 32
    ensures Whole(nh, nl) / Pow2(s) == nh * Pow2(32 - s) + nl / Pow2(s)
    ensures Whole(nh, nl) % Pow2(s) == nl % Pow2(s)
  {
    Pow2Of32();
    Pow2Add(s, 32 - s);
    var h, l := Divided(nl, Pow2(s));
    SmallDivAt(nh, nl, Pow2(s), Pow2(32 - s), h, l);
    DivModIs(Whole(nh, nl), Pow2(s), nh * Pow2(32 - s) + h, l);
  }

  /** `r = n >> s` and `q = n << (64 - s)`, for `n` in two halves and `1 <= s <= 31`. */
  lemma SmallShift(nh: Su, nl: Su, s: nat)
    requires 1 <= s <= 31
    ensures var lo := Or(Shl(nh, 32 - s), Shr(nl, s));
      lo < W32 && Whole(Shr(nh, s), lo) == Whole(nh, nl) / Pow2(s)
    ensures Whole(Shl(nl, 32 - s), 0) == (Whole(nh, nl) % Pow2(s)) * Pow2(64 - s)
  {
    SplitShift(nh, s);
    SplitShift(nl, s);
    Pow2Of32();
    Pow2Add(32 - s, 32);
    Assoc(nl % Pow2(s), Pow2(32 - s), W32);
    ShiftOr(nh, nl, s);
    SmallDiv(nh, nl, s);
  }

  /** The same for `s == 32`. */
  lemma MiddleShift(nh: Su, nl: Su)
    ensures nh == Whole(nh, nl) / Pow2(32) && Whole(nl, 0) == (Whole(nh, nl) % Pow2(32)) * Pow2(64 - 32)
  {
    Pow2Of32();
  }

  lemma LargeAt(nh: nat, nl: nat, p: nat, c: nat, h: nat, l: nat)
    requires nh == h * p + l && l < p && nl < W32 && c > 0
    ensures nh * W32 + nl == h * (W32 * p) + (l * W32 + nl) && 0 <= l * W32 + nl < W32 * p
    ensures (l * W32 + nl) * c == (l * c) * W32 + nl * c
  {
    Dist(h * p, l, W32);
    Assoc(h, p, W32);
    BoundedProduct(l, p, W32);
    Dist(l * W32, nl, c);
  }

  /** The same for `33 <= s <= 63`, with `u = s - 32`. */
  lemma LargeShift(nh: Su, nl: Su, u: nat)
    requires 1 <= u <= 31
    ensures Shr(nh, u) == Whole(nh, nl) / Pow2(32 + u)
    ensures var hi := Or(Shl(nh, 32 - u), Shr(nl, u));
      hi < W32 && Whole(hi, Shl(nl, 32 - u)) == (Whole(nh, nl) % Pow2(32 + u)) * Pow2(32 - u)
  {
    Pow2Of32();
    Pow2Add(32, u);
    var h, l := Divided(nh, Pow2(u));
    LargeAt(nh, nl, Pow2(u), Pow2(32 - u), h, l);
    DivModIs(Whole(nh, nl), W32 * Pow2(u), h, l * W32 + nl);
    ShiftOr(nh, nl, u);
    SplitShift(nh, u);
    SplitShift(nl, u);
  }

  // ------------------------------------------------------------------ the loop

  /** The remainder and quotient registers after `s` bits of `n` are still to be brought down. */
  ghost predicate Loaded(n: Du, s: nat, q: int, r: int) {
    s <= 64 && r == n / Pow2(s) && q == (n % Pow2(s)) * Pow2(64 - s)
  }

  /** With `k` bits of `n` still to come, `Q` is the quotient of the others. */
  ghost predicate Partial(n: nat, d: nat, k: nat, q: int, r: int, carry: int, Q: nat) {
    && k <= 64 && 0 <= r < d && n / Pow2(k) == Q * d + r
    && q == (n % Pow2(k)) * Pow2(64 - k) + Q / 2 && carry == Q % 2
  }

  /** One half after a shift left by one that brings in `bit`. */
  function ShlIn(x: Su, bit: int): Su
    requires 0 <= bit <= 1
  {
    Or((2 * x) % W32, bit) % W32
  }

  function Top(x: Su): (b: int)
    ensures 0 <= b <= 1
  {
    x / 0x8000_0000
  }

  lemma ShlInIs(x: Su, bit: int)
    requires 0 <= bit <= 1
    ensures ShlIn(x, bit) == (2 * x + bit) % W32 == 2 * x + bit - Top(x) * W32
  {
    assert (2 * x) % W32 == 2 * x - Top(x) * W32;
    OrDisjoint((2 * x) % W32, bit, 1);
  }

  /** Shifting the two halves is shifting the whole. */
  lemma HalvesShift(h: Su, l: Su, bit: int)
    requires 0 <= bit <= 1
    ensures Whole(ShlIn(h, Top(l)), ShlIn(l, bit)) == 2 * Whole(h, l) + bit - Top(h) * W64
    ensures Top(h) == Whole(h, l) / HALF64
  {
    ShlInIs(h, Top(l));
    ShlInIs(l, bit);
  }

  /** The branch-free comparison: all ones if `r >= d`, provided the two are less than half apart. */
  function Sign(d: Du, r: Du): int { if (d - r - 1) % W64 >= HALF64 then -1 else 0 }

  lemma SignCompares(d: Du, r: Du)
    requires r >= d ==> r - d < HALF64
    requires r < d ==> d - r <= HALF64
    ensures Sign(d, r) == if r >= d then -1 else 0
  {
    if r >= d {
      assert (d - r - 1) % W64 == d - r - 1 + W64;
    } else {
      assert (d - r - 1) % W64 == d - r - 1;
    }
  }

  /** The next bit of `n`. */
  lemma NextBit(n: nat, k: nat) returns (bit: int)
    requires k > 0
    ensures 0 <= bit <= 1
    ensures n / Pow2(k - 1) == 2 * (n / Pow2(k)) + bit
    ensures n % Pow2(k) == bit * Pow2(k - 1) + n % Pow2(k - 1)
  {
    var p := Pow2(k - 1);
    var h, l := Divided(n, 2 * p);
    var b, m := Divided(l, p);
    BitBound(b, m, p);
    bit := b;
    Dist(2 * h, b, p);
    Assoc(h, 2, p);
    Assoc(2, h, p);
    DivModIs(n, p, 2 * h + b, m);
  }

  lemma BitBound(b: nat, m: nat, p: nat)
    requires b * p + m < 2 * p
    ensures b <= 1
  {
    DistSub(b, 2, p);
    Multiple(p, b - 2);
    Comm(p, b - 2);
  }

  /** What the shifted quotient register holds. */
  lemma QuotientShifts(n: nat, k: nat, bit: int, Q: nat)
    requires 0 < k <= 64 && 0 <= bit <= 1 && n % Pow2(k) == bit * Pow2(k - 1) + n % Pow2(k - 1)
    ensures 2 * ((n % Pow2(k)) * Pow2(64 - k)) == bit * W64 + (n % Pow2(k - 1)) * Pow2(65 - k)
  {
    Pow2Of32();
    Pow2Add(k - 1, 65 - k);
    var p, c, m := Pow2(k - 1), Pow2(64 - k), n % Pow2(k - 1);
    assert Pow2(65 - k) == 2 * c;
    Dist(bit * p, m, 2 * c);
    Assoc(bit, p, 2 * c);
    Assoc(2, n % Pow2(k), c);
    Comm(2, n % Pow2(k));
    Assoc(n % Pow2(k), 2, c);
  }

  /** The partial quotient is small. */
  lemma QuotientSmall(n: Du, d: nat, k: nat, r: nat, Q: nat)
    requires k <= 64 && d > 0 && n / Pow2(k) == Q * d + r
    ensures Q < Pow2(64 - k)
  {
    Pow2Of32();
    Pow2Add(k, 64 - k);
    QuotientBound(n, Pow2(k), Pow2(64 - k));
    Multiple(d, Q);
    Comm(d, Q);
  }

  /** The top bit of the quotient register is the next bit of `n`. */
  lemma TopBit(n: Du, k: nat, bit: int, h: nat, q: int)
    requires 0 < k <= 64 && 0 <= bit <= 1 && n % Pow2(k) == bit * Pow2(k - 1) + n % Pow2(k - 1)
    requires h < Pow2(64 - k) && q == (n % Pow2(k)) * Pow2(64 - k) + h
    ensures q / HALF64 == bit
  {
    Pow2Of32();
    Pow2Add(k - 1, 64 - k);
    var p, c := Pow2(k - 1), Pow2(64 - k);
    var x, m := Divided(n, p);
    Dist(bit * p, m, c);
    Assoc(bit, p, c);
    BoundedProduct(m, p, c);
    DivModIs(q, HALF64, bit, m * c + h);
  }

  /** One round: shift the next bit in, subtract the divisor if it fits. */
  lemma RoundKeeps(n: Du, d: Du, k: nat, q: int, r: int, carry: int, Q: nat) returns (bit: int)
    requires 0 < k && Partial(n, d, k, q, r, carry, Q)
    ensures 0 <= bit <= 1 && bit == q / HALF64 && 0 <= 2 * r + bit < W64
    ensures var r2 := 2 * r + bit;
      var c := if r2 >= d then 1 else 0;
      Partial(n, d, k - 1, 2 * q + carry - bit * W64, r2 - c * d, c, 2 * Q + c)
  {
    bit := NextBit(n, k);
    QuotientSmall(n, d, k, r, Q);
    TopBit(n, k, bit, Q / 2, q);
    QuotientShifts(n, k, bit, Q);
    var r2 := 2 * r + bit;
    Nonneg(Q, d);
    Shrinks(n, k - 1);
    Dist(Q, Q, d);
    Dist(2 * Q, if r2 >= d then 1 else 0, d);
  }

  lemma Shrinks(n: Du, k: nat)
    ensures 0 <= n / Pow2(k) <= n
  {
    DivShrinks(n, Pow2(k));
  }

  /** The comparison sees operands less than half apart. */
  lemma CompareApart(n: Du, d: Du, k: nat, q: int, r: int, carry: int, Q: nat, bit: int)
    requires 0 < k && Partial(n, d, k, q, r, carry, Q) && 0 <= bit <= 1 && bit == q / HALF64 && 0 <= 2 * r + bit < W64
    requires d > HALF64 ==> k == 1 && n >= HALF64
    ensures var r2 := 2 * r + bit;
      (r2 >= d ==> r2 - d < HALF64) && (r2 < d ==> d - r2 <= HALF64)
  {
    if d > HALF64 {
      var b := NextBit(n, 1);
      QuotientSmall(n, d, 1, r, Q);
      TopBit(n, 1, b, Q / 2, q);
      ZeroQuotient(n / Pow2(1), d, Q, r);
      assert Pow2(0) == 1 && n / 1 == n;
    }
  }

  lemma ZeroQuotient(x: nat, d: nat, Q: nat, r: nat)
    requires x == Q * d + r && x < d
    ensures Q == 0 && r == x
  {
    Multiple(d, Q);
    Comm(d, Q);
  }

  /** Subtract the divisor if it fits, without a branch on the comparison. */
  method Subtract(d: Du, r: Du) returns (rest: Du, carry: int)
    requires (r >= d ==> r - d < HALF64) && (r < d ==> d - r <= HALF64)
    ensures carry == (if r >= d then 1 else 0) && rest == r - carry * d
  {
    SignCompares(d, r);
    var sign := Sign(d, r);
    carry := -sign;
    rest := r - (if sign == -1 then d else 0);
  }

  /** `r:q = ((r:q) << 1) | carry`, in halves. */
  method ShiftPair(q: Du, r: Du, carry: int) returns (q': Du, r': Du)
    requires 0 <= carry <= 1
    ensures q' == 2 * q + carry - (q / HALF64) * W64
    ensures r' == 2 * r + q / HALF64 - (r / HALF64) * W64
  {
    var qh, ql, rh, rl := High(q), Low(q), High(r), Low(r);
    HalvesShift(qh, ql, carry);
    HalvesShift(rh, rl, Top(qh));
    q' := Whole(ShlIn(qh, Top(ql)), ShlIn(ql, carry));
    r' := Whole(ShlIn(rh, Top(rl)), ShlIn(rl, Top(qh)));
  }

  lemma FitsShifted(r: Du, bit: int)
    requires 0 <= bit <= 1 && 2 * r + bit < W64
    ensures r / HALF64 == 0
  {
  }

  /** One round: shift, compare, subtract. */
  method Round(n: Du, d: Du, k: nat, q: Du, r: Du, carry: int, ghost Q: nat) returns (q': Du, r': Du, carry': int)
    requires 0 < k && 0 <= carry <= 1 && Partial(n, d, k, q, r, carry, Q)
    requires d > HALF64 ==> k == 1 && n >= HALF64
    ensures 0 <= carry' <= 1 && Partial(n, d, k - 1, q', r', carry', 2 * Q + carry')
  {
    ghost var bit := RoundKeeps(n, d, k, q, r, carry, Q);
    CompareApart(n, d, k, q, r, carry, Q, bit);
    FitsShifted(r, bit);
    q', r' := ShiftPair(q, r, carry);
    r', carry' := Subtract(d, r');
  }

  /** The shift-subtract loop. */
  method ShiftSubtract(n: Du, d: Du, s: nat, q0: Du, r0: Du) returns (q: Du, r: Du)
    requires 1 <= s <= 63 && Loaded(n, s, q0, r0) && r0 < d
    requires d > HALF64 ==> s == 1 && n >= HALF64
    ensures q * d + r == n && r < d
  {
    var sr, carry := s, 0;
    q, r := q0, r0;
    ghost var Q: nat := 0;
    while sr > 0
      invariant 0 <= sr <= s
      invariant 0 <= carry <= 1 && Partial(n, d, sr, q, r, carry, Q)
      invariant d > HALF64 && sr > 0 ==> sr == 1 && n >= HALF64
    {
      q, r, carry := Round(n, d, sr, q, r, carry, Q);
      Q := 2 * Q + carry;
      sr := sr - 1;
    }
    Finish(n, d, q, r, carry, Q);
    q := 2 * q + carry;
  }

  lemma Finish(n: Du, d: nat, q: int, r: int, carry: int, Q: nat)
    requires Partial(n, d, 0, q, r, carry, Q)
    ensures 2 * q + carry == Q < W64 && Q * d + r == n
  {
    assert Pow2(0) == 1 && n / 1 == n && n % 1 == 0;
    QuotientSmall(n, d, 0, r, Q);
    Pow2Of32();
  }

  // ----------------------------------------------------------- counting zeros

  /** Shifting up and down one bit at a time. */
  function Up(m: nat, k: nat): nat { if k == 0 then m else 2 * Up(m, k - 1) }

  function Down(x: nat, k: nat): nat { if k == 0 then x else Down(x / 2, k - 1) }

  lemma {:induction false} UpZero(m: nat, k: nat)
    ensures Up(m, k) == 0 <==> m == 0
  {
    if k > 0 { UpZero(m, k - 1); }
  }

  lemma {:induction false} DownDivides(x: nat, k: nat)
    ensures Down(x, k) == x / Pow2(k)
  {
    if k > 0 {
      DownDivides(x / 2, k - 1);
      HalveTwice(x, Pow2(k - 1));
    }
  }

  lemma AndEven(x: nat, y: nat)
    ensures And(x, 2 * y) == 2 * And(x / 2, y)
  {
    assert (2 * y) % 2 == 0 && (2 * y) / 2 == y;
    assert (x % 2) * 0 == 0;
  }

  lemma {:induction false} AndShifted(x: nat, m: nat, k: nat)
    ensures And(x, Up(m, k)) == Up(And(Down(x, k), m), k)
    decreases k
  {
    if k > 0 {
      AndShifted(x / 2, m, k - 1);
      AndEven(x, Up(m, k - 1));
    }
  }

  lemma HalveTwice(x: nat, p: nat)
    requires p > 0
    ensures x / 2 / p == x / (2 * p)
  {
    ModHalves(x, p);
    var h, l := Divided(x, 2 * p);
    Assoc(h, 2, p);
    Comm(h, 2);
    Assoc(2, h, p);
    assert x / 2 == h * p + l / 2;
    DivModIs(x / 2, p, h, l / 2);
  }

  /** Testing the upper half of a number of `2 * h` bits. */
  lemma HighMask(x: nat, h: nat)
    requires x < Pow2(h) * Pow2(h)
    ensures And(x, Up(Pow2(h) - 1, h)) == 0 <==> x < Pow2(h)
  {
    AndShifted(x, Pow2(h) - 1, h);
    DownDivides(x, h);
    var q, l := Divided(x, Pow2(h));
    QuotientBound(x, Pow2(h), Pow2(h));
    LowMask(q, h);
    DivModIs(q, Pow2(h), 0, q);
    UpZero(q, h);
    if q > 0 { Multiple(Pow2(h), q); Comm(q, Pow2(h)); }
  }

  /** `r` leading zeros: the number is between two powers of two. */
  ghost predicate LeadingZeros(a: nat, r: nat) { r <= 31 && Pow2(31 - r) <= a < Pow2(32 - r) }

  /** After dropping zeros, the `m` bits from the top of what is left. */
  ghost predicate Window(a: nat, r: nat, m: nat, x: nat) {
    r + m <= 32 && x == a / Pow2(32 - r - m) && 0 < x < Pow2(m)
  }

  /** One halving step of the count. */
  method NarrowHigh(ghost a: nat, x: nat, r: nat, ghost m: nat, h: nat, mask: nat) returns (x': nat, r': nat)
    requires m == 2 * h && h > 0 && mask == Up(Pow2(h) - 1, h) && Window(a, r, m, x)
    ensures Window(a, r', h, x')
  {
    Pow2Add(h, h);
    HighMask(x, h);
    var t := if And(x, mask) == 0 then h else 0;
    if t == 0 {
      NarrowDivides(a, r, h);
      QuotientBound(x, Pow2(h), Pow2(h));
      NarrowPositive(x, Pow2(h));
    } else {
      assert x / Pow2(0) == x;
    }
    x' := x / Pow2(h - t);
    r' := r + t;
  }

  lemma NarrowDivides(a: nat, r: nat, h: nat)
    requires r + 2 * h <= 32
    ensures a / Pow2(32 - r - 2 * h) / Pow2(h) == a / Pow2(32 - r - h)
  {
    Pow2Add(32 - r - 2 * h, h);
    DivDiv(a, Pow2(32 - r - 2 * h), Pow2(h));
  }

  lemma DivDiv(x: nat, p: nat, q: nat)
    requires p > 0 && q > 0
    ensures p * q > 0 && x / p / q == x / (p * q)
  {
    var h, l := Divided(x, p);
    var u, v := Divided(h, q);
    DivDivAt(x, p, q, l, u, v);
  }

  lemma DivDivAt(x: nat, p: nat, q: nat, l: nat, u: nat, v: nat)
    requires p > 0 && q > 0 && x == (u * q + v) * p + l && l < p && v < q
    ensures p * q > 0 && x / (p * q) == u
  {
    Multiple(p, q);
    Dist(u * q, v, p);
    Assoc(u, q, p);
    Comm(q, p);
    BoundedProduct(v, q, p);
    DivModIs(x, p * q, u, v * p + l);
  }

  lemma NarrowPositive(x: nat, p: nat)
    requires p > 0 && x >= p
    ensures x / p > 0
  {
    var h, l := Divided(x, p);
  }

  /** Leading zeros of a nonzero word, by halving. */
  method Clz(a: Su) returns (r: nat)
    requires a > 0
    ensures LeadingZeros(a, r)
  {
    Masks();
    assert Pow2(0) == 1 && a / 1 == a;
    var x;
    x, r := NarrowHigh(a, a, 0, 32, 16, 0xFFFF_0000);
    x, r := NarrowHigh(a, x, r, 16, 8, 0xFF00);
    x, r := NarrowHigh(a, x, r, 8, 4, 0xF0);
    x, r := NarrowHigh(a, x, r, 4, 2, 0xC);
    LastTwo(a, r, x);
    TopTwoBits(x);
    var select := And(x, 2) == 0;
    r := r + if select then 2 - x else 0;
  }

  lemma {:induction false} UpIs(m: nat, k: nat)
    ensures Up(m, k) == m * Pow2(k)
  {
    if k > 0 { UpIs(m, k - 1); Assoc(2, m, Pow2(k - 1)); Comm(2, m); Assoc(m, 2, Pow2(k - 1)); }
  }

  lemma Masks()
    ensures Up(Pow2(16) - 1, 16) == 0xFFFF_0000 && Up(Pow2(8) - 1, 8) == 0xFF00
    ensures Up(Pow2(4) - 1, 4) == 0xF0 && Up(Pow2(2) - 1, 2) == 0xC && Pow2(32) == W32
  {
    Pow2Of32();
    assert Pow2(2) == 4 && Pow2(4) == 16;
    UpIs(0xFFFF, 16);
    UpIs(0xFF, 8);
    UpIs(15, 4);
    UpIs(3, 2);
  }

  lemma TopTwoBits(x: nat)
    requires x < 4
    ensures And(x, 2) == 0 <==> x < 2
  {
    AndEven(x, 1);
    assert x / 2 <= 1 && And(1, 1) == 1 && And(0, 1) == 0;
  }

  lemma LastTwo(a: nat, r: nat, x: nat)
    requires Window(a, r, 2, x)
    ensures x < 4 && LeadingZeros(a, if x < 2 then r + 1 else r)
  {
    assert Pow2(2) == 4;
    var p := Pow2(30 - r);
    assert Pow2(31 - r) == 2 * p && Pow2(32 - r) == 4 * p;
    var h: int, l := Divided(a, p);
    LastTwoAt(a, p, h, l);
  }

  lemma LastTwoAt(a: nat, p: nat, h: int, l: nat)
    requires a == h * p + l && l < p && 0 < h < 4
    ensures if h < 2 then p <= a < 2 * p else 2 * p <= a < 4 * p
  {
    if h == 1 { assert 1 * p == p; } else if h == 2 { assert 2 * p == h * p; } else { assert 3 * p == h * p; }
  }

  /** `r` trailing zeros: what is left after dropping them is odd. */
  ghost predicate TrailingZeros(a: nat, r: nat) { a % Pow2(r) == 0 && (a / Pow2(r)) % 2 == 1 }

  /** `x` is `a` without `r` zeros at the end, and has a one among its low `m` bits. */
  ghost predicate LowWindow(a: nat, r: nat, m: nat, x: nat) {
    a % Pow2(r) == 0 && x == a / Pow2(r) && x % Pow2(m) != 0
  }

  lemma DropZeros(a: nat, r: nat, h: nat)
    requires a % Pow2(r) == 0 && (a / Pow2(r)) % Pow2(h) == 0
    ensures a % Pow2(r + h) == 0 && a / Pow2(r + h) == a / Pow2(r) / Pow2(h)
  {
    Pow2Add(r, h);
    var x, l := Divided(a, Pow2(r));
    var y, k := Divided(x, Pow2(h));
    Assoc(y, Pow2(h), Pow2(r));
    Comm(Pow2(h), Pow2(r));
    DivModIs(a, Pow2(r + h), y, 0);
  }

  lemma LowPart(x: nat, h: nat)
    requires x % Pow2(2 * h) != 0 && x % Pow2(h) == 0
    ensures (x / Pow2(h)) % Pow2(h) != 0
  {
    if (x / Pow2(h)) % Pow2(h) == 0 {
      DropZeros(x, h, h);
      assert false;
    }
  }

  /** One halving step of the count from below. */
  method NarrowLow(ghost a: nat, x: nat, r: nat, ghost m: nat, h: nat, mask: nat) returns (x': nat, r': nat)
    requires m == 2 * h && mask == Pow2(h) - 1 && LowWindow(a, r, m, x)
    ensures LowWindow(a, r', h, x') && r' <= r + h
  {
    LowMask(x, h);
    var t := if And(x, mask) == 0 then h else 0;
    if t == h {
      DropZeros(a, r, h);
      LowPart(x, h);
    }
    assert Pow2(0) == 1 && x / 1 == x;
    x' := x / Pow2(t);
    r' := r + t;
  }

  lemma LowMasks()
    ensures Pow2(16) - 1 == 0xFFFF && Pow2(8) - 1 == 0xFF && Pow2(4) - 1 == 0xF && Pow2(2) - 1 == 3 && Pow2(1) == 2
  {
    Pow2Of32();
    assert Pow2(1) == 2 && Pow2(2) == 4 && Pow2(4) == 16;
  }

  lemma LastBit(x: nat)
    ensures And(x, 3) == x % 4 && And(x % 4, 1) == x % 2
  {
    LowMasks();
    LowMask(x, 2);
    LowMask(x % 4, 1);
  }

  /** Trailing zeros of a nonzero word, by halving. */
  method Ctz(a: Su) returns (r: nat)
    requires a > 0
    ensures TrailingZeros(a, r) && r <= 31
  {
    Pow2Of32();
    LowMasks();
    assert Pow2(0) == 1 && a / 1 == a && a % 1 == 0 && a % W32 == a;
    var x;
    x, r := NarrowLow(a, a, 0, 32, 16, 0xFFFF);
    x, r := NarrowLow(a, x, r, 16, 8, 0xFF);
    x, r := NarrowLow(a, x, r, 8, 4, 0xF);
    x, r := NarrowLow(a, x, r, 4, 2, 3);
    r := LastZero(a, x, r);
  }

  /** The last two bits decide. */
  method LastZero(ghost a: nat, x: nat, r: nat) returns (r': nat)
    requires LowWindow(a, r, 2, x)
    ensures TrailingZeros(a, r') && r' <= r + 1
  {
    LowMasks();
    LastBit(x);
    if x % 2 == 0 { DropZeros(a, r, 1); }
    var y := And(x, 3);
    var select := And(y, 1) == 0;
    r' := r + if select then 2 - y / 2 else 0;
  }

  /** A power of two has only its own trailing zeros. */
  lemma {:induction false} TrailingOfPower(c: nat, r: nat)
    requires TrailingZeros(Pow2(c), r)
    ensures r == c
  {
    if r < c {
      assert Pow2(c - r) == 2 * Pow2(c - r - 1);
      Pow2Add(c - r, r);
      DivModIs(Pow2(c), Pow2(r), Pow2(c - r), 0);
      assert false;
    } else if c < r {
      Pow2Monotone(c, r - 1);
      assert Pow2(r) == 2 * Pow2(r - 1);
      DivModIs(Pow2(c), Pow2(r), 0, Pow2(c));
      assert false;
    }
  }

  // ---------------------------------------------------------------- division

  lemma WholeBound(nh: Su, nl: Su, z: nat)
    requires LeadingZeros(nh, z)
    ensures Pow2(63 - z) <= Whole(nh, nl) < Pow2(64 - z)
  {
    Pow2Of32();
    Pow2Add(31 - z, 32);
    Pow2Add(32 - z, 32);
    BoundedProduct(nh, Pow2(32 - z), W32);
    MonotoneProduct(Pow2(31 - z), nh, W32);
  }

  lemma MonotoneProduct(a: nat, b: nat, c: nat)
    requires a <= b
    ensures a * c <= b * c
  {
    Nonneg(b - a, c);
    DistSub(b, a, c);
  }

  /** Numbers shifted past the length of the divisor are below it. */
  lemma ShiftedBelow(n: nat, e: nat, s: nat)
    requires s <= e && n < Pow2(e)
    ensures n / Pow2(s) < Pow2(e - s)
  {
    Pow2Add(s, e - s);
    QuotientBound(n, Pow2(s), Pow2(e - s));
  }

  lemma Apart(n: nat, d: nat, zn: nat, zd: nat)
    requires zn <= 31 && zd <= 31 && n < Pow2(64 - zn) && Pow2(63 - zd) <= d
    ensures zd < zn ==> n < d
    ensures zd >= zn ==> n / Pow2(zd - zn + 1) < d
  {
    if zd < zn { Pow2Monotone(64 - zn, 63 - zd); } else { ShiftedBelow(n, 64 - zn, zd - zn + 1); }
  }

  lemma BothLarge(n: nat, d: nat, zn: nat, zd: nat)
    requires zn <= zd <= 31 && Pow2(63 - zn) <= n && d < Pow2(64 - zd) && d > HALF64
    ensures zd == zn == 0 && n >= HALF64
  {
    Pow2Of32();
    if zd > 0 {
      Pow2Monotone(64 - zd, 63);
      assert false;
    }
  }

  /** Both numbers have a nonzero high half: how far apart their leading ones are. */
  lemma AlignHigh(nh: Su, nl: Su, dh: Su, dl: Su, zn: nat, zd: nat)
    requires LeadingZeros(nh, zn) && LeadingZeros(dh, zd)
    ensures zd < zn ==> Whole(nh, nl) < Whole(dh, dl)
    ensures zd >= zn ==> Whole(nh, nl) / Pow2(zd - zn + 1) < Whole(dh, dl)
    ensures zd >= zn && Whole(dh, dl) > HALF64 ==> zd == zn == 0 && Whole(nh, nl) >= HALF64
  {
    var n, d := Whole(nh, nl), Whole(dh, dl);
    WholeBound(nh, nl, zn);
    WholeBound(dh, dl, zd);
    Apart(n, d, zn, zd);
    if zd >= zn && d > HALF64 { BothLarge(n, d, zn, zd); }
  }

  /** The registers for a shift by `s`, and the loop. */
  method Long(nh: Su, nl: Su, d: Du, s: nat) returns (q: Du, r: Du)
    requires 1 <= s <= 63 && Whole(nh, nl) / Pow2(s) < d
    requires d > HALF64 ==> s == 1 && Whole(nh, nl) >= HALF64
    ensures q * d + r == Whole(nh, nl) && r < d
  {
    var q0: Du, r0: Du;
    if s == 32 {
      MiddleShift(nh, nl);
      q0, r0 := Whole(nl, 0), Whole(0, nh);
    } else if s < 32 {
      SmallShift(nh, nl, s);
      q0, r0 := Whole(Shl(nl, 32 - s), 0), Whole(Shr(nh, s), Or(Shl(nh, 32 - s), Shr(nl, s)));
    } else {
      LargeShift(nh, nl, s - 32);
      q0 := Whole(Or(Shl(nh, 64 - s), Shr(nl, s - 32)), Shl(nl, 64 - s));
      r0 := Whole(0, Shr(nh, s - 32));
    }
    q, r := ShiftSubtract(Whole(nh, nl), d, s, q0, r0);
  }

  /** The shift difference, in 32-bit unsigned arithmetic, is small or wraps round to large. */
  lemma Difference(zd: nat, zn: nat)
    requires zd <= 31 && zn <= 31
    ensures (zd - zn) % W32 == if zd >= zn then zd - zn else W32 + zd - zn
  {
  }

  /** `K X` by `K X`; `limit` is the largest shift that can occur. */
  method DivideHigh(nh: Su, nl: Su, dh: Su, dl: Su, limit: nat) returns (q: Du, r: Du)
    requires nh > 0 && dh > 0 && (limit == 31 || (limit == 30 && And(dh, dh - 1) != 0))
    ensures q * Whole(dh, dl) + r == Whole(nh, nl) && r < Whole(dh, dl)
  {
    var zd := Clz(dh);
    var zn := Clz(nh);
    AlignHigh(nh, nl, dh, dl, zn, zd);
    Difference(zd, zn);
    if limit == 30 { NotOne(dh, zd); }
    var sr := (zd - zn) % W32;
    if sr > limit {
      q, r := 0, Whole(nh, nl);
    } else {
      q, r := Long(nh, nl, Whole(dh, dl), sr + 1);
    }
  }

  lemma NotOne(d: nat, z: nat)
    requires d > 0 && And(d, d - 1) != 0 && LeadingZeros(d, z)
    ensures z <= 30
  {
    assert And(1, 0) == 0 && Pow2(1) == 2;
  }

  /** `K X` by `0 K`. */
  lemma AlignLow(nh: Su, nl: Su, d: Su, zn: nat, zd: nat)
    requires LeadingZeros(nh, zn) && LeadingZeros(d, zd)
    ensures Whole(nh, nl) / Pow2(33 + zd - zn) < d
  {
    WholeBound(nh, nl, zn);
    ShiftedBelow(Whole(nh, nl), 64 - zn, 33 + zd - zn);
  }

  /** Dividing by a power of two: shift and mask. */
  method DivideByPower(nh: Su, nl: Su, d: Su) returns (q: Du, r: Du)
    requires d > 0 && And(d, d - 1) == 0
    ensures q * d + r == Whole(nh, nl) && r < d
  {
    ghost var c := PowerTest(d);
    LowMask(nl, c);
    r := And(nl, d - 1);
    if d == 1 {
      q := Whole(nh, nl);
    } else {
      var s := Ctz(d);
      TrailingOfPower(c, s);
      assert s > 0 by { assert Pow2(0) == 1; }
      SmallShift(nh, nl, s);
      SmallDiv(nh, nl, s);
      q := Whole(Shr(nh, s), Or(Shl(nh, 32 - s), Shr(nl, s)));
      ghost var h, l := Divided(Whole(nh, nl), Pow2(s));
    }
  }

  lemma HighQuotient(nh: nat, nl: nat, dh: nat, q: nat, r: nat)
    requires nh == q * dh + r && r < dh && nl < W32
    ensures q * (dh * W32) + (r * W32 + nl) == nh * W32 + nl && r * W32 + nl < dh * W32
  {
    Dist(q * dh, r, W32);
    Assoc(q, dh, W32);
    BoundedProduct(r, dh, W32);
  }

  /** `K X` by `K 0`. */
  method DivideByHigh(nh: Su, nl: Su, dh: Su) returns (q: Du, r: Du)
    requires nh > 0 && dh > 0
    ensures q * Whole(dh, 0) + r == Whole(nh, nl) && r < Whole(dh, 0)
  {
    ghost var h, l := Divided(nh, dh);
    HighQuotient(nh, nl, dh, h, l);
    if nl == 0 {
      q, r := nh / dh, Whole(nh % dh, 0);
    } else if And(dh, dh - 1) == 0 {
      ghost var c := PowerTest(dh);
      LowMask(nh, c);
      var s := Ctz(dh);
      TrailingOfPower(c, s);
      q, r := Shr(nh, s), Whole(And(nh, dh - 1), nl);
    } else {
      q, r := DivideHigh(nh, nl, dh, 0, 30);
    }
  }

  /** `0 X` by anything. */
  method DivideSmall(nl: Su, b: Du) returns (q: Du, r: Du)
    requires b != 0
    ensures q * b + r == nl && r < b
  {
    if High(b) == 0 {
      ghost var h, l := Divided(nl, b);
      q, r := nl / Low(b), nl % Low(b);
    } else {
      q, r := 0, nl;
    }
  }

  lemma Halves(a: Du)
    ensures Whole(High(a), Low(a)) == a
    ensures High(a) == 0 ==> Low(a) == a
    ensures Low(a) == 0 ==> Whole(High(a), 0) == a
  {
  }

  /** Unsigned division with remainder, for every dividend and every nonzero divisor. */
  method Udivmod(a: Du, b: Du) returns (q: Du, r: Du)
    requires b != 0
    ensures q * b + r == a && 0 <= r < b
  {
    Halves(a);
    Halves(b);
    var nh, nl, dh, dl := High(a), Low(a), High(b), Low(b);
    if nh == 0 {
      q, r := DivideSmall(nl, b);
    } else if dl == 0 {
      q, r := DivideByHigh(nh, nl, dh);
    } else if dh != 0 {
      q, r := DivideHigh(nh, nl, dh, dl, 31);
    } else if And(dl, dl - 1) == 0 {
      q, r := DivideByPower(nh, nl, dl);
    } else {
      q, r := DivideByLow(nh, nl, dl);
    }
  }

  /** `K X` by `0 K`, no power of two. */
  method DivideByLow(nh: Su, nl: Su, d: Su) returns (q: Du, r: Du)
    requires nh > 0 && d > 0 && And(d, d - 1) != 0
    ensures q * d + r == Whole(nh, nl) && r < d
  {
    var zd := Clz(d);
    var zn := Clz(nh);
    AlignLow(nh, nl, d, zn, zd);
    NotOne(d, zd);
    q, r := Long(nh, nl, d, 1 + 32 + zd - zn);
  }

  /** Quotient and remainder are the only such pair. */
  lemma UdivmodUnique(a: Du, b: Du, q: Du, r: Du)
    requires b != 0 && q * b + r == a && r < b
    ensures q == a / b && r == a % b
  {
    DivModIs(a, b, q, r);
  }

  // ---------------------------------------------------------- signed wrappers

  /** A 64-bit pattern read as signed. */
  function Signed(x: Du): Di { if x >= HALF64 then x - W64 else x }

  function Pattern(x: Di): Du { x % W64 }

  /** The arithmetic shift right by 63: all ones for a negative number. */
  function SignOf(x: Di): int { if x < 0 then -1 else 0 }

  /** `(x ^ s) - s`: negate if `s` is all ones. */
  function NegateIf(x: Du, s: int): Du
    requires s == 0 || s == -1
  {
    ((if s == -1 then W64 - 1 - x else x) - s) % W64
  }

  function Magnitude(x: int): (m: nat)
    ensures -HALF64 <= x < HALF64 ==> m <= HALF64
  {
    if x < 0 then -x else x
  }

  lemma NegateIfIs(x: Di)
    ensures NegateIf(Pattern(x), SignOf(x)) == Magnitude(x)
  {
  }

  /** Division truncated toward zero, and the remainder with the sign of the dividend. */
  function Truncated(a: Di, b: Di): int
    requires b != 0
  {
    if (a < 0) == (b < 0) then Magnitude(a) / Magnitude(b) else -(Magnitude(a) / Magnitude(b))
  }

  lemma TruncatedLaw(a: Di, b: Di)
    requires b != 0
    ensures var rest := a - Truncated(a, b) * b;
      && (if rest < 0 then -rest else rest) < Magnitude(b)
      && (rest != 0 ==> (rest < 0) == (a < 0))
      && (if rest < 0 then -rest else rest) == Magnitude(a) % Magnitude(b)
  {
    var h, l := Divided(Magnitude(a), Magnitude(b));
    NegateProduct(h, b);
  }

  lemma NegateProduct(h: int, b: int)
    ensures (-h) * b == -(h * b) && h * (-b) == -(h * b) && (-h) * (-b) == h * b
  {
  }

  /** Negating a pattern and reading it as signed. */
  lemma SignedNegate(u: Du, s: int)
    requires u <= HALF64 && (s == 0 || s == -1)
    ensures var v := if s == -1 then 0 - u else u;
      Signed(NegateIf(u, s)) == Signed(v % W64) && (-HALF64 <= v < HALF64 ==> Signed(v % W64) == v)
  {
  }

  lemma TruncatedIs(a: Di, b: Di, u: nat, r: nat)
    requires b != 0 && u * Magnitude(b) + r == Magnitude(a) && r < Magnitude(b)
    ensures u == Magnitude(a) / Magnitude(b) && Truncated(a, b) == if SignOf(a) == SignOf(b) then u else 0 - u
  {
    DivModIs(Magnitude(a), Magnitude(b), u, r);
  }

  lemma QuotientSigned(a: Di, b: Di, u: Du, r: nat)
    requires b != 0 && u * Magnitude(b) + r == Magnitude(a) && r < Magnitude(b)
    ensures var q := Signed(NegateIf(u, if SignOf(a) == SignOf(b) then 0 else -1));
      q == Signed(Truncated(a, b) % W64) && (!(a == -HALF64 && b == -1) ==> q == Truncated(a, b))
  {
    TruncatedIs(a, b, u, r);
    QuotientFits(a, b);
    SignedNegate(u, if SignOf(a) == SignOf(b) then 0 else -1);
  }

  /** Signed quotient: truncated toward zero, except that the one overflow wraps round. */
  method Div(a: Di, b: Di) returns (q: Di)
    requires b != 0
    ensures q == Signed(Truncated(a, b) % W64)
    ensures !(a == -HALF64 && b == -1) ==> q == Truncated(a, b)
  {
    NegateIfIs(a);
    NegateIfIs(b);
    var x, y := NegateIf(Pattern(a), SignOf(a)), NegateIf(Pattern(b), SignOf(b));
    var u, r := Udivmod(x, y);
    QuotientSigned(a, b, u, r);
    q := Signed(NegateIf(u, if SignOf(a) == SignOf(b) then 0 else -1));
  }

  lemma QuotientFits(a: Di, b: Di)
    requires b != 0
    ensures Magnitude(a) / Magnitude(b) <= HALF64
    ensures !(a == -HALF64 && b == -1) ==> -HALF64 <= Truncated(a, b) < HALF64
  {
    DivShrinks(Magnitude(a), Magnitude(b));
    if Magnitude(b) > 1 { HalfOrLess(Magnitude(a), Magnitude(b)); }
  }

  lemma HalfOrLess(x: nat, y: nat)
    requires y > 1
    ensures 2 * (x / y) <= x
  {
    var h, l := Divided(x, y);
    MonotoneProduct(2, y, h);
    Comm(h, y);
  }

  /** The remainder as a magnitude with the sign of the dividend. */
  lemma RestIs(a: Di, b: Di)
    requires b != 0
    ensures var v := Magnitude(a) % Magnitude(b);
      a - Truncated(a, b) * b == (if a < 0 then 0 - v else v) && v < Magnitude(b)
  {
    TruncatedLaw(a, b);
    var h, l := Divided(Magnitude(a), Magnitude(b));
  }

  /** Signed remainder: the sign of the dividend. */
  method Mod(a: Di, b: Di) returns (r: Di)
    requires b != 0
    ensures r == a - Truncated(a, b) * b
    ensures r != 0 ==> (r < 0) == (a < 0)
    ensures Magnitude(r) < Magnitude(b)
  {
    NegateIfIs(a);
    NegateIfIs(b);
    var y := NegateIf(Pattern(b), SignOf(b));
    var x := NegateIf(Pattern(a), SignOf(a));
    var u, v := Udivmod(x, y);
    UdivmodUnique(x, y, u, v);
    RestIs(a, b);
    SignedNegate(v, SignOf(a));
    r := Signed(NegateIf(v, SignOf(a)));
  }

  /** Quotient and remainder together. */
  method DivMod(a: Di, b: Di) returns (q: Di, r: Di)
    requires b != 0
    ensures q == Signed(Truncated(a, b) % W64) && r == a - Truncated(a, b) * b
  {
    q := Div(a, b);
    TruncatedLaw(a, b);
    r := Signed((a - q * b) % W64);
    WrappedRest(a, b, q);
  }

  lemma WrappedRest(a: Di, b: Di, q: Di)
    requires b != 0 && q == Signed(Truncated(a, b) % W64)
    requires !(a == -HALF64 && b == -1) ==> q == Truncated(a, b)
    ensures var rest := a - Truncated(a, b) * b;
      -HALF64 <= rest < HALF64 ==> Signed((a - q * b) % W64) == rest
  {
    if a == -HALF64 && b == -1 {
      assert Truncated(a, b) == HALF64;
    }
  }
}
