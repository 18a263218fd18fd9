/**
 What the reference machine's loads, stores and executor compute, in terms of bytes, two's complement numbers and
 congruences, so that the engines' agreement with it says something about the instructions themselves.
 */
module IsaMeaning {
  import opened Arith
  import opened Isa

  /** A word read as a two's complement number. */
  function Signed(r: Word): int { if r >= WORD / 2 then r - WORD else r }

  lemma Pow256Values()
    ensures Pow256(1) == 256 && Pow256(2) == 65536 && Pow256(4) == 4294967296
  {
  }

  /** Two numbers that differ by a multiple of `p`. */
  predicate Congruent(x: int, y: int, p: nat)
    requires p > 0
  {
    x % p == y % p
  }

  // --------------------------------------------------------------------- bytes

  /** Byte `k` of what is read is the byte at `a + k`. */
  lemma {:induction false} LoadByte(m: Mem, a: int, w: nat, k: nat)
    requires k < w
    ensures (LoadRaw(m, a, w) / Pow256(k)) % 256 == m(a + k)
    decreases w
  {
    if k > 0 {
      LoadByte(m, a + 1, w - 1, k - 1);
      ShiftByte(m(a), LoadRaw(m, a + 1, w - 1), Pow256(k - 1));
    }
  }

  lemma ShiftByte(low: Byte, rest: nat, p: nat)
    requires p > 0
    ensures (low + 256 * rest) / (256 * p) == rest / p
  {
    var q, r := rest / p, rest % p;
    assert rest == p * q + r;
    assert 256 * (p * q) == (256 * p) * q;
    Remainder(low + 256 * rest, 256 * p, q, 256 * r + low);
  }

  /** A store puts byte `k` of the value at `a + k`, and touches nothing else. */
  lemma StoreBytes(m: Mem, a: int, d: Word, w: nat, x: int)
    ensures Store(m, a, d, w)(x) == if 0 <= x - a < w then (d / Pow256(x - a)) % 256 else m(x)
  {
    if 0 <= x - a < w {
      assert ByteOf(d, x - a) == (d / Pow256(x - a)) % 256;
      assert a <= x < a + w;
    }
  }

  // ----------------------------------------------------------------- extension

  lemma Lower(raw: int, p: nat, k: int)
    requires p > 0
    ensures Congruent(raw % p + p * k, raw, p)
  {
    var x := raw % p;
    Remainder(x + p * k, p, k, x);
  }

  /** Zero extension of the low `w` bytes: the unsigned number in them. */
  lemma ZeroExtends(raw: Word, w: nat)
    requires Width(w) && w < 8
    ensures Extend(raw, w, false) < Pow256(w) && Congruent(Extend(raw, w, false), raw, Pow256(w))
  {
    Pow256Values();
    Lower(raw, Pow256(w), 0);
  }

  /** Sign extension of the low `w` bytes: the two's complement number in them. */
  lemma SignExtends(raw: Word, w: nat)
    requires Width(w) && w < 8
    ensures var s := Signed(Extend(raw, w, true)); 0 - Pow256(w) <= 2 * s < Pow256(w) && Congruent(s, raw, Pow256(w))
  {
    Pow256Values();
    Lower(raw, Pow256(w), 0);
    Lower(raw, Pow256(w), -1);
  }

  /** What `lbu`, `lhu` and `lwu` return, and what `ld` returns: the unsigned number in the bytes. */
  lemma LoadUnsigned(m: Mem, a: int, w: nat)
    requires Width(w)
    ensures Load(m, a, w, false) == LoadRaw(m, a, w)
  {
    Pow256Bound(w);
    if w < 8 {
      ZeroExtends(LoadRaw(m, a, w), w);
      Small(Load(m, a, w, false), LoadRaw(m, a, w), Pow256(w));
    }
  }

  lemma Small(x: nat, y: nat, p: nat)
    requires x < p && y < p && Congruent(x, y, p)
    ensures x == y
  {
    Remainder(x, p, 0, x);
    Remainder(y, p, 0, y);
  }

  /** What `lb`, `lh` and `lw` return: the two's complement number in the bytes. */
  lemma LoadSigned(m: Mem, a: int, w: nat)
    requires Width(w) && w < 8
    ensures var s := Signed(Load(m, a, w, true));
      0 - Pow256(w) <= 2 * s < Pow256(w) && Congruent(s, LoadRaw(m, a, w), Pow256(w))
  {
    Pow256Bound(w);
    SignExtends(LoadRaw(m, a, w), w);
  }

  // ------------------------------------------------------------------ executor

  /** What the executor computes for the instructions whose arithmetic is fixed: addresses, targets and links are
      sums modulo 2 to the 64th, and everything but a taken branch or a jump goes on with the next instruction. */
  lemma ExecuteMeans(i: RawInst, pc: Word, v1: Word, v2: Word)
    ensures var o := Execute(i, pc, v1, v2);
      && (i.kind == LOAD ==> Congruent(o.addr, v1 + v2, WORD))
      && (i.kind == STORE ==> Congruent(o.addr, v1 + i.imm, WORD))
      && (i.kind == BRANCH ==> Congruent(o.dnpc, if i.taken(v1, v2) then pc + i.imm else pc + 4, WORD))
      && (i.kind == JUMP ==> o.dnpc == i.target(pc, v1, v2) && Congruent(o.result, pc + 4, WORD))
      && (i.kind in {ALU, MULDIV} ==> o.result == i.alu(pc, v1, v2))
      && (i.kind !in {BRANCH, JUMP} ==> Congruent(o.dnpc, pc + 4, WORD))
  {
  }
}
