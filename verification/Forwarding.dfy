/**
 Store-to-load forwarding: a load reads memory and then lets every older undrained store that covers
 it replace the value, oldest store first.  The result is the value that memory would return once all
 those stores had been performed exactly when the newest store that touches the load covers it.
 */
module Forwarding {
  import opened Isa
  import opened Arith

  /** A store on its way to memory: a store buffer slot, or a finished store in the reorder buffer. */
  datatype StoreRec = StoreRec(addr: Word, data: Word, width: nat)

  predicate Covers(st: StoreRec, a: int, w: nat) { st.addr <= a && st.addr + st.width >= a + w }

  predicate Overlaps(st: StoreRec, a: int, w: nat) { st.addr < a + w && a < st.addr + st.width }

  function Perform(m: Mem, st: StoreRec): Mem { Store(m, st.addr, st.data, st.width) }

  /** Memory after all the stores, oldest first. */
  function PerformAll(m: Mem, sts: seq<StoreRec>): Mem {
    if sts == [] then m else PerformAll(Perform(m, sts[0]), sts[1..])
  }

  /** The forwarding test on one store: shift the wanted bytes down and extend them again. */
  function TryForward(cur: Word, st: StoreRec, a: int, w: nat, signed: bool): Word
    requires Width(w)
  {
    if Covers(st, a, w) then Extend(ShiftDown(st.data, a - st.addr), w, signed) else cur
  }

  function ShiftDown(d: Word, k: nat): (r: Word) {
    DivShrinks(d, Pow256(k));
    d / Pow256(k)
  }

  function Forward(cur: Word, sts: seq<StoreRec>, a: int, w: nat, signed: bool): Word
    requires Width(w)
    decreases |sts|
  {
    if sts == [] then cur else Forward(TryForward(cur, sts[0], a, w, signed), sts[1..], a, w, signed)
  }

  predicate Covered(sts: seq<StoreRec>, a: int, w: nat) {
    sts != [] && (Covers(sts[0], a, w) || Covered(sts[1..], a, w))
  }

  /** Every store that touches the load without covering it is followed by one that covers it. */
  predicate Safe(sts: seq<StoreRec>, a: int, w: nat) {
    sts == [] ||
    (Safe(sts[1..], a, w) && (Overlaps(sts[0], a, w) && !Covers(sts[0], a, w) ==> Covered(sts[1..], a, w)))
  }

  predicate Writes(st: StoreRec, x: int) { st.addr <= x < st.addr + st.width }

  /** A store covers a load if it writes every byte of it, and touches it if it writes one. */
  lemma CoversMeans(st: StoreRec, a: int, w: nat)
    requires w > 0 && st.width > 0
    ensures Covers(st, a, w) <==> forall x | a <= x < a + w :: Writes(st, x)
    ensures Overlaps(st, a, w) <==> exists x :: a <= x < a + w && Writes(st, x)
  {
    if forall x | a <= x < a + w :: Writes(st, x) { assert Writes(st, a) && Writes(st, a + w - 1); }
    if Overlaps(st, a, w) { assert Writes(st, if a < st.addr then st.addr else a); }
  }

  // ------------------------------------------------------- reading one store

  lemma {:induction false} LoadRawFrame(m: Mem, st: StoreRec, a: int, w: nat)
    requires !Overlaps(st, a, w)
    ensures LoadRaw(Perform(m, st), a, w) == LoadRaw(m, a, w)
    decreases w
  {
    if w != 0 { LoadRawFrame(m, st, a + 1, w - 1); }
  }

  lemma {:induction false} LoadRawCovered(m: Mem, st: StoreRec, a: int, w: nat)
    requires Covers(st, a, w)
    ensures LoadRaw(Perform(m, st), a, w) == (st.data / Pow256(a - st.addr)) % Pow256(w)
    decreases w
  {
    if w != 0 {
      var k := a - st.addr;
      LoadRawCovered(m, st, a + 1, w - 1);
      var p, q := Pow256(k), Pow256(w - 1);
      DivTwice(st.data, p);
      DivShrinks(st.data, p);
      SplitDigit(st.data / p, q);
      assert Pow256(k + 1) == 256 * p && Pow256(w) == 256 * q;
      assert Perform(m, st)(a) == ByteOf(st.data, k);
    }
  }

  lemma ExtendLow(x: Word, y: Word, w: nat, signed: bool)
    requires Width(w) && (if w == 8 then x == y else x == y % Pow256(w))
    ensures Extend(x, w, signed) == Extend(y, w, signed)
  {
    assert Pow256(1) == 256 && Pow256(2) == 65536 && Pow256(4) == 4294967296;
    if w == 1 {
      assert x % 256 == x;
    } else if w == 2 {
      assert x % 65536 == x;
    } else if w == 4 {
      assert x % 4294967296 == x;
    }
  }

  lemma WholeWord(y: Word)
    ensures y % Pow256(8) == y
  {
    Pow256At8();
  }

  lemma RawShifted(m: Mem, st: StoreRec, a: int, w: nat)
    requires Width(w) && st.width <= 8 && Covers(st, a, w)
    ensures var x, y := LoadRaw(Perform(m, st), a, w), ShiftDown(st.data, a - st.addr);
      if w == 8 then x == y else x == y % Pow256(w)
  {
    LoadRawCovered(m, st, a, w);
    WholeWord(ShiftDown(st.data, a - st.addr));
  }

  lemma LoadCovered(m: Mem, st: StoreRec, a: int, w: nat, signed: bool)
    requires Width(w) && st.width <= 8 && Covers(st, a, w)
    ensures Load(Perform(m, st), a, w, signed) == Extend(ShiftDown(st.data, a - st.addr), w, signed)
  {
    Pow256Bound(w);
    RawShifted(m, st, a, w);
    ExtendLow(LoadRaw(Perform(m, st), a, w), ShiftDown(st.data, a - st.addr), w, signed);
  }

  // ------------------------------------------------------- the forwarding law

  lemma {:induction false} CoveredForgets(c: Word, d: Word, sts: seq<StoreRec>, a: int, w: nat, signed: bool)
    requires Width(w) && Covered(sts, a, w)
    ensures Forward(c, sts, a, w, signed) == Forward(d, sts, a, w, signed)
  {
    if !Covers(sts[0], a, w) { CoveredForgets(c, d, sts[1..], a, w, signed); }
  }

  predicate Sized(sts: seq<StoreRec>) { forall k | 0 <= k < |sts| :: Width(sts[k].width) }

  /** Forwarding computes what the load would read after all the stores. */
  lemma {:induction false} ForwardCorrect(m: Mem, sts: seq<StoreRec>, a: int, w: nat, signed: bool)
    requires Width(w) && Sized(sts) && Safe(sts, a, w)
    ensures Forward(Load(m, a, w, signed), sts, a, w, signed) == Load(PerformAll(m, sts), a, w, signed)
    decreases |sts|
  {
    if sts != [] {
      var st, rest := sts[0], sts[1..];
      var m1 := Perform(m, st);
      ForwardCorrect(m1, rest, a, w, signed);
      if Covers(st, a, w) {
        LoadCovered(m, st, a, w, signed);
      } else if Overlaps(st, a, w) {
        CoveredForgets(TryForward(Load(m, a, w, signed), st, a, w, signed), Load(m1, a, w, signed), rest, a, w, signed);
      } else {
        LoadRawFrame(m, st, a, w);
      }
    }
  }

  /** Two lists of stores to the same places, with possibly different data. */
  predicate SameShape(sts: seq<StoreRec>, ts: seq<StoreRec>) {
    |sts| == |ts| && forall k | 0 <= k < |sts| :: sts[k].addr == ts[k].addr && sts[k].width == ts[k].width
  }

  lemma {:induction false} ShapeDecides(sts: seq<StoreRec>, ts: seq<StoreRec>, a: int, w: nat)
    requires SameShape(sts, ts)
    ensures Safe(sts, a, w) == Safe(ts, a, w) && Covered(sts, a, w) == Covered(ts, a, w)
  {
    if sts != [] { ShapeDecides(sts[1..], ts[1..], a, w); }
  }

  function Blank(sts: seq<StoreRec>): (ts: seq<StoreRec>)
    ensures SameShape(sts, ts)
  {
    seq(|sts|, k requires 0 <= k < |sts| => sts[k].(data := 0))
  }

  lemma ByteOfZero(k: nat)
    ensures ByteOf(0, k) == 0
  {
    Remainder(0, Pow256(k), 0, 0);
  }

  ghost predicate ZeroOn(m: Mem, a: int, w: nat) { forall x | a <= x < a + w :: m(x) == 0 }

  lemma {:induction false} LoadRawZero(m: Mem, a: int, w: nat)
    ensures LoadRaw(m, a, w) == 0 <==> ZeroOn(m, a, w)
    decreases w
  {
    if w != 0 { LoadRawZero(m, a + 1, w - 1); }
  }

  lemma {:induction false} BlankForwardsZero(sts: seq<StoreRec>, a: int, w: nat, signed: bool)
    requires Width(w)
    ensures Forward(0, Blank(sts), a, w, signed) == 0
    decreases |sts|
  {
    if sts != [] {
      BlankForwardsZero(sts[1..], a, w, signed);
      assert Blank(sts)[1..] == Blank(sts[1..]);
      if Covers(sts[0], a, w) { Remainder(0, Pow256(a - sts[0].addr), 0, 0); }
    }
  }

  lemma {:induction false} BlankKeeps(m: Mem, sts: seq<StoreRec>, a: int, w: nat, x: int)
    requires Safe(sts, a, w) && !Covered(sts, a, w) && a <= x < a + w
    ensures PerformAll(m, Blank(sts))(x) == m(x)
    decreases |sts|
  {
    if sts != [] {
      var bs := Blank(sts);
      assert bs[1..] == Blank(sts[1..]);
      BlankKeeps(Perform(m, bs[0]), sts[1..], a, w, x);
    }
  }

  lemma ExtendZero(raw: Word, w: nat, signed: bool)
    requires Width(w) && raw < Pow256(w)
    ensures Extend(raw, w, signed) == 0 <==> raw == 0
  {
    if w != 8 {
      assert Pow256(1) == 256 && Pow256(2) == 65536 && Pow256(4) == 4294967296;
      Remainder(raw, Pow256(w), 0, raw);
    }
  }

  lemma AllOnesByte(k: nat)
    requires k < 8
    ensures ByteOf(WORD - 1, k) == 255
  {
    assert Pow256(1) == 256;
    assert Pow256(2) == 256 * Pow256(1);
    assert Pow256(3) == 256 * Pow256(2);
    assert Pow256(4) == 256 * Pow256(3);
    assert Pow256(5) == 256 * Pow256(4);
    assert Pow256(6) == 256 * Pow256(5);
    assert Pow256(7) == 256 * Pow256(6);
  }

  /** The same stores, blank but for the newest one that breaks the condition. */
  function Spoil(sts: seq<StoreRec>, a: int, w: nat): (ts: seq<StoreRec>)
    requires !Safe(sts, a, w)
    ensures SameShape(sts, ts)
  {
    if Safe(sts[1..], a, w) then [sts[0].(data := WORD - 1)] + Blank(sts[1..])
    else [sts[0].(data := 0)] + Spoil(sts[1..], a, w)
  }

  /** The newest store that breaks the condition leaves a byte that forwarding does not see. */
  lemma SpoilHere(m: Mem, st: StoreRec, rest: seq<StoreRec>, a: int, w: nat, signed: bool)
    requires Width(w) && 0 < st.width <= 8 && Safe(rest, a, w) && !Safe([st] + rest, a, w)
    ensures Load(PerformAll(Perform(m, st.(data := WORD - 1)), Blank(rest)), a, w, signed) != 0
  {
    assert ([st] + rest)[1..] == rest;
    var m1 := Perform(m, st.(data := WORD - 1));
    var x := if st.addr <= a then a else st.addr;
    BlankKeeps(m1, rest, a, w, x);
    AllOnesByte(x - st.addr);
    assert m1(x) == 255;
    LoadNonzero(PerformAll(m1, Blank(rest)), a, w, signed, x);
  }

  lemma LoadNonzero(m: Mem, a: int, w: nat, signed: bool, x: int)
    requires Width(w) && a <= x < a + w && m(x) != 0
    ensures Load(m, a, w, signed) != 0
  {
    LoadRawZero(m, a, w);
    Pow256Bound(w);
    ExtendZero(LoadRaw(m, a, w), w, signed);
  }

  lemma LoadZero(m: Mem, a: int, w: nat, signed: bool)
    requires Width(w) && ZeroOn(m, a, w)
    ensures Load(m, a, w, signed) == 0
  {
    LoadRawZero(m, a, w);
    ExtendZero(0, w, signed);
  }

  lemma BlankIsZero(m: Mem, st: StoreRec, a: int, w: nat)
    requires ZeroOn(m, a, w) && st.data == 0
    ensures ZeroOn(Perform(m, st), a, w)
  {
    forall k: nat ensures ByteOf(0, k) == 0 { ByteOfZero(k); }
  }

  lemma {:induction false} SpoilWrong(m: Mem, sts: seq<StoreRec>, a: int, w: nat, signed: bool)
    requires Width(w) && Sized(sts) && !Safe(sts, a, w) && ZeroOn(m, a, w)
    ensures Forward(Load(m, a, w, signed), Spoil(sts, a, w), a, w, signed)
         != Load(PerformAll(m, Spoil(sts, a, w)), a, w, signed)
    decreases |sts|
  {
    var st, rest, ts := sts[0], sts[1..], Spoil(sts, a, w);
    LoadZero(m, a, w, signed);
    assert sts == [st] + rest;
    if Safe(rest, a, w) {
      assert ts[1..] == Blank(rest);
      BlankForwardsZero(rest, a, w, signed);
      SpoilHere(m, st, rest, a, w, signed);
    } else {
      assert ts[1..] == Spoil(rest, a, w);
      BlankIsZero(m, ts[0], a, w);
      LoadZero(Perform(m, ts[0]), a, w, signed);
      if Covers(st, a, w) { Remainder(0, Pow256(a - st.addr), 0, 0); }
      SpoilWrong(Perform(m, ts[0]), rest, a, w, signed);
    }
  }

  /** The exact condition: forwarding is right for all contents of memory and stores if and only if
      every store that only touches the load is followed by one that covers it. */
  lemma ForwardExact(sts: seq<StoreRec>, a: int, w: nat, signed: bool)
    requires Width(w) && Sized(sts)
    ensures Safe(sts, a, w) <==>
      forall m: Mem, ts: seq<StoreRec> | SameShape(sts, ts) ::
        Forward(Load(m, a, w, signed), ts, a, w, signed) == Load(PerformAll(m, ts), a, w, signed)
  {
    if Safe(sts, a, w) {
      forall m: Mem, ts: seq<StoreRec> | SameShape(sts, ts)
        ensures Forward(Load(m, a, w, signed), ts, a, w, signed) == Load(PerformAll(m, ts), a, w, signed)
      {
        ShapeDecides(sts, ts, a, w);
        ForwardCorrect(m, ts, a, w, signed);
      }
    } else {
      var m: Mem := (x: int) => 0;
      SpoilWrong(m, sts, a, w, signed);
      assert SameShape(sts, Spoil(sts, a, w));
    }
  }

  // ------------------------------------------------------------- list algebra

  lemma {:induction false} PerformAllAppend(m: Mem, a: seq<StoreRec>, b: seq<StoreRec>)
    ensures PerformAll(m, a + b) == PerformAll(PerformAll(m, a), b)
    decreases |a|
  {
    if a == [] {
      assert a + b == b;
    } else {
      assert (a + b)[1..] == a[1..] + b;
      PerformAllAppend(Perform(m, a[0]), a[1..], b);
    }
  }

  lemma {:induction false} ForwardAppend(c: Word, x: seq<StoreRec>, y: seq<StoreRec>, a: int, w: nat, signed: bool)
    requires Width(w)
    ensures Forward(c, x + y, a, w, signed) == Forward(Forward(c, x, a, w, signed), y, a, w, signed)
    decreases |x|
  {
    if x == [] {
      assert x + y == y;
    } else {
      assert (x + y)[1..] == x[1..] + y;
      ForwardAppend(TryForward(c, x[0], a, w, signed), x[1..], y, a, w, signed);
    }
  }
}
