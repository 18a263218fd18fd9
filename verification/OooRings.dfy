/**
 The engine's state as the source keeps it: rings with head, tail and count, reorder-buffer slots with
 valid bits, stations and latches that name slots, and bit masks over the stations.

 Each predicate here ties one part of that state to the corresponding part of the value-level engine,
 where an instruction is named by its tag; slot = tag modulo ROB_SIZE.
 */
module OooRings {
  import opened Isa
  import opened Forwarding
  import opened Tomasulo

  const FREE_LIST_SIZE := 64

  // -------------------------------------------------------------------- rings

  /** Position `k` of a ring of `n` slots. */
  function Slot(head: nat, k: nat, n: nat): (i: nat)
    requires head < n && k <= n
    ensures i < n
  {
    if head + k < n then head + k else head + k - n
  }

  lemma SlotIsMod(head: nat, k: nat, n: nat)
    requires head < n && k <= n
    ensures (head + k) % n == Slot(head, k, n)
  {
    if head + k < n {
      assert (head + k) % n == head + k;
    } else {
      Wraps(head + k, n);
    }
  }

  lemma Wraps(x: nat, n: nat)
    requires 0 < n <= x < 2 * n
    ensures x % n == x - n
  {
    assert x == n * 1 + (x - n);
    assert x % n == (x - n) % n == x - n;
  }

  /** The ring holds `s`, oldest first. */
  ghost predicate RingTied<T>(buf: seq<T>, head: nat, tail: nat, count: nat, s: seq<T>) {
    && head < |buf| && |s| == count <= |buf| && tail == Slot(head, count, |buf|)
    && forall k | 0 <= k < count :: buf[Slot(head, k, |buf|)] == s[k]
  }

  lemma Pushed<T>(buf: seq<T>, head: nat, tail: nat, count: nat, s: seq<T>, x: T)
    requires RingTied(buf, head, tail, count, s) && count < |buf|
    ensures RingTied(buf[tail := x], head, Slot(tail, 1, |buf|), count + 1, s + [x])
  {
  }

  lemma Popped<T>(buf: seq<T>, head: nat, tail: nat, count: nat, s: seq<T>)
    requires RingTied(buf, head, tail, count, s) && count > 0
    ensures buf[head] == s[0] && RingTied(buf, Slot(head, 1, |buf|), tail, count - 1, s[1..])
  {
    assert Slot(head, 0, |buf|) == head;
    var h := Slot(head, 1, |buf|);
    forall k | 0 <= k < count - 1 ensures buf[Slot(h, k, |buf|)] == s[1..][k] {
      assert Slot(h, k, |buf|) == Slot(head, k + 1, |buf|);
    }
  }

  // ----------------------------------------------------------- reorder buffer

  datatype RobSlot = RobSlot(valid: bool, e: Entry)

  /** Distance from the head. */
  function Age(i: nat, head: nat): (k: nat)
    requires i < ROB_SIZE && head < ROB_SIZE
    ensures k < ROB_SIZE
  {
    if i >= head then i - head else i - head + ROB_SIZE
  }

  lemma AgeIsMod(i: nat, head: nat)
    requires i < ROB_SIZE && head < ROB_SIZE
    ensures (i - head + ROB_SIZE) % ROB_SIZE == Age(i, head)
  {
  }

  /** The buffer holds the entries; a slot is valid exactly if it is in the window. */
  ghost predicate RobTied(buf: seq<RobSlot>, head: nat, tail: nat, count: nat, s: seq<Entry>, insts: nat) {
    && |buf| == ROB_SIZE && |s| == count <= ROB_SIZE && head == insts % ROB_SIZE && tail == Slot(head, count, ROB_SIZE)
    && (forall k | 0 <= k < count :: buf[Slot(head, k, ROB_SIZE)] == RobSlot(true, s[k]))
    && (forall i | 0 <= i < ROB_SIZE && buf[i].valid :: Age(i, head) < count)
  }

  /** A tag that is in the window is found in its slot. */
  lemma TagSlot(tag: nat, insts: nat)
    requires insts <= tag < insts + ROB_SIZE
    ensures Age(tag % ROB_SIZE, insts % ROB_SIZE) == tag - insts
    ensures Slot(insts % ROB_SIZE, tag - insts, ROB_SIZE) == tag % ROB_SIZE
  {
    SlotIsMod(insts % ROB_SIZE, tag - insts, ROB_SIZE);
  }

  lemma AtSlot(buf: seq<RobSlot>, head: nat, tail: nat, count: nat, s: seq<Entry>, insts: nat, tag: nat)
    requires RobTied(buf, head, tail, count, s, insts) && insts <= tag < insts + count
    ensures buf[tag % ROB_SIZE] == RobSlot(true, s[tag - insts]) && Age(tag % ROB_SIZE, head) == tag - insts
  {
    TagSlot(tag, insts);
  }

  lemma SlotInjective(head: nat, i: nat, k: nat)
    requires head < ROB_SIZE && i < ROB_SIZE && k < ROB_SIZE && i != k
    ensures Slot(head, i, ROB_SIZE) != Slot(head, k, ROB_SIZE)
  {
  }

  /** Overwriting the entry of a tag. */
  lemma RobSet(buf: seq<RobSlot>, head: nat, tail: nat, count: nat, s: seq<Entry>, insts: nat, tag: nat, e: Entry)
    requires RobTied(buf, head, tail, count, s, insts) && insts <= tag < insts + count
    ensures RobTied(buf[tag % ROB_SIZE := RobSlot(true, e)], head, tail, count, s[tag - insts := e], insts)
  {
    TagSlot(tag, insts);
  }

  /** Allocating at the tail. */
  lemma RobPush(buf: seq<RobSlot>, head: nat, tail: nat, count: nat, s: seq<Entry>, insts: nat, e: Entry)
    requires RobTied(buf, head, tail, count, s, insts) && count < ROB_SIZE
    ensures RobTied(buf[tail := RobSlot(true, e)], head, (tail + 1) % ROB_SIZE, count + 1, s + [e], insts)
    ensures tail == (insts + count) % ROB_SIZE
  {
    SlotIsMod(head, count, ROB_SIZE);
  }

  /** Retiring at the head. */
  lemma SlotAfter(head: nat, k: nat)
    requires head < ROB_SIZE && k < ROB_SIZE
    ensures Slot((head + 1) % ROB_SIZE, k, ROB_SIZE) == Slot(head, k + 1, ROB_SIZE)
    ensures k + 1 < ROB_SIZE ==> Slot(head, k + 1, ROB_SIZE) != head
  {
  }

  lemma AgeAfter(i: nat, head: nat)
    requires i < ROB_SIZE && head < ROB_SIZE && i != head
    ensures Age(i, (head + 1) % ROB_SIZE) == Age(i, head) - 1
  {
  }

  lemma RobPopFront(buf: seq<RobSlot>, head: nat, tail: nat, count: nat, s: seq<Entry>, insts: nat)
    requires RobTied(buf, head, tail, count, s, insts) && count > 0
    ensures buf[head] == RobSlot(true, s[0])
    ensures RobTied(buf[head := buf[head].(valid := false)], (head + 1) % ROB_SIZE, tail, count - 1, s[1..], insts + 1)
  {
    assert Slot(head, 0, ROB_SIZE) == head;
    var h := (head + 1) % ROB_SIZE;
    forall k | 0 <= k < count - 1 ensures buf[Slot(h, k, ROB_SIZE)] == RobSlot(true, s[1..][k]) && Slot(h, k, ROB_SIZE) != head {
      SlotAfter(head, k);
    }
    SlotAfter(head, count - 1);
    forall i | 0 <= i < ROB_SIZE && i != head && buf[i].valid ensures Age(i, h) < count - 1 { AgeAfter(i, head); }
  }

  /** Undoing the youngest. */
  lemma RobPopBack(buf: seq<RobSlot>, head: nat, tail: nat, count: nat, s: seq<Entry>, insts: nat)
    requires RobTied(buf, head, tail, count, s, insts) && count > 0
    ensures var t := (tail - 1 + ROB_SIZE) % ROB_SIZE;
      && t == Slot(head, count - 1, ROB_SIZE) && buf[t] == RobSlot(true, s[count - 1])
      && RobTied(buf[t := buf[t].(valid := false)], head, t, count - 1, s[..count - 1], insts)
  {
    var t := Slot(head, count - 1, ROB_SIZE);
    assert t == (tail - 1 + ROB_SIZE) % ROB_SIZE;
    forall k | 0 <= k < count - 1 ensures Slot(head, k, ROB_SIZE) != t { SlotInjective(head, k, count - 1); }
  }

  // ------------------------------------------------------ stations and latches

  datatype RsSlot = RsSlot(
    valid: bool, robIdx: nat, phys: int, eu: EU, r1: bool, v1: Word, t1: int, r2: bool, v2: Word, t2: int)

  datatype Unit = Unit(valid: bool, robIdx: nat, phys: int, v1: Word, v2: Word, miss: bool, flushed: bool)

  ghost predicate StationTied(x: RsSlot, y: Station) {
    && x.valid == y.valid
    && (y.valid ==> y.tag >= 0 && x == RsSlot(true, y.tag % ROB_SIZE, y.phys, y.eu, y.r1, y.v1, y.t1, y.r2, y.v2, y.t2))
  }

  ghost predicate UnitTied(x: Unit, y: Latch) {
    && x.valid == y.valid
    && (y.valid ==> y.tag >= 0 && x == Unit(true, y.tag % ROB_SIZE, y.phys, y.v1, y.v2, y.miss, y.flushed))
    && (y.flushed ==> y.miss)
  }

  ghost predicate StationsTied(xs: seq<RsSlot>, ys: seq<Station>) {
    |xs| == |ys| == RS_SIZE && forall i | 0 <= i < RS_SIZE :: StationTied(xs[i], ys[i])
  }

  ghost predicate UnitsTied(xs: seq<Unit>, ys: seq<Latch>) {
    |xs| == |ys| == NUM_UNITS && forall u | 0 <= u < NUM_UNITS :: UnitTied(xs[u], ys[u])
  }

  // -------------------------------------------------------------------- masks

  predicate Ready(x: RsSlot, eu: EU) { x.valid && x.r1 && x.r2 && x.eu == eu }

  /** Bit `i` is set exactly if station `i` is free. */
  ghost predicate FreeMaskRight(xs: seq<RsSlot>, mask: set<nat>) {
    forall i: nat :: i in mask <==> i < |xs| && !xs[i].valid
  }

  /** Bit `i` is set exactly if station `i` is valid, for this unit, and has both operands. */
  ghost predicate ReadyMaskRight(xs: seq<RsSlot>, eu: EU, mask: set<nat>) {
    forall i: nat :: i in mask <==> i < |xs| && Ready(xs[i], eu)
  }

  /** The mask with the low `n` bits set. */
  function LowBits(n: nat): (m: set<nat>)
    ensures forall i: nat :: i in m <==> i < n
  {
    if n == 0 then {} else LowBits(n - 1) + {n - 1}
  }

  datatype Masks = Masks(free: set<nat>, alu: set<nat>, mul: set<nat>, lsu: set<nat>)

  function ReadyMask(m: Masks, eu: EU): set<nat> {
    match eu
    case INT => m.alu
    case MUL => m.mul
    case LSU => m.lsu
  }

  function SetReady(m: Masks, eu: EU, s: set<nat>): Masks {
    match eu
    case INT => m.(alu := s)
    case MUL => m.(mul := s)
    case LSU => m.(lsu := s)
  }

  ghost predicate MasksRight(xs: seq<RsSlot>, m: Masks) {
    && FreeMaskRight(xs, m.free)
    && forall eu: EU :: ReadyMaskRight(xs, eu, ReadyMask(m, eu))
  }

  /** One station changes, its unit kept: the masks change in that bit only. */
  function Updated(m: Masks, i: nat, x: RsSlot): Masks {
    SetReady(m.(free := if x.valid then m.free - {i} else m.free + {i}), x.eu,
             if Ready(x, x.eu) then ReadyMask(m, x.eu) + {i} else ReadyMask(m, x.eu) - {i})
  }

  lemma MaskUpdated(xs: seq<RsSlot>, m: Masks, i: nat, x: RsSlot)
    requires MasksRight(xs, m) && i < |xs| && (xs[i].valid ==> x.eu == xs[i].eu)
    ensures MasksRight(xs[i := x], Updated(m, i, x))
  {
    var ys, m' := xs[i := x], Updated(m, i, x);
    forall j: nat ensures j in m'.free <==> j < |ys| && !ys[j].valid {
      assert j in m.free <==> j < |xs| && !xs[j].valid;
    }
    forall eu: EU ensures ReadyMaskRight(ys, eu, ReadyMask(m', eu)) {
      assert ReadyMaskRight(xs, eu, ReadyMask(m, eu));
    }
  }
}
