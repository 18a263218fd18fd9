/** A read or a write by one core: lookup, fetch on a miss, prefetch, and the data moved. */
module CacheAccess {
  import opened Isa
  import opened CacheLevel
  import opened CacheHierarchy

  const PREFETCH_DEGREE := 2

  function BlockNo(a: nat): nat { a / BLOCK_SIZE }

  function Offset(a: nat): nat { a % BLOCK_SIZE }

  /** An access that does not cross a block. */
  predicate WithinBlock(a: nat, len: nat) { Offset(a) + len <= BLOCK_SIZE && len <= 8 }

  /** What a prefetch policy suggests during one access: the next address to bring in, 0 meaning none, given how
      many prefetches are left and the address before it.  A policy with state is one hint for each access. */
  type Hint = (nat, nat) -> nat

  const NO_HINT: Hint := (n: nat, a: nat) => 0

  datatype Access = Access(l1: Cache, lo: Lower, way: nat)

  /** Bring in up to `n` suggested blocks. */
  function Prefetch(l1: Cache, lo: Lower, a: nat, hint: Hint, n: nat): (t: Fetch)
    requires LevelsValid(l1, lo)
    ensures Valid(t.l1) && Valid(t.lo.l2) && t.l1.w == l1.w && |t.l1.sets| == |l1.sets|
    ensures LevelsValid(t.l1, t.lo)
    decreases n
  {
    var h := hint(n, a);
    if n == 0 || h == 0 then Fetch(l1, lo)
    else
      var r := FindQuiet(l1, BlockNo(h));
      QuietLevels(l1, lo, BlockNo(h));
      if r.hit then Prefetch(r.cache, lo, h, hint, n - 1)
      else
        FetchEffect(r.cache, lo, BlockNo(h), r.way);
        var t := FetchBlock(r.cache, lo, BlockNo(h), r.way);
        Prefetch(t.l1, t.lo, h, hint, n - 1)
  }

  lemma QuietLevels(l1: Cache, lo: Lower, b: nat)
    requires LevelsValid(l1, lo)
    ensures var r := FindQuiet(l1, b);
      && LevelsValid(r.cache, lo) && r.hit == Held(l1, b).Some? && (forall x: nat :: Held(r.cache, x) == Held(l1, x))
  {
    QuietKeeps(l1, b);
  }

  lemma FoundLevels(l1: Cache, lo: Lower, b: nat)
    requires LevelsValid(l1, lo)
    ensures var r := FindLine(l1, b);
      && LevelsValid(r.cache, lo) && r.hit == Held(l1, b).Some? && (forall x: nat :: Held(r.cache, x) == Held(l1, x))
  {
    FindKeeps(l1, b);
  }

  /** Lookup, and on a miss fetch and prefetch.  The way found at the start is the one used at the end,
      whatever the prefetches did. */
  function Locate(l1: Cache, lo: Lower, a: nat, hint: Hint): (r: Access)
    requires LevelsValid(l1, lo)
    ensures Valid(r.l1) && r.way < r.l1.w == l1.w && |r.l1.sets| == |l1.sets| && LevelsValid(r.l1, r.lo)
  {
    var b := BlockNo(a);
    var r := FindLine(l1, b);
    FoundLevels(l1, lo, b);
    if r.hit then Access(r.cache, lo, r.way)
    else
      FetchEffect(r.cache, lo, b, r.way);
      var t := FetchBlock(r.cache, lo, b, r.way);
      var p := Prefetch(t.l1, t.lo, a, hint, PREFETCH_DEGREE);
      Access(p.l1, p.lo, r.way)
  }

  // --------------------------------------------------------------------- data

  /** `len` bytes of a block from `off`, least significant first. */
  function Assemble(d: Block, off: nat, len: nat): (v: nat)
    requires off + len <= BLOCK_SIZE
    ensures v < Pow256(len)
    decreases len
  {
    if len == 0 then 0 else d[off] + 256 * Assemble(d, off + 1, len - 1)
  }

  /** The block with the low `len` bytes of `v` written at `off`. */
  function Patch(d: Block, off: nat, len: nat, v: Word): Block
    requires off + len <= BLOCK_SIZE
  {
    seq(BLOCK_SIZE, i requires 0 <= i < BLOCK_SIZE => PatchByte(d, off, len, v, i))
  }

  function PatchByte(d: Block, off: nat, len: nat, v: Word, i: nat): Byte
    requires i < BLOCK_SIZE
  {
    if off <= i < off + len then ByteOf(v, i - off) else d[i]
  }

  /** The value read through the line that `Locate` returned. */
  function ReadLine(r: Access, a: nat, len: nat): nat
    requires Valid(r.l1) && r.way < r.l1.w && WithinBlock(a, len)
  {
    Assemble(LineAt(r.l1, BlockNo(a), r.way).data, Offset(a), len)
  }

  /** The first level after the bytes were written into that line. */
  function WriteLine(r: Access, a: nat, len: nat, v: Word): Cache
    requires Valid(r.l1) && r.way < r.l1.w && WithinBlock(a, len)
  {
    var l := LineAt(r.l1, BlockNo(a), r.way);
    Put(r.l1, BlockNo(a), r.way, l.(data := Patch(l.data, Offset(a), len, v), dirty := true))
  }

  // ----------------------------------------------- blocks and flat byte memory

  /** Flat memory `m` has the bytes of `d` in block `b`. */
  ghost predicate Shows(m: Mem, b: nat, d: Block) {
    forall x: nat | BlockNo(x) == b :: m(x) == d[Offset(x)]
  }

  /** Reading from the block is loading from flat memory. */
  lemma {:induction false} AssembleIsLoad(m: Mem, d: Block, a: nat, len: nat)
    requires Shows(m, BlockNo(a), d) && Offset(a) + len <= BLOCK_SIZE
    ensures Assemble(d, Offset(a), len) == LoadRaw(m, a, len)
    decreases len
  {
    if len > 1 {
      NextByte(a);
      AssembleIsLoad(m, d, a + 1, len - 1);
    }
  }

  lemma NextByte(a: nat)
    requires Offset(a) + 1 < BLOCK_SIZE
    ensures BlockNo(a + 1) == BlockNo(a) && Offset(a + 1) == Offset(a) + 1
  {
  }

  lemma InRange(a: nat, len: nat, x: nat)
    requires Offset(a) + len <= BLOCK_SIZE
    ensures a <= x < a + len <==> BlockNo(x) == BlockNo(a) && Offset(a) <= Offset(x) < Offset(a) + len
    ensures BlockNo(x) == BlockNo(a) ==> Offset(x) - Offset(a) == x - a
  {
  }

  /** Patching the block is storing into flat memory, and other blocks are not touched. */
  lemma PatchIsStore(m: Mem, d: Block, a: nat, len: nat, v: Word)
    requires Shows(m, BlockNo(a), d) && WithinBlock(a, len)
    ensures Shows(Store(m, a, v, len), BlockNo(a), Patch(d, Offset(a), len, v))
    ensures forall x: nat | BlockNo(x) != BlockNo(a) :: Store(m, a, v, len)(x) == m(x)
  {
    forall x: nat | BlockNo(x) == BlockNo(a)
      ensures Store(m, a, v, len)(x) == Patch(d, Offset(a), len, v)[Offset(x)]
    {
      InRange(a, len, x);
    }
    forall x: nat | BlockNo(x) != BlockNo(a) ensures Store(m, a, v, len)(x) == m(x) { InRange(a, len, x); }
  }

  // ------------------------------------------------------------------ accesses

  datatype Op = Read(addr: nat, len: nat) | Write(addr: nat, len: nat, value: Word)

  predicate Fits(o: Op) { WithinBlock(o.addr, o.len) }

  /** One access by one core, and the value it returns (0 for a write). */
  function Serve(s: Fetch, o: Op, hint: Hint): (Fetch, nat)
    requires LevelsValid(s.l1, s.lo) && Fits(o)
  {
    var l := Locate(s.l1, s.lo, o.addr, hint);
    if o.Read? then (Fetch(l.l1, l.lo), ReadLine(l, o.addr, o.len))
    else (Fetch(WriteLine(l, o.addr, o.len, o.value), l.lo), 0)
  }

  /** The same access on flat memory. */
  function Reference(m: Mem, o: Op): (Mem, nat) {
    if o.Read? then (m, LoadRaw(m, o.addr, o.len)) else (Store(m, o.addr, o.value, o.len), 0)
  }

  /** The values all accesses return on flat memory, in order. */
  function FlatAnswers(m: Mem, ops: seq<Op>): seq<nat> {
    if ops == [] then [] else [Reference(m, ops[0]).1] + FlatAnswers(Reference(m, ops[0]).0, ops[1..])
  }
}
