/**
 Two levels: what a first-level miss does to the second level and to memory.

 `Below` is what the second level and memory together hold for a block.  Every operation of the second
 level is described by what it does to `Below`, whatever it evicts on the way.
 */
module CacheHierarchy {
  import opened Isa
  import opened CacheLevel

  // ------------------------------------------------------------------- memory

  function LoadBlock(m: Mem, b: nat): Block { seq(BLOCK_SIZE, i => m(BLOCK_SIZE * b + i)) }

  function StoreBlock(m: Mem, b: nat, d: Block): Mem {
    (x: int) => if BLOCK_SIZE * b <= x < BLOCK_SIZE * b + BLOCK_SIZE then d[x - BLOCK_SIZE * b] else m(x)
  }

  lemma LoadStored(m: Mem, b: nat, d: Block, x: nat)
    ensures LoadBlock(StoreBlock(m, b, d), x) == if x == b then d else LoadBlock(m, x)
  {
    assert forall i | 0 <= i < BLOCK_SIZE ::
      LoadBlock(StoreBlock(m, b, d), x)[i] == if x == b then d[i] else LoadBlock(m, x)[i];
  }

  // ------------------------------------------------------------- second level

  datatype Lower = Lower(l2: Cache, mem: Mem)

  ghost function Below(lo: Lower, x: nat): Block
    requires |lo.l2.sets| > 0
  {
    match Held(lo.l2, x)
    case Some(_, d) => d
    case None => LoadBlock(lo.mem, x)
  }

  /** Clean lines of the second level agree with memory. */
  ghost predicate LowerValid(lo: Lower) {
    && Valid(lo.l2)
    && forall x: nat :: Held(lo.l2, x).Some? && !Held(lo.l2, x).dirty ==> Held(lo.l2, x).data == LoadBlock(lo.mem, x)
  }

  /** Write a dirty victim of the second level back to memory. */
  function Evict(lo: Lower, b: nat, way: nat): Lower
    requires Valid(lo.l2) && way < lo.l2.w
  {
    var v := LineAt(lo.l2, b, way);
    if v.valid && v.dirty then
      lo.(mem := StoreBlock(lo.mem, BlockOf(lo.l2, Index(lo.l2, b), v.tag), v.data),
          l2 := lo.l2.(counters := lo.l2.counters.(evictions := lo.l2.counters.evictions + 1,
                                                   writebacks := lo.l2.counters.writebacks + 1)))
    else lo
  }

  /** The first level writes block `b` back. */
  function WriteL2(lo: Lower, b: nat, d: Block): Lower
    requires Valid(lo.l2)
  {
    var r := FindLine(lo.l2, b);
    if r.hit then Lower(Put(r.cache, b, r.way, LineAt(r.cache, b, r.way).(data := d, dirty := true)), lo.mem)
    else
      var e := Evict(Lower(r.cache, lo.mem), b, r.way);
      e.(l2 := Put(e.l2, b, r.way, Line(true, true, Tag(lo.l2, b), e.l2.timer, d)))
  }

  /** The first level asks for block `b`. */
  function ReadL2(lo: Lower, b: nat): (Lower, Block)
    requires Valid(lo.l2)
  {
    var r := FindLine(lo.l2, b);
    if r.hit then (Lower(r.cache, lo.mem), LineAt(r.cache, b, r.way).data)
    else
      var e := Evict(Lower(r.cache, lo.mem), b, r.way);
      var d := LoadBlock(e.mem, b);
      (e.(l2 := Put(e.l2, b, r.way, Line(true, false, Tag(lo.l2, b), e.l2.timer, d))), d)
  }

  /** Replacing a line of the second level, after the eviction, by a line for `b`, which it did not hold. */
  lemma Replaced(lo: Lower, b: nat, way: nat, l: Line)
    requires LowerValid(lo) && way < lo.l2.w && Held(lo.l2, b) == None && Match(l, Tag(lo.l2, b))
    ensures var e := Evict(lo, b, way);
      var t := e.(l2 := Put(e.l2, b, way, l));
      && Valid(t.l2) && Held(t.l2, b) == CopyOf(l) && LoadBlock(e.mem, b) == LoadBlock(lo.mem, b)
      && (forall x: nat | x != b :: Below(t, x) == Below(lo, x))
      && (forall x: nat | x != b && Held(t.l2, x).Some? && !Held(t.l2, x).dirty :: Held(t.l2, x).data == LoadBlock(t.mem, x))
  {
    var v := LineAt(lo.l2, b, way);
    var y := BlockOf(lo.l2, Index(lo.l2, b), v.tag);
    var e := Evict(lo, b, way);
    var t := e.(l2 := Put(e.l2, b, way, l));
    assert forall x: nat :: Held(e.l2, x) == Held(lo.l2, x);
    PutInstalls(e.l2, b, way, l);
    if v.valid {
      SameBlock(lo.l2, Index(lo.l2, b), v.tag);
      HeldAt(lo.l2, y, way);
      forall x: nat ensures LoadBlock(e.mem, x) == if v.dirty && x == y then v.data else LoadBlock(lo.mem, x) {
        if v.dirty { LoadStored(lo.mem, y, v.data, x); }
      }
    }
  }

  lemma FoundLower(lo: Lower, b: nat)
    requires LowerValid(lo)
    ensures var r := FindLine(lo.l2, b);
      var s := Lower(r.cache, lo.mem);
      LowerValid(s) && (forall x: nat :: Below(s, x) == Below(lo, x) && Held(s.l2, x) == Held(lo.l2, x))
  {
    FindKeeps(lo.l2, b);
  }

  /** A write-back changes what is below for that block and for no other, whatever it evicts. */
  lemma WriteL2Effect(lo: Lower, b: nat, d: Block)
    requires LowerValid(lo)
    ensures var t := WriteL2(lo, b, d);
      LowerValid(t) && forall x: nat :: Below(t, x) == if x == b then d else Below(lo, x)
  {
    var r := FindLine(lo.l2, b);
    FindKeeps(lo.l2, b);
    FoundLower(lo, b);
    if r.hit {
      PutUpdates(r.cache, b, r.way, LineAt(r.cache, b, r.way).(data := d, dirty := true));
    } else {
      Replaced(Lower(r.cache, lo.mem), b, r.way, Line(true, true, Tag(lo.l2, b), r.cache.timer, d));
    }
  }

  /** A read returns what is below and changes nothing of it, whatever it evicts. */
  lemma ReadL2Effect(lo: Lower, b: nat)
    requires LowerValid(lo)
    ensures var (t, d) := ReadL2(lo, b);
      LowerValid(t) && d == Below(lo, b) && forall x: nat :: Below(t, x) == Below(lo, x)
  {
    var r := FindLine(lo.l2, b);
    FindKeeps(lo.l2, b);
    FoundLower(lo, b);
    if !r.hit {
      var s := Lower(r.cache, lo.mem);
      var d := LoadBlock(Evict(s, b, r.way).mem, b);
      Replaced(s, b, r.way, Line(true, false, Tag(lo.l2, b), r.cache.timer, d));
    }
  }

  // -------------------------------------------------------------- first level

  datatype Fetch = Fetch(l1: Cache, lo: Lower)

  /** The victim's data goes down if it is dirty. */
  function WriteVictim(l1: Cache, lo: Lower, b: nat, way: nat): Lower
    requires Valid(l1) && way < l1.w && Valid(lo.l2)
  {
    var v := LineAt(l1, b, way);
    if v.valid && v.dirty then WriteL2(lo, BlockOf(l1, Index(l1, b), v.tag), v.data) else lo
  }

  function Evicted(c: Counters, v: Line): Counters {
    if !v.valid then c
    else c.(evictions := c.evictions + 1, writebacks := c.writebacks + if v.dirty then 1 else 0)
  }

  /** Bring block `b` into way `way` of the first level. */
  function FetchBlock(l1: Cache, lo: Lower, b: nat, way: nat): Fetch
    requires Valid(l1) && way < l1.w && Valid(lo.l2)
  {
    var (t, d) := ReadL2(WriteVictim(l1, lo, b, way), b);
    Fetch(Put(l1, b, way, Line(true, false, Tag(l1, b), l1.timer, d))
            .(counters := Evicted(l1.counters, LineAt(l1, b, way))), t)
  }

  /** Clean lines of the first level agree with what is below. */
  ghost predicate CleanAgrees(l1: Cache, lo: Lower)
    requires |l1.sets| > 0 && |lo.l2.sets| > 0
  {
    forall x: nat :: Held(l1, x).Some? && !Held(l1, x).dirty ==> Held(l1, x).data == Below(lo, x)
  }

  /** What a core with this first level sees of block `x`. */
  ghost function Sees(l1: Cache, lo: Lower, x: nat): Block
    requires |l1.sets| > 0 && |lo.l2.sets| > 0
  {
    if Held(l1, x).Some? && Held(l1, x).dirty then Held(l1, x).data else Below(lo, x)
  }

  ghost predicate LevelsValid(l1: Cache, lo: Lower) { Valid(l1) && LowerValid(lo) && CleanAgrees(l1, lo) }

  /** Only a dirty block that the first level held, the victim, changes below: it is written back. */
  ghost predicate OnlyVictimMoves(l1: Cache, lo: Lower, t: Fetch, b: nat)
    requires Valid(l1) && Valid(lo.l2) && Valid(t.l1) && Valid(t.lo.l2)
  {
    && (forall x: nat :: Below(t.lo, x) != Below(lo, x) ==> x != b && Held(l1, x).Some? && Held(l1, x).dirty)
    && (forall x: nat | x != b :: Held(t.l1, x) == Held(l1, x) || Held(t.l1, x) == None)
    && Held(t.l1, b) == Some(false, Below(lo, b))
    && (forall x: nat :: Sees(t.l1, t.lo, x) == Sees(l1, lo, x))
  }

  lemma VictimEffect(l1: Cache, lo: Lower, b: nat, way: nat)
    requires LevelsValid(l1, lo) && way < l1.w
    ensures var t := WriteVictim(l1, lo, b, way);
      && LowerValid(t)
      && (forall x: nat :: Below(t, x) == if Displaced(l1, b, way, x) then Sees(l1, lo, x) else Below(lo, x))
  {
    var v := LineAt(l1, b, way);
    var y := BlockOf(l1, Index(l1, b), v.tag);
    SameBlock(l1, Index(l1, b), v.tag);
    if v.valid {
      HeldAt(l1, y, way);
      if v.dirty { WriteL2Effect(lo, y, v.data); }
    }
  }

  lemma DisplacedHeld(l1: Cache, b: nat, way: nat, x: nat)
    requires Valid(l1) && way < l1.w && Displaced(l1, b, way, x)
    ensures Held(l1, x).Some?
  {
    SameBlock(l1, Index(l1, b), LineAt(l1, b, way).tag);
    HeldAt(l1, x, way);
  }

  lemma CountersIgnored(c: Cache, k: Counters)
    requires Valid(c)
    ensures Valid(c.(counters := k)) && forall x: nat :: Held(c.(counters := k), x) == Held(c, x)
  {
  }

  /** What fetching `b` into way `way` does to every block. */
  ghost predicate Fetched(l1: Cache, lo: Lower, t: Fetch, b: nat, way: nat)
    requires Valid(l1) && Valid(lo.l2) && way < l1.w
  {
    && Valid(t.l1) && LowerValid(t.lo)
    && t.l1.w == l1.w && t.l1.timer == l1.timer && |t.l1.sets| == |l1.sets|
    && (forall x: nat :: Below(t.lo, x) == if Displaced(l1, b, way, x) then Sees(l1, lo, x) else Below(lo, x))
    && (forall x: nat :: Held(t.l1, x) ==
          if x == b then Some(false, Below(t.lo, b)) else if Displaced(l1, b, way, x) then None else Held(l1, x))
  }

  lemma FetchIs(l1: Cache, lo: Lower, b: nat, way: nat)
    requires LevelsValid(l1, lo) && way < l1.w && Held(l1, b) == None
    ensures Fetched(l1, lo, FetchBlock(l1, lo, b, way), b, way)
  {
    VictimEffect(l1, lo, b, way);
    var s := WriteVictim(l1, lo, b, way);
    ReadL2Effect(s, b);
    var (r, d) := ReadL2(s, b);
    var l := Line(true, false, Tag(l1, b), l1.timer, d);
    PutInstalls(l1, b, way, l);
    CountersIgnored(Put(l1, b, way, l), Evicted(l1.counters, LineAt(l1, b, way)));
  }

  lemma FetchedMoves(l1: Cache, lo: Lower, t: Fetch, b: nat, way: nat)
    requires LevelsValid(l1, lo) && way < l1.w && Held(l1, b) == None && Fetched(l1, lo, t, b, way)
    ensures CleanAgrees(t.l1, t.lo) && OnlyVictimMoves(l1, lo, t, b)
  {
    forall x: nat | Displaced(l1, b, way, x) ensures Held(l1, x).Some? { DisplacedHeld(l1, b, way, x); }
  }

  /** Fetching a block that is not held brings in a clean copy of what the core sees, and changes
      nothing of what the core sees. */
  lemma FetchEffect(l1: Cache, lo: Lower, b: nat, way: nat)
    requires LevelsValid(l1, lo) && way < l1.w && Held(l1, b) == None
    ensures var t := FetchBlock(l1, lo, b, way);
      && LevelsValid(t.l1, t.lo) && OnlyVictimMoves(l1, lo, t, b)
      && t.l1.w == l1.w && t.l1.timer == l1.timer && |t.l1.sets| == |l1.sets|
  {
    FetchIs(l1, lo, b, way);
    FetchedMoves(l1, lo, FetchBlock(l1, lo, b, way), b, way);
  }

  lemma FetchedLine(l1: Cache, lo: Lower, b: nat, way: nat)
    requires Valid(l1) && Valid(lo.l2) && way < l1.w
    ensures var t := FetchBlock(l1, lo, b, way);
      && |t.l1.sets| == |l1.sets| && (forall i | 0 <= i < |l1.sets| :: |t.l1.sets[i].lines| == l1.w)
      && Match(LineAt(t.l1, b, way), Tag(l1, b)) && LineAt(t.l1, b, way).last == l1.timer
      && (forall k | 0 <= k < l1.w && k != way :: t.l1.sets[Index(l1, b)].lines[k] == LineAt(l1, b, k))
  {
  }
}
