/**
 Two cores with private first levels over a shared second level.

 Whatever the interleaving of reads and writes of the two cores, and whatever is evicted on the way,
 the caches are indistinguishable from flat byte memory.
 */
module CacheCoherence {
  import opened Isa
  import opened CacheLevel
  import opened CacheHierarchy
  import opened CacheAccess

  // ---------------------------------------------------------------- invariant

  predicate Dirty(c: Copy) { c.Some? && c.dirty }

  /** A block dirty in `p` is not in `q` at all. */
  ghost predicate Exclusive(p: Cache, q: Cache)
    requires |p.sets| > 0 && |q.sets| > 0
  {
    forall x: nat :: Dirty(Held(p, x)) ==> Held(q, x) == None
  }

  /** The coherence invariant, for the core that acts and the other. */
  ghost predicate Coherent(me: Cache, other: Cache, lo: Lower) {
    && LevelsValid(me, lo) && LevelsValid(other, lo)
    && Exclusive(me, other) && Exclusive(other, me)
  }

  /** The bytes of block `x` last written by anyone. */
  ghost function Visible(me: Cache, other: Cache, lo: Lower, x: nat): Block
    requires |me.sets| > 0 && |other.sets| > 0 && |lo.l2.sets| > 0
  {
    if Dirty(Held(me, x)) then Held(me, x).data
    else if Dirty(Held(other, x)) then Held(other, x).data
    else Below(lo, x)
  }

  ghost predicate SameView(me: Cache, other: Cache, lo: Lower, me': Cache, other': Cache, lo': Lower)
    requires |me.sets| > 0 && |other.sets| > 0 && |lo.l2.sets| > 0
    requires |me'.sets| > 0 && |other'.sets| > 0 && |lo'.l2.sets| > 0
  {
    forall x: nat :: Visible(me', other', lo', x) == Visible(me, other, lo, x)
  }

  lemma Symmetric(me: Cache, other: Cache, lo: Lower)
    requires Coherent(me, other, lo)
    ensures Coherent(other, me, lo) && forall x: nat :: Visible(me, other, lo, x) == Visible(other, me, lo, x)
  {
  }

  // ----------------------------------------------------------------- snooping

  function WaysOf(c: Cache, b: nat): (k: int)
    requires Valid(c)
    ensures -1 <= k < c.w
    ensures k >= 0 ==> Match(LineAt(c, b, k), Tag(c, b))
  {
    Scan(c.sets[Index(c, b)].lines, Tag(c, b), 0)
  }

  function Counted(c: Cache): Cache { c.(counters := c.counters.(writebacks := c.counters.writebacks + 1)) }

  /** Before another core reads `b`: a dirty copy is written back and stays, clean. */
  function SnoopFlush(c: Cache, lo: Lower, b: nat): Fetch
    requires Valid(c) && Valid(lo.l2)
  {
    var k := WaysOf(c, b);
    if k >= 0 && LineAt(c, b, k).dirty then
      Fetch(Counted(Put(c, b, k, LineAt(c, b, k).(dirty := false))), WriteL2(lo, b, LineAt(c, b, k).data))
    else Fetch(c, lo)
  }

  /** Before another core writes `b`: the copy goes, written back if it is dirty. */
  function SnoopInvalidate(c: Cache, lo: Lower, b: nat): Fetch
    requires Valid(c) && Valid(lo.l2)
  {
    var k := WaysOf(c, b);
    if k < 0 then Fetch(c, lo)
    else
      var l := LineAt(c, b, k);
      var d := Put(c, b, k, l.(valid := false, dirty := false));
      if l.dirty then Fetch(Counted(d), WriteL2(lo, b, l.data)) else Fetch(d, lo)
  }

  /** `t` differs from `(c, lo)` in block `b` only: its copy is `keep`, and what was dirty is below. */
  ghost predicate Snooped(c: Cache, lo: Lower, t: Fetch, b: nat, keep: Copy)
    requires Valid(c) && Valid(lo.l2)
  {
    && Valid(t.l1) && LowerValid(t.lo) && t.l1.w == c.w && |t.l1.sets| == |c.sets|
    && (forall x: nat :: Held(t.l1, x) == if x == b then keep else Held(c, x))
    && (forall x: nat :: Below(t.lo, x) == if x == b then Sees(c, lo, b) else Below(lo, x))
  }

  lemma FlushSnoops(c: Cache, lo: Lower, b: nat)
    requires LevelsValid(c, lo)
    ensures Snooped(c, lo, SnoopFlush(c, lo, b), b, if Dirty(Held(c, b)) then Held(c, b).(dirty := false) else Held(c, b))
  {
    var k := WaysOf(c, b);
    if k >= 0 && LineAt(c, b, k).dirty {
      var l := LineAt(c, b, k);
      PutUpdates(c, b, k, l.(dirty := false));
      CountersIgnored(Put(c, b, k, l.(dirty := false)), Counted(Put(c, b, k, l.(dirty := false))).counters);
      WriteL2Effect(lo, b, l.data);
    }
  }

  lemma InvalidateSnoops(c: Cache, lo: Lower, b: nat)
    requires LevelsValid(c, lo)
    ensures Snooped(c, lo, SnoopInvalidate(c, lo, b), b, None)
  {
    var k := WaysOf(c, b);
    if k >= 0 {
      var l := LineAt(c, b, k);
      var d := Put(c, b, k, l.(valid := false, dirty := false));
      PutDrops(c, b, k, l.(valid := false, dirty := false));
      CountersIgnored(d, Counted(d).counters);
      if l.dirty { WriteL2Effect(lo, b, l.data); }
    }
  }

  /** A snoop counts a write-back exactly if the copy is dirty. */
  lemma SnoopCounts(c: Cache, lo: Lower, b: nat)
    requires Valid(c) && Valid(lo.l2)
    ensures SnoopFlush(c, lo, b).l1.counters ==
      c.counters.(writebacks := c.counters.writebacks + if Dirty(Held(c, b)) then 1 else 0)
    ensures SnoopInvalidate(c, lo, b).l1.counters ==
      c.counters.(writebacks := c.counters.writebacks + if Dirty(Held(c, b)) then 1 else 0)
  {
  }

  /** Snooping the other core keeps coherence and changes nothing anyone can see. */
  lemma SnoopKeeps(me: Cache, other: Cache, lo: Lower, t: Fetch, b: nat, keep: Copy)
    requires Coherent(me, other, lo) && Snooped(other, lo, t, b, keep)
    requires keep == None || (Held(other, b).Some? && keep == Some(false, Held(other, b).data))
    ensures Coherent(me, t.l1, t.lo) && SameView(me, other, lo, me, t.l1, t.lo)
    ensures Held(t.l1, b) == keep
  {
  }

  // ---------------------------------------------------------------- accessing

  /** Fetching keeps coherence as long as the other core has no dirty copy. */
  lemma FetchCoherent(me: Cache, other: Cache, lo: Lower, t: Fetch, b: nat)
    requires Coherent(me, other, lo) && Held(me, b) == None && !Dirty(Held(other, b))
    requires Valid(t.l1) && Valid(t.lo.l2) && LevelsValid(t.l1, t.lo) && OnlyVictimMoves(me, lo, t, b)
    ensures Coherent(t.l1, other, t.lo) && SameView(me, other, lo, t.l1, other, t.lo)
  {
    forall x: nat ensures Visible(t.l1, other, t.lo, x) == Visible(me, other, lo, x) {
      assert Sees(t.l1, t.lo, x) == Sees(me, lo, x);
    }
  }

  lemma FoundCoherent(me: Cache, other: Cache, lo: Lower, b: nat)
    requires Coherent(me, other, lo)
    ensures Coherent(FindLine(me, b).cache, other, lo)
    ensures SameView(me, other, lo, FindLine(me, b).cache, other, lo)
    ensures Held(FindLine(me, b).cache, b) == Held(me, b) && FindLine(me, b).hit == Held(me, b).Some?
  {
    FindKeeps(me, b);
  }

  /** What `Locate` leaves: coherence, the same view, and a line with the visible bytes. */
  ghost predicate Located(me: Cache, other: Cache, lo: Lower, r: Access, a: nat)
    requires |me.sets| > 0 && |other.sets| > 0 && |lo.l2.sets| > 0
  {
    && Coherent(r.l1, other, r.lo) && SameView(me, other, lo, r.l1, other, r.lo)
    && r.way < r.l1.w && Match(LineAt(r.l1, BlockNo(a), r.way), Tag(r.l1, BlockNo(a)))
    && LineAt(r.l1, BlockNo(a), r.way).data == Visible(me, other, lo, BlockNo(a))
  }

  lemma HitLocated(me: Cache, other: Cache, lo: Lower, a: nat)
    requires Coherent(me, other, lo) && Held(me, BlockNo(a)).Some?
    ensures Located(me, other, lo, Locate(me, lo, a, NO_HINT), a)
  {
    FoundCoherent(me, other, lo, BlockNo(a));
    FindKeeps(me, BlockNo(a));
  }

  lemma MissLocated(me: Cache, other: Cache, lo: Lower, a: nat)
    requires Coherent(me, other, lo) && Held(me, BlockNo(a)) == None && !Dirty(Held(other, BlockNo(a)))
    ensures Located(me, other, lo, Locate(me, lo, a, NO_HINT), a)
  {
    var b := BlockNo(a);
    var r := FindLine(me, b);
    FoundCoherent(me, other, lo, b);
    FetchEffect(r.cache, lo, b, r.way);
    var t := FetchBlock(r.cache, lo, b, r.way);
    FetchCoherent(r.cache, other, lo, t, b);
    FetchedLine(r.cache, lo, b, r.way);
    HeldAt(t.l1, b, r.way);
  }

  lemma LocateKeeps(me: Cache, other: Cache, lo: Lower, a: nat)
    requires Coherent(me, other, lo) && !Dirty(Held(other, BlockNo(a)))
    ensures Located(me, other, lo, Locate(me, lo, a, NO_HINT), a)
  {
    if Held(me, BlockNo(a)).Some? { HitLocated(me, other, lo, a); } else { MissLocated(me, other, lo, a); }
  }

  // ------------------------------------------------------------ reads and writes

  datatype Smp = Smp(me: Cache, other: Cache, lo: Lower)

  ghost predicate Ok(s: Smp) { Coherent(s.me, s.other, s.lo) }

  function Swap(s: Smp): Smp { Smp(s.other, s.me, s.lo) }

  /** The caches show flat memory `m`. */
  ghost predicate Mirrors(s: Smp, m: Mem)
    requires Ok(s)
  {
    forall x: nat :: Shows(m, x, Visible(s.me, s.other, s.lo, x))
  }

  /** A read by core `me`: the other core's dirty copy is flushed, then the line is located. */
  function ReadBy(s: Smp, a: nat, len: nat): (r: (Smp, nat))
    requires Ok(s) && WithinBlock(a, len)
    ensures Ok(r.0)
  {
    var t := SnoopFlush(s.other, s.lo, BlockNo(a));
    FlushKeeps(s, BlockNo(a));
    LocateKeeps(s.me, t.l1, t.lo, a);
    var l := Locate(s.me, t.lo, a, NO_HINT);
    (Smp(l.l1, t.l1, l.lo), ReadLine(l, a, len))
  }

  /** A write by core `me`: the other core's copy goes, then the line is located and written. */
  function WriteBy(s: Smp, a: nat, len: nat, v: Word): (r: Smp)
    requires Ok(s) && WithinBlock(a, len)
    ensures Ok(r)
  {
    var t := SnoopInvalidate(s.other, s.lo, BlockNo(a));
    InvalidateKeeps(s, BlockNo(a));
    LocateKeeps(s.me, t.l1, t.lo, a);
    var l := Locate(s.me, t.lo, a, NO_HINT);
    WriteKeeps(l.l1, t.l1, l.lo, l.way, a, len, v);
    Smp(WriteLine(l, a, len, v), t.l1, l.lo)
  }

  lemma FlushKeeps(s: Smp, b: nat)
    requires Ok(s)
    ensures var t := SnoopFlush(s.other, s.lo, b);
      Coherent(s.me, t.l1, t.lo) && SameView(s.me, s.other, s.lo, s.me, t.l1, t.lo) && !Dirty(Held(t.l1, b))
  {
    FlushSnoops(s.other, s.lo, b);
    var keep := if Dirty(Held(s.other, b)) then Held(s.other, b).(dirty := false) else Held(s.other, b);
    SnoopKeeps(s.me, s.other, s.lo, SnoopFlush(s.other, s.lo, b), b, keep);
  }

  lemma InvalidateKeeps(s: Smp, b: nat)
    requires Ok(s)
    ensures var t := SnoopInvalidate(s.other, s.lo, b);
      Coherent(s.me, t.l1, t.lo) && SameView(s.me, s.other, s.lo, s.me, t.l1, t.lo) && Held(t.l1, b) == None
  {
    InvalidateSnoops(s.other, s.lo, b);
    SnoopKeeps(s.me, s.other, s.lo, SnoopInvalidate(s.other, s.lo, b), b, None);
  }

  /** Writing into a line keeps coherence if the other core has no copy, and changes what is visible
      of that block only. */
  lemma WriteKeeps(me: Cache, other: Cache, lo: Lower, way: nat, a: nat, len: nat, v: Word)
    requires Coherent(me, other, lo) && Held(other, BlockNo(a)) == None && WithinBlock(a, len)
    requires way < me.w && Match(LineAt(me, BlockNo(a), way), Tag(me, BlockNo(a)))
    ensures var c := WriteLine(Access(me, lo, way), a, len, v);
      && Coherent(c, other, lo)
      && (forall x: nat :: Visible(c, other, lo, x) ==
            if x == BlockNo(a) then Patch(LineAt(me, x, way).data, Offset(a), len, v) else Visible(me, other, lo, x))
  {
    var l := LineAt(me, BlockNo(a), way);
    PutUpdates(me, BlockNo(a), way, l.(data := Patch(l.data, Offset(a), len, v), dirty := true));
  }

  /** A read returns the bytes last written by anyone, and changes nothing anyone can see. */
  lemma ReadByRight(s: Smp, m: Mem, a: nat, len: nat)
    requires Ok(s) && Mirrors(s, m) && WithinBlock(a, len)
    ensures ReadBy(s, a, len).1 == LoadRaw(m, a, len) && Mirrors(ReadBy(s, a, len).0, m)
  {
    var t := SnoopFlush(s.other, s.lo, BlockNo(a));
    FlushKeeps(s, BlockNo(a));
    LocateKeeps(s.me, t.l1, t.lo, a);
    var r := ReadBy(s, a, len).0;
    assert SameView(s.me, s.other, s.lo, r.me, r.other, r.lo);
    AssembleIsLoad(m, Visible(s.me, s.other, s.lo, BlockNo(a)), a, len);
  }

  /** A write is a store into flat memory. */
  lemma WriteByRight(s: Smp, m: Mem, a: nat, len: nat, v: Word)
    requires Ok(s) && Mirrors(s, m) && WithinBlock(a, len)
    ensures Mirrors(WriteBy(s, a, len, v), Store(m, a, v, len))
  {
    var t := SnoopInvalidate(s.other, s.lo, BlockNo(a));
    InvalidateKeeps(s, BlockNo(a));
    LocateKeeps(s.me, t.l1, t.lo, a);
    var l := Locate(s.me, t.lo, a, NO_HINT);
    WriteKeeps(l.l1, t.l1, l.lo, l.way, a, len, v);
    PatchIsStore(m, Visible(s.me, s.other, s.lo, BlockNo(a)), a, len, v);
    StoredMirrors(s, WriteBy(s, a, len, v), m, a, len, v);
  }

  /** After a read the reader holds the block, and the other core holds what it held, the block read no longer dirty. */
  lemma ReadCopies(s: Smp, a: nat, len: nat, x: nat)
    requires Ok(s) && WithinBlock(a, len)
    ensures var t := ReadBy(s, a, len).0;
      && Held(t.me, BlockNo(a)).Some?
      && Held(t.other, x).Some? == Held(s.other, x).Some?
      && (Held(s.other, x).Some? ==>
            Held(t.other, x) == Some(x != BlockNo(a) && Held(s.other, x).dirty, Held(s.other, x).data))
  {
    var b := BlockNo(a);
    var t := SnoopFlush(s.other, s.lo, b);
    FlushKeeps(s, b);
    FlushSnoops(s.other, s.lo, b);
    LocateKeeps(s.me, t.l1, t.lo, a);
    var l := Locate(s.me, t.lo, a, NO_HINT);
    HeldAt(l.l1, b, l.way);
  }

  /** After a write the writer holds the block, dirty, and the other core has lost it and nothing else. */
  lemma WriteCopies(s: Smp, a: nat, len: nat, v: Word, x: nat)
    requires Ok(s) && WithinBlock(a, len)
    ensures var t := WriteBy(s, a, len, v);
      && Dirty(Held(t.me, BlockNo(a)))
      && Held(t.other, x) == if x == BlockNo(a) then None else Held(s.other, x)
  {
    var b := BlockNo(a);
    var t := SnoopInvalidate(s.other, s.lo, b);
    InvalidateKeeps(s, b);
    InvalidateSnoops(s.other, s.lo, b);
    LocateKeeps(s.me, t.l1, t.lo, a);
    var l := Locate(s.me, t.lo, a, NO_HINT);
    var y := LineAt(l.l1, b, l.way);
    PutUpdates(l.l1, b, l.way, y.(data := Patch(y.data, Offset(a), len, v), dirty := true));
  }

  lemma StoredMirrors(s: Smp, t: Smp, m: Mem, a: nat, len: nat, v: Word)
    requires Ok(s) && Ok(t) && Mirrors(s, m) && WithinBlock(a, len)
    requires forall x: nat :: (Visible(t.me, t.other, t.lo, x) ==
      if x == BlockNo(a) then Patch(Visible(s.me, s.other, s.lo, x), Offset(a), len, v) else Visible(s.me, s.other, s.lo, x))
    ensures Mirrors(t, Store(m, a, v, len))
  {
    PatchIsStore(m, Visible(s.me, s.other, s.lo, BlockNo(a)), a, len, v);
    forall x: nat ensures Shows(Store(m, a, v, len), x, Visible(t.me, t.other, t.lo, x)) {
      assert Shows(m, x, Visible(s.me, s.other, s.lo, x));
    }
  }

  // --------------------------------------------------------------------- runs

  /** An access, and which of the two cores makes it. */
  datatype CoreOp = CoreOp(first: bool, op: Op)

  /** The accesses, whoever makes them. */
  function Plain(ops: seq<CoreOp>): seq<Op> { if ops == [] then [] else [ops[0].op] + Plain(ops[1..]) }

  /** One access by either core, and the value it returns (0 for a write). */
  function Perform(s: Smp, c: CoreOp): (r: (Smp, nat))
    requires Ok(s) && Fits(c.op)
    ensures Ok(r.0)
  {
    Symmetric(s.me, s.other, s.lo);
    var t, o := if c.first then s else Swap(s), c.op;
    var (u, v) := if o.Read? then ReadBy(t, o.addr, o.len) else (WriteBy(t, o.addr, o.len, o.value), 0);
    Symmetric(u.me, u.other, u.lo);
    (if c.first then u else Swap(u), v)
  }

  lemma SwapMirrors(s: Smp, m: Mem)
    requires Ok(s) && Mirrors(s, m)
    ensures Ok(Swap(s)) && Mirrors(Swap(s), m)
  {
    Symmetric(s.me, s.other, s.lo);
    forall x: nat ensures Shows(m, x, Visible(s.other, s.me, s.lo, x)) {
      assert Shows(m, x, Visible(s.me, s.other, s.lo, x));
    }
  }

  lemma PerformRight(s: Smp, m: Mem, c: CoreOp)
    requires Ok(s) && Mirrors(s, m) && Fits(c.op)
    ensures Perform(s, c).1 == Reference(m, c.op).1 && Mirrors(Perform(s, c).0, Reference(m, c.op).0)
  {
    SwapMirrors(s, m);
    var t, o := if c.first then s else Swap(s), c.op;
    if o.Read? {
      ReadByRight(t, m, o.addr, o.len);
      SwapMirrors(ReadBy(t, o.addr, o.len).0, m);
    } else {
      WriteByRight(t, m, o.addr, o.len, o.value);
      SwapMirrors(WriteBy(t, o.addr, o.len, o.value), Store(m, o.addr, o.value, o.len));
    }
  }

  /** The values all accesses return, in order. */
  function Answers(s: Smp, ops: seq<CoreOp>): seq<nat>
    requires Ok(s) && forall k | 0 <= k < |ops| :: Fits(ops[k].op)
    decreases |ops|
  {
    if ops == [] then [] else [Perform(s, ops[0]).1] + Answers(Perform(s, ops[0]).0, ops[1..])
  }

  /** Coherence over every interleaving: the two cores cannot tell the caches from flat memory. */
  lemma {:induction false} Indistinguishable(s: Smp, m: Mem, ops: seq<CoreOp>)
    requires Ok(s) && Mirrors(s, m) && forall k | 0 <= k < |ops| :: Fits(ops[k].op)
    ensures Answers(s, ops) == FlatAnswers(m, Plain(ops))
    decreases |ops|
  {
    if ops != [] {
      PerformRight(s, m, ops[0]);
      Indistinguishable(Perform(s, ops[0]).0, Reference(m, ops[0].op).0, ops[1..]);
    }
  }

  // -------------------------------------------------------------------- start

  /** Cold caches over memory `m` are coherent and show `m`. */
  lemma ColdStart(s: Smp)
    requires Empty(s.me) && Empty(s.other) && Empty(s.lo.l2)
    ensures Ok(s) && Mirrors(s, s.lo.mem)
  {
    EmptyHolds(s.me);
    EmptyHolds(s.other);
    EmptyHolds(s.lo.l2);
    forall x: nat ensures Shows(s.lo.mem, x, Visible(s.me, s.other, s.lo, x)) {
      assert Visible(s.me, s.other, s.lo, x) == LoadBlock(s.lo.mem, x);
    }
  }

  /** From cold caches, every interleaving of reads and writes of the two cores returns what flat
      memory returns: each read, the bytes last written by anyone. */
  lemma Coherence(s: Smp, ops: seq<CoreOp>)
    requires Empty(s.me) && Empty(s.other) && Empty(s.lo.l2)
    requires forall k | 0 <= k < |ops| :: Fits(ops[k].op)
    ensures Ok(s) && Answers(s, ops) == FlatAnswers(s.lo.mem, Plain(ops))
  {
    ColdStart(s);
    Indistinguishable(s, s.lo.mem, ops);
  }
}
