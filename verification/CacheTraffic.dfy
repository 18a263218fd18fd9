/**
 What moves between the levels, and what the counters count.

 The second level replaces least recently used blocks too, over the blocks the first level asks it for and writes back
 to it.  The counters of hits and misses are the ones the stack distance predicts, and the others balance: every miss
 fills an empty line or evicts, and every miss and write-back of the first level is an access of the second.
 */
module CacheTraffic {
  import opened Isa
  import opened CacheLevel
  import opened CacheHierarchy
  import opened CacheAccess
  import opened CachePrefetch
  import opened CacheLru

  // --------------------------------------------------------- the second level

  /** What the first level asks of the second. */
  datatype LowOp = Refill(block: nat) | WriteBack(block: nat, data: Block)

  function Low(lo: Lower, o: LowOp): Lower
    requires Valid(lo.l2)
  {
    match o
    case Refill(b) => ReadL2(lo, b).0
    case WriteBack(b, d) => WriteL2(lo, b, d)
  }

  lemma LowFill(c: Cache, d: Cache, b: nat, l: Line)
    requires Valid(c) && !FindLine(c, b).hit && Match(l, Tag(c, b)) && l.last == c.timer + 1 && Valid(d)
    requires var r := FindLine(c, b); d == Put(r.cache, b, r.way, l).(counters := d.counters)
    ensures Accessed(c, d, b)
  {
  }

  lemma LowHit(c: Cache, d: Cache, b: nat, l: Line)
    requires Valid(c) && FindLine(c, b).hit && Match(l, Tag(c, b)) && l.last == c.timer + 1 && Valid(d)
    requires var r := FindLine(c, b); d == Put(r.cache, b, r.way, l)
    ensures Accessed(c, d, b)
  {
    FoundWay(c, b);
  }

  lemma LowLine(c: Cache, b: nat)
    requires Valid(c) && FindLine(c, b).hit
    ensures var r := FindLine(c, b);
      Match(LineAt(r.cache, b, r.way), Tag(c, b)) && LineAt(r.cache, b, r.way).last == c.timer + 1
      && Put(r.cache, b, r.way, LineAt(r.cache, b, r.way)) == r.cache
  {
    FoundWay(c, b);
    var r := FindLine(c, b);
    var i := Index(r.cache, b);
    assert r.cache.sets[i].lines[r.way := r.cache.sets[i].lines[r.way]] == r.cache.sets[i].lines;
    assert r.cache.sets[i := r.cache.sets[i]] == r.cache.sets;
  }

  lemma RefillAccesses(lo: Lower, b: nat)
    requires LowerValid(lo)
    ensures LowerValid(Low(lo, Refill(b))) && Accessed(lo.l2, Low(lo, Refill(b)).l2, b)
  {
    ReadL2Effect(lo, b);
    var r, t := FindLine(lo.l2, b), Low(lo, Refill(b)).l2;
    if r.hit {
      LowLine(lo.l2, b);
      LowHit(lo.l2, t, b, LineAt(r.cache, b, r.way));
    } else {
      var e := Evict(Lower(r.cache, lo.mem), b, r.way);
      LowFill(lo.l2, t, b, Line(true, false, Tag(lo.l2, b), e.l2.timer, LoadBlock(e.mem, b)));
    }
  }

  lemma WriteBackAccesses(lo: Lower, b: nat, d: Block)
    requires LowerValid(lo)
    ensures LowerValid(Low(lo, WriteBack(b, d))) && Accessed(lo.l2, Low(lo, WriteBack(b, d)).l2, b)
  {
    WriteL2Effect(lo, b, d);
    var r, t := FindLine(lo.l2, b), Low(lo, WriteBack(b, d)).l2;
    if r.hit {
      LowLine(lo.l2, b);
      LowHit(lo.l2, t, b, LineAt(r.cache, b, r.way).(data := d, dirty := true));
    } else {
      var e := Evict(Lower(r.cache, lo.mem), b, r.way);
      LowFill(lo.l2, t, b, Line(true, true, Tag(lo.l2, b), e.l2.timer, d));
    }
  }

  lemma LowAccesses(lo: Lower, o: LowOp)
    requires LowerValid(lo)
    ensures LowerValid(Low(lo, o)) && Accessed(lo.l2, Low(lo, o).l2, o.block)
  {
    match o
    case Refill(b) => RefillAccesses(lo, b);
    case WriteBack(b, d) => WriteBackAccesses(lo, b, d);
  }

  /** The second level after these accesses. */
  function AfterLow(lo: Lower, ops: seq<LowOp>): (t: Lower)
    requires LowerValid(lo)
    ensures LowerValid(t)
  {
    if ops == [] then lo
    else
      var r, o := AfterLow(lo, ops[..|ops| - 1]), ops[|ops| - 1];
      LowAccesses(r, o);
      Low(r, o)
  }

  function LowBlocks(ops: seq<LowOp>): (h: seq<nat>)
    ensures |h| == |ops| && forall k | 0 <= k < |ops| :: h[k] == ops[k].block
  {
    seq(|ops|, k requires 0 <= k < |ops| => ops[k].block)
  }

  lemma LowNextInv(r: Lower, t: Lower, h: seq<nat>, o: LowOp)
    requires LowerValid(r) && t == Low(r, o) && CacheLru.Inv(r.l2, h)
    ensures CacheLru.Inv(t.l2, h + [o.block]) && t.l2.w == r.l2.w && |t.l2.sets| == |r.l2.sets|
  {
    LowAccesses(r, o);
    AccessedKeeps(r.l2, t.l2, h, o.block);
  }

  lemma LowBlocksNext(ops: seq<LowOp>, o: LowOp)
    ensures LowBlocks(ops + [o]) == LowBlocks(ops) + [o.block]
  {
  }

  lemma {:induction false} LowInv(lo: Lower, ops: seq<LowOp>)
    requires LowerValid(lo) && Cold(lo.l2) && lo.l2.timer == 0
    ensures var c := AfterLow(lo, ops).l2;
      CacheLru.Inv(c, LowBlocks(ops)) && c.w == lo.l2.w && |c.sets| == |lo.l2.sets|
  {
    if ops == [] {
      ColdInv(lo.l2);
      assert LowBlocks(ops) == [];
    } else {
      var before, o := ops[..|ops| - 1], ops[|ops| - 1];
      LowInv(lo, before);
      LowNextInv(AfterLow(lo, before), AfterLow(lo, ops), LowBlocks(before), o);
      LowBlocksNext(before, o);
      assert ops == before + [o];
    }
  }

  /** The stack-distance theorem for the second level: after any refills and write-backs from a cold start, an access
      to block `b` hits exactly if it was accessed before and fewer than `w` other blocks of the set have been since. */
  lemma LowStackDistance(lo: Lower, ops: seq<LowOp>, b: nat)
    requires LowerValid(lo) && Cold(lo.l2) && lo.l2.timer == 0
    ensures FindLine(AfterLow(lo, ops).l2, b).hit <==>
      b in LowBlocks(ops) && |Since(LowBlocks(ops), b, |lo.l2.sets|)| < lo.l2.w
  {
    LowInv(lo, ops);
    HeldWhenRecent(AfterLow(lo, ops).l2, LowBlocks(ops), b);
  }

  // ---------------------------------------------- what the first level asks for

  /** The accesses of the second level that one access of the first makes: none on a hit; on a miss the victim, if it
      is dirty, is written back, and then the block is asked for. */
  ghost function Asks(s: Fetch, o: Op): seq<LowOp>
    requires LevelsValid(s.l1, s.lo)
  {
    var b := BlockNo(o.addr);
    var r := FindLine(s.l1, b);
    if r.hit then []
    else
      var v := LineAt(s.l1, b, r.way);
      (if v.valid && v.dirty then [WriteBack(BlockOf(s.l1, Index(s.l1, b), v.tag), v.data)] else []) + [Refill(b)]
  }

  lemma TwoLow(lo: Lower, a: LowOp, b: LowOp)
    requires LowerValid(lo)
    ensures AfterLow(lo, []) == lo && AfterLow(lo, [a]) == Low(lo, a)
    ensures LowerValid(Low(lo, a)) && AfterLow(lo, [a, b]) == Low(Low(lo, a), b)
  {
    LowAccesses(lo, a);
    assert [a][..0] == [];
    assert [a, b][..1] == [a];
  }

  /** One access of the first level changes the second by those accesses. */
  lemma ServeAsks(s: Fetch, o: Op)
    requires LevelsValid(s.l1, s.lo) && Fits(o)
    ensures Serve(s, o, NO_HINT).0.lo == AfterLow(s.lo, Asks(s, o))
  {
    var b := BlockNo(o.addr);
    var r := FindLine(s.l1, b);
    FoundLevels(s.l1, s.lo, b);
    if !r.hit {
      var v := LineAt(s.l1, b, r.way);
      assert LineAt(r.cache, b, r.way) == v;
      var w := WriteBack(BlockOf(s.l1, Index(s.l1, b), v.tag), v.data);
      TwoLow(s.lo, w, Refill(b));
      TwoLow(s.lo, Refill(b), Refill(b));
      FetchAsks(s.l1, r.cache, s.lo, b, r.way);
    }
  }

  lemma FetchAsks(l1: Cache, c: Cache, lo: Lower, b: nat, way: nat)
    requires Valid(l1) && Valid(c) && LowerValid(lo) && way < c.w == l1.w && c.sets == l1.sets
    requires LevelsValid(c, lo) && Held(c, b) == None
    ensures var v := LineAt(l1, b, way);
      var w := WriteBack(BlockOf(l1, Index(l1, b), v.tag), v.data);
      && Valid(Low(lo, w).l2)
      && FetchBlock(c, lo, b, way).lo == Low(if v.valid && v.dirty then Low(lo, w) else lo, Refill(b))
  {
    var v := LineAt(l1, b, way);
    LowAccesses(lo, WriteBack(BlockOf(l1, Index(l1, b), v.tag), v.data));
  }

  // ------------------------------------------------------------ hits and misses

  /** The access to `b` finds it, by its distance in the accesses `h` before it. */
  ghost predicate Recent(h: seq<nat>, b: nat, sets: nat, w: nat)
    requires sets > 0
  {
    b in h && |Since(h, b, sets)| < w
  }

  /** How many of the accesses `h`, from a cold start, find their block. */
  ghost function HitCount(h: seq<nat>, sets: nat, w: nat): nat
    requires sets > 0
  {
    if h == [] then 0
    else HitCount(h[..|h| - 1], sets, w) + if Recent(h[..|h| - 1], h[|h| - 1], sets, w) then 1 else 0
  }

  lemma ServeCounts(s: Fetch, o: Op)
    requires LevelsValid(s.l1, s.lo) && Fits(o)
    ensures var t, hit := Serve(s, o, NO_HINT).0, FindLine(s.l1, BlockNo(o.addr)).hit;
      && t.l1.counters.hits == s.l1.counters.hits + (if hit then 1 else 0)
      && t.l1.counters.misses == s.l1.counters.misses + (if hit then 0 else 1)
  {
  }

  /** The counters of the first level are what the program's accesses make them: hits are the accesses whose block is
      recent enough, misses the others. */
  lemma HitNext(h: seq<nat>, b: nat, sets: nat, w: nat)
    requires sets > 0
    ensures HitCount(h + [b], sets, w) == HitCount(h, sets, w) + if Recent(h, b, sets, w) then 1 else 0
  {
    assert (h + [b])[..|h|] == h;
  }

  lemma CountsNext(r: Fetch, o: Op, h: seq<nat>, sets: nat, w: nat)
    requires LevelsValid(r.l1, r.lo) && Fits(o) && sets > 0
    requires FindLine(r.l1, BlockNo(o.addr)).hit <==> Recent(h, BlockNo(o.addr), sets, w)
    requires r.l1.counters.hits == HitCount(h, sets, w) && r.l1.counters.hits + r.l1.counters.misses == |h|
    ensures var c := Serve(r, o, NO_HINT).0.l1.counters;
      c.hits == HitCount(h + [BlockNo(o.addr)], sets, w) && c.hits + c.misses == |h| + 1
  {
    ServeCounts(r, o);
    HitNext(h, BlockNo(o.addr), sets, w);
  }

  lemma {:induction false} HitsExact(s: Fetch, ops: seq<Op>)
    requires LevelsValid(s.l1, s.lo) && Cold(s.l1) && s.l1.timer == 0 && forall k | 0 <= k < |ops| :: Fits(ops[k])
    requires s.l1.counters.hits == s.l1.counters.misses == 0
    ensures var c := After(s, ops).l1.counters;
      c.hits == HitCount(Blocks(ops), |s.l1.sets|, s.l1.w) && c.hits + c.misses == |ops|
  {
    if ops == [] {
      assert Blocks(ops) == [];
    } else {
      var before, o := ops[..|ops| - 1], ops[|ops| - 1];
      HitsExact(s, before);
      StackDistance(s, before, o.addr);
      CountsNext(After(s, before), o, Blocks(before), |s.l1.sets|, s.l1.w);
      BlocksNext(before, o);
      assert ops == before + [o];
    }
  }

  // ---------------------------------------------------------------- the balance

  function One(b: bool): nat { if b then 1 else 0 }

  /** How many of the first `n` lines hold a block. */
  function ValidLines(lines: seq<Line>, n: nat): nat
    requires n <= |lines|
  {
    if n == 0 then 0 else ValidLines(lines, n - 1) + One(lines[n - 1].valid)
  }

  function Filled(sets: seq<CacheSet>, n: nat): nat
    requires n <= |sets|
  {
    if n == 0 then 0 else Filled(sets, n - 1) + ValidLines(sets[n - 1].lines, |sets[n - 1].lines|)
  }

  lemma {:induction false} LineReplaced(lines: seq<Line>, way: nat, l: Line, n: nat)
    requires way < |lines| && n <= |lines|
    ensures ValidLines(lines[way := l], n) + (if way < n then One(lines[way].valid) else 0) ==
      ValidLines(lines, n) + (if way < n then One(l.valid) else 0)
  {
    if n > 0 { LineReplaced(lines, way, l, n - 1); }
  }

  lemma {:induction false} SetReplaced(sets: seq<CacheSet>, i: nat, x: CacheSet, n: nat)
    requires i < |sets| && n <= |sets|
    ensures Filled(sets[i := x], n) + (if i < n then ValidLines(sets[i].lines, |sets[i].lines|) else 0) ==
      Filled(sets, n) + (if i < n then ValidLines(x.lines, |x.lines|) else 0)
  {
    if n > 0 { SetReplaced(sets, i, x, n - 1); }
  }

  function BlockCount(c: Cache): nat { Filled(c.sets, |c.sets|) }

  lemma PutCounts(c: Cache, b: nat, way: nat, l: Line)
    requires Valid(c) && way < c.w
    ensures BlockCount(Put(c, b, way, l)) + One(LineAt(c, b, way).valid) == BlockCount(c) + One(l.valid)
  {
    var i := Index(c, b);
    assert SetValid(c.sets[i], c.w);
    LineReplaced(c.sets[i].lines, way, l, c.w);
    SetReplaced(c.sets, i, c.sets[i].(lines := c.sets[i].lines[way := l]), |c.sets|);
  }

  lemma FindCounts(c: Cache, b: nat)
    requires Valid(c)
    ensures BlockCount(FindLine(c, b).cache) == BlockCount(c)
  {
    var i, r := Index(c, b), FindLine(c, b);
    if r.hit {
      var x := c.sets[i];
      FoundWay(c, b);
      LineReplaced(x.lines, r.way, x.lines[r.way].(last := c.timer + 1), c.w);
      SetReplaced(c.sets, i, r.cache.sets[i], |c.sets|);
    }
  }

  /** The first level: every miss so far has filled an empty line or evicted a block. */
  ghost predicate FillsBalance(c: Cache) { c.counters.misses == c.counters.evictions + BlockCount(c) }

  /** The second: it has been accessed once for every miss and every write-back of the first, and what it evicts it
      writes to memory. */
  ghost predicate LowBalances(s: Fetch) {
    && s.lo.l2.counters.hits + s.lo.l2.counters.misses == s.l1.counters.misses + s.l1.counters.writebacks
    && s.lo.l2.counters.evictions == s.lo.l2.counters.writebacks
  }

  lemma FetchFills(c: Cache, lo: Lower, b: nat, way: nat)
    requires Valid(c) && Valid(lo.l2) && way < c.w && c.counters.misses == c.counters.evictions + BlockCount(c) + 1
    ensures FillsBalance(FetchBlock(c, lo, b, way).l1)
  {
    var (t, d) := ReadL2(WriteVictim(c, lo, b, way), b);
    PutCounts(c, b, way, Line(true, false, Tag(c, b), c.timer, d));
  }

  lemma LocateFills(l1: Cache, lo: Lower, a: nat)
    requires LevelsValid(l1, lo) && FillsBalance(l1)
    ensures FillsBalance(Locate(l1, lo, a, NO_HINT).l1)
  {
    var r := FindLine(l1, BlockNo(a));
    FindCounts(l1, BlockNo(a));
    if !r.hit { FetchFills(r.cache, lo, BlockNo(a), r.way); }
  }

  lemma ServeFills(s: Fetch, o: Op)
    requires LevelsValid(s.l1, s.lo) && Fits(o) && FillsBalance(s.l1)
    ensures FillsBalance(Serve(s, o, NO_HINT).0.l1)
  {
    LocateFills(s.l1, s.lo, o.addr);
    if o.Write? {
      var r := Locate(s.l1, s.lo, o.addr, NO_HINT);
      var l := LineAt(r.l1, BlockNo(o.addr), r.way);
      PutCounts(r.l1, BlockNo(o.addr), r.way, l.(data := Patch(l.data, Offset(o.addr), o.len, o.value), dirty := true));
    }
  }

  lemma LowCounts(lo: Lower, o: LowOp)
    requires Valid(lo.l2)
    ensures var c, d := lo.l2.counters, Low(lo, o).l2.counters;
      d.hits + d.misses == c.hits + c.misses + 1 && d.evictions - c.evictions == d.writebacks - c.writebacks
  {
  }

  lemma ServeLowCounts(s: Fetch, o: Op)
    requires LevelsValid(s.l1, s.lo) && Fits(o)
    ensures var t := Serve(s, o, NO_HINT).0;
      t.l1.counters.misses + t.l1.counters.writebacks == s.l1.counters.misses + s.l1.counters.writebacks + |Asks(s, o)|
  {
    var r := FindLine(s.l1, BlockNo(o.addr));
    assert !r.hit ==> LineAt(r.cache, BlockNo(o.addr), r.way) == LineAt(s.l1, BlockNo(o.addr), r.way);
  }

  lemma {:induction false} AfterLowCounts(lo: Lower, ops: seq<LowOp>)
    requires LowerValid(lo)
    ensures var c, d := lo.l2.counters, AfterLow(lo, ops).l2.counters;
      d.hits + d.misses == c.hits + c.misses + |ops| && d.evictions - c.evictions == d.writebacks - c.writebacks
  {
    if ops != [] {
      AfterLowCounts(lo, ops[..|ops| - 1]);
      LowCounts(AfterLow(lo, ops[..|ops| - 1]), ops[|ops| - 1]);
    }
  }

  /** The counters balance after any reads and writes from cold caches. */
  lemma {:induction false} CountersBalance(s: Fetch, ops: seq<Op>)
    requires LevelsValid(s.l1, s.lo) && forall k | 0 <= k < |ops| :: Fits(ops[k])
    requires FillsBalance(s.l1) && LowBalances(s)
    ensures FillsBalance(After(s, ops).l1) && LowBalances(After(s, ops))
  {
    if ops != [] {
      var before, o := ops[..|ops| - 1], ops[|ops| - 1];
      var r := After(s, before);
      CountersBalance(s, before);
      ServeFills(r, o);
      ServeLowCounts(r, o);
      ServeAsks(r, o);
      AfterLowCounts(r.lo, Asks(r, o));
    }
  }

  /** They do at the start. */
  lemma ColdBalances(s: Fetch)
    requires Empty(s.l1) && s.l1.counters == Counters(0, 0, 0, 0) && s.lo.l2.counters == Counters(0, 0, 0, 0)
    ensures FillsBalance(s.l1) && LowBalances(s)
  {
    NoneFilled(s.l1, |s.l1.sets|);
  }

  lemma {:induction false} NoneValid(lines: seq<Line>, n: nat)
    requires n <= |lines| && forall k | 0 <= k < |lines| :: !lines[k].valid
    ensures ValidLines(lines, n) == 0
  {
    if n > 0 { NoneValid(lines, n - 1); }
  }

  lemma {:induction false} NoneFilled(c: Cache, n: nat)
    requires Empty(c) && n <= |c.sets|
    ensures Filled(c.sets, n) == 0
  {
    if n > 0 {
      NoneFilled(c, n - 1);
      NoneValid(c.sets[n - 1].lines, |c.sets[n - 1].lines|);
    }
  }

  // ----------------------------------------------------------------- shortcuts

  /** A lookup that hits remembers the way for the next one; one that misses changes no set. */
  lemma FindRemembers(c: Cache, b: nat)
    requires Valid(c)
    ensures var r := FindLine(c, b);
      && (r.hit ==> r.cache.sets[Index(c, b)].mru == r.way) && (!r.hit ==> r.cache.sets == c.sets)
      && (forall i | 0 <= i < |c.sets| && i != Index(c, b) :: r.cache.sets[i] == c.sets[i])
  {
  }
}
