/**
 The stack-distance theorem for least recently used replacement.

 With nothing but reads and writes, from a cold cache, an access hits exactly when its block was accessed
 before and fewer than `w` distinct other blocks of the same set have been accessed since.
 */
module CacheLru {
  import opened Isa
  import opened CacheLevel
  import opened CacheHierarchy
  import opened CacheAccess
  import opened CachePrefetch

  // ------------------------------------------------------------------ history

  /** When block `x` was last accessed, counting from 1; 0 for never. */
  function LastUse(h: seq<nat>, x: nat): (k: nat)
    ensures k <= |h| && (k > 0 ==> h[k - 1] == x)
    ensures k == 0 ==> x !in h
  {
    if h == [] then 0 else if h[|h| - 1] == x then |h| else LastUse(h[..|h| - 1], x)
  }

  /** The distinct blocks of the same set accessed after block `b` was last accessed. */
  function Since(h: seq<nat>, b: nat, sets: nat): set<nat>
    requires sets > 0
  {
    set x | x in h[LastUse(h, b)..] && x % sets == b % sets
  }

  lemma {:induction false} UsedAfter(h: seq<nat>, x: nat, k: nat)
    requires k <= |h|
    ensures x in h[k..] <==> LastUse(h, x) > k
  {
    if k < |h| {
      var g := h[..|h| - 1];
      assert h[k..] == g[k..] + [h[|h| - 1]];
      UsedAfter(g, x, k);
    }
  }

  lemma UseDistinct(h: seq<nat>, x: nat, y: nat)
    requires LastUse(h, x) == LastUse(h, y) > 0
    ensures x == y
  {
  }

  lemma LastUseNext(h: seq<nat>, b: nat, x: nat)
    ensures LastUse(h + [b], x) == if x == b then |h| + 1 else LastUse(h, x)
  {
    assert (h + [b])[..|h|] == h;
  }

  // ---------------------------------------------------------------- one access

  /** What reading or writing block `b` does to validity, tags and stamps; data and dirty bits may change. */
  ghost predicate Accessed(c: Cache, d: Cache, b: nat)
    requires Valid(c)
  {
    var r := FindLine(c, b);
    var i := Index(c, b);
    && Valid(d) && d.w == c.w && |d.sets| == |c.sets| && d.timer == c.timer + 1
    && (forall j | 0 <= j < |c.sets| && j != i :: d.sets[j].lines == c.sets[j].lines)
    && (forall k | 0 <= k < c.w && k != r.way :: SameStamp(d.sets[i].lines[k], c.sets[i].lines[k]))
    && Match(d.sets[i].lines[r.way], Tag(c, b)) && d.sets[i].lines[r.way].last == c.timer + 1
  }

  predicate SameStamp(l: Line, m: Line) { l.valid == m.valid && l.tag == m.tag && l.last == m.last }

  /** A read is one access. */
  lemma ReadAccesses(l1: Cache, lo: Lower, a: nat)
    requires LevelsValid(l1, lo)
    ensures Accessed(l1, Locate(l1, lo, a, NO_HINT).l1, BlockNo(a))
  {
    FindKeeps(l1, BlockNo(a));
    var r := FindLine(l1, BlockNo(a));
    FoundLevels(l1, lo, BlockNo(a));
    if !r.hit {
      FetchRefills(r.cache, lo, BlockNo(a), r.way);
      FetchedLine(r.cache, lo, BlockNo(a), r.way);
    }
  }

  /** A write is one access, and leaves the levels valid. */
  lemma WriteAccesses(l1: Cache, lo: Lower, a: nat, len: nat, v: Word)
    requires LevelsValid(l1, lo) && WithinBlock(a, len)
    ensures Accessed(l1, WriteLine(Locate(l1, lo, a, NO_HINT), a, len, v), BlockNo(a))
    ensures LevelsValid(WriteLine(Locate(l1, lo, a, NO_HINT), a, len, v), Locate(l1, lo, a, NO_HINT).lo)
  {
    ReadAccesses(l1, lo, a);
    var r := Locate(l1, lo, a, NO_HINT);
    var l := LineAt(r.l1, BlockNo(a), r.way);
    PutUpdates(r.l1, BlockNo(a), r.way, l.(data := Patch(l.data, Offset(a), len, v), dirty := true));
  }

  /** So any access served without prefetching is one. */
  lemma ServeAccesses(s: Fetch, o: Op)
    requires LevelsValid(s.l1, s.lo) && Fits(o)
    ensures var t := Serve(s, o, NO_HINT).0;
      LevelsValid(t.l1, t.lo) && Accessed(s.l1, t.l1, BlockNo(o.addr))
  {
    if o.Read? { ReadAccesses(s.l1, s.lo, o.addr); } else { WriteAccesses(s.l1, s.lo, o.addr, o.len, o.value); }
  }

  // ---------------------------------------------------------------- invariant

  /** The stamp of a line is the time its block was last accessed. */
  ghost predicate StampRight(c: Cache, h: seq<nat>, i: nat, l: Line) {
    if l.valid then l.last > 0 && l.last == LastUse(h, BlockOf(c, i, l.tag)) else l.last == 0
  }

  ghost predicate Stamps(c: Cache, h: seq<nat>)
    requires Valid(c)
  {
    forall i, k | 0 <= i < |c.sets| && 0 <= k < c.w :: StampRight(c, h, i, c.sets[i].lines[k])
  }

  /** All lines of the set of `b` were used after `b`. */
  ghost predicate Outlived(c: Cache, h: seq<nat>, b: nat)
    requires Valid(c)
  {
    forall k | 0 <= k < c.w :: c.sets[Index(c, b)].lines[k].valid && c.sets[Index(c, b)].lines[k].last > LastUse(h, b)
  }

  /** A block that was accessed and is not held has been outlived by a full set. */
  ghost predicate RecentHeld(c: Cache, h: seq<nat>)
    requires Valid(c)
  {
    forall b: nat :: LastUse(h, b) > 0 && Held(c, b) == None ==> Outlived(c, h, b)
  }

  ghost predicate Inv(c: Cache, h: seq<nat>) { Valid(c) && c.timer == |h| && Stamps(c, h) && RecentHeld(c, h) }

  lemma FoundWay(c: Cache, b: nat)
    requires Valid(c)
    ensures var r := FindLine(c, b);
      && r.hit == Held(c, b).Some?
      && (r.hit ==> Match(c.sets[Index(c, b)].lines[r.way], Tag(c, b)))
      && (!r.hit ==> r.way == Lru(c.sets[Index(c, b)].lines, c.w))
  {
    ShortcutAgrees(c.sets[Index(c, b)], c.w, Tag(c, b));
  }

  lemma AccessedStamps(c: Cache, d: Cache, h: seq<nat>, b: nat)
    requires Inv(c, h) && Accessed(c, d, b)
    ensures Stamps(d, h + [b])
  {
    var r := FindLine(c, b);
    FoundWay(c, b);
    forall i, k | 0 <= i < |d.sets| && 0 <= k < d.w ensures StampRight(d, h + [b], i, d.sets[i].lines[k]) {
      AccessedStamp(c, d, h, b, i, k);
    }
  }

  lemma UsedStamp(c: Cache, d: Cache, h: seq<nat>, b: nat)
    requires Inv(c, h) && Accessed(c, d, b)
    ensures StampRight(d, h + [b], Index(c, b), d.sets[Index(c, b)].lines[FindLine(c, b).way])
  {
    LastUseNext(h, b, b);
    BlockNumber(c, b);
  }

  lemma StampCarries(c: Cache, d: Cache, h: seq<nat>, b: nat, i: nat, l: Line, m: Line)
    requires |d.sets| == |c.sets| && SameStamp(m, l) && StampRight(c, h, i, l)
    requires l.valid ==> BlockOf(c, i, l.tag) != b
    ensures StampRight(d, h + [b], i, m)
  {
    var x := BlockOf(c, i, l.tag);
    assert BlockOf(d, i, m.tag) == x;
    LastUseNext(h, b, x);
  }

  lemma OtherStamp(c: Cache, d: Cache, h: seq<nat>, b: nat, i: nat, k: nat)
    requires Inv(c, h) && Valid(d) && |d.sets| == |c.sets| && d.w == c.w && i < |c.sets| && k < c.w
    requires SameStamp(d.sets[i].lines[k], c.sets[i].lines[k]) && (i != Index(c, b) || k != FindLine(c, b).way)
    ensures StampRight(d, h + [b], i, d.sets[i].lines[k])
  {
    var l := c.sets[i].lines[k];
    if l.valid { OtherLine(c, b, i, k); }
    StampCarries(c, d, h, b, i, l, d.sets[i].lines[k]);
  }

  lemma AccessedStamp(c: Cache, d: Cache, h: seq<nat>, b: nat, i: nat, k: nat)
    requires Inv(c, h) && Accessed(c, d, b) && i < |d.sets| && k < d.w
    ensures StampRight(d, h + [b], i, d.sets[i].lines[k])
  {
    if i == Index(c, b) && k == FindLine(c, b).way {
      UsedStamp(c, d, h, b);
    } else {
      OtherStamp(c, d, h, b, i, k);
    }
  }

  /** A line other than the one an access to `b` uses does not hold `b`. */
  lemma OtherLine(c: Cache, b: nat, i: nat, k: nat)
    requires Valid(c) && i < |c.sets| && k < c.w && c.sets[i].lines[k].valid
    requires i != Index(c, b) || k != FindLine(c, b).way
    ensures BlockOf(c, i, c.sets[i].lines[k].tag) != b
  {
    SameBlock(c, i, c.sets[i].lines[k].tag);
    FoundWay(c, b);
    if i == Index(c, b) && !FindLine(c, b).hit { assert !Match(c.sets[i].lines[k], Tag(c, b)); }
  }

  /** The victim of a miss, if it held a block, is outlived by all other lines of a full set. */
  lemma VictimOldest(c: Cache, h: seq<nat>, i: nat)
    requires Inv(c, h) && i < |c.sets| && c.sets[i].lines[Lru(c.sets[i].lines, c.w)].valid
    ensures var v := Lru(c.sets[i].lines, c.w);
      forall k | 0 <= k < c.w && k != v :: c.sets[i].lines[k].valid && c.sets[i].lines[k].last > c.sets[i].lines[v].last
  {
    var lines := c.sets[i].lines;
    var v := Lru(lines, c.w);
    assert StampRight(c, h, i, lines[v]);
    forall k | 0 <= k < c.w && k != v ensures lines[k].valid && lines[k].last > lines[v].last {
      assert StampRight(c, h, i, lines[k]) && lines[v].last <= lines[k].last;
      SameBlock(c, i, lines[k].tag);
      SameBlock(c, i, lines[v].tag);
      assert SetValid(c.sets[i], c.w);
      if lines[k].last == lines[v].last {
        UseDistinct(h, BlockOf(c, i, lines[k].tag), BlockOf(c, i, lines[v].tag));
      }
    }
  }

  /** A block held before the access and not after it was the victim. */
  lemma Lost(c: Cache, d: Cache, b: nat, x: nat) returns (v: nat)
    requires Valid(c) && Accessed(c, d, b) && Held(c, x).Some? && Held(d, x) == None
    ensures Index(c, x) == Index(c, b) && !FindLine(c, b).hit && v == FindLine(c, b).way < c.w
    ensures Match(c.sets[Index(c, b)].lines[v], Tag(c, x))
  {
    var i := Index(c, x);
    v := Scan(c.sets[i].lines, Tag(c, x), 0);
    FoundWay(c, b);
    if i != Index(c, b) || v != FindLine(c, b).way {
      assert Match(d.sets[i].lines[v], Tag(c, x));
      HeldAt(d, x, v);
      assert false;
    }
    if FindLine(c, b).hit {
      HeldAt(d, x, v);
      assert false;
    }
  }

  lemma AccessedOutlived(c: Cache, d: Cache, h: seq<nat>, b: nat, x: nat)
    requires Inv(c, h) && Accessed(c, d, b) && LastUse(h + [b], x) > 0 && Held(d, x) == None
    ensures Outlived(d, h + [b], x)
  {
    LastUseNext(h, b, x);
    HeldAt(d, b, FindLine(c, b).way);
    var i := Index(c, x);
    if Held(c, x) == None {
      assert Outlived(c, h, x);
      OutlivedStill(c, d, h, b, x);
    } else {
      var v := Lost(c, d, b, x);
      FoundWay(c, b);
      VictimOldest(c, h, i);
      BlockNumber(c, x);
      assert StampRight(c, h, i, c.sets[i].lines[v]);
    }
  }

  lemma OutlivedStill(c: Cache, d: Cache, h: seq<nat>, b: nat, x: nat)
    requires Inv(c, h) && Accessed(c, d, b) && x != b && Outlived(c, h, x)
    ensures Outlived(d, h + [b], x)
  {
    LastUseNext(h, b, x);
    var i := Index(c, x);
    forall k | 0 <= k < d.w ensures d.sets[i].lines[k].valid && d.sets[i].lines[k].last > LastUse(h + [b], x) {
      assert c.sets[i].lines[k].valid && c.sets[i].lines[k].last > LastUse(h, x);
      if i == Index(c, b) && k != FindLine(c, b).way { assert SameStamp(d.sets[i].lines[k], c.sets[i].lines[k]); }
    }
  }

  lemma AccessedKeeps(c: Cache, d: Cache, h: seq<nat>, b: nat)
    requires Inv(c, h) && Accessed(c, d, b)
    ensures Inv(d, h + [b])
  {
    AccessedStamps(c, d, h, b);
    forall x: nat | LastUse(h + [b], x) > 0 && Held(d, x) == None ensures Outlived(d, h + [b], x) {
      AccessedOutlived(c, d, h, b, x);
    }
  }

  // ----------------------------------------------------------------- counting

  /** The blocks held by the first `n` ways of set `i`, way `skip` left out. */
  function HeldBlocks(c: Cache, i: nat, n: nat, skip: int): (s: set<nat>)
    requires Valid(c) && i < |c.sets| && n <= c.w
    ensures |s| <= if 0 <= skip < n then n - 1 else n
  {
    if n == 0 then {}
    else if n - 1 == skip then HeldBlocks(c, i, n - 1, skip)
    else HeldBlocks(c, i, n - 1, skip) + {BlockOf(c, i, c.sets[i].lines[n - 1].tag)}
  }

  lemma {:induction false} InHeldBlocks(c: Cache, i: nat, n: nat, skip: int, x: nat)
    requires Valid(c) && i < |c.sets| && n <= c.w
    ensures x in HeldBlocks(c, i, n, skip) <==>
      exists k: nat :: k < n && k != skip && x == BlockOf(c, i, c.sets[i].lines[k].tag)
  {
    if n > 0 { InHeldBlocks(c, i, n - 1, skip, x); }
  }

  lemma WaysDistinct(c: Cache, i: nat, k: nat, m: nat)
    requires Valid(c) && i < |c.sets| && k < m < c.w && c.sets[i].lines[k].valid && c.sets[i].lines[m].valid
    ensures BlockOf(c, i, c.sets[i].lines[k].tag) != BlockOf(c, i, c.sets[i].lines[m].tag)
  {
    SameBlock(c, i, c.sets[i].lines[k].tag);
    SameBlock(c, i, c.sets[i].lines[m].tag);
    assert SetValid(c.sets[i], c.w);
  }

  lemma NotYetCounted(c: Cache, i: nat, n: nat)
    requires Valid(c) && i < |c.sets| && n < c.w && forall k | 0 <= k < c.w :: c.sets[i].lines[k].valid
    ensures BlockOf(c, i, c.sets[i].lines[n].tag) !in HeldBlocks(c, i, n, -1)
  {
    var x := BlockOf(c, i, c.sets[i].lines[n].tag);
    InHeldBlocks(c, i, n, -1, x);
    forall k: nat | k < n ensures x != BlockOf(c, i, c.sets[i].lines[k].tag) { WaysDistinct(c, i, k, n); }
  }

  lemma {:induction false} FullSetCount(c: Cache, i: nat, n: nat)
    requires Valid(c) && i < |c.sets| && n <= c.w && forall k | 0 <= k < c.w :: c.sets[i].lines[k].valid
    ensures |HeldBlocks(c, i, n, -1)| == n
  {
    if n > 0 {
      FullSetCount(c, i, n - 1);
      NotYetCounted(c, i, n - 1);
    }
  }

  /** A held block has fewer than `w` blocks after it. */
  lemma HeldIsRecent(c: Cache, h: seq<nat>, b: nat)
    requires Inv(c, h) && Held(c, b).Some?
    ensures b in h && |Since(h, b, |c.sets|)| < c.w
  {
    var i := Index(c, b);
    var v := Scan(c.sets[i].lines, Tag(c, b), 0);
    BlockNumber(c, b);
    assert StampRight(c, h, i, c.sets[i].lines[v]);
    forall x | x in Since(h, b, |c.sets|) ensures x in HeldBlocks(c, i, c.w, v) {
      UsedAfter(h, x, LastUse(h, b));
      NewerIsHeld(c, h, b, v, x);
    }
    Subsize(Since(h, b, |c.sets|), HeldBlocks(c, i, c.w, v));
  }

  lemma NewerIsHeld(c: Cache, h: seq<nat>, b: nat, v: nat, x: nat)
    requires Inv(c, h) && v < c.w && Match(c.sets[Index(c, b)].lines[v], Tag(c, b))
    requires Index(c, x) == Index(c, b) && LastUse(h, x) > LastUse(h, b)
    ensures x in HeldBlocks(c, Index(c, b), c.w, v)
  {
    var i := Index(c, b);
    BlockNumber(c, b);
    BlockNumber(c, x);
    assert StampRight(c, h, i, c.sets[i].lines[v]);
    assert !Outlived(c, h, x);
    assert Held(c, x).Some?;
    var k := Scan(c.sets[i].lines, Tag(c, x), 0);
    InHeldBlocks(c, i, c.w, v, x);
  }

  /** A block that was accessed and is not held has at least `w` blocks after it. */
  lemma LostIsOld(c: Cache, h: seq<nat>, b: nat)
    requires Inv(c, h) && Held(c, b) == None && b in h
    ensures |Since(h, b, |c.sets|)| >= c.w
  {
    var i := Index(c, b);
    UsedAfter(h, b, 0);
    assert h[0..] == h;
    assert Outlived(c, h, b);
    FullSetCount(c, i, c.w);
    forall x | x in HeldBlocks(c, i, c.w, -1) ensures x in Since(h, b, |c.sets|) {
      InHeldBlocks(c, i, c.w, -1, x);
      var k: nat :| k < c.w && k != -1 && x == BlockOf(c, i, c.sets[i].lines[k].tag);
      assert StampRight(c, h, i, c.sets[i].lines[k]);
      SameBlock(c, i, c.sets[i].lines[k].tag);
      UsedAfter(h, x, LastUse(h, b));
    }
    Subsize(HeldBlocks(c, i, c.w, -1), Since(h, b, |c.sets|));
  }

  // --------------------------------------------------------------------- runs

  /** The levels after the accesses `ops`, without prefetching. */
  function After(s: Fetch, ops: seq<Op>): (t: Fetch)
    requires LevelsValid(s.l1, s.lo) && forall k | 0 <= k < |ops| :: Fits(ops[k])
    ensures LevelsValid(t.l1, t.lo)
  {
    if ops == [] then s
    else
      var r, o := After(s, ops[..|ops| - 1]), ops[|ops| - 1];
      ServeAccesses(r, o);
      Serve(r, o, NO_HINT).0
  }

  /** The blocks accessed, in order. */
  function Blocks(ops: seq<Op>): (h: seq<nat>)
    ensures |h| == |ops| && forall k | 0 <= k < |ops| :: h[k] == BlockNo(ops[k].addr)
  {
    seq(|ops|, k requires 0 <= k < |ops| => BlockNo(ops[k].addr))
  }

  lemma ColdInv(c: Cache)
    requires Cold(c) && c.timer == 0
    ensures Inv(c, [])
  {
  }

  lemma ServedInv(r: Fetch, t: Fetch, h: seq<nat>, o: Op)
    requires LevelsValid(r.l1, r.lo) && Fits(o) && t == Serve(r, o, NO_HINT).0 && Inv(r.l1, h)
    ensures Inv(t.l1, h + [BlockNo(o.addr)]) && t.l1.w == r.l1.w && |t.l1.sets| == |r.l1.sets|
  {
    ServeAccesses(r, o);
    AccessedKeeps(r.l1, t.l1, h, BlockNo(o.addr));
  }

  lemma BlocksNext(ops: seq<Op>, o: Op)
    ensures Blocks(ops + [o]) == Blocks(ops) + [BlockNo(o.addr)]
  {
  }

  lemma {:induction false} AfterInv(s: Fetch, ops: seq<Op>)
    requires LevelsValid(s.l1, s.lo) && Cold(s.l1) && s.l1.timer == 0 && forall k | 0 <= k < |ops| :: Fits(ops[k])
    ensures var c := After(s, ops).l1;
      Inv(c, Blocks(ops)) && c.w == s.l1.w && |c.sets| == |s.l1.sets|
  {
    if ops == [] {
      ColdInv(s.l1);
      assert Blocks(ops) == [];
    } else {
      var before, o := ops[..|ops| - 1], ops[|ops| - 1];
      AfterInv(s, before);
      ServedInv(After(s, before), After(s, ops), Blocks(before), o);
      BlocksNext(before, o);
      assert ops == before + [o];
    }
  }

  lemma HeldWhenRecent(c: Cache, h: seq<nat>, b: nat)
    requires Inv(c, h)
    ensures FindLine(c, b).hit <==> b in h && |Since(h, b, |c.sets|)| < c.w
  {
    FoundWay(c, b);
    if Held(c, b).Some? { HeldIsRecent(c, h, b); } else if b in h { LostIsOld(c, h, b); }
  }

  /** The stack-distance theorem: after any reads and writes from a cold start, an access to address `a` hits
      exactly if its block was accessed before and fewer than `w` other blocks of the set have been since. */
  lemma StackDistance(s: Fetch, ops: seq<Op>, a: nat)
    requires LevelsValid(s.l1, s.lo) && Cold(s.l1) && s.l1.timer == 0 && forall k | 0 <= k < |ops| :: Fits(ops[k])
    ensures FindLine(After(s, ops).l1, BlockNo(a)).hit <==>
      BlockNo(a) in Blocks(ops) && |Since(Blocks(ops), BlockNo(a), |s.l1.sets|)| < s.l1.w
  {
    AfterInv(s, ops);
    HeldWhenRecent(After(s, ops).l1, Blocks(ops), BlockNo(a));
  }
}
