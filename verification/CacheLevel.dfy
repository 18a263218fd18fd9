/**
 One level of set-associative cache on values: lookup with the most-recently-used shortcut, least
 recently used replacement, and installing, updating and invalidating a line.

 A block is named by its number, address divided by the block size.
 */
module CacheLevel {
  import opened Isa
  import opened Arith

  const BLOCK_SIZE := 64

  type Block = b: seq<Byte> | |b| == BLOCK_SIZE witness seq(BLOCK_SIZE, _ => 0)

  datatype Line = Line(valid: bool, dirty: bool, tag: nat, last: nat, data: Block)

  datatype CacheSet = CacheSet(lines: seq<Line>, mru: int)

  datatype Counters = Counters(hits: nat, misses: nat, evictions: nat, writebacks: nat)

  datatype Cache = Cache(w: nat, sets: seq<CacheSet>, timer: nat, counters: Counters)

  predicate Match(l: Line, tag: nat) { l.valid && l.tag == tag }

  /** Every set has `w` ways, and no two of its valid lines have the same tag. */
  predicate SetValid(x: CacheSet, w: nat) {
    && |x.lines| == w && -1 <= x.mru < w
    && forall i, k | 0 <= i < k < w && x.lines[i].valid && x.lines[k].valid :: x.lines[i].tag != x.lines[k].tag
  }

  predicate Valid(c: Cache) {
    && c.w > 0 && |c.sets| > 0
    && (forall i | 0 <= i < |c.sets| :: SetValid(c.sets[i], c.w))
  }

  function Index(c: Cache, b: nat): (i: nat)
    requires |c.sets| > 0
    ensures i < |c.sets|
  {
    b % |c.sets|
  }

  function Tag(c: Cache, b: nat): nat
    requires |c.sets| > 0
  {
    b / |c.sets|
  }

  /** The block a line of set `i` holds. */
  function BlockOf(c: Cache, i: nat, tag: nat): nat { tag * |c.sets| + i }

  lemma BlockNumber(c: Cache, b: nat)
    requires |c.sets| > 0
    ensures BlockOf(c, Index(c, b), Tag(c, b)) == b
  {
  }

  lemma SameBlock(c: Cache, i: nat, tag: nat)
    requires i < |c.sets|
    ensures Index(c, BlockOf(c, i, tag)) == i && Tag(c, BlockOf(c, i, tag)) == tag
  {
    Remainder(BlockOf(c, i, tag), |c.sets|, tag, i);
  }

  // ------------------------------------------------------------------- lookup

  /** The first way at or after `i` that holds `tag`, or -1. */
  function Scan(lines: seq<Line>, tag: nat, i: nat): (k: int)
    requires i <= |lines|
    ensures -1 <= k < |lines|
    ensures k >= 0 ==> k >= i && Match(lines[k], tag)
    ensures k == -1 ==> forall m | i <= m < |lines| :: !Match(lines[m], tag)
    decreases |lines| - i
  {
    if i == |lines| then -1 else if Match(lines[i], tag) then i else Scan(lines, tag, i + 1)
  }

  /** The least recently used of the first `i` ways, the lowest way winning a tie. */
  function Lru(lines: seq<Line>, i: nat): (k: nat)
    requires 0 < i <= |lines|
    ensures k < i
    ensures forall m | 0 <= m < i :: lines[k].last <= lines[m].last
    ensures forall m | 0 <= m < k :: lines[k].last < lines[m].last
  {
    if i == 1 then 0
    else
      var k := Lru(lines, i - 1);
      if lines[i - 1].last < lines[k].last then i - 1 else k
  }

  /** Where `tag` is, looking at the most recently used way first. */
  function Lookup(x: CacheSet, tag: nat): (k: int)
    requires -1 <= x.mru < |x.lines|
    ensures -1 <= k < |x.lines|
  {
    if x.mru >= 0 && Match(x.lines[x.mru], tag) then x.mru else Scan(x.lines, tag, 0)
  }

  /** The shortcut agrees with the full scan. */
  lemma ShortcutAgrees(x: CacheSet, w: nat, tag: nat)
    requires SetValid(x, w)
    ensures Lookup(x, tag) == Scan(x.lines, tag, 0)
  {
  }

  datatype Found = Found(cache: Cache, way: nat, hit: bool)

  /** The line for block `b`, or the line to replace. */
  function FindLine(c: Cache, b: nat): (r: Found)
    requires Valid(c)
    ensures |r.cache.sets| == |c.sets| && r.way < r.cache.w == c.w && Valid(r.cache)
  {
    var i := Index(c, b);
    var x := c.sets[i];
    var k := Lookup(x, Tag(c, b));
    if k >= 0 then
      Found(c.(timer := c.timer + 1, counters := c.counters.(hits := c.counters.hits + 1),
               sets := c.sets[i := CacheSet(x.lines[k := x.lines[k].(last := c.timer + 1)], k)]), k, true)
    else
      Found(c.(timer := c.timer + 1, counters := c.counters.(misses := c.counters.misses + 1)),
            Lru(x.lines, |x.lines|), false)
  }

  /** The same without counting the access or refreshing the line. */
  function FindQuiet(c: Cache, b: nat): (r: Found)
    requires Valid(c)
    ensures |r.cache.sets| == |c.sets| && r.way < r.cache.w == c.w && Valid(r.cache)
  {
    var i := Index(c, b);
    var x := c.sets[i];
    var k := Lookup(x, Tag(c, b));
    if k >= 0 then Found(c.(sets := c.sets[i := x.(mru := k)]), k, true)
    else Found(c, Lru(x.lines, |x.lines|), false)
  }

  function LineAt(c: Cache, b: nat, way: nat): Line
    requires |c.sets| > 0 && way < |c.sets[Index(c, b)].lines|
  {
    c.sets[Index(c, b)].lines[way]
  }

  /** Overwrite way `way` of the set of block `b`. */
  function Put(c: Cache, b: nat, way: nat, l: Line): Cache
    requires |c.sets| > 0 && way < |c.sets[Index(c, b)].lines|
  {
    var i := Index(c, b);
    c.(sets := c.sets[i := c.sets[i].(lines := c.sets[i].lines[way := l])])
  }

  // ------------------------------------------------------------------- copies

  datatype Copy = None | Some(dirty: bool, data: Block)

  function CopyOf(l: Line): Copy { Some(l.dirty, l.data) }

  /** The copy of block `b` that the cache holds. */
  ghost function Held(c: Cache, b: nat): Copy
    requires |c.sets| > 0
  {
    var x := c.sets[Index(c, b)];
    var k := Scan(x.lines, Tag(c, b), 0);
    if k >= 0 then CopyOf(x.lines[k]) else None
  }

  lemma HeldAt(c: Cache, b: nat, k: nat)
    requires Valid(c) && k < c.w && Match(LineAt(c, b, k), Tag(c, b))
    ensures Held(c, b) == CopyOf(LineAt(c, b, k)) && Scan(c.sets[Index(c, b)].lines, Tag(c, b), 0) == k
  {
  }

  lemma NotHeld(c: Cache, b: nat)
    requires |c.sets| > 0
    requires var ls := c.sets[Index(c, b)].lines; forall k | 0 <= k < |ls| :: !Match(ls[k], Tag(c, b))
    ensures Held(c, b) == None
  {
  }

  /** Looking up leaves every copy as it is and tells whether the block is held, and where. */
  lemma FindKeeps(c: Cache, b: nat)
    requires Valid(c)
    ensures var r := FindLine(c, b);
      && Valid(r.cache) && r.hit == Held(c, b).Some?
      && (forall x: nat :: Held(r.cache, x) == Held(c, x))
      && (r.hit ==> Match(LineAt(r.cache, b, r.way), Tag(c, b)) && CopyOf(LineAt(r.cache, b, r.way)) == Held(c, b))
  {
    var r := FindLine(c, b);
    ShortcutAgrees(c.sets[Index(c, b)], c.w, Tag(c, b));
    FoundValid(c, b);
    forall x: nat ensures Held(r.cache, x) == Held(c, x) { FoundHeld(c, b, x); }
  }

  lemma FoundValid(c: Cache, b: nat)
    requires Valid(c)
    ensures Valid(FindLine(c, b).cache)
  {
    var d := FindLine(c, b).cache;
    forall i | 0 <= i < |d.sets| ensures SetValid(d.sets[i], c.w) { assert SetValid(c.sets[i], c.w); }
  }

  lemma ScanSame(a: seq<Line>, d: seq<Line>, tag: nat, i: nat)
    requires |a| == |d| && i <= |a|
    requires forall k | 0 <= k < |a| :: a[k].valid == d[k].valid && a[k].tag == d[k].tag
    ensures Scan(a, tag, i) == Scan(d, tag, i)
    decreases |a| - i
  {
  }

  lemma FoundHeld(c: Cache, b: nat, x: nat)
    requires Valid(c)
    ensures Held(FindLine(c, b).cache, x) == Held(c, x)
  {
    var d := FindLine(c, b).cache;
    ScanSame(c.sets[Index(c, x)].lines, d.sets[Index(c, x)].lines, Tag(c, x), 0);
  }

  lemma QuietKeeps(c: Cache, b: nat)
    requires Valid(c)
    ensures var r := FindQuiet(c, b);
      && Valid(r.cache) && r.hit == Held(c, b).Some? && (forall x: nat :: Held(r.cache, x) == Held(c, x))
  {
    var d := FindQuiet(c, b).cache;
    forall i | 0 <= i < |d.sets| ensures SetValid(d.sets[i], c.w) { assert SetValid(c.sets[i], c.w); }
    forall x: nat ensures Held(d, x) == Held(c, x) {}
  }

  /** Changing the line that holds `b`, tag and validity kept, changes that copy only. */
  lemma PutUpdates(c: Cache, b: nat, k: nat, l: Line)
    requires Valid(c) && k < c.w && Match(LineAt(c, b, k), Tag(c, b)) && Match(l, Tag(c, b))
    ensures var d := Put(c, b, k, l);
      Valid(d) && forall x: nat :: Held(d, x) == if x == b then CopyOf(l) else Held(c, x)
  {
    var d := Put(c, b, k, l);
    PutValid(c, b, k, l);
    forall x: nat ensures Held(d, x) == if x == b then CopyOf(l) else Held(c, x) {
      ScanSame(c.sets[Index(c, x)].lines, d.sets[Index(c, x)].lines, Tag(c, x), 0);
      HeldAt(c, b, k);
      BlockNumber(c, x);
      BlockNumber(c, b);
    }
  }

  lemma PutValid(c: Cache, b: nat, k: nat, l: Line)
    requires Valid(c) && k < c.w
    requires var ls := c.sets[Index(c, b)].lines;
      l.valid ==> forall m | 0 <= m < c.w && m != k :: !Match(ls[m], l.tag)
    ensures Valid(Put(c, b, k, l))
  {
    var d := Put(c, b, k, l);
    forall i | 0 <= i < |d.sets| ensures SetValid(d.sets[i], c.w) {
      assert SetValid(c.sets[i], c.w);
      var ls := c.sets[Index(c, b)].lines;
      assert l.valid ==> forall m | 0 <= m < c.w && m != k && ls[m].valid :: !Match(ls[m], l.tag);
    }
  }

  /** The block way `k` of the set of `b` holds, if any. */
  predicate Displaced(c: Cache, b: nat, k: nat, x: nat)
    requires |c.sets| > 0 && k < |c.sets[Index(c, b)].lines|
  {
    LineAt(c, b, k).valid && x == BlockOf(c, Index(c, b), LineAt(c, b, k).tag)
  }

  /** Replacing a line by one for `b`, which is not held, adds `b` and drops what the line held. */
  lemma PutInstalls(c: Cache, b: nat, k: nat, l: Line)
    requires Valid(c) && k < c.w && Held(c, b) == None && Match(l, Tag(c, b))
    ensures var d := Put(c, b, k, l);
      && Valid(d)
      && (forall x: nat :: Held(d, x) ==
            if x == b then CopyOf(l) else if Displaced(c, b, k, x) then None else Held(c, x))
  {
    var d := Put(c, b, k, l);
    PutValid(c, b, k, l);
    forall x: nat
      ensures Held(d, x) == if x == b then CopyOf(l) else if Displaced(c, b, k, x) then None else Held(c, x)
    {
      PutHeld(c, b, k, l, x);
    }
  }

  lemma TagsDiffer(c: Cache, x: nat, b: nat)
    requires |c.sets| > 0 && x != b && Index(c, x) == Index(c, b)
    ensures Tag(c, x) != Tag(c, b)
  {
    BlockNumber(c, x);
    BlockNumber(c, b);
  }

  lemma PutElsewhere(c: Cache, b: nat, k: nat, l: Line, x: nat)
    requires Valid(c) && k < c.w && Index(c, x) != Index(c, b)
    ensures Held(Put(c, b, k, l), x) == Held(c, x) && !Displaced(c, b, k, x)
  {
    SameBlock(c, Index(c, b), LineAt(c, b, k).tag);
  }

  lemma PutHeld(c: Cache, b: nat, k: nat, l: Line, x: nat)
    requires Valid(c) && k < c.w && Match(l, Tag(c, b)) && Valid(Put(c, b, k, l))
    ensures Held(Put(c, b, k, l), x) ==
      if x == b then CopyOf(l) else if Displaced(c, b, k, x) then None else Held(c, x)
  {
    if x == b {
      HeldAt(Put(c, b, k, l), b, k);
    } else if Index(c, x) == Index(c, b) {
      TagsDiffer(c, x, b);
      PutOther(c, b, k, l, x);
    } else {
      PutElsewhere(c, b, k, l, x);
    }
  }

  lemma PutOther(c: Cache, b: nat, k: nat, l: Line, x: nat)
    requires Valid(c) && k < c.w && Match(l, Tag(c, b)) && Valid(Put(c, b, k, l))
    requires x != b && Index(c, x) == Index(c, b) && Tag(c, x) != Tag(c, b)
    ensures Held(Put(c, b, k, l), x) == if Displaced(c, b, k, x) then None else Held(c, x)
  {
    var d := Put(c, b, k, l);
    SameBlock(c, Index(c, b), LineAt(c, b, k).tag);
    BlockNumber(c, x);
    var m := Scan(c.sets[Index(c, x)].lines, Tag(c, x), 0);
    if m >= 0 && m != k {
      HeldAt(d, x, m);
    } else {
      NotHeld(d, x);
    }
  }

  /** Invalidating the line of `b` drops that copy only. */
  lemma PutDrops(c: Cache, b: nat, k: nat, l: Line)
    requires Valid(c) && k < c.w && Match(LineAt(c, b, k), Tag(c, b)) && !l.valid
    ensures var d := Put(c, b, k, l);
      Valid(d) && forall x: nat :: Held(d, x) == if x == b then None else Held(c, x)
  {
    var d := Put(c, b, k, l);
    PutValid(c, b, k, l);
    forall x: nat ensures Held(d, x) == if x == b then None else Held(c, x) {
      BlockNumber(c, x);
      BlockNumber(c, b);
      var m := Scan(c.sets[Index(c, x)].lines, Tag(c, x), 0);
      if x != b && m >= 0 { HeldAt(d, x, m); } else { NotHeld(d, x); }
    }
  }

  // -------------------------------------------------------------------- start

  /** A cache that holds nothing. */
  predicate Empty(c: Cache) {
    && c.w > 0 && |c.sets| > 0
    && forall i | 0 <= i < |c.sets| ::
         c.sets[i].mru == -1 && |c.sets[i].lines| == c.w && forall k | 0 <= k < c.w :: !c.sets[i].lines[k].valid
  }

  lemma EmptyHolds(c: Cache)
    requires Empty(c)
    ensures Valid(c) && forall x: nat :: Held(c, x) == None
  {
    forall x: nat ensures Held(c, x) == None { NotHeld(c, x); }
  }
}
