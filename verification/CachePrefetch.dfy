/**
 Prefetching, for any prefetch policy.

 After a miss up to two suggested blocks are brought in before the demanded line is used.  The line is
 used through the way found at the start, so the prefetches must not have replaced it.  They cannot if
 there are more than two ways; with one or two ways some policy makes them.
 */
module CachePrefetch {
  import opened Isa
  import opened Arith
  import opened CacheLevel
  import opened CacheHierarchy
  import opened CacheAccess

  // ------------------------------------------------------------------- stamps

  predicate SetStamped(x: CacheSet, timer: nat) { forall k | 0 <= k < |x.lines| :: x.lines[k].last <= timer }

  /** No line was used after now. */
  predicate Stamped(c: Cache) { forall i | 0 <= i < |c.sets| :: SetStamped(c.sets[i], c.timer) }

  /** The ways not used in the current access. */
  function Old(lines: seq<Line>, timer: nat): set<nat> {
    set k | 0 <= k < |lines| && lines[k].last < timer
  }

  lemma FindStamped(c: Cache, b: nat)
    requires Valid(c) && Stamped(c)
    ensures Stamped(FindLine(c, b).cache) && FindLine(c, b).cache.timer == c.timer + 1
    ensures !FindLine(c, b).hit ==> FindLine(c, b).cache.sets == c.sets
  {
    var d := FindLine(c, b).cache;
    forall i | 0 <= i < |d.sets| ensures SetStamped(d.sets[i], d.timer) { assert SetStamped(c.sets[i], c.timer); }
  }

  lemma QuietStamped(c: Cache, b: nat)
    requires Valid(c) && Stamped(c)
    ensures var d := FindQuiet(c, b).cache;
      Stamped(d) && d.timer == c.timer && forall i | 0 <= i < |c.sets| :: d.sets[i].lines == c.sets[i].lines
  {
    var d := FindQuiet(c, b).cache;
    forall i | 0 <= i < |d.sets| ensures SetStamped(d.sets[i], d.timer) { assert SetStamped(c.sets[i], c.timer); }
  }

  /** What fetching does to the lines: way `way` of the set of `b` is now stamped with the current time. */
  ghost predicate Refilled(c: Cache, d: Cache, b: nat, way: nat)
    requires Valid(c) && way < c.w
  {
    && d.w == c.w && |d.sets| == |c.sets| && d.timer == c.timer
    && (forall i | 0 <= i < |c.sets| && i != Index(c, b) :: d.sets[i].lines == c.sets[i].lines)
    && |d.sets[Index(c, b)].lines| == c.w
    && d.sets[Index(c, b)].lines == c.sets[Index(c, b)].lines[way := d.sets[Index(c, b)].lines[way]]
    && d.sets[Index(c, b)].lines[way].last == c.timer
  }

  lemma FetchRefills(c: Cache, lo: Lower, b: nat, way: nat)
    requires Valid(c) && Valid(lo.l2) && way < c.w
    ensures Refilled(c, FetchBlock(c, lo, b, way).l1, b, way)
  {
  }

  lemma RefilledStamped(c: Cache, d: Cache, b: nat, way: nat)
    requires Valid(c) && Stamped(c) && way < c.w && Refilled(c, d, b, way)
    ensures Stamped(d)
  {
    forall i | 0 <= i < |d.sets| ensures SetStamped(d.sets[i], d.timer) { assert SetStamped(c.sets[i], c.timer); }
  }

  // ------------------------------------------------------- the demanded line

  /** Way `way` of the set of `b` is in use now, and `n` other ways of the set are not. */
  ghost predicate Guarded(c: Cache, b: nat, way: nat, n: nat)
    requires Valid(c)
  {
    && way < c.w && LineAt(c, b, way).last == c.timer
    && |Old(c.sets[Index(c, b)].lines, c.timer)| >= n
  }

  /** With an unused way left, the victim is an unused way. */
  lemma VictimIsOld(c: Cache, b: nat, way: nat, h: nat)
    requires Valid(c) && Stamped(c) && Guarded(c, b, way, 1) && Index(c, h) == Index(c, b)
    ensures Lru(c.sets[Index(c, h)].lines, c.w) in Old(c.sets[Index(c, b)].lines, c.timer)
    ensures Lru(c.sets[Index(c, h)].lines, c.w) != way
  {
    var lines := c.sets[Index(c, b)].lines;
    var k :| k in Old(lines, c.timer);
  }

  lemma OneLess(a: set<nat>, b: set<nat>, x: nat, n: nat)
    requires a - {x} <= b && |a| >= n && n > 0
    ensures |b| >= n - 1
  {
    Subsize(a - {x}, b);
  }

  lemma {:induction false} Subsize(a: set<nat>, b: set<nat>)
    requires a <= b
    ensures |a| <= |b|
  {
    if a != {} {
      var x :| x in a;
      Subsize(a - {x}, b - {x});
    }
  }

  lemma RefilledGuards(c: Cache, d: Cache, b: nat, way: nat, h: nat, v: nat, n: nat)
    requires Valid(c) && Valid(d) && Stamped(c) && Guarded(c, b, way, n) && n > 0
    requires v < c.w && Refilled(c, d, h, v) && v == Lru(c.sets[Index(c, h)].lines, c.w)
    ensures Guarded(d, b, way, n - 1) && LineAt(d, b, way) == LineAt(c, b, way)
  {
    var before, after := c.sets[Index(c, b)].lines, d.sets[Index(c, b)].lines;
    if Index(c, h) == Index(c, b) { VictimIsOld(c, b, way, h); }
    OneLess(Old(before, c.timer), Old(after, c.timer), v, n);
  }

  /** `t` is what up to `n` prefetches leave; one-point, like the other predicates that name a function's result,
      so that proofs about it do not unfold the function. */
  ghost predicate Prefetched(l1: Cache, lo: Lower, a: nat, hint: Hint, n: nat, t: Fetch)
    requires LevelsValid(l1, lo)
  {
    forall k: nat {:trigger Prefetch(l1, lo, a, hint, k)} | k == n :: t == Prefetch(l1, lo, a, hint, k)
  }

  lemma PrefetchEnds(l1: Cache, lo: Lower, a: nat, hint: Hint, n: nat, t: Fetch)
    requires LevelsValid(l1, lo) && Prefetched(l1, lo, a, hint, n, t) && (n == 0 || hint(n, a) == 0)
    ensures t == Fetch(l1, lo)
  {
    assert t == Prefetch(l1, lo, a, hint, n);
  }

  lemma PrefetchSkips(l1: Cache, lo: Lower, a: nat, hint: Hint, n: nat, t: Fetch, h: nat)
    requires LevelsValid(l1, lo) && Prefetched(l1, lo, a, hint, n, t) && n > 0 && h == hint(n, a) != 0
    requires FindQuiet(l1, BlockNo(h)).hit
    ensures LevelsValid(FindQuiet(l1, BlockNo(h)).cache, lo)
    ensures Prefetched(FindQuiet(l1, BlockNo(h)).cache, lo, h, hint, n - 1, t)
  {
    QuietLevels(l1, lo, BlockNo(h));
    assert t == Prefetch(l1, lo, a, hint, n);
  }

  lemma PrefetchFills(l1: Cache, lo: Lower, a: nat, hint: Hint, n: nat, t: Fetch, h: nat, c: Cache, v: nat, f: Fetch)
    requires LevelsValid(l1, lo) && Prefetched(l1, lo, a, hint, n, t) && n > 0 && h == hint(n, a) != 0
    requires FindQuiet(l1, BlockNo(h)) == Found(c, v, false) && f == FetchBlock(c, lo, BlockNo(h), v)
    ensures LevelsValid(f.l1, f.lo) && Prefetched(f.l1, f.lo, h, hint, n - 1, t)
  {
    QuietLevels(l1, lo, BlockNo(h));
    FetchEffect(c, lo, BlockNo(h), v);
    assert t == Prefetch(l1, lo, a, hint, n);
  }

  /** `t` shows what `l1` shows, and the demanded line is as it was. */
  ghost predicate Untouched(l1: Cache, lo: Lower, t: Fetch, b: nat, way: nat)
    requires LevelsValid(l1, lo) && way < l1.w
  {
    && LevelsValid(t.l1, t.lo) && Stamped(t.l1) && t.l1.w == l1.w && |t.l1.sets| == |l1.sets|
    && LineAt(t.l1, b, way) == LineAt(l1, b, way)
    && (forall x: nat :: Sees(t.l1, t.lo, x) == Sees(l1, lo, x))
  }

  /** Prefetching changes nothing the core sees, and with `n` unused ways left for `n` prefetches it does
      not touch the demanded line. */
  lemma {:induction false} PrefetchKeeps(l1: Cache, lo: Lower, a: nat, hint: Hint, n: nat, b: nat, way: nat, t: Fetch)
    requires LevelsValid(l1, lo) && Stamped(l1) && Guarded(l1, b, way, n) && Prefetched(l1, lo, a, hint, n, t)
    ensures Untouched(l1, lo, t, b, way)
    decreases n
  {
    var h := hint(n, a);
    if n == 0 || h == 0 {
      PrefetchEnds(l1, lo, a, hint, n, t);
    } else {
      var r := FindQuiet(l1, BlockNo(h));
      QuietGuards(l1, lo, BlockNo(h), b, way, n);
      if r.hit {
        PrefetchSkips(l1, lo, a, hint, n, t, h);
        PrefetchKeeps(r.cache, lo, h, hint, n - 1, b, way, t);
      } else {
        var f := FetchBlock(r.cache, lo, BlockNo(h), r.way);
        PrefetchFills(l1, lo, a, hint, n, t, h, r.cache, r.way, f);
        FillGuards(r.cache, lo, BlockNo(h), r.way, f, b, way, n);
        PrefetchKeeps(f.l1, f.lo, h, hint, n - 1, b, way, t);
      }
    }
  }

  lemma QuietGuards(l1: Cache, lo: Lower, g: nat, b: nat, way: nat, n: nat)
    requires LevelsValid(l1, lo) && Stamped(l1) && Guarded(l1, b, way, n) && n > 0
    ensures var r := FindQuiet(l1, g);
      && LevelsValid(r.cache, lo) && Stamped(r.cache) && r.cache.w == l1.w && |r.cache.sets| == |l1.sets|
      && Guarded(r.cache, b, way, n) && Guarded(r.cache, b, way, n - 1) && LineAt(r.cache, b, way) == LineAt(l1, b, way)
      && (forall x: nat :: Sees(r.cache, lo, x) == Sees(l1, lo, x))
      && (!r.hit ==> Held(r.cache, g) == None && r.way < l1.w && r.way == Lru(r.cache.sets[Index(r.cache, g)].lines, l1.w))
  {
    QuietLevels(l1, lo, g);
    QuietStamped(l1, g);
  }

  /** A block brought in for a prefetch leaves the demanded line guarded once less. */
  lemma FillGuards(c: Cache, lo: Lower, g: nat, v: nat, f: Fetch, b: nat, way: nat, n: nat)
    requires LevelsValid(c, lo) && Stamped(c) && Guarded(c, b, way, n) && n > 0 && Held(c, g) == None
    requires v < c.w && v == Lru(c.sets[Index(c, g)].lines, c.w) && f == FetchBlock(c, lo, g, v)
    ensures LevelsValid(f.l1, f.lo) && Stamped(f.l1) && f.l1.w == c.w && |f.l1.sets| == |c.sets|
    ensures Guarded(f.l1, b, way, n - 1) && LineAt(f.l1, b, way) == LineAt(c, b, way)
    ensures forall x: nat :: Sees(f.l1, f.lo, x) == Sees(c, lo, x)
  {
    FetchEffect(c, lo, g, v);
    FetchRefills(c, lo, g, v);
    RefilledStamped(c, f.l1, g, v);
    RefilledGuards(c, f.l1, b, way, g, v, n);
  }

  // ------------------------------------------------------- more than two ways

  /** What an access must leave: the same view, and in the way it uses the demanded block. */
  ghost predicate Served(l1: Cache, lo: Lower, r: Access, a: nat)
    requires LevelsValid(l1, lo) && LevelsValid(r.l1, r.lo) && r.way < r.l1.w
  {
    && (forall x: nat :: Sees(r.l1, r.lo, x) == Sees(l1, lo, x))
    && Match(LineAt(r.l1, BlockNo(a), r.way), Tag(r.l1, BlockNo(a)))
    && LineAt(r.l1, BlockNo(a), r.way).data == Sees(l1, lo, BlockNo(a))
  }

  function Ways(n: nat): (s: set<nat>)
    ensures |s| == n && forall k: nat :: k in s <==> k < n
  {
    if n == 0 then {} else Ways(n - 1) + {n - 1}
  }

  lemma AllButOne(lines: seq<Line>, way: nat, timer: nat)
    requires way < |lines| && forall k | 0 <= k < |lines| && k != way :: lines[k].last < timer
    ensures |Old(lines, timer)| >= |lines| - 1
  {
    Subsize(Ways(|lines|) - {way}, Old(lines, timer));
  }

  /** After the demanded block is in, its line is the only one of the set in use now. */
  lemma DemandGuarded(l1: Cache, lo: Lower, b: nat, way: nat, n: nat)
    requires Valid(l1) && Valid(lo.l2) && way < l1.w && n < l1.w
    requires forall k | 0 <= k < l1.w :: l1.sets[Index(l1, b)].lines[k].last < l1.timer
    requires Valid(FetchBlock(l1, lo, b, way).l1)
    ensures Guarded(FetchBlock(l1, lo, b, way).l1, b, way, n)
  {
    FetchedLine(l1, lo, b, way);
    FetchRefills(l1, lo, b, way);
    var d := FetchBlock(l1, lo, b, way).l1;
    AllButOne(d.sets[Index(l1, b)].lines, way, l1.timer);
  }

  lemma HitServed(l1: Cache, lo: Lower, a: nat, hint: Hint)
    requires LevelsValid(l1, lo) && Stamped(l1) && Held(l1, BlockNo(a)).Some?
    ensures Served(l1, lo, Locate(l1, lo, a, hint), a) && Stamped(Locate(l1, lo, a, hint).l1)
  {
    FindKeeps(l1, BlockNo(a));
    FindStamped(l1, BlockNo(a));
  }

  lemma MissServed(l1: Cache, lo: Lower, a: nat, hint: Hint)
    requires LevelsValid(l1, lo) && Stamped(l1) && Held(l1, BlockNo(a)) == None && l1.w > PREFETCH_DEGREE
    ensures Served(l1, lo, Locate(l1, lo, a, hint), a) && Stamped(Locate(l1, lo, a, hint).l1)
  {
    var b := BlockNo(a);
    var r := FindLine(l1, b);
    FoundLevels(l1, lo, b);
    FindStamped(l1, b);
    assert SetStamped(l1.sets[Index(l1, b)], l1.timer);
    MissFilled(r.cache, lo, a, hint, r.way);
  }

  lemma MissFilled(c: Cache, lo: Lower, a: nat, hint: Hint, way: nat)
    requires LevelsValid(c, lo) && Stamped(c) && Held(c, BlockNo(a)) == None && c.w > PREFETCH_DEGREE && way < c.w
    requires forall k | 0 <= k < c.w :: c.sets[Index(c, BlockNo(a))].lines[k].last < c.timer
    ensures var f := FetchBlock(c, lo, BlockNo(a), way);
      && LevelsValid(f.l1, f.lo)
      && var p := Prefetch(f.l1, f.lo, a, hint, PREFETCH_DEGREE);
      Served(c, lo, Access(p.l1, p.lo, way), a) && Stamped(p.l1)
  {
    var b := BlockNo(a);
    FetchEffect(c, lo, b, way);
    var f := FetchBlock(c, lo, b, way);
    FetchRefills(c, lo, b, way);
    RefilledStamped(c, f.l1, b, way);
    DemandGuarded(c, lo, b, way, PREFETCH_DEGREE);
    FetchedLine(c, lo, b, way);
    HeldAt(f.l1, b, way);
    PrefetchKeeps(f.l1, f.lo, a, hint, PREFETCH_DEGREE, b, way, Prefetch(f.l1, f.lo, a, hint, PREFETCH_DEGREE));
  }

  /** Prefetch safety: with more than two ways, whatever the policy suggests, the access uses the demanded
      block and nothing the core sees has changed. */
  lemma PrefetchSafe(l1: Cache, lo: Lower, a: nat, hint: Hint)
    requires LevelsValid(l1, lo) && Stamped(l1) && l1.w > PREFETCH_DEGREE
    ensures Served(l1, lo, Locate(l1, lo, a, hint), a) && Stamped(Locate(l1, lo, a, hint).l1)
  {
    if Held(l1, BlockNo(a)).Some? { HitServed(l1, lo, a, hint); } else { MissServed(l1, lo, a, hint); }
  }

  // --------------------------------------------------------- one or two ways

  /** A policy that suggests the next block of the same set. */
  function NextInSet(sets: nat): Hint { (n: nat, a: nat) => BLOCK_SIZE * (BlockNo(a) + sets) }

  /** A cache nothing has been brought into. */
  predicate Cold(c: Cache) {
    Empty(c) && forall i, k | 0 <= i < |c.sets| && 0 <= k < c.w :: c.sets[i].lines[k].last == 0
  }

  lemma Congruent(c: Cache, b: nat)
    requires |c.sets| > 0
    ensures Index(c, b + |c.sets|) == Index(c, b) && Tag(c, b + |c.sets|) == Tag(c, b) + 1
  {
    var n := |c.sets|;
    assert b == n * (b / n) + b % n;
    assert b + n == n * (b / n + 1) + b % n by { assert n * (b / n + 1) == n * (b / n) + n; }
    Remainder(b + n, n, b / n + 1, b % n);
  }

  /** The way that a prefetch into a set with these stamps would replace. */
  lemma PrefetchReplaces(c: Cache, lo: Lower, a: nat, hint: Hint, n: nat, t: Fetch, h: nat, v: nat, f: Fetch)
    requires LevelsValid(c, lo) && n > 0 && h == hint(n, a) != 0 && Prefetched(c, lo, a, hint, n, t)
    requires forall k | 0 <= k < c.w :: !Match(c.sets[Index(c, BlockNo(h))].lines[k], Tag(c, BlockNo(h)))
    requires v == Lru(c.sets[Index(c, BlockNo(h))].lines, c.w) && f == FetchBlock(c, lo, BlockNo(h), v)
    ensures LevelsValid(f.l1, f.lo) && Prefetched(f.l1, f.lo, h, hint, n - 1, t)
  {
    NotHeld(c, BlockNo(h));
    QuietMisses(c, BlockNo(h), v);
    PrefetchFills(c, lo, a, hint, n, t, h, c, v, f);
  }

  lemma QuietMisses(c: Cache, g: nat, v: nat)
    requires Valid(c) && forall k | 0 <= k < c.w :: !Match(c.sets[Index(c, g)].lines[k], Tag(c, g))
    requires v == Lru(c.sets[Index(c, g)].lines, c.w)
    ensures FindQuiet(c, g) == Found(c, v, false)
  {
    NotHeld(c, g);
  }

  /** With one or two ways, every line of the set is in use after the first prefetch, so the second one
      replaces way 0. */
  lemma SecondReplaces(lines: seq<Line>, timer: nat)
    requires 0 < |lines| && forall k | 0 <= k < |lines| :: lines[k].last == timer
    ensures Lru(lines, |lines|) == 0
  {
    var k := Lru(lines, |lines|);
    assert lines[k].last == lines[0].last;
  }

  lemma HintIs(n: nat, k: nat, a: nat)
    requires n > 0
    ensures NextInSet(n)(k, a) != 0 && BlockNo(NextInSet(n)(k, a)) == BlockNo(a) + n
  {
  }

  /** The set of the demanded block when that block has just been brought into way 0. */
  predicate JustFilled(c: Cache, b: nat)
    requires Valid(c)
  {
    var lines := c.sets[Index(c, b)].lines;
    && c.w <= 2 && c.timer > 0 && Match(lines[0], Tag(c, b)) && lines[0].last == c.timer
    && (c.w == 2 ==> !lines[1].valid && lines[1].last == 0)
  }

  lemma FirstReplaces(c: Cache, lo: Lower, a: nat, g: nat)
    requires LevelsValid(c, lo) && JustFilled(c, BlockNo(a)) && g == BlockNo(a) + |c.sets|
    ensures Lru(c.sets[Index(c, g)].lines, c.w) == c.w - 1
    ensures forall k | 0 <= k < c.w :: !Match(c.sets[Index(c, g)].lines[k], Tag(c, g))
  {
    Congruent(c, BlockNo(a));
    var k := Lru(c.sets[Index(c, BlockNo(a))].lines, c.w);
  }

  lemma FirstFills(c: Cache, lo: Lower, b: nat)
    requires Valid(c) && Valid(lo.l2) && JustFilled(c, b)
    ensures var d := FetchBlock(c, lo, b + |c.sets|, c.w - 1).l1;
      && |d.sets| == |c.sets| && d.w == c.w && d.timer == c.timer && |d.sets[Index(c, b)].lines| == c.w
      && forall k | 0 <= k < c.w :: d.sets[Index(c, b)].lines[k].last == c.timer && d.sets[Index(c, b)].lines[k].tag <= Tag(c, b) + 1
  {
    Congruent(c, b);
    FetchRefills(c, lo, b + |c.sets|, c.w - 1);
    FetchedLine(c, lo, b + |c.sets|, c.w - 1);
  }

  /** Both prefetches in a set of one or two ways whose way 0 holds the demanded block. */
  lemma TwoPrefetches(c: Cache, lo: Lower, a: nat, hint: Hint, m: nat, t: Fetch)
    requires LevelsValid(c, lo) && JustFilled(c, BlockNo(a)) && hint == NextInSet(|c.sets|) && m == 2
    requires Prefetched(c, lo, a, hint, m, t) && Valid(t.l1) && |t.l1.sets| == |c.sets|
    ensures Match(LineAt(t.l1, BlockNo(a), 0), Tag(c, BlockNo(a)) + 2)
  {
    var b := BlockNo(a);
    var f := FetchBlock(c, lo, b + |c.sets|, c.w - 1);
    FirstPrefetch(c, lo, a, hint, m, t, f);
    FirstFills(c, lo, b);
    HintIs(|c.sets|, m, a);
    SecondPrefetch(c, f.l1, f.lo, t, b, hint(m, a), hint, m - 1);
  }

  lemma FirstPrefetch(c: Cache, lo: Lower, a: nat, hint: Hint, m: nat, t: Fetch, f: Fetch)
    requires LevelsValid(c, lo) && JustFilled(c, BlockNo(a)) && hint == NextInSet(|c.sets|) && m > 0
    requires Prefetched(c, lo, a, hint, m, t) && f == FetchBlock(c, lo, BlockNo(a) + |c.sets|, c.w - 1)
    ensures LevelsValid(f.l1, f.lo) && Prefetched(f.l1, f.lo, hint(m, a), hint, m - 1, t)
  {
    HintIs(|c.sets|, m, a);
    FirstReplaces(c, lo, a, BlockNo(a) + |c.sets|);
    PrefetchReplaces(c, lo, a, hint, m, t, hint(m, a), c.w - 1, f);
  }

  lemma SecondPrefetch(c: Cache, d: Cache, lo: Lower, t: Fetch, b: nat, h: nat, hint: Hint, m: nat)
    requires Valid(c) && LevelsValid(d, lo) && BlockNo(h) == b + |c.sets| && d.w == c.w && |d.sets| == |c.sets|
    requires forall k | 0 <= k < c.w :: d.sets[Index(c, b)].lines[k].last == d.timer && d.sets[Index(c, b)].lines[k].tag <= Tag(c, b) + 1
    requires hint == NextInSet(|c.sets|) && m == 1 && Prefetched(d, lo, h, hint, m, t) && Valid(t.l1) && |t.l1.sets| == |c.sets|
    ensures Match(LineAt(t.l1, b, 0), Tag(c, b) + 2)
  {
    Congruent(c, b);
    LastPrefetch(d, lo, h, hint, m, t);
  }

  lemma LastPrefetch(c: Cache, lo: Lower, a: nat, hint: Hint, m: nat, t: Fetch)
    requires LevelsValid(c, lo) && hint == NextInSet(|c.sets|) && m == 1 && Prefetched(c, lo, a, hint, m, t)
    requires var lines := c.sets[Index(c, BlockNo(a))].lines;
      forall k | 0 <= k < c.w :: lines[k].last == c.timer && lines[k].tag <= Tag(c, BlockNo(a))
    ensures |t.l1.sets| == |c.sets| && |t.l1.sets[Index(c, BlockNo(a))].lines| > 0
    ensures Match(t.l1.sets[Index(c, BlockNo(a))].lines[0], Tag(c, BlockNo(a)) + 1)
  {
    var b, n, h := BlockNo(a), |c.sets|, hint(m, a);
    HintIs(n, m, a);
    Congruent(c, b);
    SecondReplaces(c.sets[Index(c, b)].lines, c.timer);
    var f := FetchBlock(c, lo, b + n, 0);
    PrefetchReplaces(c, lo, a, hint, m, t, h, 0, f);
    PrefetchEnds(f.l1, f.lo, h, hint, m - 1, t);
    FetchedLine(c, lo, b + n, 0);
  }

  /** With at most two ways the property fails: from a cold cache, under the policy that suggests the next
      block of the same set, the line the access uses holds another block. */
  lemma PrefetchUnsafe(l1: Cache, lo: Lower, a: nat)
    requires LevelsValid(l1, lo) && Cold(l1) && l1.w <= PREFETCH_DEGREE
    ensures !Served(l1, lo, Locate(l1, lo, a, NextInSet(|l1.sets|)), a)
  {
    var b := BlockNo(a);
    var r := FindLine(l1, b);
    var lines := l1.sets[Index(l1, b)].lines;
    SecondReplaces(lines, 0);
    NotHeld(l1, b);
    FoundLevels(l1, lo, b);
    FetchEffect(r.cache, lo, b, r.way);
    FetchedLine(r.cache, lo, b, r.way);
    FetchRefills(r.cache, lo, b, r.way);
    var f := FetchBlock(r.cache, lo, b, r.way);
    var p := Prefetch(f.l1, f.lo, a, NextInSet(|l1.sets|), PREFETCH_DEGREE);
    TwoPrefetches(f.l1, f.lo, a, NextInSet(|l1.sets|), PREFETCH_DEGREE, p);
  }

  /** Exactly when prefetching is safe: under every policy, from a cold cache, iff there are more than two
      ways. */
  lemma PrefetchSafeIff(l1: Cache, lo: Lower, a: nat)
    requires LevelsValid(l1, lo) && Cold(l1)
    ensures (forall hint: Hint :: Served(l1, lo, Locate(l1, lo, a, hint), a)) <==> l1.w > PREFETCH_DEGREE
  {
    if l1.w > PREFETCH_DEGREE {
      forall hint: Hint ensures Served(l1, lo, Locate(l1, lo, a, hint), a) { PrefetchSafe(l1, lo, a, hint); }
    } else {
      PrefetchUnsafe(l1, lo, a);
    }
  }

  // ------------------------------------------------------- runs of one core

  ghost predicate Ok(s: Fetch) { LevelsValid(s.l1, s.lo) && Stamped(s.l1) && s.l1.w > PREFETCH_DEGREE }

  ghost predicate Mirrors(s: Fetch, m: Mem)
    requires Ok(s)
  {
    forall x: nat :: Shows(m, x, Sees(s.l1, s.lo, x))
  }

  lemma WriteLineKeeps(l1: Cache, lo: Lower, r: Access, a: nat, len: nat, v: Word)
    requires LevelsValid(l1, lo) && LevelsValid(r.l1, r.lo) && r.way < r.l1.w && Served(l1, lo, r, a) && WithinBlock(a, len)
    requires Stamped(r.l1)
    ensures var c := WriteLine(r, a, len, v);
      && LevelsValid(c, r.lo) && Stamped(c) && c.w == r.l1.w
      && (forall x: nat :: Sees(c, r.lo, x) ==
            if x == BlockNo(a) then Patch(Sees(l1, lo, x), Offset(a), len, v) else Sees(l1, lo, x))
  {
    var l := LineAt(r.l1, BlockNo(a), r.way);
    var c := WriteLine(r, a, len, v);
    PutUpdates(r.l1, BlockNo(a), r.way, l.(data := Patch(l.data, Offset(a), len, v), dirty := true));
    forall i | 0 <= i < |c.sets| ensures SetStamped(c.sets[i], c.timer) { assert SetStamped(r.l1.sets[i], r.l1.timer); }
  }

  lemma ServeKeeps(s: Fetch, o: Op, hint: Hint)
    requires Ok(s) && Fits(o)
    ensures Ok(Serve(s, o, hint).0)
  {
    PrefetchSafe(s.l1, s.lo, o.addr, hint);
    var l := Locate(s.l1, s.lo, o.addr, hint);
    if o.Write? { WriteLineKeeps(s.l1, s.lo, l, o.addr, o.len, o.value); }
  }

  lemma ServeRight(s: Fetch, m: Mem, o: Op, hint: Hint)
    requires Ok(s) && Mirrors(s, m) && Fits(o)
    ensures Ok(Serve(s, o, hint).0)
    ensures Serve(s, o, hint).1 == Reference(m, o).1 && Mirrors(Serve(s, o, hint).0, Reference(m, o).0)
  {
    var b := BlockNo(o.addr);
    ServeKeeps(s, o, hint);
    PrefetchSafe(s.l1, s.lo, o.addr, hint);
    var l := Locate(s.l1, s.lo, o.addr, hint);
    assert Shows(m, b, Sees(s.l1, s.lo, b));
    if o.Read? {
      AssembleIsLoad(m, Sees(s.l1, s.lo, b), o.addr, o.len);
    } else {
      WriteLineKeeps(s.l1, s.lo, l, o.addr, o.len, o.value);
      PatchIsStore(m, Sees(s.l1, s.lo, b), o.addr, o.len, o.value);
      var t := Serve(s, o, hint).0;
      forall x: nat ensures Shows(Store(m, o.addr, o.value, o.len), x, Sees(t.l1, t.lo, x)) {
        assert Shows(m, x, Sees(s.l1, s.lo, x));
      }
    }
  }

  /** The values all accesses return, in order; the policy suggests `hints[k]` during access `k`. */
  function Answers(s: Fetch, ops: seq<Op>, hints: seq<Hint>): seq<nat>
    requires Ok(s) && |hints| == |ops| && forall k | 0 <= k < |ops| :: Fits(ops[k])
    decreases |ops|
  {
    if ops == [] then []
    else
      ServeKeeps(s, ops[0], hints[0]);
      [Serve(s, ops[0], hints[0]).1] + Answers(Serve(s, ops[0], hints[0]).0, ops[1..], hints[1..])
  }

  /** One core, any prefetch policy, with or without state, any run: the caches are indistinguishable from flat
      memory. */
  lemma {:induction false} Indistinguishable(s: Fetch, m: Mem, ops: seq<Op>, hints: seq<Hint>)
    requires Ok(s) && Mirrors(s, m) && |hints| == |ops| && forall k | 0 <= k < |ops| :: Fits(ops[k])
    ensures Answers(s, ops, hints) == FlatAnswers(m, ops)
    decreases |ops|
  {
    if ops != [] {
      ServeRight(s, m, ops[0], hints[0]);
      Indistinguishable(Serve(s, ops[0], hints[0]).0, Reference(m, ops[0]).0, ops[1..], hints[1..]);
    }
  }
}
