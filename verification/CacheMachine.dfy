/**
 The caches as the source keeps them: one object for each cache, updated in place by the scanning loops,
 the second-level accesses, the snoops and the reads and writes of two cores.

 Each method is proved to do what the function of the same name does on values.
 */
module CacheMachine {
  import opened Isa
  import opened CacheLevel
  import opened CacheHierarchy
  import opened CacheAccess
  import opened CacheCoherence

  lemma {:induction false} ScanFirst(lines: seq<Line>, tag: nat, i: nat, k: nat)
    requires i <= k < |lines| && Match(lines[k], tag) && forall m | i <= m < k :: !Match(lines[m], tag)
    ensures Scan(lines, tag, i) == k
    decreases k - i
  {
    if i < k { ScanFirst(lines, tag, i + 1, k); }
  }

  class Level {
    const w: nat
    var sets: seq<CacheSet>
    var timer: nat
    var counters: Counters

    ghost function View(): Cache
      reads this
    {
      Cache(w, sets, timer, counters)
    }

    ghost predicate Valid()
      reads this
    {
      CacheLevel.Valid(View())
    }

    constructor (ways: nat, setCount: nat)
      requires ways > 0 && setCount > 0
      ensures Empty(View()) && View().w == ways && |sets| == setCount && timer == 0
    {
      var blank := Line(false, false, 0, 0, seq(BLOCK_SIZE, _ => 0));
      w := ways;
      sets := seq(setCount, _ => CacheSet(seq(ways, _ => blank), -1));
      timer := 0;
      counters := Counters(0, 0, 0, 0);
    }

    /** The scan: the most recently used way first, then every way, noting the least recently used. */
    method Search(i: nat, tag: nat) returns (k: int, victim: nat)
      requires Valid() && i < |sets|
      ensures k == Lookup(sets[i], tag) && (k < 0 ==> victim == Lru(sets[i].lines, w))
    {
      var lines := sets[i].lines;
      victim := 0;
      if sets[i].mru >= 0 && Match(lines[sets[i].mru], tag) { return sets[i].mru, victim; }
      var m := 0;
      var least := 0;
      while m < w
        invariant 0 <= m <= w && forall j | 0 <= j < m :: !Match(lines[j], tag)
        invariant m > 0 ==> victim == Lru(lines, m) && least == lines[victim].last
      {
        if Match(lines[m], tag) {
          ScanFirst(lines, tag, 0, m);
          return m, victim;
        }
        if m == 0 || lines[m].last < least { least, victim := lines[m].last, m; }
        m := m + 1;
      }
      k := -1;
    }

    method FindLine(b: nat) returns (way: nat, hit: bool)
      requires Valid()
      modifies this
      ensures Valid() && Found(View(), way, hit) == CacheLevel.FindLine(old(View()), b)
    {
      var i, tag := b % |sets|, b / |sets|;
      timer := timer + 1;
      var k, victim := Search(i, tag);
      hit := k >= 0;
      if hit {
        way := k;
        counters := counters.(hits := counters.hits + 1);
        sets := sets[i := CacheSet(sets[i].lines[k := sets[i].lines[k].(last := timer)], k)];
      } else {
        way := victim;
        counters := counters.(misses := counters.misses + 1);
      }
    }

    method FindLineQuiet(b: nat) returns (way: nat, hit: bool)
      requires Valid()
      modifies this
      ensures Valid() && Found(View(), way, hit) == FindQuiet(old(View()), b)
    {
      var i, tag := b % |sets|, b / |sets|;
      var k, victim := Search(i, tag);
      hit := k >= 0;
      if hit {
        way := k;
        sets := sets[i := sets[i].(mru := k)];
      } else {
        way := victim;
      }
    }

    method Overwrite(b: nat, way: nat, l: Line)
      requires Valid() && way < w
      modifies this`sets
      ensures View() == Put(old(View()), b, way, l)
    {
      var i := b % |sets|;
      sets := sets[i := sets[i].(lines := sets[i].lines[way := l])];
    }
  }

  class Memory {
    const l2: Level
    var mem: Mem

    ghost function Lo(): Lower
      reads this, l2
    {
      Lower(l2.View(), mem)
    }

    ghost predicate Valid()
      reads this, l2
    {
      LowerValid(Lo())
    }

    constructor (cache: Level, contents: Mem)
      ensures l2 == cache && mem == contents
    {
      l2, mem := cache, contents;
    }

    /** Write a dirty victim of the second level to memory. */
    method Evict(b: nat, way: nat)
      requires l2.Valid() && way < l2.w
      modifies this`mem, l2`counters
      ensures Lo() == CacheHierarchy.Evict(old(Lo()), b, way)
    {
      var i := b % |l2.sets|;
      var v := l2.sets[i].lines[way];
      if v.valid && v.dirty {
        l2.counters := l2.counters.(evictions := l2.counters.evictions + 1, writebacks := l2.counters.writebacks + 1);
        mem := StoreBlock(mem, v.tag * |l2.sets| + i, v.data);
      }
    }

    method Write(b: nat, d: Block)
      requires Valid()
      modifies this`mem, l2
      ensures Valid() && Lo() == WriteL2(old(Lo()), b, d)
    {
      WriteL2Effect(Lo(), b, d);
      var way, hit := l2.FindLine(b);
      if hit {
        var l := l2.sets[b % |l2.sets|].lines[way];
        l2.Overwrite(b, way, l.(data := d, dirty := true));
      } else {
        Evict(b, way);
        l2.Overwrite(b, way, Line(true, true, b / |l2.sets|, l2.timer, d));
      }
    }

    method Read(b: nat) returns (d: Block)
      requires Valid()
      modifies this`mem, l2
      ensures Valid() && (Lo(), d) == ReadL2(old(Lo()), b)
    {
      ReadL2Effect(Lo(), b);
      var way, hit := l2.FindLine(b);
      if hit {
        d := l2.sets[b % |l2.sets|].lines[way].data;
      } else {
        Evict(b, way);
        d := LoadBlock(mem, b);
        l2.Overwrite(b, way, Line(true, false, b / |l2.sets|, l2.timer, d));
      }
    }

    /** The first level and everything below it are consistent. */
    ghost predicate Levels(l1: Level)
      reads this, l2, l1
    {
      l1 != l2 && LevelsValid(l1.View(), Lo())
    }

    /** The victim's data goes down if it is dirty. */
    method WriteVictim(l1: Level, b: nat, way: nat)
      requires Levels(l1) && way < l1.w
      modifies this`mem, l2, l1`counters
      ensures Valid() && Lo() == CacheHierarchy.WriteVictim(old(l1.View()), old(Lo()), b, way)
      ensures l1.counters == Evicted(old(l1.counters), LineAt(old(l1.View()), b, way))
    {
      var i := b % |l1.sets|;
      var v := l1.sets[i].lines[way];
      if v.valid {
        l1.counters := l1.counters.(evictions := l1.counters.evictions + 1);
        if v.dirty {
          l1.counters := l1.counters.(writebacks := l1.counters.writebacks + 1);
          Write(v.tag * |l1.sets| + i, v.data);
        }
      }
    }

    method FetchBlock(l1: Level, b: nat, way: nat)
      requires Levels(l1) && way < l1.w && Held(l1.View(), b) == None
      modifies this`mem, l2, l1
      ensures Levels(l1) && Fetch(l1.View(), Lo()) == CacheHierarchy.FetchBlock(old(l1.View()), old(Lo()), b, way)
    {
      FetchEffect(l1.View(), Lo(), b, way);
      WriteVictim(l1, b, way);
      var d := Read(b);
      l1.Overwrite(b, way, Line(true, false, b / |l1.sets|, l1.timer, d));
    }

    /** Bring in block `b` unless it is there. */
    method PrefetchBlock(l1: Level, b: nat) returns (ghost t: Fetch)
      requires Levels(l1)
      modifies this`mem, l2, l1
      ensures Levels(l1) && Fetch(l1.View(), Lo()) == t
      ensures var r := FindQuiet(old(l1.View()), b);
        t == if r.hit then Fetch(r.cache, old(Lo())) else CacheHierarchy.FetchBlock(r.cache, old(Lo()), b, r.way)
    {
      QuietLevels(l1.View(), Lo(), b);
      var way, already := l1.FindLineQuiet(b);
      if !already { FetchBlock(l1, b, way); }
      t := Fetch(l1.View(), Lo());
    }

    method PrefetchFrom(l1: Level, a: nat, hint: Hint, n: nat)
      requires Levels(l1)
      modifies this`mem, l2, l1
      ensures Levels(l1) && Fetch(l1.View(), Lo()) == Prefetch(old(l1.View()), old(Lo()), a, hint, n)
    {
      ghost var goal := Prefetch(l1.View(), Lo(), a, hint, n);
      var cur, k := a, 0;
      while k < n
        invariant 0 <= k <= n && Levels(l1) && Prefetch(l1.View(), Lo(), cur, hint, n - k) == goal
      {
        var h := hint(n - k, cur);
        if h == 0 { break; }
        ghost var t := PrefetchBlock(l1, BlockNo(h));
        cur, k := h, k + 1;
      }
    }

    /** Lookup, and on a miss fetch and prefetch. */
    method Locate(l1: Level, a: nat, hint: Hint) returns (way: nat)
      requires Levels(l1)
      modifies this`mem, l2, l1
      ensures Levels(l1) && Access(l1.View(), Lo(), way) == CacheAccess.Locate(old(l1.View()), old(Lo()), a, hint)
    {
      FoundLevels(l1.View(), Lo(), BlockNo(a));
      var hit;
      way, hit := l1.FindLine(BlockNo(a));
      if !hit {
        FetchBlock(l1, BlockNo(a), way);
        PrefetchFrom(l1, a, hint, PREFETCH_DEGREE);
      }
    }

    method CacheRead(l1: Level, a: nat, len: nat, hint: Hint) returns (v: nat)
      requires Levels(l1) && WithinBlock(a, len)
      modifies this`mem, l2, l1
      ensures Levels(l1)
      ensures var r := CacheAccess.Locate(old(l1.View()), old(Lo()), a, hint);
        l1.View() == r.l1 && Lo() == r.lo && v == ReadLine(r, a, len)
    {
      var way := Locate(l1, a, hint);
      v := Assemble(l1.sets[BlockNo(a) % |l1.sets|].lines[way].data, Offset(a), len);
    }

    method CacheWrite(l1: Level, a: nat, len: nat, v: Word, hint: Hint)
      requires Levels(l1) && WithinBlock(a, len)
      modifies this`mem, l2, l1
      ensures var r := CacheAccess.Locate(old(l1.View()), old(Lo()), a, hint);
        l1.View() == WriteLine(r, a, len, v) && Lo() == r.lo
    {
      var way := Locate(l1, a, hint);
      var l := l1.sets[BlockNo(a) % |l1.sets|].lines[way];
      l1.Overwrite(BlockNo(a), way, l.(data := Patch(l.data, Offset(a), len, v), dirty := true));
    }

    /** A dirty copy of `b` in another core's first level goes to the second level and stays, clean. */
    method SnoopFlush(l1: Level, b: nat)
      requires Levels(l1)
      modifies this`mem, l2, l1
      ensures Fetch(l1.View(), Lo()) == CacheCoherence.SnoopFlush(old(l1.View()), old(Lo()), b) && Valid()
    {
      var i, tag, k := b % |l1.sets|, b / |l1.sets|, 0;
      var lines := l1.sets[i].lines;
      assert SetValid(l1.sets[i], l1.w);
      while k < l1.w
        invariant 0 <= k <= l1.w && forall m | 0 <= m < k :: !(Match(lines[m], tag) && lines[m].dirty)
      {
        if Match(lines[k], tag) && lines[k].dirty {
          HeldAt(l1.View(), b, k);
          Write(b, lines[k].data);
          l1.Overwrite(b, k, lines[k].(dirty := false));
          l1.counters := l1.counters.(writebacks := l1.counters.writebacks + 1);
          return;
        }
        k := k + 1;
      }
    }

    /** A copy of `b` in another core's first level goes, to the second level if it is dirty. */
    method SnoopInvalidate(l1: Level, b: nat)
      requires Levels(l1)
      modifies this`mem, l2, l1
      ensures Fetch(l1.View(), Lo()) == CacheCoherence.SnoopInvalidate(old(l1.View()), old(Lo()), b) && Valid()
    {
      var i, tag, k := b % |l1.sets|, b / |l1.sets|, 0;
      var lines := l1.sets[i].lines;
      while k < l1.w
        invariant 0 <= k <= l1.w && forall m | 0 <= m < k :: !Match(lines[m], tag)
      {
        if Match(lines[k], tag) {
          HeldAt(l1.View(), b, k);
          if lines[k].dirty {
            Write(b, lines[k].data);
            l1.counters := l1.counters.(writebacks := l1.counters.writebacks + 1);
          }
          l1.Overwrite(b, k, lines[k].(valid := false, dirty := false));
          return;
        }
        k := k + 1;
      }
    }
  }

  /** Two cores over one memory, with no prefetching. */
  class System {
    const first: Level
    const second: Level
    const memory: Memory

    ghost function State(): Smp
      reads this, first, second, memory, memory.l2
    {
      Smp(first.View(), second.View(), memory.Lo())
    }

    ghost predicate Valid()
      reads this, first, second, memory, memory.l2
    {
      first != second && first != memory.l2 && second != memory.l2 && Ok(State())
    }

    constructor (a: Level, b: Level, m: Memory)
      requires a != b && a != m.l2 && b != m.l2 && Empty(a.View()) && Empty(b.View()) && Empty(m.l2.View())
      ensures Valid() && Mirrors(State(), m.mem) && first == a && second == b && memory == m
    {
      first, second, memory := a, b, m;
      new;
      ColdStart(State());
    }

    /** A load by core `mine`: `flat` is the memory the program sees. */
    method LoadBy(mine: Level, other: Level, a: nat, len: nat, ghost flat: Mem) returns (v: nat)
      requires Valid() && Mirrors(State(), flat) && WithinBlock(a, len)
      requires (mine == first && other == second) || (mine == second && other == first)
      modifies first, second, memory`mem, memory.l2
      ensures Valid() && Mirrors(State(), flat) && v == LoadRaw(flat, a, len)
    {
      ghost var s := if mine == first then State() else Swap(State());
      SwapMirrors(State(), flat);
      ReadByRight(s, flat, a, len);
      FlushKeeps(s, BlockNo(a));
      memory.SnoopFlush(other, BlockNo(a));
      v := memory.CacheRead(mine, a, len, NO_HINT);
      SwapMirrors(ReadBy(s, a, len).0, flat);
    }

    /** A store by core `mine`. */
    method StoreBy(mine: Level, other: Level, a: nat, len: nat, v: Word, ghost flat: Mem)
      requires Valid() && Mirrors(State(), flat) && WithinBlock(a, len)
      requires (mine == first && other == second) || (mine == second && other == first)
      modifies first, second, memory`mem, memory.l2
      ensures Valid() && Mirrors(State(), Store(flat, a, v, len))
    {
      ghost var s := if mine == first then State() else Swap(State());
      SwapMirrors(State(), flat);
      WriteByRight(s, flat, a, len, v);
      InvalidateKeeps(s, BlockNo(a));
      memory.SnoopInvalidate(other, BlockNo(a));
      memory.CacheWrite(mine, a, len, v, NO_HINT);
      SwapMirrors(WriteBy(s, a, len, v), Store(flat, a, v, len));
    }
  }
}
