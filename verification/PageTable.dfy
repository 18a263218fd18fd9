/**
 The two-level page tables of the 32-bit x86 configuration: walking with allocation, mapping and
 unmapping, creating an address space and tearing it down.

 A table page is named by its frame; table contents live in one map from frames to entries, as physical
 memory does.  Frames handed out by the allocator come from outside.
 */
module PageTable {

  const ENTRIES := 1024
  const PGSIZE := 4096
  const VA_LIMIT: int := 0x1_0000_0000

  /** An entry: frame, and the present, writable and user bits. */
  datatype Pte = Pte(frame: nat, p: bool, w: bool, u: bool)

  const NONE := Pte(0, false, false, false)

  type Tables = map<nat, seq<Pte>>

  predicate IsTable(ts: Tables, f: nat) { f in ts && |ts[f]| == ENTRIES }

  function Blank(): (t: seq<Pte>)
    ensures |t| == ENTRIES && forall i | 0 <= i < ENTRIES :: t[i] == NONE
  {
    seq(ENTRIES, _ => NONE)
  }

  function DirIndex(va: nat): (i: nat)
    ensures i < ENTRIES
  {
    (va / 0x40_0000) % ENTRIES
  }

  function TabIndex(va: nat): (i: nat)
    ensures i < ENTRIES
  {
    (va / PGSIZE) % ENTRIES
  }

  /** The user area is 0x40000000 to 0x80000000. */
  predicate UserVa(va: nat) { 0x4000_0000 <= va < 0x8000_0000 }

  predicate UserIndex(i: nat) { 256 <= i < 512 }

  lemma UserIndexes(va: nat)
    requires va < VA_LIMIT
    ensures UserIndex(DirIndex(va)) <==> UserVa(va)
  {
  }

  /** Pages are told apart by their two indexes. */
  lemma SamePage(va: nat, vb: nat)
    requires va < VA_LIMIT && vb < VA_LIMIT
    ensures DirIndex(va) == DirIndex(vb) && TabIndex(va) == TabIndex(vb) <==> va / PGSIZE == vb / PGSIZE
  {
    assert va / 0x40_0000 == (va / PGSIZE) / ENTRIES && vb / 0x40_0000 == (vb / PGSIZE) / ENTRIES;
  }

  /** The indexes are the digits of the address: directory entry, table entry and offset. */
  lemma Decomposes(va: nat)
    requires va < VA_LIMIT
    ensures va == DirIndex(va) * 0x40_0000 + TabIndex(va) * 0x1000 + va % 0x1000
  {
  }

  // ------------------------------------------------------------ the processor

  /** The processor splits an address into directory entry `d`, table entry `t` and offset `o`. */
  predicate Digits(va: nat, d: nat, t: nat, o: nat) {
    d < 1024 && t < 1024 && o < 0x1000 && va == d * 0x40_0000 + t * 0x1000 + o
  }

  /** With these digits it goes through directory entry `x` and table entry `y`. */
  ghost predicate WalksBy(ts: Tables, root: Pte, d: nat, t: nat, x: Pte, y: Pte) {
    && d < 1024 && t < 1024 && root.p && IsTable(ts, root.frame)
    && x == ts[root.frame][d] && x.p && IsTable(ts, x.frame)
    && y == ts[x.frame][t] && y.p
  }

  ghost predicate Walks(ts: Tables, root: Pte, va: nat, x: Pte, y: Pte) {
    exists d: nat, t: nat, o: nat :: Digits(va, d, t, o) && WalksBy(ts, root, d, t, x, y)
  }

  /** A user access to `va` goes to physical address `pa`, and may write there if both entries allow it. */
  ghost predicate Translates(ts: Tables, root: Pte, va: nat, pa: nat, writable: bool) {
    exists x: Pte, y: Pte :: Walks(ts, root, va, x, y) && x.u && y.u && pa == y.frame * 0x1000 + va % 0x1000 && writable == (x.w && y.w)
  }

  lemma DigitsAre(va: nat, d: nat, t: nat, o: nat)
    requires va < VA_LIMIT && Digits(va, d, t, o)
    ensures d == DirIndex(va) && t == TabIndex(va)
  {
  }

  lemma WalksIs(ts: Tables, root: Pte, va: nat, x: Pte, y: Pte)
    requires va < VA_LIMIT
    ensures Walks(ts, root, va, x, y) <==> WalksBy(ts, root, DirIndex(va), TabIndex(va), x, y)
  {
    Decomposes(va);
    assert Digits(va, DirIndex(va), TabIndex(va), va % 0x1000);
    if Walks(ts, root, va, x, y) {
      var d: nat, t: nat, o: nat :| Digits(va, d, t, o) && WalksBy(ts, root, d, t, x, y);
      DigitsAre(va, d, t, o);
    }
  }

  // ------------------------------------------------------------------ walking

  /** What walking the tables finds for `va`: the last-level entry, or nothing. */
  function Lookup(ts: Tables, root: Pte, va: nat): Pte {
    if !root.p || !IsTable(ts, root.frame) then NONE
    else
      var d := ts[root.frame][DirIndex(va)];
      if !d.p || !IsTable(ts, d.frame) then NONE else ts[d.frame][TabIndex(va)]
  }

  /** The tables after a walk that allocates a missing second-level table at `page`. */
  function Walked(ts: Tables, root: Pte, va: nat, page: nat): Tables
    requires IsTable(ts, root.frame)
  {
    var dir := ts[root.frame];
    if dir[DirIndex(va)].p then ts
    else ts[page := Blank()][root.frame := dir[DirIndex(va) := Pte(page, true, true, true)]]
  }

  /** The second-level table the walk ends in. */
  function Leaf(ts: Tables, root: Pte, va: nat, page: nat): nat
    requires IsTable(ts, root.frame)
  {
    if ts[root.frame][DirIndex(va)].p then ts[root.frame][DirIndex(va)].frame else page
  }

  // ---------------------------------------------------------------- invariant

  /** User entries of the directory lead to tables of this space's own; the others have no user bit. */
  ghost predicate DirectoryOk(ts: Tables, root: Pte) {
    && root.p && root.u && IsTable(ts, root.frame)
    && (forall i | 0 <= i < ENTRIES && UserIndex(i) && ts[root.frame][i].p ::
          && ts[root.frame][i].u && ts[root.frame][i].w
          && IsTable(ts, ts[root.frame][i].frame) && ts[root.frame][i].frame != root.frame)
    && (forall i | 0 <= i < ENTRIES && !UserIndex(i) :: !ts[root.frame][i].u)
  }

  /** No two directory entries, and no user and kernel entry, share a table. */
  ghost predicate Unshared(ts: Tables, root: Pte)
    requires IsTable(ts, root.frame)
  {
    forall i, j | 0 <= i < ENTRIES && 0 <= j < ENTRIES && i != j && UserIndex(i)
      && ts[root.frame][i].p && ts[root.frame][j].p :: ts[root.frame][i].frame != ts[root.frame][j].frame
  }

  /** Kernel tables are not the directory itself. */
  ghost predicate SpaceOk(ts: Tables, root: Pte) {
    && DirectoryOk(ts, root) && Unshared(ts, root)
    && forall j | 0 <= j < ENTRIES && !UserIndex(j) && ts[root.frame][j].p :: ts[root.frame][j].frame != root.frame
  }

  /** The table pages that belong to the space. */
  ghost predicate Owns(ts: Tables, root: Pte, f: nat)
    requires IsTable(ts, root.frame)
  {
    f == root.frame || exists i :: 0 <= i < ENTRIES && UserIndex(i) && ts[root.frame][i].p && ts[root.frame][i].frame == f
  }

  // ---------------------------------------------------------- map and unmap

  /** The tables after the entry for `va` became `e`. */
  function Mapped(ts: Tables, root: Pte, va: nat, e: Pte, page: nat): Tables
    requires SpaceOk(ts, root) && UserVa(va) && va < VA_LIMIT && page !in ts
  {
    UserIndexes(va);
    var w := Walked(ts, root, va, page);
    var leaf := Leaf(ts, root, va, page);
    w[leaf := w[leaf][TabIndex(va) := e]]
  }

  /** A frame that no directory entry of the space names. */
  ghost predicate Unnamed(ts: Tables, root: Pte, page: nat)
    requires IsTable(ts, root.frame)
  {
    page !in ts && forall j | 0 <= j < ENTRIES && ts[root.frame][j].p :: ts[root.frame][j].frame != page
  }

  lemma MappedDirectory(ts: Tables, root: Pte, va: nat, e: Pte, page: nat)
    requires SpaceOk(ts, root) && UserVa(va) && va < VA_LIMIT && Unnamed(ts, root, page)
    ensures var t := Mapped(ts, root, va, e, page);
      && IsTable(t, root.frame)
      && t[root.frame] == (if ts[root.frame][DirIndex(va)].p then ts[root.frame]
                           else ts[root.frame][DirIndex(va) := Pte(page, true, true, true)])
      && IsTable(t, Leaf(ts, root, va, page))
      && t[Leaf(ts, root, va, page)] ==
           (if ts[root.frame][DirIndex(va)].p then ts[Leaf(ts, root, va, page)] else Blank())[TabIndex(va) := e]
      && (forall f | f in ts && f != root.frame && f != Leaf(ts, root, va, page) :: f in t && t[f] == ts[f])
  {
    UserIndexes(va);
  }

  /** Mapping keeps the invariant. */
  lemma MappedOk(ts: Tables, root: Pte, va: nat, e: Pte, page: nat)
    requires SpaceOk(ts, root) && UserVa(va) && va < VA_LIMIT && Unnamed(ts, root, page)
    ensures SpaceOk(Mapped(ts, root, va, e, page), root)
  {
    UserIndexes(va);
    MappedDirectory(ts, root, va, e, page);
  }

  /** Mapping a page changes what the walk finds for that page, and for no other address. */
  lemma MappedLookup(ts: Tables, root: Pte, va: nat, e: Pte, page: nat, vb: nat)
    requires SpaceOk(ts, root) && UserVa(va) && va < VA_LIMIT && Unnamed(ts, root, page) && vb < VA_LIMIT
    ensures Lookup(Mapped(ts, root, va, e, page), root, vb) ==
      if vb / PGSIZE == va / PGSIZE then e else Lookup(ts, root, vb)
  {
    UserIndexes(va);
    UserIndexes(vb);
    SamePage(va, vb);
    MappedDirectory(ts, root, va, e, page);
  }

  /** In a space, what the processor does with a user address depends on the last-level entry alone. */
  lemma TranslatesIs(ts: Tables, root: Pte, va: nat, pa: nat, writable: bool)
    requires SpaceOk(ts, root) && UserVa(va)
    ensures var e := Lookup(ts, root, va);
      Translates(ts, root, va, pa, writable) <==> e.p && e.u && pa == e.frame * 0x1000 + va % 0x1000 && writable == e.w
  {
    UserIndexes(va);
    var x, e := ts[root.frame][DirIndex(va)], Lookup(ts, root, va);
    forall a: Pte, b: Pte ensures Walks(ts, root, va, a, b) <==> a == x && x.p && b == e && e.p { WalksIs(ts, root, va, a, b); }
    if e.p { assert Walks(ts, root, va, x, e); }
  }

  /** Mapping page `va` to page `pa`, as the processor sees it: that page goes there, with write access exactly if it
      was asked for, and every other user address goes where it went. */
  lemma MapTranslates(ts: Tables, root: Pte, va: nat, frame: nat, w: bool, page: nat, vb: nat, pb: nat, writable: bool)
    requires SpaceOk(ts, root) && UserVa(va) && Unnamed(ts, root, page) && UserVa(vb)
    ensures Translates(Mapped(ts, root, va, Pte(frame, true, w, true), page), root, vb, pb, writable) <==>
      if vb / 0x1000 == va / 0x1000 then pb == frame * 0x1000 + vb % 0x1000 && writable == w
      else Translates(ts, root, vb, pb, writable)
  {
    var e := Pte(frame, true, w, true);
    MappedOk(ts, root, va, e, page);
    MappedLookup(ts, root, va, e, page, vb);
    TranslatesIs(ts, root, vb, pb, writable);
    TranslatesIs(Mapped(ts, root, va, e, page), root, vb, pb, writable);
  }

  /** Unmapping a page: it goes nowhere, and every other user address goes where it went. */
  lemma UnmapTranslates(ts: Tables, root: Pte, va: nat, page: nat, vb: nat, pb: nat, writable: bool)
    requires SpaceOk(ts, root) && UserVa(va) && Unnamed(ts, root, page) && UserVa(vb)
    ensures Translates(Mapped(ts, root, va, NONE, page), root, vb, pb, writable) <==>
      vb / 0x1000 != va / 0x1000 && Translates(ts, root, vb, pb, writable)
  {
    MappedOk(ts, root, va, NONE, page);
    MappedLookup(ts, root, va, NONE, page, vb);
    TranslatesIs(ts, root, vb, pb, writable);
    TranslatesIs(Mapped(ts, root, va, NONE, page), root, vb, pb, writable);
  }

  /** Mapping touches the space's own tables only. */
  lemma MappedFrame(ts: Tables, root: Pte, va: nat, e: Pte, page: nat, f: nat)
    requires SpaceOk(ts, root) && UserVa(va) && va < VA_LIMIT && Unnamed(ts, root, page)
    requires f in ts && !Owns(ts, root, f)
    ensures f in Mapped(ts, root, va, e, page) && Mapped(ts, root, va, e, page)[f] == ts[f]
  {
    UserIndexes(va);
    MappedDirectory(ts, root, va, e, page);
    var i := DirIndex(va);
    assert ts[root.frame][i].p ==> ts[root.frame][i].frame != f;
  }

  /** A walk without a write leaves every lookup as it was. */
  lemma WalkedIsMapped(ts: Tables, root: Pte, va: nat, page: nat)
    requires SpaceOk(ts, root) && UserVa(va) && page !in ts
    ensures Mapped(ts, root, va, Lookup(ts, root, va), page) == Walked(ts, root, va, page)
    ensures var leaf := Leaf(ts, root, va, page);
      IsTable(Walked(ts, root, va, page), leaf) && Walked(ts, root, va, page)[leaf][TabIndex(va)] == Lookup(ts, root, va)
  {
    UserIndexes(va);
    var w := Walked(ts, root, va, page);
    var leaf := Leaf(ts, root, va, page);
    assert w[leaf][TabIndex(va) := w[leaf][TabIndex(va)]] == w[leaf];
  }

  // --------------------------------------------------------------------- runs

  /** One call that succeeds; `page` is what the allocator would hand out. */
  datatype Op = Map(va: nat, frame: nat, writable: bool, page: nat) | Unmap(va: nat, page: nat)

  function EntryOf(o: Op): Pte { if o.Map? then Pte(o.frame, true, o.writable, true) else NONE }

  /** What the call requires: a page of the user area, mapped before an unmap and not mapped before a map. */
  ghost predicate Admissible(ts: Tables, root: Pte, o: Op) {
    && SpaceOk(ts, root) && UserVa(o.va) && o.va % PGSIZE == 0 && Unnamed(ts, root, o.page)
    && Lookup(ts, root, o.va).p == o.Unmap?
  }

  ghost predicate AllAdmissible(ts: Tables, root: Pte, ops: seq<Op>)
    decreases |ops|
  {
    ops == [] ||
    (Admissible(ts, root, ops[0]) &&
     AllAdmissible(Mapped(ts, root, ops[0].va, EntryOf(ops[0]), ops[0].page), root, ops[1..]))
  }

  ghost function After(ts: Tables, root: Pte, ops: seq<Op>): Tables
    requires AllAdmissible(ts, root, ops)
    decreases |ops|
  {
    if ops == [] then ts else After(Mapped(ts, root, ops[0].va, EntryOf(ops[0]), ops[0].page), root, ops[1..])
  }

  /** What the latest call for the page of `va` asks for, or what there was before. */
  ghost predicate Asked(ops: seq<Op>, va: nat, pa: nat, writable: bool, before: bool)
    decreases |ops|
  {
    if ops == [] then before
    else
      var o := ops[|ops| - 1];
      if va / 0x1000 != o.va / 0x1000 then Asked(ops[..|ops| - 1], va, pa, writable, before)
      else o.Map? && pa == o.frame * 0x1000 + va % 0x1000 && writable == o.writable
  }

  lemma CallTranslates(ts: Tables, root: Pte, o: Op, va: nat, pa: nat, writable: bool)
    requires Admissible(ts, root, o) && UserVa(va)
    ensures var t := Mapped(ts, root, o.va, EntryOf(o), o.page);
      && SpaceOk(t, root)
      && (Translates(t, root, va, pa, writable) <==>
            if va / 0x1000 != o.va / 0x1000 then Translates(ts, root, va, pa, writable)
            else o.Map? && pa == o.frame * 0x1000 + va % 0x1000 && writable == o.writable)
  {
    MappedOk(ts, root, o.va, EntryOf(o), o.page);
    if o.Map? {
      MapTranslates(ts, root, o.va, o.frame, o.writable, o.page, va, pa, writable);
    } else {
      UnmapTranslates(ts, root, o.va, o.page, va, pa, writable);
    }
  }

  lemma {:induction false} AskedFirst(ops: seq<Op>, va: nat, pa: nat, writable: bool, before: bool)
    requires ops != []
    ensures Asked(ops, va, pa, writable, before) <==>
      Asked(ops[1..], va, pa, writable,
            if va / 0x1000 != ops[0].va / 0x1000 then before
            else ops[0].Map? && pa == ops[0].frame * 0x1000 + va % 0x1000 && writable == ops[0].writable)
    decreases |ops|
  {
    if |ops| > 1 {
      AskedFirst(ops[..|ops| - 1], va, pa, writable, before);
      assert ops[..|ops| - 1][1..] == ops[1..][..|ops| - 2];
    }
  }

  /** After any run of maps and unmaps, the processor sends every user address exactly where the latest call for its
      page sent it. */
  lemma {:induction false} LatestMapping(ts: Tables, root: Pte, ops: seq<Op>, va: nat, pa: nat, writable: bool)
    requires SpaceOk(ts, root) && AllAdmissible(ts, root, ops) && UserVa(va)
    ensures SpaceOk(After(ts, root, ops), root)
    ensures Translates(After(ts, root, ops), root, va, pa, writable) <==>
      Asked(ops, va, pa, writable, Translates(ts, root, va, pa, writable))
    decreases |ops|
  {
    if ops != [] {
      CallTranslates(ts, root, ops[0], va, pa, writable);
      AskedFirst(ops, va, pa, writable, Translates(ts, root, va, pa, writable));
      LatestMapping(Mapped(ts, root, ops[0].va, EntryOf(ops[0]), ops[0].page), root, ops[1..], va, pa, writable);
    }
  }

  // ----------------------------------------------------------------- teardown

  /** The pages freed for the first `n` entries at this level, in order. */
  function Released(ts: Tables, level: nat, es: seq<Pte>, n: nat): seq<nat>
    requires n <= |es| && level <= 2
    decreases 3 - level, 0, n
  {
    if n == 0 then []
    else Released(ts, level, es, n - 1) +
         (if es[n - 1].p && es[n - 1].u then Torn(ts, level + 1, es[n - 1].frame) else [])
  }

  /** The pages freed by tearing down the table at `f`. */
  function Torn(ts: Tables, level: nat, f: nat): seq<nat>
    requires level <= 3
    decreases 3 - level, 1, 0
  {
    if level > 2 then []
    else (if IsTable(ts, f) then Released(ts, level, ts[f], |ts[f]|) else []) + [f]
  }

  lemma Grows(a: seq<nat>, b: seq<nat>, c: seq<nat>)
    ensures (a + b) + c == a + (b + c) && (c == [] ==> b + c == b)
  {
  }

  /** The second-level tables of the space, in directory order. */
  function UserTables(es: seq<Pte>, n: nat): seq<nat>
    requires n <= |es|
  {
    if n == 0 then []
    else UserTables(es, n - 1) + (if es[n - 1].p && es[n - 1].u then [es[n - 1].frame] else [])
  }

  lemma {:induction false} LeavesFreeNothing(ts: Tables, es: seq<Pte>, n: nat)
    requires n <= |es|
    ensures Released(ts, 2, es, n) == []
  {
    if n > 0 { LeavesFreeNothing(ts, es, n - 1); }
  }

  lemma {:induction false} DirectoryFrees(ts: Tables, es: seq<Pte>, n: nat)
    requires n <= |es|
    ensures Released(ts, 1, es, n) == UserTables(es, n)
  {
    if n > 0 {
      DirectoryFrees(ts, es, n - 1);
      var f := es[n - 1].frame;
      if IsTable(ts, f) { LeavesFreeNothing(ts, ts[f], ENTRIES); }
    }
  }

  lemma {:induction false} InUserTables(es: seq<Pte>, n: nat, f: nat)
    requires n <= |es|
    ensures f in UserTables(es, n) <==> exists i :: 0 <= i < n && es[i].p && es[i].u && es[i].frame == f
  {
    if n > 0 {
      InUserTables(es, n - 1, f);
      assert f in UserTables(es, n) <==> f in UserTables(es, n - 1) || (es[n - 1].p && es[n - 1].u && es[n - 1].frame == f);
    }
  }

  /** Each element of the sequence occurs once. */
  predicate NoRepeats(s: seq<nat>) { forall i, j | 0 <= i < j < |s| :: s[i] != s[j] }

  lemma {:induction false} UserTablesDistinct(es: seq<Pte>, n: nat)
    requires n <= |es|
    requires forall i, j | 0 <= i < j < |es| && es[i].p && es[i].u && es[j].p && es[j].u :: es[i].frame != es[j].frame
    ensures NoRepeats(UserTables(es, n))
  {
    if n > 0 {
      UserTablesDistinct(es, n - 1);
      InUserTables(es, n - 1, es[n - 1].frame);
    }
  }

  /** What unprotect frees. */
  function FreedBy(ts: Tables, root: Pte): seq<nat> { Released(ts, 0, [root], 1) }

  lemma FreedIs(ts: Tables, root: Pte)
    requires SpaceOk(ts, root)
    ensures FreedBy(ts, root) == UserTables(ts[root.frame], ENTRIES) + [root.frame]
  {
    DirectoryFrees(ts, ts[root.frame], ENTRIES);
    assert Released(ts, 0, [root], 0) == [];
    assert Released(ts, 0, [root], 1) == [] + Torn(ts, 1, root.frame);
  }

  lemma InFreed(ts: Tables, root: Pte, f: nat)
    requires SpaceOk(ts, root)
    ensures f in FreedBy(ts, root) <==> Owns(ts, root, f)
  {
    var es := ts[root.frame];
    FreedIs(ts, root);
    InUserTables(es, ENTRIES, f);
    if f in UserTables(es, ENTRIES) {
      var i :| 0 <= i < ENTRIES && es[i].p && es[i].u && es[i].frame == f;
      assert UserIndex(i);
    }
  }

  lemma DirectoryOnce(ts: Tables, root: Pte)
    requires SpaceOk(ts, root)
    ensures NoRepeats(FreedBy(ts, root))
  {
    var es := ts[root.frame];
    FreedIs(ts, root);
    UserTablesDistinct(es, ENTRIES);
    InUserTables(es, ENTRIES, root.frame);
    forall i | 0 <= i < ENTRIES && es[i].p && es[i].u ensures es[i].frame != root.frame { assert UserIndex(i); }
  }

  /** Teardown frees exactly the table pages of the space, each once, and no table that a kernel entry leads
      to; so a data page is freed only if it were one of those tables. */
  lemma TeardownExact(ts: Tables, root: Pte)
    requires SpaceOk(ts, root)
    ensures NoRepeats(FreedBy(ts, root))
    ensures forall f: nat :: f in FreedBy(ts, root) <==> Owns(ts, root, f)
    ensures forall f | f in FreedBy(ts, root) :: IsTable(ts, f)
    ensures forall j | 0 <= j < ENTRIES && !UserIndex(j) && ts[root.frame][j].p :: ts[root.frame][j].frame !in FreedBy(ts, root)
  {
    DirectoryOnce(ts, root);
    forall f: nat ensures f in FreedBy(ts, root) <==> Owns(ts, root, f) { InFreed(ts, root, f); }
  }

  // ------------------------------------------------------- the life of a space

  /** The pages the allocator hands out during the calls: one for each second-level table that is missing. */
  ghost function Handed(ts: Tables, root: Pte, ops: seq<Op>): seq<nat>
    requires AllAdmissible(ts, root, ops)
    decreases |ops|
  {
    if ops == [] then []
    else NewTable(ts, root, ops[0]) + Handed(Mapped(ts, root, ops[0].va, EntryOf(ops[0]), ops[0].page), root, ops[1..])
  }

  ghost function NewTable(ts: Tables, root: Pte, o: Op): seq<nat>
    requires IsTable(ts, root.frame)
  {
    if ts[root.frame][DirIndex(o.va)].p then [] else [o.page]
  }

  /** Of the frames, one call adds the new table and changes no other space's. */
  lemma CallOwns(ts: Tables, root: Pte, o: Op, f: nat)
    requires Admissible(ts, root, o)
    ensures var t := Mapped(ts, root, o.va, EntryOf(o), o.page);
      && SpaceOk(t, root) && (f in t <==> f in ts || f in NewTable(ts, root, o))
      && (Owns(t, root, f) <==> Owns(ts, root, f) || f in NewTable(ts, root, o))
      && (f in ts && !Owns(ts, root, f) ==> t[f] == ts[f])
  {
    var e := EntryOf(o);
    var t := Mapped(ts, root, o.va, e, o.page);
    MappedOk(ts, root, o.va, e, o.page);
    MappedDirectory(ts, root, o.va, e, o.page);
    if f in ts && !Owns(ts, root, f) { MappedFrame(ts, root, o.va, e, o.page, f); }
    UserIndexes(o.va);
    OwnedByCall(ts, t, root, DirIndex(o.va), o.page, f);
  }

  lemma OwnedByCall(ts: Tables, t: Tables, root: Pte, i: nat, page: nat, f: nat)
    requires IsTable(ts, root.frame) && IsTable(t, root.frame) && i < ENTRIES && UserIndex(i)
    requires t[root.frame] == (if ts[root.frame][i].p then ts[root.frame] else ts[root.frame][i := Pte(page, true, true, true)])
    ensures Owns(t, root, f) <==> Owns(ts, root, f) || (!ts[root.frame][i].p && f == page)
  {
    var a, b := ts[root.frame], t[root.frame];
    if Owns(ts, root, f) && f != root.frame {
      var j :| 0 <= j < ENTRIES && UserIndex(j) && a[j].p && a[j].frame == f;
      assert b[j] == a[j];
    }
    if !a[i].p && f == page { assert b[i].p && b[i].frame == f; }
    if Owns(t, root, f) && f != root.frame {
      var j :| 0 <= j < ENTRIES && UserIndex(j) && b[j].p && b[j].frame == f;
      assert j != i ==> a[j] == b[j];
    }
  }

  /** So over a run: the space owns what it did and what it was handed, and other tables are as before. */
  lemma {:induction false} RunOwns(ts: Tables, root: Pte, ops: seq<Op>, f: nat)
    requires SpaceOk(ts, root) && AllAdmissible(ts, root, ops)
    ensures var t := After(ts, root, ops);
      && SpaceOk(t, root) && (f in t <==> f in ts || f in Handed(ts, root, ops))
      && (Owns(t, root, f) <==> Owns(ts, root, f) || f in Handed(ts, root, ops))
      && (f in ts && !Owns(ts, root, f) ==> t[f] == ts[f])
      && (f in ts ==> f !in Handed(ts, root, ops))
    decreases |ops|
  {
    if ops != [] {
      CallOwns(ts, root, ops[0], f);
      RunOwns(Mapped(ts, root, ops[0].va, EntryOf(ops[0]), ops[0].page), root, ops[1..], f);
    }
  }

  /** The allocator never hands out a page twice. */
  lemma {:induction false} HandedOnce(ts: Tables, root: Pte, ops: seq<Op>)
    requires SpaceOk(ts, root) && AllAdmissible(ts, root, ops)
    ensures NoRepeats(Handed(ts, root, ops))
    decreases |ops|
  {
    if ops != [] {
      var o := ops[0];
      var t := Mapped(ts, root, o.va, EntryOf(o), o.page);
      CallOwns(ts, root, o, o.page);
      HandedOnce(t, root, ops[1..]);
      RunOwns(t, root, ops[1..], o.page);
    }
  }

  lemma {:induction false} CountOnce(s: seq<nat>, f: nat)
    requires NoRepeats(s)
    ensures multiset(s)[f] == if f in s then 1 else 0
  {
    if s != [] {
      var r := s[..|s| - 1];
      assert s == r + [s[|s| - 1]];
      CountOnce(r, f);
    }
  }

  lemma SameElements(a: seq<nat>, b: seq<nat>)
    requires NoRepeats(a) && NoRepeats(b) && forall f: nat :: f in a <==> f in b
    ensures multiset(a) == multiset(b)
  {
    forall f: nat ensures multiset(a)[f] == multiset(b)[f] {
      CountOnce(a, f);
      CountOnce(b, f);
    }
  }

  /** The directory of a new space: the kernel's entries and nothing else. */
  ghost predicate NewDirectory(ts: Tables, kpt: nat, page: nat, dir: seq<Pte>) {
    && IsTable(ts, kpt) && page !in ts && |dir| == ENTRIES
    && (forall j | 0 <= j < ENTRIES :: dir[j] == if KernelIndex(j) then ts[kpt][j] else NONE)
    && (forall j | 0 <= j < ENTRIES :: !ts[kpt][j].u && (ts[kpt][j].p ==> ts[kpt][j].frame != page))
  }

  function RootOf(page: nat): Pte { Pte(page, true, false, true) }

  lemma NewOwns(ts: Tables, kpt: nat, page: nat, dir: seq<Pte>, f: nat)
    requires NewDirectory(ts, kpt, page, dir)
    ensures SpaceOk(ts[page := dir], RootOf(page)) && (Owns(ts[page := dir], RootOf(page), f) <==> f == page)
  {
  }

  lemma FreedInLife(ts: Tables, kpt: nat, page: nat, dir: seq<Pte>, start: Tables, root: Pte, ops: seq<Op>, f: nat)
    requires NewDirectory(ts, kpt, page, dir) && start == ts[page := dir] && root == RootOf(page)
    requires AllAdmissible(start, root, ops)
    ensures var t := After(start, root, ops);
      && SpaceOk(start, root) && SpaceOk(t, root) && (f in FreedBy(t, root) <==> f == page || f in Handed(start, root, ops))
      && (f in t && f !in FreedBy(t, root) <==> f in ts) && (f in ts ==> t[f] == ts[f])
      && page !in Handed(start, root, ops)
  {
    NewOwns(ts, kpt, page, dir, f);
    RunOwns(start, root, ops, f);
    RunOwns(start, root, ops, page);
    InFreed(After(start, root, ops), root, f);
  }

  lemma FreedAndHanded(t: Tables, root: Pte, pages: seq<nat>)
    requires SpaceOk(t, root) && NoRepeats(pages) && root.frame !in pages
    requires forall f: nat :: f in FreedBy(t, root) <==> f == root.frame || f in pages
    ensures multiset(FreedBy(t, root)) == multiset([root.frame] + pages)
  {
    DirectoryOnce(t, root);
    SameElements(FreedBy(t, root), [root.frame] + pages);
  }

  lemma RestoredTables(ts: Tables, t: Tables, gone: seq<nat>)
    requires forall f: nat :: f in t && f !in gone <==> f in ts
    requires forall f: nat | f in ts :: t[f] == ts[f]
    ensures Without(t, gone) == ts
  {
  }

  /** The tables left when the space is gone. */
  function Without(ts: Tables, gone: seq<nat>): Tables { map f | f in ts && f !in gone :: ts[f] }

  /** Exactness over the whole life of a space: protect, any maps and unmaps, then unprotect frees exactly the pages
      the allocator handed out for it, each once, and leaves all tables as they were before. */
  lemma LifeOfSpace(ts: Tables, kpt: nat, page: nat, dir: seq<Pte>, ops: seq<Op>)
    requires NewDirectory(ts, kpt, page, dir) && AllAdmissible(ts[page := dir], RootOf(page), ops)
    ensures var t := After(ts[page := dir], RootOf(page), ops);
      && SpaceOk(t, RootOf(page))
      && multiset(FreedBy(t, RootOf(page))) == multiset([page] + Handed(ts[page := dir], RootOf(page), ops))
      && Without(t, FreedBy(t, RootOf(page))) == ts
  {
    var start, root := ts[page := dir], RootOf(page);
    var t, pages := After(start, root, ops), Handed(start, root, ops);
    FreedInLife(ts, kpt, page, dir, start, root, ops, page);
    HandedOnce(start, root, ops);
    forall f: nat
      ensures f in FreedBy(t, root) <==> f == page || f in pages
      ensures f in t && f !in FreedBy(t, root) <==> f in ts
      ensures f in ts ==> t[f] == ts[f]
    {
      FreedInLife(ts, kpt, page, dir, start, root, ops, f);
    }
    FreedAndHanded(t, root, pages);
    RestoredTables(ts, t, FreedBy(t, root));
  }

  /** A space that owns none of the freed pages goes on as it was. */
  lemma OthersGoOn(ts: Tables, root: Pte, gone: seq<nat>, va: nat)
    requires SpaceOk(ts, root) && (forall f | f in gone :: !Owns(ts, root, f)) && UserVa(va)
    ensures SpaceOk(Without(ts, gone), root) && Lookup(Without(ts, gone), root, va) == Lookup(ts, root, va)
  {
    UserIndexes(va);
    var t, es := Without(ts, gone), ts[root.frame];
    assert Owns(ts, root, root.frame);
    forall i | 0 <= i < ENTRIES && UserIndex(i) && es[i].p ensures es[i].frame in t { assert Owns(ts, root, es[i].frame); }
  }

  // ------------------------------------------------------------ kernel areas

  const STEP := 0x40_0000

  /** The kernel areas: below 0x40000000, and memory-mapped devices from 0xfd000000 up. */
  predicate KernelIndex(i: nat) { i < 256 || 1012 <= i }

  lemma IndexOfStep(k: nat, last: nat)
    requires k <= last <= ENTRIES && (k * STEP) % VA_LIMIT != (last * STEP) % VA_LIMIT
    ensures k < last && DirIndex((k * STEP) % VA_LIMIT) == k
    ensures ((k * STEP) % VA_LIMIT + STEP) % VA_LIMIT == ((k + 1) * STEP) % VA_LIMIT
  {
  }

  lemma EndOfArea(first: nat, k: nat, last: nat)
    requires first <= k <= last <= ENTRIES && (last < ENTRIES || first > 0)
    requires (k * STEP) % VA_LIMIT == (last * STEP) % VA_LIMIT
    ensures k == last
  {
  }

  /** In a new space kernel addresses are translated as in the kernel's own space, user addresses not at all. */
  lemma NewSpace(ts: Tables, kpt: nat, page: nat, dir: seq<Pte>, va: nat, x: Pte, y: Pte)
    requires NewDirectory(ts, kpt, page, dir) && va < VA_LIMIT
    ensures var t := ts[page := dir];
      && (0x4000_0000 <= va < 0xfd00_0000 ==> !Walks(t, RootOf(page), va, x, y))
      && (va < 0x4000_0000 || va >= 0xfd00_0000 ==>
            (Walks(t, RootOf(page), va, x, y) <==> Walks(ts, Pte(kpt, true, false, false), va, x, y)))
  {
    KernelIndexes(va);
    WalksIs(ts[page := dir], RootOf(page), va, x, y);
    WalksIs(ts, Pte(kpt, true, false, false), va, x, y);
  }

  lemma KernelIndexes(va: nat)
    requires va < VA_LIMIT
    ensures KernelIndex(DirIndex(va)) <==> va < 0x4000_0000 || va >= 0xfd00_0000
  {
  }

  // ----------------------------------------------------------------- machine

  class AddrSpace {
    var root: Pte

    constructor (r: Pte)
      ensures root == r
    {
      root := r;
    }
  }

  /** Physical memory as far as it holds page tables, and the pages given back to the allocator. */
  class Vme {
    var tables: Tables
    var freed: seq<nat>

    /** The walk: level by level, allocating a zeroed table where an entry is not present. */
    method Walk(space: AddrSpace, va: nat, page: nat) returns (table: nat, index: nat)
      requires SpaceOk(tables, space.root) && UserVa(va) && page !in tables
      modifies this`tables
      ensures tables == Walked(old(tables), space.root, va, page)
      ensures table == Leaf(old(tables), space.root, va, page) && index == TabIndex(va) && IsTable(tables, table)
      ensures exists d: nat, o: nat :: (Digits(va, d, index, o) && IsTable(tables, space.root.frame)
        && tables[space.root.frame][d].p && tables[space.root.frame][d].frame == table)
    {
      UserIndexes(va);
      table, index := 0, 0;
      var i := 0;
      while i <= 2
        invariant 0 <= i <= 2
        invariant i <= 1 ==> tables == old(tables)
        invariant i == 1 ==> table == space.root.frame
        invariant i == 2 ==> tables == Walked(old(tables), space.root, va, page) && table == Leaf(old(tables), space.root, va, page)
        decreases 3 - i
      {
        index := if i == 0 then 0 else if i == 1 then DirIndex(va) else TabIndex(va);
        if i == 2 {
          Decomposes(va);
          assert Digits(va, DirIndex(va), index, va % 0x1000);
          return;
        }
        var e := if i == 0 then space.root else tables[table][index];
        var next;
        if !e.p {
          next := page;
          tables := tables[page := Blank()];
          tables := tables[table := tables[table][index := Pte(page, true, true, true)]];
        } else {
          next := e.frame;
        }
        table := next;
        i := i + 1;
      }
    }

    /** Map or unmap one page; `ok` is false where the source panics. */
    method MapPage(space: AddrSpace, va: nat, pa: nat, none: bool, writable: bool, page: nat) returns (ok: bool)
      requires SpaceOk(tables, space.root) && va < VA_LIMIT && Unnamed(tables, space.root, page)
      modifies this`tables
      ensures SpaceOk(tables, space.root)
      ensures ok <==> 0x4000_0000 <= va < 0x8000_0000 && va % 0x1000 == 0 && pa % 0x1000 == 0
                      && Lookup(old(tables), space.root, va).p == none
      ensures ok ==> tables == Mapped(old(tables), space.root, va,
        if none then NONE else Pte(pa / PGSIZE, true, writable, true), page)
      ensures ok ==> forall vb: nat, pb: nat, w: bool | 0x4000_0000 <= vb < 0x8000_0000 ::
        (Translates(tables, space.root, vb, pb, w) <==>
           if vb / 0x1000 != va / 0x1000 then Translates(old(tables), space.root, vb, pb, w)
           else !none && pb == pa + vb % 0x1000 && w == writable)
    {
      if !UserVa(va) || va % PGSIZE != 0 || pa % PGSIZE != 0 { return false; }
      ghost var before := tables;
      ghost var root := space.root;
      ghost var was := Lookup(before, root, va);
      MappedDirectory(before, root, va, was, page);
      MappedOk(before, root, va, was, page);
      UserIndexes(va);
      var table, index := Walk(space, va, page);
      var e := tables[table][index];
      WalkedIsMapped(before, root, va, page);
      if e.p != none { return false; }
      var entry := if none then NONE else Pte(pa / PGSIZE, true, writable, true);
      tables := tables[table := tables[table][index := entry]];
      assert tables == Mapped(before, root, va, entry, page);
      MappedOk(before, root, va, entry, page);
      forall vb: nat, pb: nat, w: bool | 0x4000_0000 <= vb < 0x8000_0000
        ensures Translates(tables, root, vb, pb, w) <==>
          if vb / 0x1000 != va / 0x1000 then Translates(before, root, vb, pb, w)
          else !none && pb == pa + vb % 0x1000 && w == writable
      {
        if none {
          UnmapTranslates(before, root, va, page, vb, pb, w);
        } else {
          MapTranslates(before, root, va, pa / PGSIZE, writable, page, vb, pb, w);
        }
      }
      ok := true;
    }

    /** Copy the directory entries of one kernel area, in steps of one directory entry; the end address wraps
        round at the top of the address space. */
    method CopyArea(from: seq<Pte>, dir: seq<Pte>, start: nat, end: nat, ghost first: nat, ghost last: nat) returns (copy: seq<Pte>)
      requires |from| == ENTRIES && |dir| == ENTRIES && first < last <= ENTRIES
      requires start == first * STEP && end == (last * STEP) % VA_LIMIT && (last < ENTRIES || first > 0)
      ensures |copy| == ENTRIES
      ensures forall i | 0 <= i < ENTRIES :: copy[i] == if first <= i < last then from[i] else dir[i]
    {
      copy := dir;
      var cur := start;
      ghost var k := first;
      while cur != end
        invariant first <= k <= last && cur == (k * STEP) % VA_LIMIT && |copy| == ENTRIES
        invariant forall i | 0 <= i < ENTRIES :: copy[i] == if first <= i < k then from[i] else dir[i]
        decreases last - k
      {
        IndexOfStep(k, last);
        copy := copy[DirIndex(cur) := from[DirIndex(cur)]];
        cur := (cur + STEP) % VA_LIMIT;
        k := k + 1;
      }
      EndOfArea(first, k, last);
    }

    /** A new address space: the kernel's directory entries and nothing in the user area. */
    method Protect(kpt: nat, page: nat) returns (space: AddrSpace)
      requires IsTable(tables, kpt) && page !in tables
      requires forall j | 0 <= j < ENTRIES :: !tables[kpt][j].u && (tables[kpt][j].p ==> tables[kpt][j].frame != page)
      modifies this`tables
      ensures SpaceOk(tables, space.root) && space.root == RootOf(page)
      ensures page in tables && tables == old(tables)[page := tables[page]]
      ensures NewDirectory(old(tables), kpt, page, tables[page])
    {
      var dir := Blank();
      dir := CopyArea(tables[kpt], dir, 0, 0x4000_0000, 0, 256);
      dir := CopyArea(tables[kpt], dir, 0xfd00_0000, 0, 1012, 1024);
      tables := tables[page := dir];
      space := new AddrSpace(RootOf(page));
    }

    /** Free the table at `f` and, first, the tables its user entries lead to. */
    method Teardown(level: nat, f: nat)
      requires 1 <= level <= 3 && (level <= 2 ==> IsTable(tables, f))
      requires level == 1 ==> forall i | 0 <= i < ENTRIES && tables[f][i].p && tables[f][i].u :: IsTable(tables, tables[f][i].frame)
      modifies this`freed
      ensures freed == old(freed) + Torn(tables, level, f)
      decreases 3 - level
    {
      if level > 2 { return; }
      var es := tables[f];
      var i := 0;
      ghost var start, log := freed, [];
      while i < |es|
        invariant 0 <= i <= |es| && freed == start + log && log == Released(tables, level, es, i)
      {
        ghost var step := if es[i].p && es[i].u then Torn(tables, level + 1, es[i].frame) else [];
        Grows(start, log, step);
        if es[i].p && es[i].u { Teardown(level + 1, es[i].frame); }
        log := log + step;
        i := i + 1;
      }
      Grows(start, log, [f]);
      freed := freed + [f];
    }

    /** Tear the whole space down.  The freed pages are tables no more, so the allocator may hand them out again. */
    method Unprotect(space: AddrSpace)
      requires SpaceOk(tables, space.root)
      modifies this`freed, this`tables
      ensures freed == old(freed) + FreedBy(old(tables), space.root)
      ensures tables == Without(old(tables), FreedBy(old(tables), space.root))
    {
      var before := |freed|;
      ghost var es := tables[space.root.frame];
      forall i | 0 <= i < ENTRIES && es[i].p && es[i].u ensures IsTable(tables, es[i].frame) { assert UserIndex(i); }
      if space.root.p && space.root.u { Teardown(1, space.root.frame); }
      assert Released(tables, 0, [space.root], 0) == [];
      assert Released(tables, 0, [space.root], 1) == [] + Torn(tables, 1, space.root.frame);
      tables := Without(tables, freed[before..]);
    }
  }
}
