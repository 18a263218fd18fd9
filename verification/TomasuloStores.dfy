/**
 The order of stores.

 Memory holds exactly the oldest stores of the functional execution and the store buffer exactly the next ones,
 in order.  So the condition for forwarding can be put as a condition on the program alone.
 */
module TomasuloStores {
  import opened Isa
  import opened Forwarding
  import opened Tomasulo
  import opened TomasuloInvariant
  import opened TomasuloCommit
  import opened TomasuloExecute
  import opened TomasuloRecover
  import opened TomasuloUnits
  import opened TomasuloFront
  import opened TomasuloStructure
  import opened TomasuloTheorem

  // ------------------------------------------------- stores of the execution

  function StoreAt(x: Executed): seq<StoreRec> {
    if x.ir.kind == STORE then [StoreRec(x.addr, x.v2, x.ir.width)] else []
  }

  /** The stores of instructions `a` up to and excluding `b`, in program order. */
  ghost function StoresOf(f: Trace, a: nat, b: nat): seq<StoreRec>
    requires a <= b
  {
    if a == b then [] else StoresOf(f, a, b - 1) + StoreAt(f(b - 1))
  }

  lemma {:induction false} StoresSplit(f: Trace, a: nat, b: nat, c: nat)
    requires a <= b <= c
    ensures StoresOf(f, a, c) == StoresOf(f, a, b) + StoresOf(f, b, c)
    decreases c
  {
    if b < c {
      StoresSplit(f, a, b, c - 1);
      assert StoresOf(f, a, b) + (StoresOf(f, b, c - 1) + StoreAt(f(c - 1))) ==
        (StoresOf(f, a, b) + StoresOf(f, b, c - 1)) + StoreAt(f(c - 1));
    }
  }

  /** The first store at or after `a`: what is before it is nothing, what is after it is the rest. */
  lemma {:induction false} FirstStore(f: Trace, a: nat, b: nat) returns (d: nat)
    requires a <= b && StoresOf(f, a, b) != []
    ensures a < d <= b && StoresOf(f, a, d) == [StoresOf(f, a, b)[0]] && StoresOf(f, d, b) == StoresOf(f, a, b)[1..]
    decreases b - a
  {
    StoresSplit(f, a, a + 1, b);
    assert StoresOf(f, a, a + 1) == StoresOf(f, a, a) + StoreAt(f(a)) == StoreAt(f(a));
    if f(a).ir.kind == STORE {
      d := a + 1;
    } else {
      assert StoresOf(f, a, b) == StoresOf(f, a + 1, b);
      d := FirstStore(f, a + 1, b);
      StoresSplit(f, a, a + 1, d);
      assert StoresOf(f, a, d) == StoresOf(f, a + 1, d);
    }
  }

  // ------------------------------------------------------------- the invariant

  /** The first `d` instructions' stores are in memory and the others' in the buffer. */
  ghost predicate DrainedTo(f: Trace, m: Mem, s: Core, d: nat) {
    d <= s.insts && s.sbuf == StoresOf(f, d, s.insts) && s.mem == PerformAll(m, StoresOf(f, 0, d))
  }

  ghost predicate Queued(f: Trace, m: Mem, s: Core) { exists d: nat :: DrainedTo(f, m, s, d) }

  lemma QueueKept(f: Trace, m: Mem, s: Core, t: Core)
    requires Queued(f, m, s) && SameQueue(s, t)
    ensures Queued(f, m, t)
  {
    var d: nat :| DrainedTo(f, m, s, d);
    assert DrainedTo(f, m, t, d);
  }

  lemma PerformNext(m: Mem, sts: seq<StoreRec>, st: StoreRec)
    ensures PerformAll(m, sts + [st]) == Perform(PerformAll(m, sts), st)
  {
    PerformAllAppend(m, sts, [st]);
    PerformOne(PerformAll(m, sts), st);
  }

  /** Draining moves the boundary past one store. */
  lemma DrainQueued(f: Trace, m: Mem, s: Core, tick: bool)
    requires Queued(f, m, s)
    ensures Queued(f, m, Drain(s, tick))
  {
    var d: nat :| DrainedTo(f, m, s, d);
    if s.sbuf != [] && tick {
      var e := FirstStore(f, d, s.insts);
      StoresSplit(f, 0, d, e);
      PerformNext(m, StoresOf(f, 0, d), s.sbuf[0]);
      assert DrainedTo(f, m, Drain(s, tick), e);
    }
  }

  /** A committing store is the functional machine's. */
  lemma CommitFields(s: Core)
    requires Shape(s) && CanCommit(s) && (s.rob[0].ir.kind == STORE ==> InDram(s.rob[0].addr))
    ensures CommitOne(s).insts == s.insts + 1 && CommitOne(s).mem == s.mem
    ensures CommitOne(s).sbuf == s.sbuf + if s.rob[0].ir.kind == STORE then [StoreOf(s.rob[0])] else []
  {
  }

  lemma HeadStore(prog: Program, f: Path, s: Core)
    requires ValidTrace(prog, f) && Full(prog, f, s) && CanCommit(s) && s.insts < f.limit
    ensures s.rob[0].ir.kind == STORE ==> InDram(s.rob[0].addr)
    ensures (if s.rob[0].ir.kind == STORE then [StoreOf(s.rob[0])] else []) == StoreAt(f.run(s.insts))
  {
    HeadOnPath(prog, f, s);
    assert FinishedRight(f, s, 0);
    assert ValidStep(f.run(s.insts));
  }

  lemma CommitStores(prog: Program, f: Path, s: Core)
    requires ValidTrace(prog, f) && Shape(s) && Inv(prog, f, s) && CanCommit(s) && s.insts < f.limit
    ensures CommitOne(s).insts == s.insts + 1 && CommitOne(s).mem == s.mem
    ensures CommitOne(s).sbuf == s.sbuf + StoreAt(f.run(s.insts))
  {
    Unfold(prog, f, s);
    HeadStore(prog, f, s);
    CommitFields(s);
  }

  lemma QueueGrows(f: Trace, m: Mem, s: Core, t: Core)
    requires Queued(f, m, s) && t.insts == s.insts + 1 && t.mem == s.mem && t.sbuf == s.sbuf + StoreAt(f(s.insts))
    ensures Queued(f, m, t)
  {
    var d: nat :| DrainedTo(f, m, s, d);
    assert StoresOf(f, d, t.insts) == StoresOf(f, d, s.insts) + StoreAt(f(s.insts));
    assert DrainedTo(f, m, t, d);
  }

  lemma CommitQueued(prog: Program, f: Path, m: Mem, s: Core)
    requires ValidTrace(prog, f) && Shape(s) && Inv(prog, f, s) && Queued(f.run, m, s) && CommitOne(s).insts <= f.limit
    ensures Queued(f.run, m, CommitOne(s))
  {
    if CanCommit(s) {
      CommitStores(prog, f, s);
      QueueGrows(f.run, m, s, CommitOne(s));
    }
  }

  // ------------------------------------------------------- forwardable programs

  /** If instruction `n` is a store and `k` a load, they are disjoint or the store covers the load. */
  ghost predicate Forwardable(f: Path, n: nat, k: nat) {
    f.run(n).ir.kind == STORE && f.run(k).ir.kind == LOAD ==>
      Apart(StoreAt(f.run(n))[0], f.run(k).addr, f.run(k).ir.width)
  }

  /** Every load is disjoint from or covered by every earlier store. */
  ghost predicate Disciplined(f: Path) { forall n: nat, k: nat | n < k < f.limit :: Forwardable(f, n, k) }

  predicate Apart(st: StoreRec, a: int, w: nat) { Overlaps(st, a, w) ==> Covers(st, a, w) }

  lemma {:induction false} AllApartSafe(sts: seq<StoreRec>, a: int, w: nat)
    requires forall k | 0 <= k < |sts| :: Apart(sts[k], a, w)
    ensures Safe(sts, a, w)
  {
    if sts != [] {
      forall k | 0 <= k < |sts[1..]| ensures Apart(sts[1..][k], a, w) { assert sts[1..][k] == sts[k + 1]; }
      AllApartSafe(sts[1..], a, w);
      assert Apart(sts[0], a, w);
    }
  }

  lemma {:induction false} StoresApart(f: Path, a: nat, b: nat, n: nat)
    requires Disciplined(f) && a <= b <= n < f.limit && f.run(n).ir.kind == LOAD
    ensures forall k | 0 <= k < |StoresOf(f.run, a, b)| :: Apart(StoresOf(f.run, a, b)[k], f.run(n).addr, f.run(n).ir.width)
    decreases b
  {
    if a < b {
      StoresApart(f, a, b - 1, n);
      assert Forwardable(f, b - 1, n);
    }
  }

  lemma PendingNext(f: Path, s: Core, j: nat)
    requires Shape(s) && 0 < j <= |s.rob| && OnPath(f, s, j - 1) && FinishedRight(f, s, j - 1)
    requires s.rob[j - 1].ir.kind == STORE ==> s.rob[j - 1].ready
    ensures Pending(s, j) == Pending(s, j - 1) + StoreAt(f.run(s.insts + (j - 1)))
  {
    assert SameInst(f, s, j - 1);
  }

  /** On the path, the pending stores are the execution's, in order. */
  lemma {:induction false} PendingIs(f: Path, s: Core, d: nat, j: nat)
    requires Shape(s) && Done(f, s) && d <= s.insts && s.sbuf == StoresOf(f.run, d, s.insts)
    requires j <= |s.rob| && OnPath(f, s, j - 1) && OlderStoresReady(s, j)
    ensures Pending(s, j) == StoresOf(f.run, d, s.insts + j)
    decreases j
  {
    if j == 0 {
      assert Pending(s, 0) == s.sbuf;
    } else {
      assert OnPath(f, s, j - 2) by { assert forall k: nat | k <= j - 2 :: SameInst(f, s, k); }
      PendingIs(f, s, d, j - 1);
      assert FinishedRight(f, s, j - 1);
      PendingNext(f, s, j);
    }
  }

  /** In a disciplined program every load that completes is safe. */
  lemma PendingApart(f: Path, m: Mem, s: Core, j: nat)
    requires Disciplined(f) && Shape(s) && Done(f, s) && Queued(f.run, m, s) && j <= |s.rob| && OnPath(f, s, j - 1)
    requires OlderStoresReady(s, j) && s.insts + j < f.limit && f.run(s.insts + j).ir.kind == LOAD
    ensures forall k | 0 <= k < |Pending(s, j)| :: Apart(Pending(s, j)[k], f.run(s.insts + j).addr, f.run(s.insts + j).ir.width)
  {
    var d: nat :| DrainedTo(f.run, m, s, d);
    PendingIs(f, s, d, j);
    StoresApart(f, d, s.insts + j, s.insts + j);
  }

  lemma LoadIsSafe(f: Path, m: Mem, s: Core, j: nat)
    requires Disciplined(f) && Shape(s) && Done(f, s) && Queued(f.run, m, s) && j < |s.rob|
    requires OnPath(f, s, j) && OlderStoresReady(s, j) && f.run(s.insts + j).ir.kind == LOAD
    ensures Safe(Pending(s, j), f.run(s.insts + j).addr, f.run(s.insts + j).ir.width)
  {
    assert OnPath(f, s, j - 1) by { assert forall k: nat | k <= j - 1 :: SameInst(f, s, k); }
    assert SameInst(f, s, j);
    PendingApart(f, m, s, j);
    AllApartSafe(Pending(s, j), f.run(s.insts + j).addr, f.run(s.insts + j).ir.width);
  }

  /** A load in a latch has its older stores ready. */
  ghost predicate LoadPlaced(s: Core, u: nat)
    requires Shape(s) && u < NUM_UNITS
  {
    LiveLatch(s, u) && Live(s, s.units[u].tag) && s.rob[s.units[u].tag - s.insts].ir.kind == LOAD ==>
      OlderStoresReady(s, s.units[u].tag - s.insts)
  }

  lemma PlacedLoad(s: Core, u: nat)
    requires Shape(s) && Placed(s) && u < NUM_UNITS
    ensures LoadPlaced(s, u)
  {
    if LiveLatch(s, u) { assert LatchPlaced(s, s.units[u], EuOfUnit(u)); }
  }

  lemma FillIsSafe(f: Path, m: Mem, s: Core, u: nat)
    requires Disciplined(f) && Shape(s) && Done(f, s) && Queued(f.run, m, s) && u < NUM_UNITS && LoadPlaced(s, u)
    ensures FillSafe(f, s, u)
  {
    var tag := s.units[u].tag;
    if LiveLatch(s, u) && Live(s, tag) && OnPath(f, s, tag - s.insts) && f.run(tag).ir.kind == LOAD {
      assert SameInst(f, s, tag - s.insts);
      LoadIsSafe(f, m, s, tag - s.insts);
    }
  }

  lemma FillSafeNow(prog: Program, f: Path, m: Mem, s: Core, u: nat)
    requires Disciplined(f) && Shape(s) && Inv(prog, f, s) && Queued(f.run, m, s) && u < NUM_UNITS
    ensures FillSafe(f, s, u)
  {
    Unfold(prog, f, s);
    PlacedLoad(s, u);
    FillIsSafe(f, m, s, u);
  }

  // -------------------------------------------------------------------- cycles

  lemma FrontQueued(prog: Program, f: Path, m: Mem, s: Core, tick: bool)
    requires ValidTrace(prog, f) && Shape(s) && Inv(prog, f, s) && Queued(f.run, m, s)
    requires Front(s, tick).insts <= f.limit
    ensures Queued(f.run, m, Front(s, tick))
  {
    var s1 := Drain(s, tick);
    CommitCounts(s, tick);
    DrainKeeps(prog, f, s, tick);
    DrainQueued(f.run, m, s, tick);
    CommitKeeps(prog, f, s1);
    CommitQueued(prog, f, m, s1);
    CommitQueued(prog, f, m, CommitOne(s1));
  }

  lemma BeforeLsuQueued(prog: Program, f: Path, m: Mem, s: Core, i: Inputs)
    requires ValidTrace(prog, f) && Shape(s) && Inv(prog, f, s) && Queued(f.run, m, s)
    requires Front(s, i.tick).insts <= f.limit
    ensures Inv(prog, f, BeforeLsu(s, i)) && Queued(f.run, m, BeforeLsu(s, i))
  {
    var t := Front(s, i.tick);
    FrontKeepsInv(prog, f, s, i.tick);
    FrontQueued(prog, f, m, s, i.tick);
    ComputeKeeps(prog, f, t, i.mulDone);
    InvOrderly(prog, f, t);
    ComputeQueue(t, i.mulDone);
    QueueKept(f.run, m, t, Compute(t, i.mulDone));
  }

  lemma LsuQueued(prog: Program, f: Path, m: Mem, s: Core, u: nat, act: LsuAction)
    requires ValidTrace(prog, f) && Disciplined(f) && Shape(s) && Inv(prog, f, s) && Queued(f.run, m, s) && 3 <= u < NUM_UNITS
    ensures FillSafe(f, s, u) && Inv(prog, f, LsuSlot(s, u, act)) && Queued(f.run, m, LsuSlot(s, u, act))
  {
    FillSafeNow(prog, f, m, s, u);
    LsuKeeps(prog, f, s, u, act);
    LsuQueue(s, u, act);
    QueueKept(f.run, m, s, LsuSlot(s, u, act));
  }

  /** In a disciplined program every cycle is safe, and the order of stores is kept. */
  lemma CycleQueued(prog: Program, f: Path, m: Mem, s: Core, i: Inputs)
    requires ValidTrace(prog, f) && Disciplined(f) && Shape(s) && Inv(prog, f, s) && Queued(f.run, m, s)
    requires Cycle(prog, s, i).insts <= f.limit
    ensures CycleSafe(f, s, i) && Queued(f.run, m, Cycle(prog, s, i))
  {
    InvOrderly(prog, f, s);
    CycleQueue(prog, s, i);
    BeforeLsuQueued(prog, f, m, s, i);
    var b := BeforeLsu(s, i);
    LsuQueued(prog, f, m, b, 3, i.lsu0);
    LsuQueued(prog, f, m, LsuSlot(b, 3, i.lsu0), 4, i.lsu1);
    BackQueue(prog, AfterLsu(s, i), i);
    QueueKept(f.run, m, AfterLsu(s, i), Cycle(prog, s, i));
  }

  lemma BootQueued(f: Trace, init: Arch)
    ensures Queued(f, init.mem, Boot(init))
  {
    assert DrainedTo(f, init.mem, Boot(init), 0);
  }

  lemma {:induction false} RunQueued(prog: Program, init: Arch, n: nat, ins: seq<Inputs>)
    requires ValidTrace(prog, Path(History(prog, init), n)) && Disciplined(Path(History(prog, init), n))
    requires Exec(prog, init, ins).insts <= n
    ensures RunSafe(prog, init, n, ins) && Inv(prog, Path(History(prog, init), n), Exec(prog, init, ins))
    ensures Queued(History(prog, init), init.mem, Exec(prog, init, ins))
  {
    var f := Path(History(prog, init), n);
    if ins == [] {
      BootKeeps(prog, f, init);
      BootQueued(f.run, init);
    } else {
      var before, last := ins[..|ins| - 1], ins[|ins| - 1];
      AlwaysOrderly(prog, init, before);
      CycleCounts(prog, Exec(prog, init, before), last);
      RunQueued(prog, init, n, before);
      QueuedNext(prog, f, init.mem, Exec(prog, init, before), last);
    }
  }

  lemma QueuedNext(prog: Program, f: Path, m: Mem, s: Core, i: Inputs)
    requires ValidTrace(prog, f) && Disciplined(f) && Shape(s) && Inv(prog, f, s) && Queued(f.run, m, s)
    requires Cycle(prog, s, i).insts <= f.limit
    ensures CycleSafe(f, s, i) && Inv(prog, f, Cycle(prog, s, i)) && Queued(f.run, m, Cycle(prog, s, i))
  {
    CycleQueued(prog, f, m, s, i);
    CycleKeeps(prog, f, s, i);
  }

  /** A program fit for the engine, as a condition on the functional execution of its first `n` instructions. */
  ghost predicate Suitable(prog: Program, init: Arch, n: nat) {
    ValidUpTo(prog, init, n) && Disciplined(Path(History(prog, init), n))
  }

  /** Refinement with a condition on the program only: if every load is disjoint from or covered by every earlier
      store, then in every run the engine agrees with the functional machine. */
  lemma SuitableRefines(prog: Program, init: Arch, n: nat, ins: seq<Inputs>)
    requires Suitable(prog, init, n) && Exec(prog, init, ins).insts <= n
    ensures RunSafe(prog, init, n, ins)
    ensures var s := Exec(prog, init, ins); AgreesWith(s, Run(prog, init, s.insts))
  {
    ValidIsTrace(prog, init, n);
    RunQueued(prog, init, n, ins);
    Refinement(prog, init, n, ins);
  }

  lemma Boundary(f: Trace, m: Mem, s: Core) returns (d: nat)
    requires Queued(f, m, s)
    ensures d <= s.insts && s.sbuf == StoresOf(f, d, s.insts) && s.mem == PerformAll(m, StoresOf(f, 0, d))
  {
    d :| DrainedTo(f, m, s, d);
  }

  /** Total store order: in every run memory is the initial memory with the stores of the first `d` instructions
      performed, and the store buffer holds the stores of the other committed ones, in program order. */
  lemma StoreOrder(prog: Program, init: Arch, n: nat, ins: seq<Inputs>) returns (d: nat)
    requires Suitable(prog, init, n) && Exec(prog, init, ins).insts <= n
    ensures var s := Exec(prog, init, ins);
      var f := History(prog, init);
      && d <= s.insts && s.sbuf == StoresOf(f, d, s.insts)
      && s.mem == PerformAll(init.mem, StoresOf(f, 0, d))
  {
    ValidIsTrace(prog, init, n);
    RunQueued(prog, init, n, ins);
    d := Boundary(History(prog, init), init.mem, Exec(prog, init, ins));
  }
}
