/**
 Whole runs of the out-of-order engine.

 For any program, any predictions and any latencies, what the engine has committed after any number
 of cycles is what the functional machine does.
 */
module TomasuloTheorem {
  import opened Isa
  import opened Forwarding
  import opened Tomasulo
  import opened TomasuloInvariant
  import opened TomasuloCommit
  import opened TomasuloUnits
  import opened TomasuloFront
  import opened TomasuloStructure

  // ---------------------------------------------------------------- one cycle

  /** What comes from outside in one cycle: timing, and two predictions. */
  datatype Inputs = Inputs(
    tick: bool, mulDone: bool, lsu0: LsuAction, lsu1: LsuAction, pred0: Prediction, pred1: Prediction)

  function Front(s: Core, tick: bool): (t: Core)
    requires Shape(s)
    ensures Shape(t)
  {
    CommitOne(CommitOne(Drain(s, tick)))
  }

  function Compute(s: Core, mulDone: bool): (t: Core)
    requires Shape(s)
    ensures Shape(t)
  {
    MulSlot(IntSlot(IntSlot(s, 0), 1), mulDone)
  }

  function Issue(s: Core): (t: Core)
    requires Shape(s)
    ensures Shape(t)
  {
    IssueSlot(IssueSlot(IssueSlot(IssueSlot(IssueSlot(s, 0), 1), 2), 3), 4)
  }

  /** The state the load-store units see. */
  function BeforeLsu(s: Core, i: Inputs): (t: Core)
    requires Shape(s)
    ensures Shape(t)
  {
    Compute(Front(s, i.tick), i.mulDone)
  }

  function AfterLsu(s: Core, i: Inputs): (t: Core)
    requires Shape(s)
    ensures Shape(t)
  {
    LsuSlot(LsuSlot(BeforeLsu(s, i), 3, i.lsu0), 4, i.lsu1)
  }

  function Back(prog: Program, s: Core, i: Inputs): (t: Core)
    requires Shape(s)
    ensures Shape(t)
  {
    var r := RenameOne(RenameOne(Issue(s)));
    FetchShape(prog, Decode(r), i.pred0, i.pred1);
    Fetch(prog, Decode(r), i.pred0, i.pred1)
  }

  /** One clock cycle, stages in the order of the engine. */
  function Cycle(prog: Program, s: Core, i: Inputs): (t: Core)
    requires Shape(s)
    ensures Shape(t)
  {
    Back(prog, AfterLsu(s, i), i)
  }

  // --------------------------------------------------------------------- runs

  function BootPhys(regs: Regs): (p: seq<Phys>)
    ensures |p| == NUM_PHYS
    ensures forall k | 0 <= k < NUM_PHYS :: p[k] == Phys(if 0 < k < 32 then regs[k] else 0, true)
  {
    seq(NUM_PHYS, k => Phys(if 0 < k < 32 then regs[k] else 0, true))
  }

  const EMPTY_STATION := Station(false, 0, 0, INT, false, 0, 0, false, 0, 0)
  const EMPTY_LATCH := Latch(false, 0, 0, 0, 0, false, false)

  function Identity(n: nat): (m: seq<int>)
    ensures |m| == n && forall r | 0 <= r < n :: m[r] == r
  {
    seq(n, r => r)
  }

  function Upper(): (m: seq<int>)
    ensures |m| == 32 && forall r | 0 <= r < 32 :: m[r] == 32 + r
  {
    seq(32, r => 32 + r)
  }

  /** The engine as `ooo_init` leaves it. */
  function Boot(init: Arch): (s: Core)
    ensures Shape(s)
  {
    Core(0, init.regs, init.pc, init.mem, [], Identity(32), Identity(32), Upper(), BootPhys(init.regs),
         [], seq(RS_SIZE, _ => EMPTY_STATION), seq(NUM_UNITS, _ => EMPTY_LATCH), [], [], init.pc)
  }

  /** The engine after one cycle for each element of `ins`. */
  function Exec(prog: Program, init: Arch, ins: seq<Inputs>): (s: Core)
    ensures Shape(s)
  {
    if ins == [] then Boot(init) else Cycle(prog, Exec(prog, init, ins[..|ins| - 1]), ins[|ins| - 1])
  }

  // ---------------------------------------------------- structure, at all times

  lemma FrontOrderly(s: Core, tick: bool)
    requires Shape(s) && Orderly(s)
    ensures Orderly(Front(s, tick))
  {
    var s1 := Drain(s, tick);
    DrainOrderly(s, tick);
    CommitOrderly(s1);
    CommitOrderly(CommitOne(s1));
  }

  lemma ComputeOrderly(s: Core, mulDone: bool)
    requires Shape(s) && Orderly(s)
    ensures Orderly(Compute(s, mulDone))
  {
    IntOrderly(s, 0);
    IntOrderly(IntSlot(s, 0), 1);
    MulOrderly(IntSlot(IntSlot(s, 0), 1), mulDone);
  }

  lemma IssuesOrderly(s: Core)
    requires Shape(s) && Orderly(s)
    ensures Orderly(Issue(s))
  {
    IssueOrderly(s, 0);
    IssueOrderly(IssueSlot(s, 0), 1);
    IssueOrderly(IssueSlot(IssueSlot(s, 0), 1), 2);
    IssueOrderly(IssueSlot(IssueSlot(IssueSlot(s, 0), 1), 2), 3);
    IssueOrderly(IssueSlot(IssueSlot(IssueSlot(IssueSlot(s, 0), 1), 2), 3), 4);
  }

  lemma BackEndOrderly(prog: Program, s: Core, i: Inputs)
    requires Shape(s) && Orderly(s)
    ensures Orderly(Back(prog, s, i))
  {
    IssuesOrderly(s);
    var q := Issue(s);
    RenameOrderly(q);
    RenameOrderly(RenameOne(q));
    var r := RenameOne(RenameOne(q));
    DecodeOrderly(r);
    FetchOrderly(prog, Decode(r), i.pred0, i.pred1);
  }

  lemma CycleOrderly(prog: Program, s: Core, i: Inputs)
    requires Shape(s) && Orderly(s)
    ensures Orderly(Cycle(prog, s, i))
  {
    FrontOrderly(s, i.tick);
    ComputeOrderly(Front(s, i.tick), i.mulDone);
    var b := BeforeLsu(s, i);
    LsuOrderly(b, 3, i.lsu0);
    LsuOrderly(LsuSlot(b, 3, i.lsu0), 4, i.lsu1);
    BackEndOrderly(prog, AfterLsu(s, i), i);
  }

  lemma ComputeQueue(s: Core, mulDone: bool)
    requires Shape(s) && Orderly(s)
    ensures SameQueue(s, Compute(s, mulDone))
  {
    var a := IntSlot(s, 0);
    IntQueue(s, 0);
    IntOrderly(s, 0);
    IntQueue(a, 1);
    SameQueueTrans(s, a, IntSlot(a, 1));
    MulQueue(IntSlot(a, 1), mulDone);
    SameQueueTrans(s, IntSlot(a, 1), Compute(s, mulDone));
  }

  lemma IssuesQueue(s: Core)
    requires Shape(s)
    ensures SameQueue(s, Issue(s))
  {
    IssueQueue(s, 0);
    IssueQueue(IssueSlot(s, 0), 1);
    IssueQueue(IssueSlot(IssueSlot(s, 0), 1), 2);
    IssueQueue(IssueSlot(IssueSlot(IssueSlot(s, 0), 1), 2), 3);
    IssueQueue(IssueSlot(IssueSlot(IssueSlot(IssueSlot(s, 0), 1), 2), 3), 4);
  }

  lemma BackQueue(prog: Program, s: Core, i: Inputs)
    requires Shape(s)
    ensures SameQueue(s, Back(prog, s, i))
  {
    IssuesQueue(s);
    var q := Issue(s);
    RenameQueue(q);
    RenameQueue(RenameOne(q));
    FetchShape(prog, Decode(RenameOne(RenameOne(q))), i.pred0, i.pred1);
    FetchQueue(prog, Decode(RenameOne(RenameOne(q))), i.pred0, i.pred1);
  }

  /** After commit, nothing in a cycle touches the count of instructions, the store buffer or memory. */
  lemma CycleQueue(prog: Program, s: Core, i: Inputs)
    requires Shape(s) && Orderly(s)
    ensures SameQueue(Front(s, i.tick), Cycle(prog, s, i))
  {
    var t := Front(s, i.tick);
    FrontOrderly(s, i.tick);
    ComputeQueue(t, i.mulDone);
    var b := BeforeLsu(s, i);
    LsuQueue(b, 3, i.lsu0);
    LsuQueue(LsuSlot(b, 3, i.lsu0), 4, i.lsu1);
    SameQueueTrans(t, b, AfterLsu(s, i));
    BackQueue(prog, AfterLsu(s, i), i);
    SameQueueTrans(t, AfterLsu(s, i), Cycle(prog, s, i));
  }

  lemma CommitCounts(s: Core, tick: bool)
    requires Shape(s)
    ensures s.insts <= CommitOne(Drain(s, tick)).insts <= Front(s, tick).insts
  {
  }

  lemma {:induction false} IdentityCounts(n: nat, p: int)
    ensures multiset(Identity(n))[p] == if 0 <= p < n then 1 else 0
  {
    if n > 0 {
      IdentityCounts(n - 1, p);
      assert Identity(n) == Identity(n - 1) + [n - 1];
    }
  }

  lemma BootConserved(s: Core)
    requires s.rrat == Identity(32) && s.free == Upper() && s.rob == []
    ensures Conserved(s)
  {
    assert Identity(64) == Identity(32) + Upper();
    forall p: int ensures Owned(s)[p] == if 0 <= p < NUM_PHYS then 1 else 0 {
      IdentityCounts(64, p);
    }
  }

  lemma BootOrderly(init: Arch)
    ensures Orderly(Boot(init))
  {
    BootConserved(Boot(init));
    Close(Boot(init));
  }

  /** In every run of any program, at every cycle, the structural invariant holds: the renaming is
      consistent, registers are conserved, and operands are awaited from older entries only. */
  lemma {:induction false} AlwaysOrderly(prog: Program, init: Arch, ins: seq<Inputs>)
    ensures Orderly(Exec(prog, init, ins))
  {
    if ins == [] {
      BootOrderly(init);
    } else {
      AlwaysOrderly(prog, init, ins[..|ins| - 1]);
      CycleOrderly(prog, Exec(prog, init, ins[..|ins| - 1]), ins[|ins| - 1]);
    }
  }

  /** Physical register conservation over every run of every program. */
  lemma RegistersConserved(prog: Program, init: Arch, ins: seq<Inputs>)
    ensures var s := Exec(prog, init, ins);
      && Names(s) && Conserved(s)
      && (forall k | 0 <= k < |s.free| :: s.free[k] != 0)
      && |s.free| == 32 - |Dests(s.rob, |s.rob|)|
      && (|s.rob| < ROB_SIZE ==> s.free != [])
  {
    AlwaysOrderly(prog, init, ins);
    var s := Exec(prog, init, ins);
    FreeCount(s);
    assert Has(Naming, s);
  }

  /** Wakeup soundness over every run of every program: an operand that a station lacks is the destination of an
      older entry that has not finished, so the head of the reorder buffer lacks none. */
  lemma OperandsComing(prog: Program, init: Arch, ins: seq<Inputs>, i: nat)
    requires i < RS_SIZE && Exec(prog, init, ins).rs[i].valid
    ensures var s := Exec(prog, init, ins);
      var x := s.rs[i];
      && Live(s, x.tag)
      && (!x.r1 ==> OlderProducer(s, x.tag - s.insts, x.t1)) && (!x.r2 ==> OlderProducer(s, x.tag - s.insts, x.t2))
      && (x.tag == s.insts ==> x.r1 && x.r2)
  {
    AlwaysOrderly(prog, init, ins);
    WaitsForOlder(Exec(prog, init, ins), i);
  }

  /** Serializing instructions are not speculative, in every run of every program: one that is in the reorder
      buffer is the oldest there, and no recovery can remove it. */
  lemma SerializingIsHead(prog: Program, init: Arch, ins: seq<Inputs>, k: nat, j: nat)
    requires var s := Exec(prog, init, ins); k < |s.rob| && s.rob[k].ir.serializing && j < |s.rob|
    ensures var s := Exec(prog, init, ins);
      k == 0 && FlushAfter(s, j).rob != [] && FlushAfter(s, j).rob[0] == s.rob[0]
  {
    AlwaysOrderly(prog, init, ins);
    SerializingAtHead(Exec(prog, init, ins), k);
    SerializingSurvives(Exec(prog, init, ins), j, k);
  }

  // --------------------------------------------------------------- refinement

  /** The loads completed in this cycle find, among the stores they must see, none that overlaps them
      in part. */
  ghost predicate CycleSafe(f: Path, s: Core, i: Inputs)
    requires Shape(s)
  {
    && (i.lsu0 == Fill ==> FillSafe(f, BeforeLsu(s, i), 3))
    && (i.lsu1 == Fill ==> FillSafe(f, LsuSlot(BeforeLsu(s, i), 3, i.lsu0), 4))
  }

  /** Every cycle of the run is safe, as far as the first `n` instructions go. */
  ghost predicate RunSafe(prog: Program, init: Arch, n: nat, ins: seq<Inputs>) {
    ins == [] ||
    (RunSafe(prog, init, n, ins[..|ins| - 1]) &&
     CycleSafe(Path(History(prog, init), n), Exec(prog, init, ins[..|ins| - 1]), ins[|ins| - 1]))
  }

  lemma FrontKeepsInv(prog: Program, f: Path, s: Core, tick: bool)
    requires ValidTrace(prog, f) && Shape(s) && Inv(prog, f, s) && Front(s, tick).insts <= f.limit
    ensures Inv(prog, f, Front(s, tick))
  {
    var s1 := Drain(s, tick);
    CommitCounts(s, tick);
    DrainKeeps(prog, f, s, tick);
    CommitKeeps(prog, f, s1);
    CommitKeeps(prog, f, CommitOne(s1));
  }

  lemma ComputeKeeps(prog: Program, f: Path, s: Core, mulDone: bool)
    requires ValidTrace(prog, f) && Shape(s) && Inv(prog, f, s)
    ensures Inv(prog, f, Compute(s, mulDone))
  {
    IntKeeps(prog, f, s, 0);
    IntKeeps(prog, f, IntSlot(s, 0), 1);
    MulKeeps(prog, f, IntSlot(IntSlot(s, 0), 1), mulDone);
  }

  lemma IssuesKeep(prog: Program, f: Path, s: Core)
    requires Shape(s) && Inv(prog, f, s)
    ensures Inv(prog, f, Issue(s))
  {
    IssueKeeps(prog, f, s, 0);
    IssueKeeps(prog, f, IssueSlot(s, 0), 1);
    IssueKeeps(prog, f, IssueSlot(IssueSlot(s, 0), 1), 2);
    IssueKeeps(prog, f, IssueSlot(IssueSlot(IssueSlot(s, 0), 1), 2), 3);
    IssueKeeps(prog, f, IssueSlot(IssueSlot(IssueSlot(IssueSlot(s, 0), 1), 2), 3), 4);
  }

  lemma BackKeeps(prog: Program, f: Path, s: Core, i: Inputs)
    requires ValidTrace(prog, f) && Shape(s) && Inv(prog, f, s)
    ensures Inv(prog, f, Back(prog, s, i))
  {
    IssuesKeep(prog, f, s);
    var q := Issue(s);
    RenameKeeps(prog, f, q);
    RenameKeeps(prog, f, RenameOne(q));
    var r := RenameOne(RenameOne(q));
    DecodeKeeps(prog, f, r);
    FetchKeeps(prog, f, Decode(r), i.pred0, i.pred1);
  }

  lemma InvOrderly(prog: Program, f: Path, s: Core)
    requires Inv(prog, f, s)
    ensures Orderly(s)
  {
    Unfold(prog, f, s);
    Close(s);
  }

  /** One cycle keeps the invariant, whatever the timing and the predictions. */
  lemma CycleKeeps(prog: Program, f: Path, s: Core, i: Inputs)
    requires ValidTrace(prog, f) && Shape(s) && Inv(prog, f, s) && CycleSafe(f, s, i)
    requires Cycle(prog, s, i).insts <= f.limit
    ensures Inv(prog, f, Cycle(prog, s, i))
  {
    InvOrderly(prog, f, s);
    CycleQueue(prog, s, i);
    FrontKeepsInv(prog, f, s, i.tick);
    ComputeKeeps(prog, f, Front(s, i.tick), i.mulDone);
    var b := BeforeLsu(s, i);
    LsuKeeps(prog, f, b, 3, i.lsu0);
    LsuKeeps(prog, f, LsuSlot(b, 3, i.lsu0), 4, i.lsu1);
    BackKeeps(prog, f, AfterLsu(s, i), i);
  }

  lemma BootValues(prog: Program, f: Path, init: Arch)
    requires f.run(0).regs == init.regs && f.run(0).pc == init.pc && f.run(0).mem == init.mem
    ensures Values(f, Boot(init)) && Text(prog, Boot(init)) && Chained(Boot(init))
  {
    assert InFlight(Boot(init)) == [];
  }

  lemma BootKeeps(prog: Program, f: Path, init: Arch)
    requires f.run(0).regs == init.regs && f.run(0).pc == init.pc && f.run(0).mem == init.mem
    ensures Inv(prog, f, Boot(init))
  {
    BootOrderly(init);
    Open(Boot(init));
    BootValues(prog, f, init);
    Fold(prog, f, Boot(init));
  }

  /** The engine never takes back what it has committed. */
  lemma CycleCounts(prog: Program, s: Core, i: Inputs)
    requires Shape(s) && Orderly(s)
    ensures s.insts <= Cycle(prog, s, i).insts
  {
    CycleQueue(prog, s, i);
    CommitCounts(s, i.tick);
  }

  lemma {:induction false} ExecKeeps(prog: Program, init: Arch, n: nat, ins: seq<Inputs>)
    requires ValidTrace(prog, Path(History(prog, init), n)) && RunSafe(prog, init, n, ins)
    requires Exec(prog, init, ins).insts <= n
    ensures Inv(prog, Path(History(prog, init), n), Exec(prog, init, ins))
  {
    var f := Path(History(prog, init), n);
    if ins == [] {
      BootKeeps(prog, f, init);
    } else {
      var before, last := ins[..|ins| - 1], ins[|ins| - 1];
      AlwaysOrderly(prog, init, before);
      var s := Exec(prog, init, before);
      assert Exec(prog, init, ins) == Cycle(prog, s, last);
      CycleCounts(prog, s, last);
      ExecKeeps(prog, init, n, before);
      CycleKeeps(prog, f, s, last);
    }
  }

  /** The programs the theorem is about: for its first `n` instructions the functional machine stays in DRAM,
      meets no invalid instruction and reads and writes DRAM only, and so does the one it is about to execute.
      What it does after them does not matter. */
  ghost predicate ValidUpTo(prog: Program, init: Arch, n: nat) {
    init.regs[0] == 0 && forall k: nat | k <= n :: ValidStep(Observe(prog, Run(prog, init, k)))
  }

  lemma ValidIsTrace(prog: Program, init: Arch, n: nat)
    requires ValidUpTo(prog, init, n)
    ensures ValidTrace(prog, Path(History(prog, init), n))
  {
    HistoryIsTrace(prog, init);
    var f := History(prog, init);
    forall k: nat | k <= n ensures ValidStep(f(k)) { assert f(k) == Observe(prog, Run(prog, init, k)); }
  }

  lemma Committed(prog: Program, f: Path, s: Core)
    requires Inv(prog, f, s)
    ensures s.gpr == f.run(s.insts).regs && s.pc == f.run(s.insts).pc && PerformAll(s.mem, s.sbuf) == f.run(s.insts).mem
  {
    Unfold(prog, f, s);
  }

  /** The engine has done what the functional machine does in as many instructions. */
  ghost predicate AgreesWith(s: Core, m: Arch) {
    s.gpr == m.regs && s.pc == m.pc && PerformAll(s.mem, s.sbuf) == m.mem
  }

  lemma CommittedRun(prog: Program, init: Arch, n: nat, s: Core)
    requires Inv(prog, Path(History(prog, init), n), s)
    ensures AgreesWith(s, Run(prog, init, s.insts))
  {
    Committed(prog, Path(History(prog, init), n), s);
  }

  /** The refinement theorem: after any number of cycles, with any predictions and any timing, the
      committed registers and pc, and memory with the store buffer on top, are those of the functional
      machine after as many instructions as the engine has committed, as long as the program is valid that far. */
  lemma Refinement(prog: Program, init: Arch, n: nat, ins: seq<Inputs>)
    requires ValidUpTo(prog, init, n) && RunSafe(prog, init, n, ins) && Exec(prog, init, ins).insts <= n
    ensures var s := Exec(prog, init, ins); AgreesWith(s, Run(prog, init, s.insts))
  {
    ValidIsTrace(prog, init, n);
    ExecKeeps(prog, init, n, ins);
    CommittedRun(prog, init, n, Exec(prog, init, ins));
  }

  /** A finished head is never marked faulty. */
  lemma HeadNeverFaulty(prog: Program, f: Path, s: Core)
    requires IsTrace(prog, f.run) && Inv(prog, f, s) && s.insts < f.limit
    ensures s.rob != [] && s.rob[0].ready ==> !s.rob[0].fault
  {
    Unfold(prog, f, s);
    if s.rob != [] && s.rob[0].ready {
      HeadOnPath(prog, f, s);
      assert FinishedRight(f, s, 0);
    }
  }

  /** The panic of the commit stage is never reached while the program is valid. */
  lemma NeverPanics(prog: Program, init: Arch, n: nat, ins: seq<Inputs>)
    requires ValidUpTo(prog, init, n) && RunSafe(prog, init, n, ins) && Exec(prog, init, ins).insts < n
    ensures var s := Exec(prog, init, ins); s.rob != [] && s.rob[0].ready ==> !s.rob[0].fault
  {
    ValidIsTrace(prog, init, n);
    ExecKeeps(prog, init, n, ins);
    HeadNeverFaulty(prog, Path(History(prog, init), n), Exec(prog, init, ins));
  }

  /** A fence that may commit finds every earlier store in memory. */
  lemma FenceVisible(prog: Program, f: Path, s: Core)
    requires Inv(prog, f, s) && CanCommit(s) && s.rob[0].ir.kind == FENCE
    ensures s.mem == f.run(s.insts).mem
  {
    Committed(prog, f, s);
    assert PerformAll(s.mem, []) == s.mem;
  }
}
