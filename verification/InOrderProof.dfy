/**
 The in-order pipeline refines the functional machine, for any program and any predictor.

 `f` is the functional execution; the instruction in WB is number `insts` of it, the ones in MEM and
 EX are the next, and the one in ID is the next again if EX goes where it was predicted to go.
 */
module InOrderProof {
  import opened Isa
  import opened InOrder

  // ---------------------------------------------------------------- invariant

  function Count(x: Slot): nat { if x.valid then 1 else 0 }

  /** Number of the instruction in MEM, EX and ID. */
  function AtMem(p: Pipe): nat { p.insts + Count(p.wb) }

  function AtEx(p: Pipe): nat { AtMem(p) + Count(p.mm) }

  function AtId(p: Pipe): nat { AtEx(p) + Count(p.ex) }

  ghost predicate Same(e: Executed, x: Slot) { x.ir == e.ir && x.pc == e.pc }

  /** Operands read. */
  ghost predicate Ready(e: Executed, x: Slot) { Same(e, x) && x.v1 == e.v1 && x.v2 == e.v2 }

  /** Executed, memory not accessed. */
  ghost predicate Computed(e: Executed, x: Slot) {
    && Same(e, x) && x.v2 == e.v2 && x.dnpc == e.dnpc && x.addr == e.addr
    && (x.ir.kind != LOAD ==> x.result == e.result)
  }

  /** Nothing left to do but write back. */
  ghost predicate Finished(e: Executed, x: Slot) { Same(e, x) && x.dnpc == e.dnpc && x.result == e.result }

  /** An instruction of the program with x0 and literal operands filled in. */
  ghost predicate Text(prog: Program, bpred: bool, x: Slot) {
    && x.ir == prog(x.pc) && (!bpred ==> x.pred == Wrap(x.pc + 4))
    && (x.ir.rs1 == -1 ==> x.v1 == x.ir.lit1) && (x.ir.rs1 == 0 ==> x.v1 == 0)
    && (x.ir.rs2 == -1 ==> x.v2 == x.ir.lit2) && (x.ir.rs2 == 0 ==> x.v2 == 0)
  }

  /** The pc of the first instruction behind EX. */
  function NextPc(p: Pipe): Word { if p.id.valid then p.id.pc else p.fetchPc }

  ghost predicate Behind(prog: Program, bpred: bool, p: Pipe) {
    p.id.valid ==> Text(prog, bpred, p.id) && p.fetchPc == p.id.pred
  }

  ghost predicate Committed(f: Trace, p: Pipe) { p.gpr == f(p.insts).regs && p.pc == f(p.insts).pc }

  /** The invariant between cycles, and after WB. */
  ghost predicate Inv(prog: Program, bpred: bool, f: Trace, p: Pipe) {
    && Committed(f, p)
    && p.mem == f(AtMem(p)).mem
    && (p.wb.valid ==> Finished(f(p.insts), p.wb))
    && (p.mm.valid ==> Computed(f(AtMem(p)), p.mm))
    && (p.ex.valid ==> Ready(f(AtEx(p)), p.ex) && (!bpred ==> p.ex.pred == Wrap(p.ex.pc + 4)))
    && Behind(prog, bpred, p)
    && NextPc(p) == (if p.ex.valid then p.ex.pred else f(AtEx(p)).pc)
  }

  /** After MEM: the instruction in MEM is finished too. */
  ghost predicate MemDone(prog: Program, bpred: bool, f: Trace, p: Pipe) {
    && !p.wb.valid && Committed(f, p)
    && p.mem == f(AtEx(p)).mem
    && (p.mm.valid ==> Finished(f(AtMem(p)), p.mm))
    && (p.ex.valid ==> Ready(f(AtEx(p)), p.ex) && (!bpred ==> p.ex.pred == Wrap(p.ex.pc + 4)))
    && Behind(prog, bpred, p)
    && NextPc(p) == (if p.ex.valid then p.ex.pred else f(AtEx(p)).pc)
  }

  /** After EX: the instruction in ID, if it is still there, is on the path. */
  ghost predicate ExDone(prog: Program, bpred: bool, f: Trace, p: Pipe) {
    && !p.wb.valid && Committed(f, p)
    && p.mem == f(AtEx(p)).mem
    && (p.mm.valid ==> Finished(f(AtMem(p)), p.mm))
    && (p.ex.valid ==> Computed(f(AtEx(p)), p.ex))
    && Behind(prog, bpred, p)
    && NextPc(p) == f(AtId(p)).pc
  }

  /** After ID. */
  ghost predicate IdDone(prog: Program, bpred: bool, f: Trace, p: Pipe) {
    && ExDone(prog, bpred, f, p)
    && (p.stalled ==> p.id.valid)
    && (p.id.valid && !p.stalled ==> Ready(f(AtId(p)), p.id))
  }

  // ------------------------------------------------------------ stage by stage

  lemma WbKeeps(prog: Program, bpred: bool, f: Trace, p: Pipe)
    requires IsTrace(prog, f) && Inv(prog, bpred, f, p)
    ensures Inv(prog, bpred, f, StageWB(p)) && !StageWB(p).wb.valid && StageWB(p).stalled == p.stalled
  {
    var q := StageWB(p);
    assert AtMem(q) == AtMem(p) && AtEx(q) == AtEx(p);
    if p.wb.valid {
      TraceStep(prog, f, p.insts);
      assert Committed(f, q);
    }
  }

  /** The memory access of an executed instruction is the functional machine's. */
  lemma AccessRight(prog: Program, f: Trace, n: nat, x: Slot)
    requires IsTrace(prog, f) && Computed(f(n), x)
    ensures x.ir.kind == LOAD ==> Load(f(n).mem, x.addr, x.ir.width, x.ir.signed) == f(n).result
    ensures f(n + 1).mem == if x.ir.kind == STORE then Store(f(n).mem, x.addr, x.v2, x.ir.width) else f(n).mem
  {
    TraceStep(prog, f, n);
  }

  lemma MemAccessed(prog: Program, bpred: bool, f: Trace, p: Pipe, latency: nat)
    requires Inv(prog, bpred, f, p) && !p.wb.valid && p.mm.valid
    requires p.mm.ir.kind == LOAD ==> Load(p.mem, p.mm.addr, p.mm.ir.width, p.mm.ir.signed) == f(AtMem(p)).result
    requires f(AtMem(p) + 1).mem == if p.mm.ir.kind == STORE then Store(p.mem, p.mm.addr, p.mm.v2, p.mm.ir.width) else p.mem
    ensures MemDone(prog, bpred, f, StageMEM(p, latency)) && StageMEM(p, latency).stalled == p.stalled
  {
    var q := StageMEM(p, latency);
    assert AtMem(q) == AtMem(p) && AtEx(q) == AtEx(p) == AtMem(p) + 1;
    assert Finished(f(AtMem(q)), q.mm);
  }

  lemma MemKeeps(prog: Program, bpred: bool, f: Trace, p: Pipe, latency: nat)
    requires IsTrace(prog, f) && Inv(prog, bpred, f, p) && !p.wb.valid
    ensures MemDone(prog, bpred, f, StageMEM(p, latency)) && StageMEM(p, latency).stalled == p.stalled
  {
    if p.mm.valid {
      AccessRight(prog, f, AtMem(p), p.mm);
      MemAccessed(prog, bpred, f, p, latency);
    }
  }

  /** On the operands of the functional machine, the executor computes the same. */
  lemma RanRight(prog: Program, f: Trace, n: nat, x: Slot)
    requires IsTrace(prog, f) && Ready(f(n), x)
    ensures Computed(f(n), Ran(x))
  {
    TraceStep(prog, f, n);
  }

  lemma ExRan(prog: Program, bpred: bool, f: Trace, p: Pipe)
    requires MemDone(prog, bpred, f, p) && p.ex.valid && Computed(f(AtEx(p)), Ran(p.ex))
    requires f(AtEx(p) + 1).pc == f(AtEx(p)).dnpc
    ensures ExDone(prog, bpred, f, StageEX(p, bpred)) && StageEX(p, bpred).stalled == p.stalled
  {
    var q := StageEX(p, bpred);
    assert AtEx(q) == AtEx(p) && AtId(q) == AtEx(p) + 1 && q.ex == Ran(p.ex);
    assert NextPc(q) == f(AtId(q)).pc;
  }

  lemma ExKeeps(prog: Program, bpred: bool, f: Trace, p: Pipe)
    requires IsTrace(prog, f) && MemDone(prog, bpred, f, p)
    ensures ExDone(prog, bpred, f, StageEX(p, bpred)) && StageEX(p, bpred).stalled == p.stalled
  {
    if p.ex.valid {
      RanRight(prog, f, AtEx(p), p.ex);
      GoesOn(prog, f, AtEx(p));
      ExRan(prog, bpred, f, p);
    }
  }

  /** Forwarding: without a load-use hazard, the bypassed operand is the functional machine's. */
  lemma BypassRight(prog: Program, bpred: bool, f: Trace, p: Pipe, r: int, decoded: Word)
    requires IsTrace(prog, f) && ExDone(prog, bpred, f, p) && 0 < r < 32
    requires !(p.ex.valid && p.ex.ir.kind == LOAD && p.ex.ir.rd == r)
    ensures Bypassed(p, r, decoded) == f(AtId(p)).regs[r]
  {
    if p.ex.valid { StepRegs(prog, f, AtEx(p), r); }
    if p.mm.valid { StepRegs(prog, f, AtMem(p), r); }
  }

  lemma OperandRight(prog: Program, bpred: bool, f: Trace, p: Pipe, r: int, lit: Word, decoded: Word)
    requires IsTrace(prog, f) && ExDone(prog, bpred, f, p) && -1 <= r < 32
    requires (r == -1 ==> decoded == lit) && (r == 0 ==> decoded == 0)
    requires !(p.ex.valid && p.ex.ir.kind == LOAD && p.ex.ir.rd > 0 && p.ex.ir.rd == r)
    ensures Bypassed(p, r, FromFile(p, r, decoded)) == Operand(f(AtId(p)).regs, r, lit)
  {
    ZeroAt(prog, f, AtId(p));
    if r > 0 { BypassRight(prog, bpred, f, p, r, FromFile(p, r, decoded)); }
  }

  lemma IdKeeps(prog: Program, bpred: bool, f: Trace, p: Pipe)
    requires IsTrace(prog, f) && ExDone(prog, bpred, f, p) && !p.stalled
    ensures IdDone(prog, bpred, f, StageID(p))
  {
    if p.id.valid {
      OperandsOf(prog, f, AtId(p));
      if !LoadUse(p) {
        OperandRight(prog, bpred, f, p, p.id.ir.rs1, p.id.ir.lit1, p.id.v1);
        OperandRight(prog, bpred, f, p, p.id.ir.rs2, p.id.ir.lit2, p.id.v2);
      }
    }
    var q := StageID(p);
    assert AtEx(q) == AtEx(p) && AtId(q) == AtId(p) && AtMem(q) == AtMem(p);
    assert ExDone(prog, bpred, f, q);
  }

  lemma StallKeeps(prog: Program, bpred: bool, f: Trace, p: Pipe, g: Guess)
    requires IdDone(prog, bpred, f, p) && p.stalled
    ensures Inv(prog, bpred, f, Rotate(StageIF(prog, p, bpred, g)))
  {
  }

  lemma FetchKeeps(prog: Program, bpred: bool, f: Trace, p: Pipe, g: Guess)
    requires IdDone(prog, bpred, f, p) && !p.stalled && f(p.insts).regs[0] == 0
    ensures Inv(prog, bpred, f, Rotate(StageIF(prog, p, bpred, g)))
  {
  }

  lemma FetchRotateKeeps(prog: Program, bpred: bool, f: Trace, p: Pipe, g: Guess)
    requires IsTrace(prog, f) && IdDone(prog, bpred, f, p)
    ensures Inv(prog, bpred, f, Rotate(StageIF(prog, p, bpred, g)))
  {
    ZeroAt(prog, f, p.insts);
    if p.stalled { StallKeeps(prog, bpred, f, p, g); } else { FetchKeeps(prog, bpred, f, p, g); }
  }

  lemma EarlyStages(prog: Program, bpred: bool, f: Trace, p: Pipe, latency: nat)
    requires IsTrace(prog, f) && Inv(prog, bpred, f, p)
    ensures var q := StageEX(StageMEM(StageWB(p), latency), bpred);
      ExDone(prog, bpred, f, q) && q.stalled == p.stalled
  {
    WbKeeps(prog, bpred, f, p);
    var p1 := StageWB(p);
    MemKeeps(prog, bpred, f, p1, latency);
    ExKeeps(prog, bpred, f, StageMEM(p1, latency));
  }

  lemma LateStages(prog: Program, bpred: bool, f: Trace, p: Pipe, g: Guess)
    requires IsTrace(prog, f) && ExDone(prog, bpred, f, p) && !p.stalled
    ensures Inv(prog, bpred, f, Rotate(StageIF(prog, StageID(p), bpred, g)))
  {
    IdKeeps(prog, bpred, f, p);
    FetchRotateKeeps(prog, bpred, f, StageID(p), g);
  }

  /** One cycle keeps the invariant, for any predictor and any latency. */
  lemma CycleKeeps(prog: Program, bpred: bool, f: Trace, p: Pipe, i: Inputs)
    requires IsTrace(prog, f) && Inv(prog, bpred, f, p)
    ensures Inv(prog, bpred, f, Cycle(prog, bpred, p, i))
  {
    if p.stallRem == 0 {
      var p0 := p.(stalled := false);
      EarlyStages(prog, bpred, f, p0, i.latency);
      LateStages(prog, bpred, f, StageEX(StageMEM(StageWB(p0), i.latency), bpred), i.guess);
    }
  }

  lemma {:induction false} ExecKeeps(prog: Program, bpred: bool, init: Arch, ins: seq<Inputs>)
    requires init.regs[0] == 0
    ensures Inv(prog, bpred, History(prog, init), Exec(prog, bpred, init, ins))
  {
    HistoryIsTrace(prog, init);
    if ins != [] {
      ExecKeeps(prog, bpred, init, ins[..|ins| - 1]);
      CycleKeeps(prog, bpred, History(prog, init), Exec(prog, bpred, init, ins[..|ins| - 1]), ins[|ins| - 1]);
    }
  }

  /** The refinement theorem: after any number of cycles, with any predictor and any cache latencies,
      registers and pc are those of the functional machine after `insts` instructions, and memory is
      the functional machine's once the instruction waiting in WB is counted. */
  lemma Refinement(prog: Program, bpred: bool, init: Arch, ins: seq<Inputs>)
    requires init.regs[0] == 0
    ensures var p := Exec(prog, bpred, init, ins);
      && p.gpr == Run(prog, init, p.insts).regs && p.pc == Run(prog, init, p.insts).pc
      && p.mem == Run(prog, init, AtMem(p)).mem
  {
    ExecKeeps(prog, bpred, init, ins);
  }

  /** No wrong-path instruction is ever executed: what is in EX is the functional machine's
      instruction at that place, with its operands. */
  lemma ExOnPath(prog: Program, bpred: bool, init: Arch, ins: seq<Inputs>)
    requires init.regs[0] == 0
    ensures var p := Exec(prog, bpred, init, ins);
      var m := Run(prog, init, AtEx(p));
      p.ex.valid ==> p.ex.pc == m.pc && p.ex.ir == prog(m.pc) && p.ex.v1 == Value1(prog, m) && p.ex.v2 == Value2(prog, m)
  {
    ExecKeeps(prog, bpred, init, ins);
  }

  // --------------------------------------------------------- cycle accounting

  function Occupied(p: Pipe): nat { Count(p.id) + Count(p.ex) + Count(p.mm) + Count(p.wb) }

  /** Every cycle is accounted for: retirement, a stall, a flush, or an instruction still in a latch. */
  ghost predicate Accounted(p: Pipe) {
    p.stats.cycles + p.stallRem ==
      p.insts + p.stats.loadUse + p.stats.control + p.stats.missStall + Occupied(p)
  }

  /** Once started, ID is never empty between cycles, so a flush kills exactly one instruction. */
  ghost predicate Started(p: Pipe) { p.id.valid || Occupied(p) == 0 }

  lemma WbAccounts(p: Pipe)
    ensures StageWB(p).insts + Occupied(StageWB(p)) == p.insts + Occupied(p)
    ensures StageWB(p).stats == p.stats && StageWB(p).stallRem == p.stallRem && !StageWB(p).wb.valid
    ensures StageWB(p).id == p.id && StageWB(p).ex == p.ex
  {
  }

  lemma MemAccounts(p: Pipe, latency: nat)
    requires p.stallRem == 0
    ensures var q := StageMEM(p, latency);
      && Occupied(q) == Occupied(p) && q.insts == p.insts && q.id == p.id && q.ex == p.ex && q.wb == p.wb
      && q.stats == p.stats.(missStall := p.stats.missStall + q.stallRem)
  {
  }

  lemma ExAccounts(p: Pipe)
    requires p.ex.valid ==> p.id.valid
    ensures var q := StageEX(p, false);
      && q.insts == p.insts && q.stallRem == p.stallRem && Count(q.wb) <= Count(p.wb)
      && q.stats == p.stats.(control := q.stats.control)
      && (!p.wb.valid ==> q.stats.control + Occupied(q) == p.stats.control + Occupied(p))
  {
  }

  lemma IdAccounts(p: Pipe)
    requires !p.stalled
    ensures var q := StageID(p);
      && q.insts == p.insts && q.stallRem == p.stallRem && q.wb == p.wb && Occupied(q) == Occupied(p)
      && q.stats == p.stats.(loadUse := p.stats.loadUse + if q.stalled then 1 else 0)
      && (q.stalled ==> q.id.valid)
  {
  }

  lemma FetchAccounts(prog: Program, p: Pipe, g: Guess)
    requires !p.wb.valid && (p.stalled ==> p.id.valid)
    ensures var q := Rotate(StageIF(prog, p, false, g));
      && q.insts == p.insts && q.stallRem == p.stallRem && q.id.valid
      && Occupied(q) == Occupied(p) + (if p.stalled then 0 else 1)
      && q.stats == p.stats.(cycles := p.stats.cycles + 1)
  {
  }

  lemma CycleAccounts(prog: Program, p: Pipe, i: Inputs)
    requires Accounted(p) && Started(p)
    ensures Accounted(Cycle(prog, false, p, i)) && Started(Cycle(prog, false, p, i))
    ensures Cycle(prog, false, p, i).stats.cycles == p.stats.cycles + 1
  {
    if p.stallRem == 0 {
      var p0 := p.(stalled := false);
      WbAccounts(p0);
      var p1 := StageWB(p0);
      MemAccounts(p1, i.latency);
      var p2 := StageMEM(p1, i.latency);
      ExAccounts(p2);
      var p3 := StageEX(p2, false);
      IdAccounts(p3);
      FetchAccounts(prog, StageID(p3), i.guess);
    }
  }

  /** The accounting law, without a predictor, at every cycle of every run:
      cycles = insts + stalls + flushes + miss cycles served + instructions in the latches. */
  lemma {:induction false} CycleAccounting(prog: Program, init: Arch, ins: seq<Inputs>)
    ensures var p := Exec(prog, false, init, ins);
      && p.stats.cycles == |ins|
      && p.stats.cycles + p.stallRem ==
           p.insts + p.stats.loadUse + p.stats.control + p.stats.missStall + Occupied(p)
      && Started(p)
  {
    if ins != [] {
      var before := ins[..|ins| - 1];
      CycleAccounting(prog, init, before);
      CycleAccounts(prog, Exec(prog, false, init, before), ins[|ins| - 1]);
    }
  }

}
