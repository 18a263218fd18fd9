/**
 The five-stage in-order pipeline on values: each stage as a function of the whole pipeline.

 The latch that WB has emptied is the one IF fetches into, so between WB and the rotation `wb` is the
 fetch slot, as in the source.  Cache latencies and predictions come from outside.
 */
module InOrder {
  import opened Isa

  /** An instruction in a latch; the fields after `pred` are filled in as it advances. */
  datatype Slot = Slot(
    valid: bool, ir: Inst, pc: Word, pred: Word,
    v1: Word, v2: Word, result: Word, dnpc: Word, addr: Word)

  datatype Stats = Stats(cycles: nat, loadUse: nat, control: nat, missStall: nat)

  datatype Pipe = Pipe(
    gpr: Regs, pc: Word, mem: Mem,
    id: Slot, ex: Slot, mm: Slot, wb: Slot,
    fetchPc: Word, stallRem: nat, stalled: bool, insts: nat, stats: Stats)

  /** The target of a taken branch that hits in the target buffer, or no redirection. */
  datatype Guess = Sequential | Redirect(target: Word)

  /** What comes from outside in one cycle. */
  datatype Inputs = Inputs(latency: nat, guess: Guess)

  // ------------------------------------------------------------------- stages

  function StageWB(p: Pipe): Pipe {
    if !p.wb.valid then p
    else p.(gpr := WriteBack(p.gpr, p.wb.ir.rd, p.wb.result), pc := p.wb.dnpc,
            insts := p.insts + 1, wb := p.wb.(valid := false))
  }

  /** Loads read and stores write; a load that misses freezes the pipeline for the rest of its latency. */
  function StageMEM(p: Pipe, latency: nat): Pipe {
    if !p.mm.valid then p
    else if p.mm.ir.kind == LOAD then
      var q := p.(mm := p.mm.(result := Load(p.mem, p.mm.addr, p.mm.ir.width, p.mm.ir.signed)));
      if latency <= 1 then q
      else q.(stallRem := latency - 1, stats := p.stats.(missStall := p.stats.missStall + latency - 1))
    else if p.mm.ir.kind == STORE then p.(mem := Store(p.mem, p.mm.addr, p.mm.v2, p.mm.ir.width))
    else p
  }

  /** The slot after its executor ran. */
  function Ran(x: Slot): Slot {
    var o := Execute(x.ir, x.pc, x.v1, x.v2);
    x.(result := o.result, dnpc := o.dnpc, addr := o.addr)
  }

  /** Execute; an instruction that goes elsewhere than predicted empties ID and redirects fetch. */
  function StageEX(p: Pipe, bpred: bool): Pipe {
    if !p.ex.valid then p
    else
      var q := p.(ex := Ran(p.ex));
      if q.ex.dnpc == (if bpred then p.ex.pred else Wrap(p.ex.pc + 4)) then q
      else
        q.(id := p.id.(valid := false), wb := p.wb.(valid := false), fetchPc := q.ex.dnpc,
           stats := if bpred then p.stats else p.stats.(control := p.stats.control + 1))
  }

  /** The load in EX writes a register that ID reads. */
  predicate LoadUse(p: Pipe) {
    p.ex.valid && p.ex.ir.kind == LOAD && p.ex.ir.rd > 0 &&
    (p.ex.ir.rd == p.id.ir.rs1 || p.ex.ir.rd == p.id.ir.rs2)
  }

  /** An operand from the register file; x0 and literals were filled in by decode. */
  function FromFile(p: Pipe, r: int, decoded: Word): Word
    requires -1 <= r < 32
  {
    if r > 0 then p.gpr[r] else decoded
  }

  /** The same operand with the results in MEM and EX on top, the newer one winning. */
  function Bypassed(p: Pipe, r: int, decoded: Word): Word
    requires -1 <= r < 32
  {
    if p.ex.valid && p.ex.ir.rd > 0 && p.ex.ir.kind != LOAD && p.ex.ir.rd == r then p.ex.result
    else if p.mm.valid && p.mm.ir.rd > 0 && p.mm.ir.rd == r then p.mm.result
    else FromFile(p, r, decoded)
  }

  function StageID(p: Pipe): Pipe {
    if !p.id.valid then p
    else
      var x := p.id.(v1 := FromFile(p, p.id.ir.rs1, p.id.v1), v2 := FromFile(p, p.id.ir.rs2, p.id.v2));
      if LoadUse(p) then
        p.(id := x, stalled := true, stats := p.stats.(loadUse := p.stats.loadUse + 1))
      else
        p.(id := x.(v1 := Bypassed(p, x.ir.rs1, x.v1), v2 := Bypassed(p, x.ir.rs2, x.v2)))
  }

  /** Where an instruction at `pc` is predicted to go. */
  function Predict(i: Inst, pc: Word, bpred: bool, g: Guess): Word {
    if bpred && Control(i) && g.Redirect? then g.target else Wrap(pc + 4)
  }

  /** A freshly decoded instruction: x0 and literal operands are there already. */
  function DecodedAt(prog: Program, p: Pipe, bpred: bool, g: Guess): Slot {
    var i := prog(p.fetchPc);
    Slot(true, i, p.fetchPc, Predict(i, p.fetchPc, bpred, g),
         Operand(p.gpr, i.rs1, i.lit1), Operand(p.gpr, i.rs2, i.lit2), 0, Wrap(p.fetchPc + 4), 0)
  }

  function StageIF(prog: Program, p: Pipe, bpred: bool, g: Guess): Pipe {
    if p.stalled then p
    else
      var x := DecodedAt(prog, p, bpred, g);
      p.(wb := x, fetchPc := x.pred)
  }

  /** The latches move on by pointer rotation; in a load-use stall ID stays and EX gets the empty slot. */
  function Rotate(p: Pipe): Pipe {
    (if p.stalled then p.(wb := p.mm, mm := p.ex, ex := p.wb)
     else p.(wb := p.mm, mm := p.ex, ex := p.id, id := p.wb))
      .(stats := p.stats.(cycles := p.stats.cycles + 1))
  }

  function Frozen(p: Pipe): Pipe
    requires p.stallRem > 0
  {
    p.(stallRem := p.stallRem - 1, stats := p.stats.(cycles := p.stats.cycles + 1))
  }

  /** One clock cycle. */
  function Cycle(prog: Program, bpred: bool, p: Pipe, i: Inputs): Pipe {
    if p.stallRem > 0 then Frozen(p)
    else Rotate(StageIF(prog, StageID(StageEX(StageMEM(StageWB(p.(stalled := false)), i.latency), bpred)), bpred, i.guess))
  }

  const BUBBLE := Slot(false, NOP, 0, 0, 0, 0, 0, 0, 0)

  function Boot(m: Arch): Pipe {
    Pipe(m.regs, m.pc, m.mem, BUBBLE, BUBBLE, BUBBLE, BUBBLE, m.pc, 0, false, 0, Stats(0, 0, 0, 0))
  }

  function Exec(prog: Program, bpred: bool, init: Arch, ins: seq<Inputs>): Pipe {
    if ins == [] then Boot(init)
    else Cycle(prog, bpred, Exec(prog, bpred, init, ins[..|ins| - 1]), ins[|ins| - 1])
  }
}
