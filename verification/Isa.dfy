/**
 The reference machine: one instruction of the functional simulator.

 An instruction carries its executor, as the source's `IR_Inst` carries `exec_fn`: the arithmetic of
 an ALU operation, the condition of a branch and the target of a jump are function values, so every
 theorem about the engines holds for any choice of them.  What the engines do depend on (operand
 conventions, next pc, effective address, width and sign of an access) is written out.
 */
module Isa {

  const WORD: int := 0x1_0000_0000_0000_0000

  type Word = x: int | 0 <= x < WORD
  type Byte = x: int | 0 <= x < 256

  function Wrap(x: int): Word { x % WORD }

  // ---------------------------------------------------------------- memory

  /** Flat byte memory. */
  type Mem = int -> Byte

  function Pow256(k: nat): (p: nat)
    ensures p > 0
  {
    if k == 0 then 1 else 256 * Pow256(k - 1)
  }

  /** Byte `k` of a word, least significant first. */
  function ByteOf(d: Word, k: nat): Byte { (d / Pow256(k)) % 256 }

  /** The memory after the low `w` bytes of `d` are written at `a`, least significant byte first. */
  function Store(m: Mem, a: int, d: Word, w: nat): Mem {
    (x: int) => if a <= x < a + w then ByteOf(d, x - a) else m(x)
  }

  /** The unsigned number in `w` bytes at `a`. */
  function LoadRaw(m: Mem, a: int, w: nat): (r: nat)
    ensures r < Pow256(w)
    decreases w
  {
    if w == 0 then 0 else m(a) + 256 * LoadRaw(m, a + 1, w - 1)
  }

  predicate Width(w: int) { w == 1 || w == 2 || w == 4 || w == 8 }

  /** Sign or zero extension of the low `w` bytes; an 8-byte value is taken as it is. */
  function Extend(raw: Word, w: nat, signed: bool): (r: Word)
    requires Width(w)
  {
    if w == 8 then raw
    else
      assert Pow256(1) == 256 && Pow256(2) == 65536 && Pow256(4) == 4294967296;
      var x := raw % Pow256(w);
      if signed && 2 * x >= Pow256(w) then x + WORD - Pow256(w) else x
  }

  lemma Pow256At8()
    ensures Pow256(8) == WORD
  {
    assert Pow256(4) == 4294967296;
    assert Pow256(5) == 256 * Pow256(4);
    assert Pow256(6) == 256 * Pow256(5);
    assert Pow256(7) == 256 * Pow256(6);
    assert Pow256(8) == 256 * Pow256(7);
  }

  lemma Pow256Bound(w: nat)
    requires Width(w)
    ensures Pow256(w) <= WORD
  {
    Pow256At8();
    assert Pow256(1) == 256 && Pow256(2) == 65536 && Pow256(4) == 4294967296;
  }

  /** What a load of width `w` at `a` returns. */
  function Load(m: Mem, a: int, w: nat, signed: bool): Word
    requires Width(w)
  {
    Pow256Bound(w);
    Extend(LoadRaw(m, a, w), w, signed)
  }

  // ----------------------------------------------------------- instructions

  datatype Kind = ALU | MULDIV | LOAD | STORE | BRANCH | JUMP | FENCE | INVALID

  /** `rd == -1`: no destination.  `rs == -1`: the operand is the literal. */
  datatype RawInst = RawInst(
    kind: Kind, rd: int, rs1: int, rs2: int, lit1: Word, lit2: Word, imm: Word,
    width: nat, signed: bool, serializing: bool,
    alu: (Word, Word, Word) -> Word, taken: (Word, Word) -> bool, target: (Word, Word, Word) -> Word)

  /** What decoding guarantees of every instruction word. */
  predicate Decoded(i: RawInst) {
    && -1 <= i.rd < 32 && -1 <= i.rs1 < 32 && -1 <= i.rs2 < 32
    && Width(i.width)
    && (i.kind in {STORE, BRANCH, FENCE} ==> i.rd == -1)
    && (i.kind == LOAD ==> i.rd >= 0)
  }

  const NOP: RawInst :=
    RawInst(FENCE, -1, -1, -1, 0, 0, 0, 1, false, true, (p, a, b) => 0, (a, b) => false, (p, a, b) => 0)

  type Inst = i: RawInst | Decoded(i) witness NOP

  /** Program text: fetch and decode as a total function of the pc. */
  type Program = Word -> Inst

  datatype Outcome = Outcome(result: Word, dnpc: Word, addr: Word)

  predicate Control(i: RawInst) { i.kind == BRANCH || i.kind == JUMP }

  /** The executor: result, next pc and effective address from the pc and two operand values. */
  function Execute(i: RawInst, pc: Word, v1: Word, v2: Word): (o: Outcome)
    ensures !Control(i) ==> o.dnpc == Wrap(pc + 4)
  {
    match i.kind
    case ALU | MULDIV => Outcome(i.alu(pc, v1, v2), Wrap(pc + 4), 0)
    case LOAD => Outcome(0, Wrap(pc + 4), Wrap(v1 + v2))
    case STORE => Outcome(0, Wrap(pc + 4), Wrap(v1 + i.imm))
    case BRANCH => Outcome(0, if i.taken(v1, v2) then Wrap(pc + i.imm) else Wrap(pc + 4), 0)
    case JUMP => Outcome(Wrap(pc + 4), i.target(pc, v1, v2), 0)
    case FENCE => Outcome(0, Wrap(pc + 4), 0)
    case INVALID => Outcome(0, Wrap(pc + 4), 0)
  }

  // -------------------------------------------------------- reference machine

  type Regs = s: seq<Word> | |s| == 32 witness seq(32, _ => 0)

  datatype Arch = Arch(regs: Regs, pc: Word, mem: Mem)

  /** An operand: register contents, or the literal where there is no register source. */
  function Operand(regs: Regs, rs: int, lit: Word): Word
    requires -1 <= rs < 32
  {
    if rs == -1 then lit else regs[rs]
  }

  function WriteBack(regs: Regs, rd: int, v: Word): (r: Regs)
    requires -1 <= rd < 32
    ensures r[0] == 0
  {
    (if rd == -1 then regs else regs[rd := v])[0 := 0]
  }

  /** The operands, executor outcome and register result of the instruction at `m.pc`. */
  function Value1(prog: Program, m: Arch): Word { Operand(m.regs, prog(m.pc).rs1, prog(m.pc).lit1) }

  function Value2(prog: Program, m: Arch): Word { Operand(m.regs, prog(m.pc).rs2, prog(m.pc).lit2) }

  function OutcomeAt(prog: Program, m: Arch): Outcome {
    Execute(prog(m.pc), m.pc, Value1(prog, m), Value2(prog, m))
  }

  function ResultAt(prog: Program, m: Arch): Word {
    var i := prog(m.pc);
    if i.kind == LOAD then Load(m.mem, OutcomeAt(prog, m).addr, i.width, i.signed)
    else OutcomeAt(prog, m).result
  }

  /** Fetch, decode, execute, access memory, write back: one instruction. */
  function Step(prog: Program, m: Arch): (r: Arch)
    ensures r.regs[0] == 0
  {
    var i := prog(m.pc);
    var o := OutcomeAt(prog, m);
    Arch(WriteBack(m.regs, i.rd, ResultAt(prog, m)), o.dnpc,
         if i.kind == STORE then Store(m.mem, o.addr, Value2(prog, m), i.width) else m.mem)
  }

  /** The machine after `n` instructions. */
  function Run(prog: Program, m: Arch, n: nat): (r: Arch)
    ensures m.regs[0] == 0 ==> r.regs[0] == 0
  {
    if n == 0 then m else Step(prog, Run(prog, m, n - 1))
  }

  // ------------------------------------------------------------ the execution

  /** One executed instruction: the machine before it, its operands and what it computes. */
  datatype Executed = Executed(
    pc: Word, regs: Regs, mem: Mem, ir: Inst, v1: Word, v2: Word, dnpc: Word, addr: Word, result: Word)

  /** An execution, instruction by instruction. */
  type Trace = nat -> Executed

  function Observe(prog: Program, m: Arch): Executed {
    Executed(m.pc, m.regs, m.mem, prog(m.pc), Value1(prog, m), Value2(prog, m),
             OutcomeAt(prog, m).dnpc, OutcomeAt(prog, m).addr, ResultAt(prog, m))
  }

  /** The functional execution from `init`. */
  function History(prog: Program, init: Arch): Trace { (n: nat) => Observe(prog, Run(prog, init, n)) }

  /** `x` is an executed instruction of the program. */
  ghost predicate Genuine(prog: Program, x: Executed) {
    && x.ir == prog(x.pc)
    && x.v1 == Operand(x.regs, x.ir.rs1, x.ir.lit1)
    && x.v2 == Operand(x.regs, x.ir.rs2, x.ir.lit2)
    && x.dnpc == Execute(x.ir, x.pc, x.v1, x.v2).dnpc
    && x.addr == Execute(x.ir, x.pc, x.v1, x.v2).addr
    && x.result == (if x.ir.kind == LOAD then Load(x.mem, x.addr, x.ir.width, x.ir.signed)
                    else Execute(x.ir, x.pc, x.v1, x.v2).result)
    && x.regs[0] == 0
  }

  /** The machine before `y` is the machine after `x`. */
  ghost predicate Successive(x: Executed, y: Executed) {
    && y.pc == x.dnpc
    && y.regs == WriteBack(x.regs, x.ir.rd, x.result)
    && y.mem == (if x.ir.kind == STORE then Store(x.mem, x.addr, x.v2, x.ir.width) else x.mem)
  }

  ghost predicate SuccessiveAt(f: Trace, n: nat) { Successive(f(n), f(n + 1)) }

  ghost predicate IsTrace(prog: Program, f: Trace) {
    && (forall n: nat {:trigger Genuine(prog, f(n))} :: Genuine(prog, f(n)))
    && (forall n: nat :: SuccessiveAt(f, n))
  }

  lemma HistoryIsTrace(prog: Program, init: Arch)
    requires init.regs[0] == 0
    ensures IsTrace(prog, History(prog, init))
  {
    var f := History(prog, init);
    forall n: nat ensures Genuine(prog, f(n)) {}
    forall n: nat ensures SuccessiveAt(f, n) {
      assert Run(prog, init, n + 1) == Step(prog, Run(prog, init, n));
    }
  }

  lemma TraceStep(prog: Program, f: Trace, n: nat)
    requires IsTrace(prog, f)
    ensures Genuine(prog, f(n)) && Successive(f(n), f(n + 1))
  {
    assert SuccessiveAt(f, n);
  }

  /** An instruction changes its destination only. */
  lemma StepRegs(prog: Program, f: Trace, n: nat, r: int)
    requires IsTrace(prog, f) && 0 < r < 32
    ensures f(n + 1).regs[r] == if f(n).ir.rd == r then f(n).result else f(n).regs[r]
  {
    TraceStep(prog, f, n);
  }

  lemma ZeroAt(prog: Program, f: Trace, n: nat)
    requires IsTrace(prog, f)
    ensures f(n).regs[0] == 0
  {
    assert Genuine(prog, f(n));
  }

  lemma OperandsOf(prog: Program, f: Trace, n: nat)
    requires IsTrace(prog, f)
    ensures f(n).ir == prog(f(n).pc)
    ensures f(n).v1 == Operand(f(n).regs, f(n).ir.rs1, f(n).ir.lit1)
    ensures f(n).v2 == Operand(f(n).regs, f(n).ir.rs2, f(n).ir.lit2)
  {
    assert Genuine(prog, f(n));
  }

  lemma GoesOn(prog: Program, f: Trace, n: nat)
    requires IsTrace(prog, f)
    ensures f(n + 1).pc == f(n).dnpc
  {
    assert SuccessiveAt(f, n);
  }
}
