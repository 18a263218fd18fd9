/**
 The in-order pipeline as the source keeps it: four latch slots that never move, four pointers that
 rotate over them, and stages that update slots, registers, memory and counters in place.

 `View` reads off the value-level pipeline; each stage method is proved to take the view exactly where
 the stage function takes it, so everything proved of the functions holds of the machine.
 */
module InOrderMachine {
  import opened Isa
  import opened InOrder
  import opened InOrderProof
  import opened InOrderTiming

  class Pipeline {
    const prog: Program
    const bpred: bool
    const slots: array<Slot>
    var id: nat
    var ex: nat
    var mm: nat
    var wb: nat
    var fetchSlot: nat
    var fetchPc: Word
    var stallRem: nat
    var stalled: bool
    var gpr: Regs
    var pc: Word
    var mem: Mem
    var insts: nat
    var stats: Stats

    /** The four pointers point to four different slots. */
    ghost predicate Valid()
      reads this
    {
      && slots.Length == 4 && id < 4 && ex < 4 && mm < 4 && wb < 4
      && id != ex && id != mm && id != wb && ex != mm && ex != wb && mm != wb
    }

    ghost function View(): Pipe
      reads this, slots
      requires Valid()
    {
      Pipe(gpr, pc, mem, slots[id], slots[ex], slots[mm], slots[wb], fetchPc, stallRem, stalled, insts, stats)
    }

    constructor (prog: Program, bpred: bool, m: Arch)
      ensures Valid() && fresh(slots) && View() == Boot(m) && this.prog == prog && this.bpred == bpred
    {
      this.prog, this.bpred := prog, bpred;
      slots := new Slot[4](_ => BUBBLE);
      id, ex, mm, wb, fetchSlot := 0, 1, 2, 3, 3;
      fetchPc, stallRem, stalled := m.pc, 0, false;
      gpr, pc, mem, insts, stats := m.regs, m.pc, m.mem, 0, Stats(0, 0, 0, 0);
    }

    method Writeback()
      requires Valid()
      modifies this`gpr, this`pc, this`insts, slots
      ensures Valid() && View() == StageWB(old(View()))
    {
      if !slots[wb].valid { return; }
      if slots[wb].ir.rd != -1 { gpr := gpr[slots[wb].ir.rd := slots[wb].result]; }
      gpr := gpr[0 := 0];
      pc := slots[wb].dnpc;
      insts := insts + 1;
      slots[wb] := slots[wb].(valid := false);
    }

    method Memory(latency: nat)
      requires Valid()
      modifies this`mem, this`stallRem, this`stats, slots
      ensures Valid() && View() == StageMEM(old(View()), latency)
    {
      if !slots[mm].valid { return; }
      var x := slots[mm];
      if x.ir.kind == LOAD {
        slots[mm] := x.(result := Load(mem, x.addr, x.ir.width, x.ir.signed));
        if latency > 1 {
          stallRem := latency - 1;
          stats := stats.(missStall := stats.missStall + latency - 1);
        }
      } else if x.ir.kind == STORE {
        mem := Store(mem, x.addr, x.v2, x.ir.width);
      }
    }

    method Run()
      requires Valid() && fetchSlot == wb
      modifies this`fetchPc, this`stats, slots
      ensures Valid() && View() == StageEX(old(View()), bpred)
    {
      if !slots[ex].valid { return; }
      slots[ex] := Ran(slots[ex]);
      var x := slots[ex];
      if bpred {
        if x.dnpc != x.pred {
          slots[id] := slots[id].(valid := false);
          slots[fetchSlot] := slots[fetchSlot].(valid := false);
          fetchPc := x.dnpc;
        }
      } else if x.dnpc != Wrap(x.pc + 4) {
        slots[id] := slots[id].(valid := false);
        slots[fetchSlot] := slots[fetchSlot].(valid := false);
        fetchPc := x.dnpc;
        stats := stats.(control := stats.control + 1);
      }
    }

    /** MEM's result, then EX's, on top of an operand read from the register file. */
    method Bypass(r: int, read: Word) returns (v: Word)
      requires Valid() && -1 <= r < 32 && (r > 0 ==> read == gpr[r])
      ensures v == Bypassed(View(), r, read)
    {
      v := read;
      if slots[mm].valid && slots[mm].ir.rd > 0 && slots[mm].ir.rd == r { v := slots[mm].result; }
      if slots[ex].valid && slots[ex].ir.rd > 0 && slots[ex].ir.kind != LOAD && slots[ex].ir.rd == r {
        v := slots[ex].result;
      }
    }

    method ReadFile(r: int, decoded: Word) returns (v: Word)
      requires Valid() && -1 <= r < 32
      ensures v == FromFile(View(), r, decoded)
    {
      v := decoded;
      if r > 0 { v := gpr[r]; }
    }

    method Hazard() returns (h: bool)
      requires Valid()
      ensures h == LoadUse(View())
    {
      var i, e := slots[id].ir, slots[ex];
      h := e.valid && e.ir.kind == LOAD && e.ir.rd > 0 && (e.ir.rd == i.rs1 || e.ir.rd == i.rs2);
    }

    /** Operands from the register file, the hazard test, then the bypasses. */
    method ReadOperands()
      requires Valid()
      modifies this`stalled, this`stats, slots
      ensures Valid() && View() == StageID(old(View()))
    {
      if !slots[id].valid { return; }
      var i := slots[id].ir;
      var v1 := ReadFile(i.rs1, slots[id].v1);
      var v2 := ReadFile(i.rs2, slots[id].v2);
      var h := Hazard();
      if h {
        stats := stats.(loadUse := stats.loadUse + 1);
        stalled := true;
      } else {
        v1 := Bypass(i.rs1, v1);
        v2 := Bypass(i.rs2, v2);
      }
      slots[id] := slots[id].(v1 := v1, v2 := v2);
    }

    method FetchNext(g: Guess)
      requires Valid() && fetchSlot == wb
      modifies this`fetchPc, slots
      ensures Valid() && View() == StageIF(prog, old(View()), bpred, g)
    {
      if stalled { return; }
      var at: Word := fetchPc;
      var i := prog(at);
      var target := Wrap(at + 4);
      if bpred && Control(i) && g.Redirect? { target := g.target; }
      slots[fetchSlot] :=
        Slot(true, i, at, target, Operand(gpr, i.rs1, i.lit1), Operand(gpr, i.rs2, i.lit2), 0, Wrap(at + 4), 0);
      fetchPc := target;
    }

    /** The pointers rotate; in a load-use stall ID keeps its slot and EX gets the empty one. */
    method Advance()
      requires Valid() && fetchSlot == wb
      modifies this`wb, this`mm, this`ex, this`id, this`stats
      ensures Valid() && View() == Rotate(old(View()))
    {
      if !stalled {
        wb, mm, ex, id := mm, ex, id, fetchSlot;
      } else {
        wb, mm, ex := mm, ex, fetchSlot;
      }
      stats := stats.(cycles := stats.cycles + 1);
    }

    /** WB, MEM and EX. */
    method Retire(latency: nat)
      requires Valid() && fetchSlot == wb
      modifies this`gpr, this`pc, this`insts, this`mem, this`stallRem, this`stats, this`fetchPc, slots
      ensures Valid() && View() == StageEX(StageMEM(StageWB(old(View())), latency), bpred)
    {
      Writeback();
      Memory(latency);
      Run();
    }

    /** ID and IF. */
    method Supply(g: Guess)
      requires Valid() && fetchSlot == wb
      modifies this`stalled, this`stats, this`fetchPc, slots
      ensures Valid() && View() == StageIF(prog, StageID(old(View())), bpred, g)
    {
      ReadOperands();
      FetchNext(g);
    }

    /** The stages in reverse order, then the rotation. */
    method Work(i: Inputs)
      requires Valid()
      modifies this, slots
      ensures Valid()
      ensures View() ==
        Rotate(StageIF(prog, StageID(StageEX(StageMEM(StageWB(old(View())), i.latency), bpred)), bpred, i.guess))
    {
      fetchSlot := wb;
      Retire(i.latency);
      Supply(i.guess);
      Advance();
    }

    /** One cycle. */
    method Tick(i: Inputs)
      requires Valid()
      modifies this, slots
      ensures Valid() && View() == Cycle(prog, bpred, old(View()), i)
    {
      if stallRem > 0 {
        stallRem := stallRem - 1;
        stats := stats.(cycles := stats.cycles + 1);
        return;
      }
      stalled := false;
      Work(i);
    }

    /** Any number of cycles: the machine stays in step with the functional machine, and without a
        predictor every cycle is accounted for. */
    method Simulate(ins: seq<Inputs>, ghost m: Arch)
      requires Valid() && View() == Boot(m) && m.regs[0] == 0
      modifies this, slots
      ensures Valid() && View() == Exec(prog, bpred, m, ins)
      ensures gpr == Isa.Run(prog, m, insts).regs && pc == Isa.Run(prog, m, insts).pc
      ensures mem == Isa.Run(prog, m, AtMem(View())).mem
      ensures !bpred ==> Accounted(View()) && stats.control == Turns(History(prog, m), AtEx(View()))
      ensures stats.loadUse == Waits(History(prog, m), AtEx(View()))
    {
      var k := 0;
      while k < |ins|
        invariant k <= |ins| && Valid() && View() == Exec(prog, bpred, m, ins[..k])
      {
        assert ins[..k + 1][..k] == ins[..k];
        Tick(ins[k]);
        k := k + 1;
      }
      assert ins[..k] == ins;
      Refinement(prog, bpred, m, ins);
      ghost var lat := EveryRunHas(prog, bpred, m, ins);
      StallsExact(prog, bpred, m, ins, lat);
      if !bpred { CycleAccounting(prog, m, ins); }
    }
  }
}
