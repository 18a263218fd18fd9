/**
 The timing of the in-order pipeline, from the functional execution alone: how many load-use stalls, control flushes
 and miss cycles there are, and so how many cycles any number of instructions takes.
 */
module InOrderTiming {
  import opened Isa
  import opened InOrder
  import opened InOrderProof

  // ------------------------------------------ counted on the functional execution

  /** Instruction `k` loads a register that instruction `k + 1` reads. */
  ghost predicate UsesLoad(f: Trace, k: nat) {
    var x, y := f(k).ir, f(k + 1).ir;
    x.kind == LOAD && x.rd > 0 && (y.rs1 == x.rd || y.rs2 == x.rd)
  }

  /** The cycles instruction `k` costs beyond its own: because the next one reads what it loads, because it does not
      go on with the next one in memory, and because it is a load that takes `lat(k)` cycles. */
  ghost function Wait(f: Trace, k: nat): nat { if UsesLoad(f, k) then 1 else 0 }

  ghost function Turn(f: Trace, k: nat): nat { if f(k + 1).pc != Wrap(f(k).pc + 4) then 1 else 0 }

  ghost function Miss(f: Trace, lat: nat -> nat, k: nat): nat {
    if f(k).ir.kind == LOAD && lat(k) > 1 then lat(k) - 1 else 0
  }

  /** The same over the first `n` instructions. */
  ghost function Waits(f: Trace, n: nat): nat { if n == 0 then 0 else Waits(f, n - 1) + Wait(f, n - 1) }

  ghost function Turns(f: Trace, n: nat): nat { if n == 0 then 0 else Turns(f, n - 1) + Turn(f, n - 1) }

  ghost function Misses(f: Trace, lat: nat -> nat, n: nat): nat {
    if n == 0 then 0 else Misses(f, lat, n - 1) + Miss(f, lat, n - 1)
  }

  lemma OneMore(f: Trace, lat: nat -> nat, n: nat)
    ensures Waits(f, n + 1) == Waits(f, n) + Wait(f, n) && Turns(f, n + 1) == Turns(f, n) + Turn(f, n)
    ensures Misses(f, lat, n + 1) == Misses(f, lat, n) + Miss(f, lat, n)
  {
  }

  // ------------------------------------------------------------------ invariant

  /** Only branches and jumps are predicted to go elsewhere. */
  predicate Sequential(x: Slot) { x.valid && !Control(x.ir) ==> x.pred == Wrap(x.pc + 4) }

  ghost predicate Timed(bpred: bool, f: Trace, lat: nat -> nat, p: Pipe) {
    && Started(p) && Sequential(p.ex) && Sequential(p.id)
    && p.stats.loadUse == Waits(f, AtEx(p)) && (!bpred ==> p.stats.control == Turns(f, AtEx(p)))
    && p.stats.missStall == Misses(f, lat, AtMem(p))
  }

  /** The same, kept folded where it is only handed on. */
  ghost predicate Clocked(bpred: bool, f: Trace, lat: nat -> nat, p: Pipe) {
    forall b: bool {:trigger Timed(b, f, lat, p)} | b == bpred :: Timed(b, f, lat, p)
  }

  // -------------------------------------------------------------- stage by stage

  lemma WbTimes(p: Pipe)
    ensures var q := StageWB(p);
      && q.stats == p.stats && q.id == p.id && q.ex == p.ex && q.mm == p.mm && !q.wb.valid
      && AtMem(q) == AtMem(p) && AtEx(q) == AtEx(p)
  {
  }

  /** MEM waits for a load that misses, and for nothing else. */
  lemma MemTimes(prog: Program, bpred: bool, f: Trace, p: Pipe, latency: nat)
    requires Inv(prog, bpred, f, p) && !p.wb.valid
    ensures var q := StageMEM(p, latency);
      && q.id == p.id && q.ex == p.ex && q.wb == p.wb && AtMem(q) == AtMem(p) && AtEx(q) == AtEx(p)
      && q.stats == p.stats.(missStall := p.stats.missStall +
           if p.mm.valid && f(AtMem(p)).ir.kind == LOAD && latency > 1 then latency - 1 else 0)
      && Count(q.mm) == Count(p.mm)
  {
  }

  /** EX empties ID exactly if what is there is off the path. */
  lemma PathKept(prog: Program, bpred: bool, f: Trace, p: Pipe)
    requires IsTrace(prog, f) && MemDone(prog, bpred, f, p) && p.ex.valid
    ensures StageEX(p, bpred).id.valid <==> p.id.valid && NextPc(p) == f(AtEx(p) + 1).pc
  {
    RanRight(prog, f, AtEx(p), p.ex);
    GoesOn(prog, f, AtEx(p));
  }

  /** EX counts an instruction that does not go on with the next one, and keeps what follows a load. */
  lemma ExTimes(prog: Program, bpred: bool, f: Trace, p: Pipe)
    requires IsTrace(prog, f) && MemDone(prog, bpred, f, p) && Sequential(p.ex)
    ensures var q := StageEX(p, bpred);
      && !q.wb.valid && q.mm == p.mm && AtMem(q) == AtMem(p) && AtEx(q) == AtEx(p) && AtId(q) == AtId(p)
      && (p.ex.valid ==> q.ex.valid && q.ex.ir == p.ex.ir && q.ex.pred == p.ex.pred && q.ex.pc == p.ex.pc)
      && q.id == p.id.(valid := q.id.valid) && (p.ex.valid && p.ex.ir.kind == LOAD ==> q.id.valid == p.id.valid)
      && q.stats == p.stats.(control := p.stats.control +
           if !bpred && p.ex.valid then Turn(f, AtEx(p)) else 0)
  {
    if p.ex.valid {
      RanRight(prog, f, AtEx(p), p.ex);
      GoesOn(prog, f, AtEx(p));
    }
  }

  /** ID waits exactly if the instruction before it loads what it reads. */
  lemma IdTimes(prog: Program, bpred: bool, f: Trace, p: Pipe)
    requires IsTrace(prog, f) && ExDone(prog, bpred, f, p) && !p.stalled
    requires p.ex.valid && p.ex.ir.kind == LOAD ==> p.id.valid
    ensures var q := StageID(p);
      && q.ex == p.ex && q.mm == p.mm && q.wb == p.wb && q.insts == p.insts
      && q.id.valid == p.id.valid && (Sequential(p.id) ==> Sequential(q.id)) && (q.stalled ==> q.id.valid)
      && q.stats == p.stats.(loadUse := p.stats.loadUse + if p.ex.valid then Wait(f, AtEx(p)) else 0)
  {
    OperandsOf(prog, f, AtId(p));
  }

  lemma FetchTimes(prog: Program, bpred: bool, p: Pipe, g: Guess)
    requires !p.wb.valid && Sequential(p.id) && (p.stalled ==> p.id.valid)
    ensures var q := Rotate(StageIF(prog, p, bpred, g));
      && q.stats == p.stats.(cycles := p.stats.cycles + 1) && q.id.valid && Sequential(q.ex) && Sequential(q.id)
      && AtMem(q) == AtEx(p) && AtEx(q) == AtId(p)
  {
  }

  /** Fetching takes the instruction at the fetch pc and follows the prediction, if there is one for it. */
  lemma FetchFollows(prog: Program, bpred: bool, p: Pipe, g: Guess)
    requires !p.stalled
    ensures var q := StageIF(prog, p, bpred, g);
      && q.wb.valid && q.wb.pc == p.fetchPc && q.wb.ir == prog(p.fetchPc) && q.wb.pred == q.fetchPc
      && (bpred && Control(prog(p.fetchPc)) && g.Redirect? ==> q.fetchPc == g.target)
      && (!bpred || !Control(prog(p.fetchPc)) || g.Sequential? ==> q.fetchPc == (p.fetchPc + 4) % WORD)
  {
  }

  // ------------------------------------------------------------------ one cycle

  /** In the cycle in which instruction `k` is in MEM, the latency is `lat(k)`. */
  predicate Answers(p: Pipe, i: Inputs, lat: nat -> nat) { p.stallRem == 0 && p.mm.valid ==> i.latency == lat(AtMem(p)) }

  /** What the counters are after EX: up to and including the instruction in EX, but for the load-use count. */
  ghost predicate HalfTimed(bpred: bool, f: Trace, lat: nat -> nat, p: Pipe) {
    && !p.wb.valid && !p.stalled && Sequential(p.id) && (p.ex.valid && p.ex.ir.kind == LOAD ==> p.id.valid)
    && p.stats.loadUse == Waits(f, AtEx(p)) && (!bpred ==> p.stats.control == Turns(f, AtId(p)))
    && p.stats.missStall == Misses(f, lat, AtEx(p))
  }

  lemma MemCounts(prog: Program, bpred: bool, f: Trace, lat: nat -> nat, p: Pipe, latency: nat)
    requires Inv(prog, bpred, f, p) && !p.wb.valid && Timed(bpred, f, lat, p) && (p.mm.valid ==> latency == lat(AtMem(p)))
    ensures StageMEM(p, latency).stats.missStall == Misses(f, lat, AtEx(p))
  {
    MemTimes(prog, bpred, f, p, latency);
    OneMore(f, lat, AtMem(p));
  }

  lemma ExCounts(prog: Program, bpred: bool, f: Trace, lat: nat -> nat, p: Pipe)
    requires IsTrace(prog, f) && MemDone(prog, bpred, f, p) && !p.stalled && Sequential(p.ex) && Sequential(p.id)
    requires p.ex.valid ==> p.id.valid
    requires p.stats.loadUse == Waits(f, AtEx(p)) && (!bpred ==> p.stats.control == Turns(f, AtEx(p)))
    requires p.stats.missStall == Misses(f, lat, AtEx(p))
    ensures HalfTimed(bpred, f, lat, StageEX(p, bpred))
  {
    ExTimes(prog, bpred, f, p);
    ExKeeps(prog, bpred, f, p);
    OneMore(f, lat, AtEx(p));
  }

  lemma EarlyTimes(prog: Program, bpred: bool, f: Trace, lat: nat -> nat, p: Pipe, i: Inputs)
    requires IsTrace(prog, f) && Inv(prog, bpred, f, p) && !p.stalled
    requires p.stallRem == 0 && Timed(bpred, f, lat, p) && Answers(p, i, lat)
    ensures var q := StageEX(StageMEM(StageWB(p), i.latency), bpred);
      ExDone(prog, bpred, f, q) && HalfTimed(bpred, f, lat, q)
  {
    var p1 := StageWB(p);
    WbKeeps(prog, bpred, f, p);
    WbTimes(p);
    var p2 := StageMEM(p1, i.latency);
    MemKeeps(prog, bpred, f, p1, i.latency);
    MemTimes(prog, bpred, f, p1, i.latency);
    MemCounts(prog, bpred, f, lat, p1, i.latency);
    ExKeeps(prog, bpred, f, p2);
    ExCounts(prog, bpred, f, lat, p2);
  }

  lemma LateCounts(bpred: bool, f: Trace, lat: nat -> nat, p: Pipe, q: Pipe)
    requires HalfTimed(bpred, f, lat, p) && q.id.valid && Sequential(q.ex) && Sequential(q.id)
    requires AtMem(q) == AtEx(p) && AtEx(q) == AtId(p)
    requires q.stats.missStall == p.stats.missStall && q.stats.control == p.stats.control
    requires q.stats.loadUse == p.stats.loadUse + if p.ex.valid then Wait(f, AtEx(p)) else 0
    ensures Timed(bpred, f, lat, q)
  {
    OneMore(f, lat, AtEx(p));
  }

  lemma LateTimes(prog: Program, bpred: bool, f: Trace, lat: nat -> nat, p: Pipe, g: Guess)
    requires IsTrace(prog, f) && ExDone(prog, bpred, f, p) && HalfTimed(bpred, f, lat, p)
    ensures Timed(bpred, f, lat, Rotate(StageIF(prog, StageID(p), bpred, g)))
  {
    IdTimes(prog, bpred, f, p);
    var r := StageID(p);
    FetchTimes(prog, bpred, r, g);
    assert AtEx(r) == AtEx(p) && AtId(r) == AtId(p);
    LateCounts(bpred, f, lat, p, Rotate(StageIF(prog, r, bpred, g)));
  }

  lemma Unstalled(bpred: bool, f: Trace, lat: nat -> nat, p: Pipe, q: Pipe)
    requires Clocked(bpred, f, lat, p) && q.insts == p.insts && q.stats == p.stats.(cycles := q.stats.cycles)
    requires q.id == p.id && q.ex == p.ex && q.mm == p.mm && q.wb == p.wb
    ensures Clocked(bpred, f, lat, q)
  {
    assert Timed(bpred, f, lat, p);
  }

  lemma ActiveTimes(prog: Program, bpred: bool, f: Trace, lat: nat -> nat, p: Pipe, q: Pipe, i: Inputs)
    requires IsTrace(prog, f) && Inv(prog, bpred, f, p) && Clocked(bpred, f, lat, p) && Answers(p, i, lat)
    requires p.stallRem == 0 && !p.stalled && q == StageEX(StageMEM(StageWB(p), i.latency), bpred)
    ensures Clocked(bpred, f, lat, Rotate(StageIF(prog, StageID(q), bpred, i.guess)))
  {
    assert Timed(bpred, f, lat, p);
    EarlyTimes(prog, bpred, f, lat, p, i);
    LateTimes(prog, bpred, f, lat, q, i.guess);
  }

  lemma CycleTimes(prog: Program, bpred: bool, f: Trace, lat: nat -> nat, p: Pipe, i: Inputs)
    requires IsTrace(prog, f) && Inv(prog, bpred, f, p) && Clocked(bpred, f, lat, p) && Answers(p, i, lat)
    ensures Clocked(bpred, f, lat, Cycle(prog, bpred, p, i))
  {
    if p.stallRem == 0 {
      var p0 := p.(stalled := false);
      Unstalled(bpred, f, lat, p, p0);
      ActiveTimes(prog, bpred, f, lat, p0, StageEX(StageMEM(StageWB(p0), i.latency), bpred), i);
    } else {
      Unstalled(bpred, f, lat, p, Frozen(p));
    }
  }

  // ----------------------------------------------------------------------- runs

  /** The memory answers instruction `k` with latency `lat(k)`, throughout the run. */
  ghost predicate Latencies(prog: Program, bpred: bool, init: Arch, ins: seq<Inputs>, lat: nat -> nat) {
    forall k {:trigger ins[k]} | 0 <= k < |ins| :: Answers(Exec(prog, bpred, init, ins[..k]), ins[k], lat)
  }

  /** An instruction is in MEM once: after it the number there is the next one. */
  lemma MemMoves(prog: Program, bpred: bool, p: Pipe, i: Inputs)
    ensures AtMem(Cycle(prog, bpred, p, i)) == AtMem(p) + if p.stallRem == 0 then Count(p.mm) else 0
  {
    if p.stallRem == 0 {
      var p0 := p.(stalled := false);
      WbTimes(p0);
      var p1 := StageWB(p0);
      MemInPlace(p1, i.latency);
      ExInPlace(StageMEM(p1, i.latency), bpred);
      IdInPlace(StageEX(StageMEM(p1, i.latency), bpred));
      FetchInPlace(prog, bpred, StageID(StageEX(StageMEM(p1, i.latency), bpred)), i.guess);
    }
  }

  /** The stages after WB retire nothing and leave MEM's instruction where it is. */
  ghost predicate InPlace(p: Pipe, q: Pipe) { q.insts == p.insts && q.mm.valid == p.mm.valid }

  lemma MemInPlace(p: Pipe, latency: nat)
    ensures InPlace(p, StageMEM(p, latency))
  {
  }

  lemma ExInPlace(p: Pipe, bpred: bool)
    ensures InPlace(p, StageEX(p, bpred))
  {
  }

  lemma IdInPlace(p: Pipe)
    ensures InPlace(p, StageID(p))
  {
  }

  lemma FetchInPlace(prog: Program, bpred: bool, p: Pipe, g: Guess)
    ensures AtMem(Rotate(StageIF(prog, p, bpred, g))) == p.insts + Count(p.mm)
  {
  }

  lemma {:induction false} MemAdvances(prog: Program, bpred: bool, init: Arch, ins: seq<Inputs>, k: nat)
    requires k < |ins|
    ensures var p := Exec(prog, bpred, init, ins[..k]);
      AtMem(p) + (if p.stallRem == 0 then Count(p.mm) else 0) <= AtMem(Exec(prog, bpred, init, ins))
    decreases |ins|
  {
    var before := ins[..|ins| - 1];
    MemMoves(prog, bpred, Exec(prog, bpred, init, before), ins[|ins| - 1]);
    if k < |before| {
      MemAdvances(prog, bpred, init, before, k);
      assert before[..k] == ins[..k];
    }
  }

  /** Every run has latencies, whatever its inputs. */
  lemma {:induction false} EveryRunHas(prog: Program, bpred: bool, init: Arch, ins: seq<Inputs>) returns (lat: nat -> nat)
    ensures Latencies(prog, bpred, init, ins, lat)
  {
    if ins == [] {
      lat := (k: nat) => 0;
    } else {
      var before, last := ins[..|ins| - 1], ins[|ins| - 1];
      var known := EveryRunHas(prog, bpred, init, before);
      var p := Exec(prog, bpred, init, before);
      var n := AtMem(p);
      lat := (k: nat) => if k == n then last.latency else known(k);
      forall k | 0 <= k < |ins| ensures Answers(Exec(prog, bpred, init, ins[..k]), ins[k], lat) {
        if k < |before| {
          MemAdvances(prog, bpred, init, before, k);
          assert before[..k] == ins[..k] && before[k] == ins[k];
          assert Answers(Exec(prog, bpred, init, before[..k]), before[k], known);
        }
      }
    }
  }

  lemma {:induction false} RunTimes(prog: Program, bpred: bool, init: Arch, ins: seq<Inputs>, lat: nat -> nat)
    requires init.regs[0] == 0 && Latencies(prog, bpred, init, ins, lat)
    ensures Clocked(bpred, History(prog, init), lat, Exec(prog, bpred, init, ins))
  {
    if ins == [] {
      assert Timed(bpred, History(prog, init), lat, Boot(init));
    } else {
      var before, last := ins[..|ins| - 1], ins[|ins| - 1];
      LatenciesBefore(prog, bpred, init, ins, lat);
      RunTimes(prog, bpred, init, before, lat);
      HistoryIsTrace(prog, init);
      ExecKeeps(prog, bpred, init, before);
      CycleTimes(prog, bpred, History(prog, init), lat, Exec(prog, bpred, init, before), last);
    }
  }

  lemma LatenciesBefore(prog: Program, bpred: bool, init: Arch, ins: seq<Inputs>, lat: nat -> nat)
    requires ins != [] && Latencies(prog, bpred, init, ins, lat)
    ensures Latencies(prog, bpred, init, ins[..|ins| - 1], lat)
    ensures Answers(Exec(prog, bpred, init, ins[..|ins| - 1]), ins[|ins| - 1], lat)
  {
    var before := ins[..|ins| - 1];
    assert Answers(Exec(prog, bpred, init, ins[..|ins| - 1]), ins[|ins| - 1], lat);
    forall k | 0 <= k < |before| ensures Answers(Exec(prog, bpred, init, before[..k]), before[k], lat) {
      assert before[..k] == ins[..k] && before[k] == ins[k];
    }
  }

  /** The stalls are exactly the hazards of the program: at every cycle of every run, with or without a predictor, the
      load-use count is the number of executed instructions that load what the next one reads, and the miss count is
      what their loads take. */
  lemma StallsExact(prog: Program, bpred: bool, init: Arch, ins: seq<Inputs>, lat: nat -> nat)
    requires init.regs[0] == 0 && Latencies(prog, bpred, init, ins, lat)
    ensures var p, f := Exec(prog, bpred, init, ins), History(prog, init);
      && p.stats.loadUse == Waits(f, AtEx(p)) && p.stats.missStall == Misses(f, lat, AtMem(p))
      && (!bpred ==> p.stats.control == Turns(f, AtEx(p)))
  {
    RunTimes(prog, bpred, init, ins, lat);
    assert Timed(bpred, History(prog, init), lat, Exec(prog, bpred, init, ins));
  }

  /** The cycle law in closed form: without a predictor, what a run has taken is determined by how far it has come in
      the functional execution and by the latencies of its loads. */
  lemma CycleCount(prog: Program, init: Arch, ins: seq<Inputs>, lat: nat -> nat)
    requires init.regs[0] == 0 && Latencies(prog, false, init, ins, lat)
    ensures var p, f := Exec(prog, false, init, ins), History(prog, init);
      |ins| + p.stallRem == p.insts + Waits(f, AtEx(p)) + Turns(f, AtEx(p)) + Misses(f, lat, AtMem(p)) + Occupied(p)
  {
    RunTimes(prog, false, init, ins, lat);
    assert Timed(false, History(prog, init), lat, Exec(prog, false, init, ins));
    CycleAccounting(prog, init, ins);
  }
}
