/** Executing the instruction in a functional unit keeps the invariant. */
module TomasuloExecute {
  import opened Isa
  import opened Forwarding
  import opened Tomasulo
  import opened TomasuloInvariant
  import opened TomasuloCommit

  // ------------------------------------------------------ what execution changes

  ghost predicate FrontSame(s: Core, t: Core) {
    && t.insts == s.insts && t.gpr == s.gpr && t.pc == s.pc && t.mem == s.mem && t.sbuf == s.sbuf
    && t.rrat == s.rrat && t.rat == s.rat && t.free == s.free
    && t.idrn == s.idrn && t.ifid == s.ifid && t.fetchPc == s.fetchPc
  }

  /** Entry `j`, held by latch `u`, has become `e` with this result. */
  ghost predicate Ran(s: Core, t: Core, u: nat, j: nat, e: Entry, result: Word)
    requires Shape(s)
  {
    && u < NUM_UNITS && LiveLatch(s, u) && s.units[u].tag == s.insts + j && j < |s.rob|
    && e.ir == s.rob[j].ir && e.pc == s.rob[j].pc && e.pred == s.rob[j].pred
    && e.phys == s.rob[j].phys && e.prev == s.rob[j].prev && e.ready
    && FrontSame(s, t)
    && t.rob == s.rob[j := e]
    && t.units == s.units[u := s.units[u].(valid := false)]
    && t.prf == (if e.phys >= 0 then s.prf[e.phys := Phys(result, true)] else s.prf)
    && t.rs == (if e.phys > 0 then Broadcast(s.rs, e.phys, result) else s.rs)
  }

  /** The new entry and its result are what the functional machine computes. */
  ghost predicate RightResult(x: Executed, e: Entry, result: Word) {
    && e.dnpc == x.dnpc && !e.fault
    && (e.ir.rd > 0 ==> result == x.result)
    && (e.ir.kind == STORE ==> e.addr == x.addr && e.data == x.v2)
  }

  // --------------------------------------------------------------- renaming

  lemma RanRat(s: Core, t: Core, u: nat, j: nat, e: Entry, result: Word, k: nat)
    requires Shape(s) && Ran(s, t, u, j, e, result) && k <= |s.rob|
    ensures RatAt(t.rrat, t.rob, k) == RatAt(s.rrat, s.rob, k)
  {
    RatFrame(s.rrat, t.rob, s.rob, k);
  }

  lemma RanNames(s: Core, t: Core, u: nat, j: nat, e: Entry, result: Word)
    requires Shape(s) && Names(s) && Ran(s, t, u, j, e, result) && Shape(t)
    ensures Names(t)
  {
    RanRat(s, t, u, j, e, result, |s.rob|);
    forall k | 0 <= k < |t.rob| && t.rob[k].ir.rd > 0
      ensures t.rob[k].prev == RatAt(t.rrat, t.rob, k)[t.rob[k].ir.rd]
    {
      RanRat(s, t, u, j, e, result, k);
    }
  }

  lemma RanOwned(s: Core, t: Core, u: nat, j: nat, e: Entry, result: Word)
    requires Shape(s) && Conserved(s) && Ran(s, t, u, j, e, result)
    ensures Conserved(t)
  {
    DestsFrame(t.rob, s.rob, |s.rob|);
    forall p: int ensures Owned(t)[p] == if 0 <= p < NUM_PHYS then 1 else 0 { assert Owned(s)[p] == Owned(t)[p]; }
  }

  /** Only the entry's own register changes. */
  lemma RanPrf(s: Core, t: Core, u: nat, j: nat, e: Entry, result: Word)
    requires Renamed(s) && Ran(s, t, u, j, e, result) && Shape(t)
    ensures forall r | 0 < r < 32 :: t.prf[t.rrat[r]] == s.prf[s.rrat[r]]
    ensures forall k | 0 <= k < |s.rob| && k != j && s.rob[k].ir.rd > 0 :: t.prf[s.rob[k].phys] == s.prf[s.rob[k].phys]
    ensures e.ir.rd > 0 ==> t.prf[e.phys] == Phys(result, true)
  {
    Distinct(s);
  }

  lemma RanRenamed(s: Core, t: Core, u: nat, j: nat, e: Entry, result: Word)
    requires Renamed(s) && Ran(s, t, u, j, e, result) && Shape(t)
    ensures Renamed(t)
  {
    RanNames(s, t, u, j, e, result);
    RanOwned(s, t, u, j, e, result);
    RanPrf(s, t, u, j, e, result);
  }

  // -------------------------------------------------- stations and latches

  /** Stations keep their instruction; an operand can only arrive. */
  lemma RanStations(s: Core, t: Core, u: nat, j: nat, e: Entry, result: Word, i: nat)
    requires Shape(s) && Ran(s, t, u, j, e, result) && i < RS_SIZE && |t.rs| == RS_SIZE
    ensures t.rs[i].valid == s.rs[i].valid && t.rs[i].tag == s.rs[i].tag
    ensures t.rs[i].phys == s.rs[i].phys && t.rs[i].eu == s.rs[i].eu
    ensures t.rs[i].t1 == s.rs[i].t1 && t.rs[i].t2 == s.rs[i].t2
    ensures s.rs[i].r1 ==> t.rs[i].r1 && t.rs[i].v1 == s.rs[i].v1
    ensures s.rs[i].r2 ==> t.rs[i].r2 && t.rs[i].v2 == s.rs[i].v2
    ensures t.rs[i].valid && t.rs[i].r1 && !s.rs[i].r1 ==> e.phys > 0 && t.rs[i].t1 == e.phys && t.rs[i].v1 == result
    ensures t.rs[i].valid && t.rs[i].r2 && !s.rs[i].r2 ==> e.phys > 0 && t.rs[i].t2 == e.phys && t.rs[i].v2 == result
    ensures t.rs[i].valid && !t.rs[i].r1 ==> e.phys <= 0 || t.rs[i].t1 != e.phys
    ensures t.rs[i].valid && !t.rs[i].r2 ==> e.phys <= 0 || t.rs[i].t2 != e.phys
  {
  }

  lemma RanDistinct(s: Core, t: Core, u: nat, j: nat, e: Entry, result: Word)
    requires Shape(s) && TagsDistinct(s) && Ran(s, t, u, j, e, result) && Shape(t)
    ensures TagsDistinct(t)
    ensures forall i | 0 <= i < RS_SIZE && t.rs[i].valid :: t.rs[i].tag != s.insts + j
    ensures forall v | 0 <= v < NUM_UNITS && LiveLatch(t, v) :: LiveLatch(s, v) && t.units[v] == s.units[v] && t.units[v].tag != s.insts + j
  {
    forall i | 0 <= i < RS_SIZE ensures t.rs[i].valid == s.rs[i].valid && t.rs[i].tag == s.rs[i].tag {
      RanStations(s, t, u, j, e, result, i);
    }
    forall v | 0 <= v < NUM_UNITS && LiveLatch(t, v)
      ensures LiveLatch(s, v) && t.units[v] == s.units[v] && t.units[v].tag != s.insts + j
    {
      assert v != u;
    }
  }

  lemma RanWaits(s: Core, t: Core, u: nat, j: nat, e: Entry, result: Word, tag: int, phys: int, eu: EU)
    requires Shape(s) && Ran(s, t, u, j, e, result) && Shape(t) && Waits(s, tag, phys, eu) && tag != s.insts + j
    ensures Waits(t, tag, phys, eu) && t.rob[tag - t.insts] == s.rob[tag - s.insts]
  {
  }

  lemma RanLatch(s: Core, t: Core, u: nat, j: nat, e: Entry, result: Word, l: Latch, eu: EU)
    requires Shape(s) && Ran(s, t, u, j, e, result) && Shape(t) && LatchPlaced(s, l, eu) && l.tag != s.insts + j
    ensures LatchPlaced(t, l, eu)
  {
    RanWaits(s, t, u, j, e, result, l.tag, l.phys, eu);
  }

  lemma RanPlaced(s: Core, t: Core, u: nat, j: nat, e: Entry, result: Word)
    requires Shape(s) && Placed(s) && Ran(s, t, u, j, e, result) && Shape(t)
    ensures Placed(t)
  {
    RanDistinct(s, t, u, j, e, result);
    forall i | 0 <= i < RS_SIZE && t.rs[i].valid
      ensures Waits(t, t.rs[i].tag, t.rs[i].phys, t.rs[i].eu)
    {
      RanStations(s, t, u, j, e, result, i);
      RanWaits(s, t, u, j, e, result, s.rs[i].tag, s.rs[i].phys, s.rs[i].eu);
    }
    forall v | 0 <= v < NUM_UNITS && LiveLatch(t, v) ensures LatchPlaced(t, t.units[v], EuOfUnit(v)) {
      RanLatch(s, t, u, j, e, result, s.units[v], EuOfUnit(v));
    }
  }

  lemma RanAwaits(s: Core, t: Core, u: nat, j: nat, e: Entry, result: Word, k: nat, r: int, p: int)
    requires Shape(s) && Ran(s, t, u, j, e, result) && Shape(t) && k < |s.rob| && Awaits(s, k, r, p)
    requires e.phys <= 0 || p != e.phys
    ensures Awaits(t, k, r, p)
  {
    RanRat(s, t, u, j, e, result, k);
    RatRange(s, k);
  }

  /** What station `i` still waits for, it still waits for. */
  lemma RanStationWaits(s: Core, t: Core, u: nat, j: nat, e: Entry, result: Word, i: nat)
    requires Shape(s) && Ran(s, t, u, j, e, result) && Shape(t)
    requires i < RS_SIZE && s.rs[i].valid && StationWaits(s, s.rs[i])
    ensures StationWaits(t, t.rs[i])
  {
    RanStations(s, t, u, j, e, result, i);
    var k := s.rs[i].tag - s.insts;
    if !t.rs[i].r1 { RanAwaits(s, t, u, j, e, result, k, s.rob[k].ir.rs1, s.rs[i].t1); }
    if !t.rs[i].r2 { RanAwaits(s, t, u, j, e, result, k, s.rob[k].ir.rs2, s.rs[i].t2); }
  }

  lemma RanWaiting(s: Core, t: Core, u: nat, j: nat, e: Entry, result: Word)
    requires Shape(s) && Waiting(s) && Ran(s, t, u, j, e, result) && Shape(t)
    ensures Waiting(t)
  {
    forall i | 0 <= i < RS_SIZE && t.rs[i].valid ensures StationWaits(t, t.rs[i]) {
      RanStations(s, t, u, j, e, result, i);
      RanStationWaits(s, t, u, j, e, result, i);
    }
  }

  // ------------------------------------------------------------------ values

  lemma RanPath(f: Path, s: Core, t: Core, u: nat, j: nat, e: Entry, result: Word, k: nat)
    requires Shape(s) && Ran(s, t, u, j, e, result) && k < |s.rob|
    ensures OnPath(f, t, k) <==> OnPath(f, s, k)
  {
    assert forall l: nat | l <= k :: SameInst(f, s, l) == SameInst(f, t, l);
  }

  lemma RanDoneAt(f: Path, s: Core, t: Core, u: nat, j: nat, e: Entry, result: Word, k: nat)
    requires Shape(s) && Ran(s, t, u, j, e, result) && Shape(t) && k < |s.rob|
    requires FinishedRight(f, s, k)
    requires k != j && s.rob[k].ir.rd > 0 ==> t.prf[s.rob[k].phys] == s.prf[s.rob[k].phys]
    requires OnPath(f, s, j) ==> RightResult(f.run(s.insts + j), e, result)
    ensures FinishedRight(f, t, k)
  {
    RanPath(f, s, t, u, j, e, result, k);
  }

  lemma RanDone(f: Path, s: Core, t: Core, u: nat, j: nat, e: Entry, result: Word)
    requires Renamed(s) && Done(f, s) && Ran(s, t, u, j, e, result) && Shape(t)
    requires OnPath(f, s, j) ==> RightResult(f.run(s.insts + j), e, result)
    ensures Done(f, t)
  {
    RanPrf(s, t, u, j, e, result);
    forall k: nat | k < |t.rob| ensures FinishedRight(f, t, k) {
      assert FinishedRight(f, s, k);
      RanDoneAt(f, s, t, u, j, e, result, k);
    }
  }

  lemma RanRegs(f: Path, s: Core, t: Core, u: nat, j: nat, e: Entry, result: Word)
    requires Renamed(s) && CommittedRegs(f, s) && Ran(s, t, u, j, e, result) && Shape(t)
    ensures CommittedRegs(f, t)
  {
    RanPrf(s, t, u, j, e, result);
  }

  /** An operand that arrives on the result bus is the functional machine's operand. */
  lemma Delivered(prog: Program, f: Path, s: Core, t: Core, u: nat, j: nat, e: Entry, result: Word, k: nat, r: int)
    requires IsTrace(prog, f.run) && Shape(s) && Ran(s, t, u, j, e, result) && Shape(t) && e.phys > 0
    requires ReadyBits(t) && Done(f, t) && CommittedRegs(f, t)
    requires k < |s.rob| && OnPath(f, t, k) && 0 < r < 32 && e.phys == RatAt(s.rrat, s.rob, k)[r]
    ensures result == f.run(t.insts + k).regs[r]
  {
    RanRat(s, t, u, j, e, result, k);
    assert OnPath(f, t, k - 1) by { assert forall l: nat | l <= k - 1 :: SameInst(f, t, l); }
    ValueThroughMap(prog, f, t, k, r);
  }

  /** Entry `k`, on the path: its operand from register `r` is the functional machine's. */
  lemma OperandOnPath(prog: Program, f: Path, s: Core, k: nat)
    requires IsTrace(prog, f.run) && k < |s.rob| && OnPath(f, s, k)
    ensures s.rob[k].ir.rs1 > 0 ==> f.run(s.insts + k).v1 == f.run(s.insts + k).regs[s.rob[k].ir.rs1]
    ensures s.rob[k].ir.rs2 > 0 ==> f.run(s.insts + k).v2 == f.run(s.insts + k).regs[s.rob[k].ir.rs2]
  {
    assert SameInst(f, s, k);
    assert Genuine(prog, f.run(s.insts + k));
  }

  /** An operand that arrives on the bus is the functional machine's. */
  lemma RanOperand(prog: Program, f: Path, s: Core, t: Core, u: nat, j: nat, e: Entry, result: Word, x: Station, y: Station, k: nat)
    requires IsTrace(prog, f.run) && Shape(s) && Ran(s, t, u, j, e, result) && Shape(t)
    requires ReadyBits(t) && Done(f, t) && CommittedRegs(f, t) && k < |s.rob| && OnPath(f, s, k) && OnPath(f, t, k)
    requires StationWaits(s, x) && x.valid && x.tag == s.insts + k && y == if e.phys > 0 then Wake(x, e.phys, result) else x
    requires x.r1 ==> x.v1 == f.run(s.insts + k).v1
    requires x.r2 ==> x.v2 == f.run(s.insts + k).v2
    ensures y.r1 ==> y.v1 == f.run(s.insts + k).v1
    ensures y.r2 ==> y.v2 == f.run(s.insts + k).v2
  {
    OperandOnPath(prog, f, s, k);
    if y.r1 && !x.r1 { Delivered(prog, f, s, t, u, j, e, result, k, s.rob[k].ir.rs1); }
    if y.r2 && !x.r2 { Delivered(prog, f, s, t, u, j, e, result, k, s.rob[k].ir.rs2); }
  }

  lemma RanStationOperands(prog: Program, f: Path, s: Core, t: Core, u: nat, j: nat, e: Entry, result: Word, i: nat)
    requires IsTrace(prog, f.run) && Shape(s) && Ran(s, t, u, j, e, result) && Shape(t)
    requires ReadyBits(t) && Done(f, t) && CommittedRegs(f, t)
    requires i < RS_SIZE && s.rs[i].valid && StationWaits(s, s.rs[i]) && StationRight(f, s, s.rs[i])
    ensures StationRight(f, t, t.rs[i])
  {
    RanStations(s, t, u, j, e, result, i);
    var k := s.rs[i].tag - s.insts;
    RanPath(f, s, t, u, j, e, result, k);
    if OnPath(f, t, k) { RanOperand(prog, f, s, t, u, j, e, result, s.rs[i], t.rs[i], k); }
  }

  lemma RanOperands(prog: Program, f: Path, s: Core, t: Core, u: nat, j: nat, e: Entry, result: Word)
    requires IsTrace(prog, f.run) && Shape(s) && Placed(s) && Waiting(s) && Operands(f, s)
    requires Ran(s, t, u, j, e, result) && Shape(t) && ReadyBits(t) && Done(f, t) && CommittedRegs(f, t)
    ensures Operands(f, t)
  {
    RanDistinct(s, t, u, j, e, result);
    forall i | 0 <= i < RS_SIZE && t.rs[i].valid ensures StationRight(f, t, t.rs[i]) {
      RanStations(s, t, u, j, e, result, i);
      RanStationOperands(prog, f, s, t, u, j, e, result, i);
    }
    forall v | 0 <= v < NUM_UNITS && LiveLatch(t, v) ensures LatchRight(f, t, t.units[v]) {
      assert LatchRight(f, s, s.units[v]);
      RanPath(f, s, t, u, j, e, result, t.units[v].tag - t.insts);
    }
  }

  // -------------------------------------------------------------------- path

  lemma RanInFlight(s: Core, t: Core, u: nat, j: nat, e: Entry, result: Word)
    requires Shape(s) && Ran(s, t, u, j, e, result)
    ensures InFlight(t) == InFlight(s)
  {
    assert Heads(t.rob) == Heads(s.rob);
  }

  /** Only the executed entry can stop being linked to its successor. */
  lemma RanChain(s: Core, t: Core, u: nat, j: nat, e: Entry, result: Word)
    requires Shape(s) && Chained(s) && Ran(s, t, u, j, e, result) && !s.rob[j].ready
    ensures FirstPc(t) == t.pc
    ensures forall k | 0 <= k < |InFlight(t)| && k != j :: ChainedAt(t, k)
    ensures j < |InFlight(t)| && (InDram(e.pred) ==> NextPc(t, j) == e.pred)
  {
    RanInFlight(s, t, u, j, e, result);
    HeadsAre(s);
    forall k | 0 <= k < |InFlight(t)| && k != j ensures ChainedAt(t, k) { assert ChainedAt(s, k); }
    assert ChainedAt(s, j);
  }

  /** Everything but the link of the executed entry to its successor. */
  lemma RanSound(prog: Program, f: Path, s: Core, t: Core, u: nat, j: nat, e: Entry, result: Word)
    requires IsTrace(prog, f.run) && Sound(prog, f, s) && Ran(s, t, u, j, e, result) && Shape(t)
    requires OnPath(f, s, j) ==> RightResult(f.run(s.insts + j), e, result)
    ensures Sound(prog, f, t)
  {
    RanRenamed(s, t, u, j, e, result);
    RanPlaced(s, t, u, j, e, result);
    RanWaiting(s, t, u, j, e, result);
    RanDone(f, s, t, u, j, e, result);
    RanRegs(f, s, t, u, j, e, result);
    RanOperands(prog, f, s, t, u, j, e, result);
    RanInFlight(s, t, u, j, e, result);
  }
}
