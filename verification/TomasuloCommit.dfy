/** Draining the store buffer and retiring the oldest entry keep the invariant. */
module TomasuloCommit {
  import opened Isa
  import opened Forwarding
  import opened Tomasulo
  import opened TomasuloInvariant

  // ---------------------------------------------- steps that leave the back end

  /** Everything but memory, the store buffer and the front end is as before. */
  ghost predicate SameBack(s: Core, t: Core) {
    && t.insts == s.insts && t.gpr == s.gpr && t.pc == s.pc
    && t.rrat == s.rrat && t.rat == s.rat && t.free == s.free && t.prf == s.prf
    && t.rob == s.rob && t.rs == s.rs && t.units == s.units
  }

  lemma BackPlaced(s: Core, t: Core)
    requires Shape(s) && Placed(s) && SameBack(s, t) && Shape(t)
    ensures Placed(t)
  {
    assert forall u: nat | u < NUM_UNITS && LiveLatch(t, u) :: LiveLatch(s, u);
  }

  lemma BackWaiting(s: Core, t: Core)
    requires Shape(s) && Waiting(s) && SameBack(s, t) && Shape(t)
    ensures Waiting(t)
  {
    forall i | 0 <= i < RS_SIZE && t.rs[i].valid ensures StationWaits(t, t.rs[i]) {
      assert StationWaits(s, s.rs[i]);
    }
  }

  lemma BackPath(f: Path, s: Core, t: Core, j: nat)
    requires SameBack(s, t) && j < |t.rob|
    ensures OnPath(f, s, j) <==> OnPath(f, t, j)
  {
    assert forall k: nat | k <= j :: SameInst(f, s, k) == SameInst(f, t, k);
  }

  lemma BackDone(f: Path, s: Core, t: Core)
    requires Shape(s) && Done(f, s) && SameBack(s, t) && Shape(t)
    ensures Done(f, t)
  {
    forall k: nat | k < |t.rob| ensures FinishedRight(f, t, k) {
      BackPath(f, s, t, k);
      assert FinishedRight(f, s, k);
    }
  }

  lemma BackOperands(f: Path, s: Core, t: Core)
    requires Shape(s) && Operands(f, s) && SameBack(s, t) && Shape(t)
    ensures Operands(f, t)
  {
    forall k: nat | k < |t.rob| ensures OnPath(f, s, k) <==> OnPath(f, t, k) { BackPath(f, s, t, k); }
    forall i | 0 <= i < RS_SIZE && t.rs[i].valid ensures StationRight(f, t, t.rs[i]) {
      assert StationRight(f, s, s.rs[i]);
    }
    forall u | 0 <= u < NUM_UNITS && LiveLatch(t, u) ensures LatchRight(f, t, t.units[u]) {
      assert LiveLatch(s, u);
    }
  }

  /** The parts of the invariant that do not look at memory, the store buffer or the front end. */
  ghost predicate BackEnd(f: Path, s: Core) {
    Renamed(s) && Placed(s) && Waiting(s) && Done(f, s) && Operands(f, s) && CommittedRegs(f, s)
  }

  lemma BackFrame(f: Path, s: Core, t: Core)
    requires BackEnd(f, s) && SameBack(s, t) && Shape(t)
    ensures BackEnd(f, t)
  {
    RenamedFrame(s, t);
    BackPlaced(s, t);
    BackWaiting(s, t);
    BackDone(f, s, t);
    BackOperands(f, s, t);
  }

  lemma Drained(prog: Program, f: Path, s: Core, t: Core)
    requires Full(prog, f, s) && s.sbuf != [] && t == s.(mem := Perform(s.mem, s.sbuf[0]), sbuf := s.sbuf[1..])
    ensures Full(prog, f, t)
  {
    BackFrame(f, s, t);
    assert InFlight(t) == InFlight(s);
    forall k | 0 <= k < |InFlight(t)| ensures ChainedAt(t, k) { assert ChainedAt(s, k); }
  }

  /** Draining a store moves it from the buffer into memory and changes nothing else. */
  lemma DrainKeeps(prog: Program, f: Path, s: Core, tick: bool)
    requires Inv(prog, f, s)
    ensures Inv(prog, f, Drain(s, tick))
  {
    if s.sbuf != [] && tick {
      Unfold(prog, f, s);
      Drained(prog, f, s, Drain(s, tick));
      Fold(prog, f, Drain(s, tick));
    }
  }

  // ------------------------------------------------------- what commit changes

  ghost predicate Retires(s: Core, t: Core)
    requires Shape(s) && CanCommit(s)
  {
    var e := s.rob[0];
    && t.insts == s.insts + 1 && t.rob == s.rob[1..] && t.rs == s.rs && t.units == s.units && t.rat == s.rat
    && t.pc == e.dnpc
    && (e.ir.rd <= 0 ==> t.rrat == s.rrat && t.prf == s.prf && t.free == s.free && t.gpr == s.gpr[0 := 0])
    && (e.ir.rd > 0 ==>
          && t.rrat == s.rrat[e.ir.rd := e.phys]
          && t.prf == s.prf[e.prev := s.prf[e.prev].(ready := false)]
          && t.free == s.free + [e.prev]
          && t.gpr == s.gpr[e.ir.rd := s.prf[e.phys].value][0 := 0])
  }

  lemma CommitRetires(s: Core)
    requires Shape(s) && CanCommit(s)
    ensures Retires(s, CommitOne(s))
  {
  }

  // --------------------------------------------------------------- renaming

  lemma {:induction false} RatAfterCommit(s: Core, t: Core, j: nat)
    requires Shape(s) && CanCommit(s) && Retires(s, t) && j < |s.rob|
    ensures RatAt(t.rrat, t.rob, j) == RatAt(s.rrat, s.rob, j + 1)
  {
    if j > 0 {
      RatAfterCommit(s, t, j - 1);
      assert t.rob[j - 1] == s.rob[j];
    } else {
      assert RatAt(s.rrat, s.rob, 0) == s.rrat;
    }
  }

  lemma Swapped(a: multiset<int>, b: multiset<int>, c: multiset<int>, d: multiset<int>)
    requires a == b + c
    ensures a + d == b + d + c
  {
  }

  lemma DestsStep(rob: seq<Entry>, j: nat)
    requires j < |rob|
    ensures Dests(rob, j + 1) == Dests(rob, j) + Dest(rob[j])
  {
  }

  lemma DestsShift(a: multiset<int>, b: multiset<int>, c: multiset<int>, d: multiset<int>, x: multiset<int>, y: multiset<int>)
    requires a == b + c && x == a + d && y == b + d
    ensures x == y + c
  {
    Swapped(a, b, c, d);
  }

  lemma {:induction false} DestsAfterCommit(rob: seq<Entry>, j: nat)
    requires j < |rob|
    ensures Dests(rob, j + 1) == Dests(rob[1..], j) + Dest(rob[0])
  {
    DestsStep(rob, j);
    if j > 0 {
      DestsAfterCommit(rob, j - 1);
      DestsStep(rob[1..], j - 1);
      assert rob[1..][j - 1] == rob[j];
      DestsShift(Dests(rob, j), Dests(rob[1..], j - 1), Dest(rob[0]), Dest(rob[j]), Dests(rob, j + 1), Dests(rob[1..], j));
    }
  }

  lemma NamesAfterCommit(s: Core, t: Core)
    requires Shape(s) && Names(s) && CanCommit(s) && Retires(s, t) && Shape(t)
    ensures Names(t)
  {
    RatAfterCommit(s, t, |t.rob|);
    forall k | 0 <= k < |t.rob| && t.rob[k].ir.rd > 0
      ensures t.rob[k].prev == RatAt(t.rrat, t.rob, k)[t.rob[k].ir.rd]
    {
      RatAfterCommit(s, t, k);
      assert t.rob[k] == s.rob[k + 1];
    }
  }

  /** The register a committing entry supersedes is the committed one. */
  lemma Superseded(s: Core)
    requires Shape(s) && Names(s) && s.rob != [] && s.rob[0].ir.rd > 0
    ensures s.rob[0].prev == s.rrat[s.rob[0].ir.rd]
  {
    assert RatAt(s.rrat, s.rob, 0) == s.rrat;
  }

  lemma Rebalance(rrat: seq<int>, r: nat, p: int, d: multiset<int>, free: seq<int>)
    requires r < |rrat|
    ensures multiset(rrat[r := p]) + d + multiset(free + [rrat[r]]) == multiset(rrat) + (d + multiset{p}) + multiset(free)
  {
    assert rrat[r] in rrat;
    assert multiset(rrat[r := p]) == multiset(rrat) - multiset{rrat[r]} + multiset{p};
  }

  lemma DestsSplit(rob: seq<Entry>)
    requires rob != []
    ensures Dests(rob, |rob|) ==
      Dests(rob[1..], |rob| - 1) + if rob[0].ir.rd > 0 then multiset{rob[0].phys} else multiset{}
  {
    DestsAfterCommit(rob, |rob| - 1);
  }

  lemma OwnedAfterCommit(s: Core, t: Core)
    requires Shape(s) && Names(s) && CanCommit(s) && Retires(s, t)
    ensures Owned(t) == Owned(s)
  {
    var e := s.rob[0];
    DestsSplit(s.rob);
    if e.ir.rd > 0 {
      Superseded(s);
      Rebalance(s.rrat, e.ir.rd, e.phys, Dests(t.rob, |t.rob|), s.free);
    } else {
      assert Dests(s.rob, |s.rob|) == Dests(t.rob, |t.rob|);
    }
  }

  lemma ReadyAfterCommit(s: Core, t: Core)
    requires Renamed(s) && CanCommit(s) && Retires(s, t) && Shape(t)
    ensures ReadyBits(t)
  {
    Distinct(s);
    if s.rob[0].ir.rd > 0 { Superseded(s); }
    assert forall k | 0 <= k < |t.rob| :: t.rob[k] == s.rob[k + 1];
  }

  lemma RenamedAfterCommit(s: Core, t: Core)
    requires Renamed(s) && CanCommit(s) && Retires(s, t) && Shape(t)
    ensures Renamed(t)
  {
    NamesAfterCommit(s, t);
    OwnedAfterCommit(s, t);
    ReadyAfterCommit(s, t);
    forall p: int ensures Owned(t)[p] == if 0 <= p < NUM_PHYS then 1 else 0 { assert Owned(s)[p] == Owned(t)[p]; }
  }

  // -------------------------------------------------- stations and latches

  lemma WaitsAfterCommit(s: Core, t: Core, tag: int, phys: int, eu: EU)
    requires Shape(s) && CanCommit(s) && Retires(s, t) && Shape(t) && Waits(s, tag, phys, eu)
    ensures Waits(t, tag, phys, eu) && t.rob[tag - t.insts] == s.rob[tag - s.insts]
  {
    assert tag != s.insts;
  }

  lemma PlacedAfterCommit(s: Core, t: Core)
    requires Shape(s) && Placed(s) && CanCommit(s) && Retires(s, t) && Shape(t)
    ensures Placed(t)
  {
    forall i | 0 <= i < RS_SIZE && t.rs[i].valid
      ensures Waits(t, t.rs[i].tag, t.rs[i].phys, t.rs[i].eu)
    {
      WaitsAfterCommit(s, t, s.rs[i].tag, s.rs[i].phys, s.rs[i].eu);
    }
    forall u | 0 <= u < NUM_UNITS && LiveLatch(t, u) ensures LatchPlaced(t, t.units[u], EuOfUnit(u)) {
      assert LiveLatch(s, u) && LatchPlaced(s, s.units[u], EuOfUnit(u));
      WaitsAfterCommit(s, t, s.units[u].tag, s.units[u].phys, EuOfUnit(u));
    }
    assert forall u: nat | u < NUM_UNITS && LiveLatch(t, u) :: LiveLatch(s, u);
  }

  lemma AwaitsAfterCommit(s: Core, t: Core, j: nat, r: int, p: int)
    requires Shape(s) && CanCommit(s) && Retires(s, t) && Shape(t) && j < |t.rob| && Awaits(s, j + 1, r, p)
    ensures Awaits(t, j, r, p)
  {
    RatAfterCommit(s, t, j);
  }

  lemma StationAfterCommit(s: Core, t: Core, x: Station)
    requires Shape(s) && CanCommit(s) && Retires(s, t) && Shape(t) && x.tag > s.insts && StationWaits(s, x)
    ensures StationWaits(t, x)
  {
    var j := x.tag - t.insts;
    assert t.rob[j] == s.rob[j + 1];
    if !x.r1 { AwaitsAfterCommit(s, t, j, t.rob[j].ir.rs1, x.t1); }
    if !x.r2 { AwaitsAfterCommit(s, t, j, t.rob[j].ir.rs2, x.t2); }
  }

  lemma WaitingAfterCommit(s: Core, t: Core)
    requires Shape(s) && Placed(s) && Waiting(s) && CanCommit(s) && Retires(s, t) && Shape(t)
    ensures Waiting(t)
  {
    forall i | 0 <= i < RS_SIZE && t.rs[i].valid ensures StationWaits(t, t.rs[i]) {
      WaitsAfterCommit(s, t, s.rs[i].tag, s.rs[i].phys, s.rs[i].eu);
      StationAfterCommit(s, t, s.rs[i]);
    }
  }

  // ------------------------------------------------------------------ values

  lemma PathAfterCommit(f: Path, s: Core, t: Core, j: nat)
    requires Shape(s) && CanCommit(s) && Retires(s, t) && OnPath(f, s, 0) && j < |t.rob| && OnPath(f, t, j)
    ensures OnPath(f, s, j + 1)
  {
    forall k: nat | k <= j + 1 ensures SameInst(f, s, k) {
      if k > 0 { assert SameInst(f, t, k - 1); } else { assert SameInst(f, s, 0); }
    }
  }

  lemma DoneAfterCommit(f: Path, s: Core, t: Core)
    requires Shape(s) && CanCommit(s) && Retires(s, t) && Shape(t) && Done(f, s) && OnPath(f, s, 0)
    ensures Done(f, t)
  {
    assert forall p | 0 <= p < NUM_PHYS :: t.prf[p].value == s.prf[p].value;
    forall k: nat | k < |t.rob| ensures FinishedRight(f, t, k) {
      assert t.rob[k] == s.rob[k + 1];
      if OnPath(f, t, k) {
        PathAfterCommit(f, s, t, k);
        assert FinishedRight(f, s, k + 1);
      }
    }
  }

  lemma OperandsAfterCommit(f: Path, s: Core, t: Core)
    requires Shape(s) && Placed(s) && CanCommit(s) && Retires(s, t) && Shape(t)
    requires Operands(f, s) && OnPath(f, s, 0)
    ensures Operands(f, t)
  {
    forall k: nat | k < |t.rob| && OnPath(f, t, k) ensures OnPath(f, s, k + 1) { PathAfterCommit(f, s, t, k); }
    forall i | 0 <= i < RS_SIZE && t.rs[i].valid ensures StationRight(f, t, t.rs[i]) {
      WaitsAfterCommit(s, t, s.rs[i].tag, s.rs[i].phys, s.rs[i].eu);
      assert StationRight(f, s, s.rs[i]);
    }
    forall u | 0 <= u < NUM_UNITS && LiveLatch(t, u) ensures LatchRight(f, t, t.units[u]) {
      assert LiveLatch(s, u) && LatchPlaced(s, s.units[u], EuOfUnit(u));
      WaitsAfterCommit(s, t, s.units[u].tag, s.units[u].phys, EuOfUnit(u));
    }
  }

  lemma GprAfterCommit(prog: Program, f: Path, s: Core, t: Core)
    requires IsTrace(prog, f.run) && Shape(s) && CanCommit(s) && Retires(s, t)
    requires s.gpr == f.run(s.insts).regs && SameInst(f, s, 0) && DoneAt(f.run(s.insts), s.rob[0], s.prf)
    ensures t.gpr == f.run(t.insts).regs && t.pc == f.run(t.insts).pc
  {
    TraceStep(prog, f.run, s.insts);
    TraceStep(prog, f.run, s.insts + 1);
  }

  lemma RegsAfterCommit(prog: Program, f: Path, s: Core, t: Core)
    requires IsTrace(prog, f.run) && Renamed(s) && CanCommit(s) && Retires(s, t) && Shape(t)
    requires Done(f, s) && CommittedRegs(f, s) && OnPath(f, s, 0) && t.insts <= f.limit
    ensures CommittedRegs(f, t)
  {
    assert FinishedRight(f, s, 0) && SameInst(f, s, 0);
    GprAfterCommit(prog, f, s, t);
    Distinct(s);
    if s.rob[0].ir.rd > 0 { Superseded(s); }
  }

  lemma StoreCommits(prog: Program, f: Path, s: Core, st: StoreRec)
    requires IsTrace(prog, f.run) && PerformAll(s.mem, s.sbuf) == f.run(s.insts).mem && f.run(s.insts).ir.kind == STORE
    requires st == StoreRec(f.run(s.insts).addr, f.run(s.insts).v2, f.run(s.insts).ir.width)
    ensures PerformAll(s.mem, s.sbuf + [st]) == f.run(s.insts + 1).mem
  {
    TraceStep(prog, f.run, s.insts);
    PerformAllAppend(s.mem, s.sbuf, [st]);
    var m := PerformAll(s.mem, s.sbuf);
    assert PerformAll(m, [st]) == PerformAll(Perform(m, st), []);
  }

  lemma MemAfterCommit(prog: Program, f: Path, s: Core)
    requires IsTrace(prog, f.run) && ValidStep(f.run(s.insts)) && Shape(s) && CanCommit(s)
    requires CommittedMem(f, s) && SameInst(f, s, 0) && DoneAt(f.run(s.insts), s.rob[0], s.prf)
    ensures CommittedMem(f, CommitOne(s))
  {
    TraceStep(prog, f.run, s.insts);
    if s.rob[0].ir.kind == STORE { StoreCommits(prog, f, s, StoreOf(s.rob[0])); }
  }

  // -------------------------------------------------------------------- path

  lemma InFlightAfterCommit(s: Core, t: Core)
    requires s.rob != [] && t.rob == s.rob[1..] && t.idrn == s.idrn && t.ifid == s.ifid
    ensures InFlight(t) == InFlight(s)[1..]
  {
    assert Heads(t.rob) == Heads(s.rob)[1..];
  }

  lemma ChainAfterCommit(prog: Program, s: Core, t: Core)
    requires s.rob != [] && s.rob[0].ready && t.rob == s.rob[1..] && t.idrn == s.idrn && t.ifid == s.ifid
    requires t.fetchPc == s.fetchPc && t.pc == s.rob[0].dnpc
    requires Text(prog, s) && Chained(s) && InDram(s.rob[0].dnpc)
    ensures Text(prog, t) && Chained(t)
  {
    HeadsAre(s);
    InFlightAfterCommit(s, t);
    assert ChainedAt(s, 0);
    forall k | 0 <= k < |InFlight(t)| ensures TextAt(prog, InFlight(t)[k]) && ChainedAt(t, k) {
      assert TextAt(prog, InFlight(s)[k + 1]) && ChainedAt(s, k + 1);
      assert k < |t.rob| ==> t.rob[k] == s.rob[k + 1];
    }
  }

  /** The head of the reorder buffer is always the next instruction of the functional machine. */
  lemma HeadOnPath(prog: Program, f: Path, s: Core)
    requires IsTrace(prog, f.run) && Text(prog, s) && FirstPc(s) == s.pc == f.run(s.insts).pc && s.rob != []
    requires s.insts < f.limit
    ensures OnPath(f, s, 0) && SameInst(f, s, 0)
  {
    HeadsAre(s);
    TextOfRob(prog, s);
    TraceStep(prog, f.run, s.insts);
    assert SameInst(f, s, 0);
  }

  lemma BackAfterCommit(prog: Program, f: Path, s: Core, t: Core)
    requires IsTrace(prog, f.run) && BackEnd(f, s) && CanCommit(s) && OnPath(f, s, 0) && Retires(s, t) && Shape(t) && t.insts <= f.limit
    ensures BackEnd(f, t)
  {
    RenamedAfterCommit(s, t);
    PlacedAfterCommit(s, t);
    WaitingAfterCommit(s, t);
    DoneAfterCommit(f, s, t);
    OperandsAfterCommit(f, s, t);
    RegsAfterCommit(prog, f, s, t);
  }

  lemma Retired(prog: Program, f: Path, s: Core)
    requires ValidTrace(prog, f) && Full(prog, f, s) && CanCommit(s) && s.insts < f.limit
    ensures Full(prog, f, CommitOne(s))
  {
    HeadOnPath(prog, f, s);
    assert FinishedRight(f, s, 0);
    assert ValidStep(f.run(s.insts)) && ValidStep(f.run(s.insts + 1));
    TraceStep(prog, f.run, s.insts);
    CommitRetires(s);
    BackAfterCommit(prog, f, s, CommitOne(s));
    MemAfterCommit(prog, f, s);
    ChainAfterCommit(prog, s, CommitOne(s));
  }

  /** Commit retires the next instruction of the functional machine, or nothing. */
  lemma CommitKeeps(prog: Program, f: Path, s: Core)
    requires ValidTrace(prog, f) && Shape(s) && Inv(prog, f, s) && CommitOne(s).insts <= f.limit
    ensures Inv(prog, f, CommitOne(s))
  {
    if CanCommit(s) {
      Unfold(prog, f, s);
      Retired(prog, f, s);
      Fold(prog, f, CommitOne(s));
    }
  }
}
