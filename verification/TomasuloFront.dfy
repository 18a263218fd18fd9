/** Issue, rename, decode and fetch keep the invariant. */
module TomasuloFront {
  import opened Isa
  import opened Forwarding
  import opened Tomasulo
  import opened TomasuloInvariant
  import opened TomasuloCommit
  import opened TomasuloUnits

  // ------------------------------------------------------------------- issue

  /** Station `b` has moved into the free latch `u`. */
  ghost predicate Issued(s: Core, t: Core, u: nat, b: nat)
    requires Shape(s)
  {
    && u < NUM_UNITS && b < RS_SIZE && !s.units[u].valid && s.rs[b].valid && s.rs[b].r1 && s.rs[b].r2
    && s.rs[b].eu == EuOfUnit(u)
    && t == s.(units := s.units[u := Latch(true, s.rs[b].tag, s.rs[b].phys, s.rs[b].v1, s.rs[b].v2, false, false)],
               rs := s.rs[b := s.rs[b].(valid := false)])
    && Live(s, s.rs[b].tag)
    && (s.rob[s.rs[b].tag - s.insts].ir.kind == LOAD ==> OlderStoresReady(s, s.rs[b].tag - s.insts))
  }

  lemma IssueMoves(s: Core, u: nat)
    requires Shape(s) && u < NUM_UNITS && !s.units[u].valid && Oldest(s, EuOfUnit(u), RS_SIZE) >= 0
    ensures Issued(s, IssueSlot(s, u), u, Oldest(s, EuOfUnit(u), RS_SIZE))
  {
  }

  lemma IssuedDistinct(s: Core, t: Core, u: nat, b: nat)
    requires Shape(s) && TagsDistinct(s) && Issued(s, t, u, b) && Shape(t)
    ensures TagsDistinct(t)
  {
    assert forall i | 0 <= i < RS_SIZE && t.rs[i].valid :: i != b && t.rs[i] == s.rs[i];
    assert forall v: nat | v < NUM_UNITS && LiveLatch(t, v) && v != u :: LiveLatch(s, v) && t.units[v] == s.units[v];
  }

  lemma IssuedLatch(s: Core, t: Core, u: nat, b: nat, v: nat)
    requires Shape(s) && Placed(s) && Issued(s, t, u, b) && Shape(t) && v < NUM_UNITS && LiveLatch(t, v)
    ensures LatchPlaced(t, t.units[v], EuOfUnit(v))
  {
    if v != u { assert LiveLatch(s, v) && LatchPlaced(s, s.units[v], EuOfUnit(v)); }
  }

  lemma IssuedStation(s: Core, t: Core, u: nat, b: nat, i: nat)
    requires Shape(s) && Placed(s) && Issued(s, t, u, b) && Shape(t) && i < RS_SIZE && t.rs[i].valid
    ensures Waits(t, t.rs[i].tag, t.rs[i].phys, t.rs[i].eu)
  {
    assert t.rs[i] == s.rs[i];
  }

  lemma IssuedPlaced(s: Core, t: Core, u: nat, b: nat)
    requires Shape(s) && Placed(s) && Issued(s, t, u, b) && Shape(t)
    ensures Placed(t)
  {
    IssuedDistinct(s, t, u, b);
    forall i | 0 <= i < RS_SIZE && t.rs[i].valid ensures Waits(t, t.rs[i].tag, t.rs[i].phys, t.rs[i].eu) {
      IssuedStation(s, t, u, b, i);
    }
    forall v | 0 <= v < NUM_UNITS && LiveLatch(t, v) ensures LatchPlaced(t, t.units[v], EuOfUnit(v)) {
      IssuedLatch(s, t, u, b, v);
    }
  }

  lemma IssuedWaiting(s: Core, t: Core, u: nat, b: nat)
    requires Shape(s) && Waiting(s) && Issued(s, t, u, b) && Shape(t)
    ensures Waiting(t)
  {
    forall i | 0 <= i < RS_SIZE && t.rs[i].valid ensures StationWaits(t, t.rs[i]) {
      assert t.rs[i] == s.rs[i] && StationWaits(s, s.rs[i]);
    }
  }

  lemma IssuedOperands(f: Path, s: Core, t: Core, u: nat, b: nat)
    requires Shape(s) && Operands(f, s) && Issued(s, t, u, b) && Shape(t)
    ensures Operands(f, t)
  {
    forall k: nat | k < |t.rob| ensures OnPath(f, s, k) <==> OnPath(f, t, k) { TouchedPath(f, s, t, k); }
    forall i | 0 <= i < RS_SIZE && t.rs[i].valid ensures StationRight(f, t, t.rs[i]) {
      assert t.rs[i] == s.rs[i] && StationRight(f, s, s.rs[i]);
    }
    forall v | 0 <= v < NUM_UNITS && LiveLatch(t, v) ensures LatchRight(f, t, t.units[v]) {
      if v != u {
        assert LiveLatch(s, v) && LatchRight(f, s, s.units[v]);
      } else {
        assert StationRight(f, s, s.rs[b]);
      }
    }
  }

  lemma IssuedDone(f: Path, s: Core, t: Core)
    requires Shape(s) && Done(f, s) && Shape(t) && t.rob == s.rob && t.insts == s.insts && t.prf == s.prf
    ensures Done(f, t)
  {
    forall k: nat | k < |t.rob| ensures FinishedRight(f, t, k) {
      assert FinishedRight(f, s, k);
      TouchedPath(f, s, t, k);
    }
  }

  lemma SameChain(s: Core, t: Core)
    requires Chained(s) && t.rob == s.rob && t.idrn == s.idrn && t.ifid == s.ifid
    requires t.fetchPc == s.fetchPc && t.pc == s.pc
    ensures Chained(t)
  {
    assert InFlight(t) == InFlight(s);
    forall k | 0 <= k < |InFlight(t)| ensures ChainedAt(t, k) { assert ChainedAt(s, k); }
  }

  lemma IssuedKeeps(prog: Program, f: Path, s: Core, t: Core, u: nat, b: nat)
    requires Full(prog, f, s) && Issued(s, t, u, b) && Shape(t)
    ensures Full(prog, f, t)
  {
    RenamedFrame(s, t);
    IssuedPlaced(s, t, u, b);
    IssuedWaiting(s, t, u, b);
    IssuedOperands(f, s, t, u, b);
    IssuedDone(f, s, t);
    SameChain(s, t);
    assert InFlight(t) == InFlight(s);
  }

  lemma IssueFolds(prog: Program, f: Path, s: Core, t: Core, u: nat, b: nat)
    requires Shape(s) && Inv(prog, f, s) && Issued(s, t, u, b) && Shape(t)
    ensures Inv(prog, f, t)
  {
    Unfold(prog, f, s);
    IssuedKeeps(prog, f, s, t, u, b);
    Fold(prog, f, t);
  }

  lemma IssueKeeps(prog: Program, f: Path, s: Core, u: nat)
    requires Shape(s) && Inv(prog, f, s) && u < NUM_UNITS
    ensures Inv(prog, f, IssueSlot(s, u))
  {
    var b := Oldest(s, EuOfUnit(u), RS_SIZE);
    if !s.units[u].valid && b != -1 {
      IssueMoves(s, u);
      IssueFolds(prog, f, s, IssueSlot(s, u), u, b);
    }
  }

  // ------------------------------------------------------------------ rename

  /** Entry `e` is the fetched instruction with the registers it got. */
  ghost predicate EntryFor(f: Fetched, e: Entry) {
    e == Entry(f.ir, f.pc, f.pred, e.phys, e.prev, false, false, Wrap(f.pc + 4), 0, 0)
  }

  /** Entry `e` is the youngest. */
  ghost predicate Appended(s: Core, t: Core, e: Entry) {
    t.rrat == s.rrat && t.insts == s.insts && t.rob == s.rob + [e]
  }

  /** The map, the register file and the free list after `e` got its destination. */
  ghost predicate Mapped(s: Core, t: Core, e: Entry)
    requires Shape(s)
  {
    if e.ir.rd <= 0 then t.rat == s.rat && t.prf == s.prf && t.free == s.free && e.phys == e.ir.rd
    else
      && s.free != [] && e.phys == s.free[0] && e.prev == s.rat[e.ir.rd]
      && t.rat == s.rat[e.ir.rd := e.phys] && t.free == s.free[1..]
      && t.prf == s.prf[e.phys := Phys(0, false)]
  }

  ghost predicate Sourced(s: Core, e: Entry, x: Station)
    requires Shape(s)
  {
    && x.valid && x.tag == s.insts + |s.rob| && x.phys == e.phys && x.eu == EuOf(e.ir)
    && Source(x.r1, x.v1, x.t1) == ReadSource(s, e.ir.rs1, e.ir.lit1)
    && Source(x.r2, x.v2, x.t2) == ReadSource(s, e.ir.rs2, e.ir.lit2)
  }

  /** The oldest decoded instruction has become entry `e` and station `x` in slot `k`. */
  ghost predicate Entered(s: Core, t: Core, k: nat, e: Entry, x: Station)
    requires Shape(s)
  {
    && CanRename(s) && k < RS_SIZE && !s.rs[k].valid && EntryFor(s.idrn[0], e)
    && t.gpr == s.gpr && t.pc == s.pc && t.mem == s.mem && t.sbuf == s.sbuf
    && t.units == s.units && t.ifid == s.ifid && t.fetchPc == s.fetchPc
    && t.idrn == s.idrn[1..] && t.rs == s.rs[k := x]
    && Appended(s, t, e) && Mapped(s, t, e) && Sourced(s, e, x)
  }

  lemma RenameEnters(s: Core) returns (k: nat, e: Entry, x: Station)
    requires Shape(s) && CanRename(s)
    ensures Entered(s, RenameOne(s), k, e, x)
  {
    k, e, x := FreeStation(s.rs, 0), NewEntry(s), NewStation(s);
  }

  lemma EnteredRat(s: Core, t: Core, k: nat, e: Entry, x: Station, j: nat)
    requires Shape(s) && Entered(s, t, k, e, x) && j <= |s.rob|
    ensures RatAt(t.rrat, t.rob, j) == RatAt(s.rrat, s.rob, j)
  {
    RatFrame(s.rrat, t.rob, s.rob, j);
  }

  lemma EnteredMap(s: Core, t: Core, e: Entry)
    requires Shape(s) && Names(s) && Appended(s, t, e) && Mapped(s, t, e)
    ensures t.rat == RatAt(t.rrat, t.rob, |t.rob|)
  {
    RatLast(s.rrat, s.rob, e);
  }

  lemma EnteredPrev(s: Core, t: Core, e: Entry, l: nat)
    requires Shape(s) && Names(s) && Appended(s, t, e) && Mapped(s, t, e)
    requires l < |t.rob| && t.rob[l].ir.rd > 0
    ensures t.rob[l].prev == RatAt(t.rrat, t.rob, l)[t.rob[l].ir.rd]
  {
    RatFrame(s.rrat, t.rob, s.rob, l);
    if l == |s.rob| { assert t.rob[l] == e; } else { assert t.rob[l] == s.rob[l]; }
  }

  lemma EnteredNames(s: Core, t: Core, e: Entry)
    requires Shape(s) && Names(s) && Appended(s, t, e) && Mapped(s, t, e) && Shape(t)
    ensures Names(t)
  {
    EnteredMap(s, t, e);
    forall l: nat | l < |t.rob| && t.rob[l].ir.rd > 0
      ensures t.rob[l].prev == RatAt(t.rrat, t.rob, l)[t.rob[l].ir.rd]
    {
      EnteredPrev(s, t, e, l);
    }
    forall l | 0 <= l < |t.rob| && t.rob[l].ir.rd <= 0 ensures t.rob[l].phys == t.rob[l].ir.rd {
      assert t.rob[l] == if l < |s.rob| then s.rob[l] else e;
    }
  }

  lemma Take(free: seq<int>)
    requires free != []
    ensures multiset(free) == multiset{free[0]} + multiset(free[1..])
  {
    assert free == [free[0]] + free[1..];
  }

  lemma Regrouped(r: multiset<int>, d: multiset<int>, x: multiset<int>, f: multiset<int>, g: multiset<int>)
    requires f == x + g
    ensures r + (d + x) + g == r + d + f
  {
  }

  lemma EnteredSame(s: Core, t: Core, e: Entry)
    requires Shape(s) && Appended(s, t, e) && Mapped(s, t, e)
    ensures Owned(t) == Owned(s)
  {
    DestsLast(s.rob, e);
    if e.ir.rd > 0 { Take(s.free); }
    Regrouped(multiset(s.rrat), Dests(s.rob, |s.rob|), Dest(e), multiset(s.free), multiset(t.free));
  }

  lemma EnteredOwned(s: Core, t: Core, e: Entry)
    requires Shape(s) && Conserved(s) && Appended(s, t, e) && Mapped(s, t, e)
    ensures Conserved(t)
  {
    EnteredSame(s, t, e);
    forall p: int ensures Owned(t)[p] == if 0 <= p < NUM_PHYS then 1 else 0 { assert Owned(s)[p] == Owned(t)[p]; }
  }

  lemma EnteredPrf(s: Core, t: Core, k: nat, e: Entry, x: Station)
    requires Shape(s) && Conserved(s) && Entered(s, t, k, e, x) && Shape(t)
    ensures forall r | 0 < r < 32 :: t.prf[t.rrat[r]] == s.prf[s.rrat[r]]
    ensures forall l | 0 <= l < |s.rob| && s.rob[l].ir.rd > 0 :: t.prf[s.rob[l].phys] == s.prf[s.rob[l].phys]
    ensures forall p | 0 <= p < NUM_PHYS && !s.prf[p].ready :: !t.prf[p].ready
    ensures e.ir.rd > 0 ==> !t.prf[e.phys].ready
  {
    if e.ir.rd > 0 { FreeIsFree(s, 0); }
  }

  lemma EnteredRenamed(s: Core, t: Core, k: nat, e: Entry, x: Station)
    requires Renamed(s) && Entered(s, t, k, e, x) && Shape(t)
    ensures Renamed(t)
  {
    EnteredNames(s, t, e);
    EnteredOwned(s, t, e);
    EnteredPrf(s, t, k, e, x);
  }

  lemma EnteredWaits(s: Core, t: Core, k: nat, e: Entry, x: Station, tag: int, phys: int, eu: EU)
    requires Shape(s) && Entered(s, t, k, e, x) && Shape(t) && Waits(s, tag, phys, eu)
    ensures Waits(t, tag, phys, eu) && t.rob[tag - t.insts] == s.rob[tag - s.insts] && tag < x.tag
  {
  }

  lemma EnteredDistinct(s: Core, t: Core, k: nat, e: Entry, x: Station)
    requires Shape(s) && Placed(s) && Entered(s, t, k, e, x) && Shape(t)
    ensures TagsDistinct(t)
  {
    forall i | 0 <= i < RS_SIZE && t.rs[i].valid && i != k ensures t.rs[i] == s.rs[i] && t.rs[i].tag < x.tag {
      EnteredWaits(s, t, k, e, x, s.rs[i].tag, s.rs[i].phys, s.rs[i].eu);
    }
    forall u: nat | u < NUM_UNITS && LiveLatch(t, u) ensures LiveLatch(s, u) && t.units[u].tag < x.tag {
      assert LiveLatch(s, u) && LatchPlaced(s, s.units[u], EuOfUnit(u));
    }
  }

  lemma EnteredLatch(s: Core, t: Core, k: nat, e: Entry, x: Station, l: Latch, eu: EU)
    requires Shape(s) && Entered(s, t, k, e, x) && Shape(t) && LatchPlaced(s, l, eu)
    ensures LatchPlaced(t, l, eu)
  {
    EnteredWaits(s, t, k, e, x, l.tag, l.phys, eu);
  }

  lemma EnteredPlaced(s: Core, t: Core, k: nat, e: Entry, x: Station)
    requires Shape(s) && Placed(s) && Entered(s, t, k, e, x) && Shape(t)
    ensures Placed(t)
  {
    EnteredDistinct(s, t, k, e, x);
    forall i | 0 <= i < RS_SIZE && t.rs[i].valid ensures Waits(t, t.rs[i].tag, t.rs[i].phys, t.rs[i].eu) {
      if i != k { EnteredWaits(s, t, k, e, x, s.rs[i].tag, s.rs[i].phys, s.rs[i].eu); }
    }
    forall u | 0 <= u < NUM_UNITS && LiveLatch(t, u) ensures LatchPlaced(t, t.units[u], EuOfUnit(u)) {
      assert LiveLatch(s, u) && LatchPlaced(s, s.units[u], EuOfUnit(u));
      EnteredLatch(s, t, k, e, x, s.units[u], EuOfUnit(u));
    }
  }

  lemma AwaitsKept(s: Core, t: Core, j: nat, r: int, p: int)
    requires Shape(s) && Shape(t) && j <= |s.rob| && j <= |t.rob| && Awaits(s, j, r, p)
    requires RatAt(t.rrat, t.rob, j) == RatAt(s.rrat, s.rob, j)
    requires forall p | 0 <= p < NUM_PHYS && !s.prf[p].ready :: !t.prf[p].ready
    ensures Awaits(t, j, r, p)
  {
  }

  lemma EnteredStationWaits(s: Core, t: Core, k: nat, e: Entry, x: Station, y: Station)
    requires Shape(s) && Entered(s, t, k, e, x) && Shape(t) && StationWaits(s, y)
    requires forall p | 0 <= p < NUM_PHYS && !s.prf[p].ready :: !t.prf[p].ready
    ensures StationWaits(t, y)
  {
    var j := y.tag - s.insts;
    EnteredRat(s, t, k, e, x, j);
    assert t.rob[j] == s.rob[j];
    if !y.r1 { AwaitsKept(s, t, j, s.rob[j].ir.rs1, y.t1); }
    if !y.r2 { AwaitsKept(s, t, j, s.rob[j].ir.rs2, y.t2); }
  }

  lemma NewSourceWaits(s: Core, t: Core, e: Entry, r: int, lit: Word, c: Source)
    requires Shape(s) && s.rat == RatAt(s.rrat, s.rob, |s.rob|) && Appended(s, t, e) && Shape(t) && -1 <= r < 32
    requires forall p | 0 <= p < NUM_PHYS && !s.prf[p].ready :: !t.prf[p].ready
    requires c == ReadSource(s, r, lit) && !c.ready
    ensures Awaits(t, |s.rob|, r, c.tag)
  {
    RatFrame(s.rrat, t.rob, s.rob, |s.rob|);
  }

  lemma StationWaitsIf(t: Core, e: Entry, x: Station)
    requires Shape(t) && Live(t, x.tag) && t.rob[x.tag - t.insts] == e
    requires !x.r1 ==> Awaits(t, x.tag - t.insts, e.ir.rs1, x.t1)
    requires !x.r2 ==> Awaits(t, x.tag - t.insts, e.ir.rs2, x.t2)
    ensures StationWaits(t, x)
  {
  }

  lemma NewStationWaits(s: Core, t: Core, e: Entry, x: Station)
    requires Shape(s) && s.rat == RatAt(s.rrat, s.rob, |s.rob|) && Appended(s, t, e) && Sourced(s, e, x) && Shape(t)
    requires forall p | 0 <= p < NUM_PHYS && !s.prf[p].ready :: !t.prf[p].ready
    ensures StationWaits(t, x)
  {
    assert t.rob[|s.rob|] == e;
    if !x.r1 { NewSourceWaits(s, t, e, e.ir.rs1, e.ir.lit1, Source(x.r1, x.v1, x.t1)); }
    if !x.r2 { NewSourceWaits(s, t, e, e.ir.rs2, e.ir.lit2, Source(x.r2, x.v2, x.t2)); }
    StationWaitsIf(t, e, x);
  }

  lemma EnteredWaiting(s: Core, t: Core, k: nat, e: Entry, x: Station)
    requires Shape(s) && Names(s) && Conserved(s) && Waiting(s) && Entered(s, t, k, e, x) && Shape(t)
    ensures Waiting(t)
  {
    EnteredPrf(s, t, k, e, x);
    NewStationWaits(s, t, e, x);
    forall i | 0 <= i < RS_SIZE && t.rs[i].valid ensures StationWaits(t, t.rs[i]) {
      if i != k { EnteredStationWaits(s, t, k, e, x, s.rs[i]); }
    }
  }

  lemma AppendedPath(f: Path, s: Core, t: Core, e: Entry, j: int)
    requires Appended(s, t, e) && j < |s.rob|
    ensures OnPath(f, t, j) <==> OnPath(f, s, j)
    ensures OnPath(f, t, |s.rob|) ==> OnPath(f, s, j)
  {
    assert forall l: nat | l <= j :: SameInst(f, s, l) == SameInst(f, t, l);
  }

  lemma EnteredDone(f: Path, s: Core, t: Core, k: nat, e: Entry, x: Station)
    requires Shape(s) && Conserved(s) && Done(f, s) && Entered(s, t, k, e, x) && Shape(t)
    ensures Done(f, t)
  {
    EnteredPrf(s, t, k, e, x);
    forall l: nat | l < |t.rob| ensures FinishedRight(f, t, l) {
      if l < |s.rob| {
        AppendedPath(f, s, t, e, l);
        assert FinishedRight(f, s, l);
      }
    }
  }

  lemma EnteredRegs(f: Path, s: Core, t: Core, k: nat, e: Entry, x: Station)
    requires Shape(s) && Conserved(s) && CommittedRegs(f, s) && Entered(s, t, k, e, x) && Shape(t)
    ensures CommittedRegs(f, t)
  {
    EnteredPrf(s, t, k, e, x);
  }

  lemma RegisterRight(prog: Program, f: Path, s: Core, r: int)
    requires IsTrace(prog, f.run) && Shape(s) && s.rat == RatAt(s.rrat, s.rob, |s.rob|)
    requires ReadyBits(s) && Done(f, s) && CommittedRegs(f, s)
    requires OnPath(f, s, |s.rob| - 1) && 0 < r < 32 && s.prf[s.rat[r]].ready
    ensures s.prf[s.rat[r]].value == f.run(s.insts + |s.rob|).regs[r]
  {
    ValueThroughMap(prog, f, s, |s.rob|, r);
  }

  /** A source that is ready at rename holds the functional machine's operand. */
  lemma SourceRight(prog: Program, f: Path, s: Core, r: int, lit: Word)
    requires IsTrace(prog, f.run) && Shape(s) && s.rat == RatAt(s.rrat, s.rob, |s.rob|)
    requires ReadyBits(s) && Done(f, s) && CommittedRegs(f, s)
    requires OnPath(f, s, |s.rob| - 1) && -1 <= r < 32 && ReadSource(s, r, lit).ready
    ensures ReadSource(s, r, lit).value == Operand(f.run(s.insts + |s.rob|).regs, r, lit)
  {
    if r > 0 {
      RegisterRight(prog, f, s, r);
    } else {
      ZeroAt(prog, f.run, s.insts + |s.rob|);
    }
  }

  ghost predicate Readable(f: Path, s: Core, r: int, lit: Word)
    requires Shape(s) && -1 <= r < 32
  {
    ReadSource(s, r, lit).ready ==> ReadSource(s, r, lit).value == Operand(f.run(s.insts + |s.rob|).regs, r, lit)
  }

  lemma SourceReadable(prog: Program, f: Path, s: Core, r: int, lit: Word)
    requires IsTrace(prog, f.run) && Shape(s) && s.rat == RatAt(s.rrat, s.rob, |s.rob|)
    requires ReadyBits(s) && Done(f, s) && CommittedRegs(f, s)
    requires OnPath(f, s, |s.rob| - 1) && -1 <= r < 32
    ensures Readable(f, s, r, lit)
  {
    if ReadSource(s, r, lit).ready { SourceRight(prog, f, s, r, lit); }
  }

  lemma SourcesRight(prog: Program, f: Path, s: Core, e: Entry, x: Station)
    requires IsTrace(prog, f.run) && Shape(s) && Sourced(s, e, x) && e.ir == f.run(s.insts + |s.rob|).ir
    requires Readable(f, s, e.ir.rs1, e.ir.lit1) && Readable(f, s, e.ir.rs2, e.ir.lit2)
    ensures x.r1 ==> x.v1 == f.run(s.insts + |s.rob|).v1
    ensures x.r2 ==> x.v2 == f.run(s.insts + |s.rob|).v2
  {
    OperandsOf(prog, f.run, s.insts + |s.rob|);
  }

  lemma StationRightIf(prog: Program, f: Path, s: Core, t: Core, e: Entry, x: Station)
    requires IsTrace(prog, f.run) && Shape(s) && Appended(s, t, e) && Sourced(s, e, x)
    requires OnPath(f, s, |s.rob| - 1) ==> Readable(f, s, e.ir.rs1, e.ir.lit1) && Readable(f, s, e.ir.rs2, e.ir.lit2)
    ensures StationRight(f, t, x)
  {
    var j := |s.rob|;
    assert t.rob[j] == e;
    if OnPath(f, t, j) {
      AppendedPath(f, s, t, e, j - 1);
      assert SameInst(f, t, j);
      SourcesRight(prog, f, s, e, x);
    }
  }

  lemma NewStationRight(prog: Program, f: Path, s: Core, t: Core, e: Entry, x: Station)
    requires IsTrace(prog, f.run) && Shape(s) && s.rat == RatAt(s.rrat, s.rob, |s.rob|)
    requires ReadyBits(s) && Done(f, s) && CommittedRegs(f, s)
    requires Appended(s, t, e) && Sourced(s, e, x)
    ensures StationRight(f, t, x)
  {
    if OnPath(f, s, |s.rob| - 1) {
      SourceReadable(prog, f, s, e.ir.rs1, e.ir.lit1);
      SourceReadable(prog, f, s, e.ir.rs2, e.ir.lit2);
    }
    StationRightIf(prog, f, s, t, e, x);
  }

  lemma EnteredOperands(f: Path, s: Core, t: Core, k: nat, e: Entry, x: Station)
    requires Shape(s) && Operands(f, s) && Entered(s, t, k, e, x) && Shape(t) && StationRight(f, t, x)
    ensures Operands(f, t)
  {
    forall i | 0 <= i < RS_SIZE && t.rs[i].valid ensures StationRight(f, t, t.rs[i]) {
      if i != k {
        assert StationRight(f, s, s.rs[i]);
        AppendedPath(f, s, t, e, s.rs[i].tag - s.insts);
      }
    }
    forall u | 0 <= u < NUM_UNITS && LiveLatch(t, u) ensures LatchRight(f, t, t.units[u]) {
      assert LiveLatch(s, u) && LatchRight(f, s, s.units[u]);
      AppendedPath(f, s, t, e, s.units[u].tag - s.insts);
    }
  }

  lemma EnteredInFlight(s: Core, t: Core, k: nat, e: Entry, x: Station)
    requires Shape(s) && Entered(s, t, k, e, x)
    ensures InFlight(t) == InFlight(s)
  {
    assert Heads(t.rob) == Heads(s.rob) + [s.idrn[0]];
    assert s.idrn == [s.idrn[0]] + s.idrn[1..];
  }

  lemma EnteredChain(s: Core, t: Core, k: nat, e: Entry, x: Station)
    requires Shape(s) && Chained(s) && Entered(s, t, k, e, x)
    ensures Chained(t)
  {
    EnteredInFlight(s, t, k, e, x);
    forall l | 0 <= l < |InFlight(t)| ensures ChainedAt(t, l) {
      assert ChainedAt(s, l);
      assert l < |s.rob| ==> t.rob[l] == s.rob[l];
    }
  }

  lemma EnteredKeeps(prog: Program, f: Path, s: Core, t: Core, k: nat, e: Entry, x: Station)
    requires IsTrace(prog, f.run) && Full(prog, f, s) && Entered(s, t, k, e, x) && Shape(t)
    ensures Full(prog, f, t)
  {
    EnteredRenamed(s, t, k, e, x);
    EnteredPlaced(s, t, k, e, x);
    EnteredWaiting(s, t, k, e, x);
    EnteredDone(f, s, t, k, e, x);
    EnteredRegs(f, s, t, k, e, x);
    NewStationRight(prog, f, s, t, e, x);
    EnteredOperands(f, s, t, k, e, x);
    EnteredChain(s, t, k, e, x);
    EnteredInFlight(s, t, k, e, x);
  }

  lemma RenameFolds(prog: Program, f: Path, s: Core, t: Core, k: nat, e: Entry, x: Station)
    requires IsTrace(prog, f.run) && Shape(s) && Inv(prog, f, s) && Entered(s, t, k, e, x) && Shape(t)
    ensures Inv(prog, f, t)
  {
    Unfold(prog, f, s);
    EnteredKeeps(prog, f, s, t, k, e, x);
    Fold(prog, f, t);
  }

  lemma RenameKeeps(prog: Program, f: Path, s: Core)
    requires IsTrace(prog, f.run) && Shape(s) && Inv(prog, f, s)
    ensures Inv(prog, f, RenameOne(s))
  {
    if CanRename(s) {
      var k, e, x := RenameEnters(s);
      RenameFolds(prog, f, s, RenameOne(s), k, e, x);
    }
  }

  // --------------------------------------------------------------- front end

  lemma FrontKeeps(prog: Program, f: Path, s: Core, t: Core)
    requires Full(prog, f, s) && SameBack(s, t) && Shape(t) && t.mem == s.mem && t.sbuf == s.sbuf
    requires Text(prog, t) && Chained(t)
    ensures Full(prog, f, t)
  {
    BackFrame(f, s, t);
  }

  lemma FrontFolds(prog: Program, f: Path, s: Core, t: Core)
    requires Inv(prog, f, s) && SameBack(s, t) && Shape(t) && t.mem == s.mem && t.sbuf == s.sbuf
    requires Text(prog, t) && Chained(t)
    ensures Inv(prog, f, t)
  {
    Unfold(prog, f, s);
    FrontKeeps(prog, f, s, t);
    Fold(prog, f, t);
  }

  lemma DecodeSame(prog: Program, s: Core, t: Core)
    requires Text(prog, s) && Chained(s)
    requires t.rob == s.rob && t.fetchPc == s.fetchPc && t.pc == s.pc && t.idrn + t.ifid == s.idrn + s.ifid
    ensures Text(prog, t) && Chained(t)
  {
    assert InFlight(t) == Heads(t.rob) + (t.idrn + t.ifid) == InFlight(s);
    forall k | 0 <= k < |InFlight(t)| ensures ChainedAt(t, k) { assert ChainedAt(s, k); }
  }

  lemma DecodeKeeps(prog: Program, f: Path, s: Core)
    requires Shape(s) && Inv(prog, f, s)
    ensures Inv(prog, f, Decode(s)) && Shape(Decode(s))
  {
    Unfold(prog, f, s);
    DecodeSame(prog, s, Decode(s));
    FrontFolds(prog, f, s, Decode(s));
  }

  lemma FetchedLast(s: Core, t: Core, g: Fetched)
    requires Chained(s) && InFlight(t) == InFlight(s) + [g] && t.rob == s.rob && t.pc == s.pc
    requires InDram(g.pc) && g.pc == s.fetchPc % 0x1_0000_0000 && t.fetchPc == g.pred && InDram(s.pc)
    ensures Chained(t)
  {
    var n := |InFlight(s)|;
    assert InFlight(t)[n] == g;
    forall k | 0 <= k < |InFlight(t)| ensures ChainedAt(t, k) {
      if k < n { assert ChainedAt(s, k); }
    }
  }

  /** One more instruction, at the pc that the youngest one leads to. */
  lemma FetchedChain(prog: Program, s: Core, t: Core, g: Fetched)
    requires Text(prog, s) && Chained(s) && TextAt(prog, g)
    requires t.rob == s.rob && t.idrn == s.idrn && t.ifid == s.ifid + [g] && t.pc == s.pc
    requires InDram(g.pc) && g.pc == s.fetchPc % 0x1_0000_0000 && t.fetchPc == g.pred && InDram(s.pc)
    ensures Text(prog, t) && Chained(t)
  {
    assert InFlight(t) == InFlight(s) + [g];
    FetchedLast(s, t, g);
  }

  lemma DramIsLow(a: Word)
    requires InDram(a)
    ensures a % 0x1_0000_0000 == a
  {
  }

  lemma SkippedAt(s: Core, t: Core, k: nat)
    requires InFlight(t) == InFlight(s) && t.rob == s.rob && !InDram(s.fetchPc) && k < |InFlight(s)| && ChainedAt(s, k)
    ensures ChainedAt(t, k)
  {
  }

  /** Fetching from outside DRAM gets nothing. */
  lemma SkippedChain(prog: Program, s: Core, t: Core)
    requires Text(prog, s) && Chained(s) && InDram(s.pc) && !InDram(s.fetchPc)
    requires t.rob == s.rob && t.idrn == s.idrn && t.ifid == s.ifid && t.pc == s.pc
    ensures Text(prog, t) && Chained(t)
  {
    assert InFlight(t) == InFlight(s);
    forall k | 0 <= k < |InFlight(t)| ensures ChainedAt(t, k) { SkippedAt(s, t, k); }
  }

  lemma FetchOneChain(prog: Program, s: Core, p: Prediction)
    requires Text(prog, s) && Chained(s) && InDram(s.pc)
    ensures Text(prog, FetchOne(prog, s, p).0) && Chained(FetchOne(prog, s, p).0)
  {
    var t := FetchOne(prog, s, p).0;
    var pc := s.fetchPc % 0x1_0000_0000;
    if InDram(pc) {
      FetchedChain(prog, s, t, t.ifid[|s.ifid|]);
    } else {
      if InDram(s.fetchPc) { DramIsLow(s.fetchPc); }
      SkippedChain(prog, s, t);
    }
  }

  lemma PcInDram(prog: Program, f: Path, s: Core)
    requires ValidTrace(prog, f) && Full(prog, f, s)
    ensures InDram(s.pc)
  {
    assert ValidStep(f.run(s.insts));
  }

  lemma FetchOneFront(prog: Program, f: Path, s: Core, p: Prediction)
    requires ValidTrace(prog, f) && Inv(prog, f, s)
    ensures Text(prog, FetchOne(prog, s, p).0) && Chained(FetchOne(prog, s, p).0)
  {
    Unfold(prog, f, s);
    PcInDram(prog, f, s);
    FetchOneChain(prog, s, p);
  }

  lemma FetchOneKeeps(prog: Program, f: Path, s: Core, p: Prediction)
    requires ValidTrace(prog, f) && Shape(s) && Inv(prog, f, s) && |s.ifid| < FETCH_WIDTH
    ensures Inv(prog, f, FetchOne(prog, s, p).0) && Shape(FetchOne(prog, s, p).0)
    ensures |FetchOne(prog, s, p).0.ifid| <= |s.ifid| + 1
  {
    FetchOneFront(prog, f, s, p);
    FrontFolds(prog, f, s, FetchOne(prog, s, p).0);
  }

  lemma FetchKeeps(prog: Program, f: Path, s: Core, p0: Prediction, p1: Prediction)
    requires ValidTrace(prog, f) && Shape(s) && Inv(prog, f, s)
    ensures Inv(prog, f, Fetch(prog, s, p0, p1)) && Shape(Fetch(prog, s, p0, p1))
  {
    if s.ifid == [] {
      var (s1, more) := FetchOne(prog, s, p0);
      FetchOneKeeps(prog, f, s, p0);
      if more { FetchOneKeeps(prog, f, s1, p1); }
    }
  }
}
