/** Recovery from a misprediction: the renaming is undone exactly, and the invariant is kept. */
module TomasuloRecover {
  import opened Isa
  import opened Forwarding
  import opened Tomasulo
  import opened TomasuloInvariant

  // ------------------------------------------------------- undoing the renaming

  /** What undoing leaves alone: everything but the map, the free list, ready bits and the tail. */
  ghost predicate Undone(s: Core, t: Core, k: nat)
    requires k <= |s.rob|
  {
    && t.insts == s.insts && t.gpr == s.gpr && t.pc == s.pc && t.mem == s.mem && t.sbuf == s.sbuf
    && t.rrat == s.rrat && t.rs == s.rs && t.units == s.units
    && t.idrn == s.idrn && t.ifid == s.ifid && t.fetchPc == s.fetchPc
    && t.rob == s.rob[..k]
    && |t.prf| == |s.prf|
    && (forall p | 0 <= p < |s.prf| :: t.prf[p].value == s.prf[p].value && (t.prf[p].ready ==> s.prf[p].ready))
  }

  ghost predicate Popped(s: Core, t: Core)
    requires Shape(s) && s.rob != []
  {
    var m := |s.rob| - 1;
    var e := s.rob[m];
    && Undone(s, t, m)
    && (e.ir.rd <= 0 ==> t.rat == s.rat && t.prf == s.prf && t.free == s.free)
    && (e.ir.rd > 0 ==>
          && t.rat == s.rat[e.ir.rd := e.prev]
          && t.prf == s.prf[e.phys := s.prf[e.phys].(ready := false)]
          && t.free == s.free + [e.phys])
  }

  lemma PoppedRat(s: Core, t: Core, k: nat)
    requires Shape(s) && s.rob != [] && Popped(s, t) && k < |s.rob|
    ensures RatAt(t.rrat, t.rob, k) == RatAt(s.rrat, s.rob, k)
  {
    RatFrame(s.rrat, t.rob, s.rob, k);
  }

  lemma Restored(m: seq<int>, r: nat, p: int)
    requires r < |m|
    ensures m[r := p][r := m[r]] == m
  {
  }

  lemma PoppedMap(s: Core, t: Core)
    requires Shape(s) && Names(s) && s.rob != [] && Popped(s, t)
    ensures t.rat == RatAt(t.rrat, t.rob, |t.rob|)
  {
    var e := s.rob[|s.rob| - 1];
    var m := RatAt(t.rrat, t.rob, |t.rob|);
    PoppedRat(s, t, |t.rob|);
    assert s.rat == RatAt(s.rrat, s.rob, |t.rob| + 1);
    if e.ir.rd > 0 { Restored(m, e.ir.rd, e.phys); }
  }

  lemma PoppedNames(s: Core, t: Core)
    requires Shape(s) && Names(s) && s.rob != [] && Popped(s, t) && Shape(t)
    ensures Names(t)
  {
    PoppedMap(s, t);
    forall k: nat | k < |t.rob| && t.rob[k].ir.rd > 0
      ensures t.rob[k].prev == RatAt(t.rrat, t.rob, k)[t.rob[k].ir.rd]
    {
      PoppedRat(s, t, k);
    }
  }

  lemma PoppedOwned(s: Core, t: Core)
    requires Shape(s) && s.rob != [] && Popped(s, t)
    ensures Owned(t) == Owned(s)
  {
    var e := s.rob[|s.rob| - 1];
    assert s.rob == t.rob + [e];
    DestsLast(t.rob, e);
  }

  lemma PoppedRenamed(s: Core, t: Core)
    requires Renamed(s) && s.rob != [] && Popped(s, t) && Shape(t)
    ensures Renamed(t)
  {
    PoppedNames(s, t);
    PoppedOwned(s, t);
    forall p: int ensures Owned(t)[p] == if 0 <= p < NUM_PHYS then 1 else 0 { assert Owned(s)[p] == Owned(t)[p]; }
    Distinct(s);
  }

  lemma LastUndonePops(s: Core)
    requires Shape(s) && s.rob != []
    ensures Popped(s, LastUndone(s))
  {
  }

  lemma {:induction false} UndoRenamed(s: Core, k: nat)
    requires Renamed(s) && k <= |s.rob|
    ensures Renamed(Undo(s, k)) && Undone(s, Undo(s, k), k)
    decreases |s.rob|
  {
    if k < |s.rob| {
      var t := LastUndone(s);
      LastUndonePops(s);
      PoppedRenamed(s, t);
      UndoRenamed(t, k);
      assert s.rob[..|s.rob| - 1][..k] == s.rob[..k];
    } else {
      assert s.rob[..k] == s.rob;
    }
  }

  /** Rollback exactness: undoing down to `k` entries leaves exactly those entries, and the committed map with their
      destinations on top.  (`TomasuloHistory` shows that this is the map held when entry `k` was renamed.) */
  lemma {:induction false} RollbackExact(s: Core, k: nat)
    requires Shape(s) && Names(s) && k <= |s.rob|
    ensures Undo(s, k).rat == RatAt(s.rrat, s.rob, k) && Undo(s, k).rob == s.rob[..k]
    decreases |s.rob|
  {
    if k < |s.rob| {
      var t := LastUndone(s);
      LastUndonePops(s);
      PoppedNames(s, t);
      RollbackExact(t, k);
      PoppedRat(s, t, k);
      assert s.rob[..|s.rob| - 1][..k] == s.rob[..k];
    } else {
      assert s.rob[..k] == s.rob;
    }
  }

  // ------------------------------------------------------- what recovery changes

  /** Recovery after entry `j`, with fetching redirected to where the entry goes. */
  ghost predicate Recovered(s: Core, t: Core, j: nat)
    requires Shape(s) && j < |s.rob|
  {
    && t.insts == s.insts && t.gpr == s.gpr && t.pc == s.pc && t.mem == s.mem && t.sbuf == s.sbuf
    && t.rrat == s.rrat && t.rob == s.rob[..j + 1] && t.idrn == [] && t.ifid == [] && t.fetchPc == s.rob[j].dnpc
    && t.rs == FlushStations(s.rs, s.insts + j) && t.units == FlushLatches(s.units, s.insts + j)
    && |t.prf| == NUM_PHYS
    && (forall p | 0 <= p < NUM_PHYS :: t.prf[p].value == s.prf[p].value && (t.prf[p].ready ==> s.prf[p].ready))
  }

  lemma FlushRecovers(s: Core, w: Core, j: nat, t: Core)
    requires Shape(s) && j < |s.rob| && Renamed(w) && Undone(s, w, j + 1)
    requires t == Discard(w, s.insts + j).(fetchPc := s.rob[j].dnpc)
    ensures Renamed(t) && Recovered(s, t, j)
  {
    RenamedFrame(w, t);
  }

  lemma KeptStations(s: Core, t: Core, j: nat, i: nat)
    requires Shape(s) && j < |s.rob| && Recovered(s, t, j) && Shape(t) && i < RS_SIZE && t.rs[i].valid
    ensures s.rs[i].valid && t.rs[i] == s.rs[i] && t.rs[i].tag <= s.insts + j
  {
    assert t.rs[i] == FlushStation(s.rs[i], s.insts + j);
  }

  lemma KeptLatches(s: Core, t: Core, j: nat, u: nat)
    requires Shape(s) && j < |s.rob| && Recovered(s, t, j) && Shape(t) && u < NUM_UNITS && LiveLatch(t, u)
    ensures LiveLatch(s, u) && t.units[u] == s.units[u] && t.units[u].tag <= s.insts + j
  {
    assert t.units[u] == FlushLatch(s.units[u], s.insts + j, EuOfUnit(u));
  }

  lemma KeptWaits(s: Core, t: Core, j: nat, tag: int, phys: int, eu: EU)
    requires Shape(s) && j < |s.rob| && Recovered(s, t, j) && Shape(t) && Waits(s, tag, phys, eu) && tag <= s.insts + j
    ensures Waits(t, tag, phys, eu) && t.rob[tag - t.insts] == s.rob[tag - s.insts]
  {
  }

  lemma RecoveredDistinct(s: Core, t: Core, j: nat)
    requires Shape(s) && TagsDistinct(s) && j < |s.rob| && Recovered(s, t, j) && Shape(t)
    ensures TagsDistinct(t)
  {
    forall i: nat | i < RS_SIZE && t.rs[i].valid ensures s.rs[i].valid && t.rs[i] == s.rs[i] { KeptStations(s, t, j, i); }
    forall u: nat | u < NUM_UNITS && LiveLatch(t, u) ensures LiveLatch(s, u) && t.units[u] == s.units[u] {
      KeptLatches(s, t, j, u);
    }
  }

  lemma KeptLatch(s: Core, t: Core, j: nat, l: Latch, eu: EU)
    requires Shape(s) && j < |s.rob| && Recovered(s, t, j) && Shape(t) && LatchPlaced(s, l, eu) && l.tag <= s.insts + j
    ensures LatchPlaced(t, l, eu)
  {
    KeptWaits(s, t, j, l.tag, l.phys, eu);
  }

  lemma RecoveredPlaced(s: Core, t: Core, j: nat)
    requires Shape(s) && Placed(s) && j < |s.rob| && Recovered(s, t, j) && Shape(t)
    ensures Placed(t)
  {
    RecoveredDistinct(s, t, j);
    forall i | 0 <= i < RS_SIZE && t.rs[i].valid ensures Waits(t, t.rs[i].tag, t.rs[i].phys, t.rs[i].eu) {
      KeptStations(s, t, j, i);
      KeptWaits(s, t, j, s.rs[i].tag, s.rs[i].phys, s.rs[i].eu);
    }
    forall u | 0 <= u < NUM_UNITS && LiveLatch(t, u) ensures LatchPlaced(t, t.units[u], EuOfUnit(u)) {
      KeptLatches(s, t, j, u);
      KeptLatch(s, t, j, s.units[u], EuOfUnit(u));
    }
    forall u | 0 <= u < NUM_UNITS && EuOfUnit(u) != LSU ensures !t.units[u].flushed {
      assert t.units[u] == FlushLatch(s.units[u], s.insts + j, EuOfUnit(u));
    }
  }

  lemma KeptStationWaits(s: Core, t: Core, j: nat, x: Station)
    requires Shape(s) && j < |s.rob| && Recovered(s, t, j) && Shape(t) && x.tag <= s.insts + j && StationWaits(s, x)
    ensures StationWaits(t, x)
  {
    RatFrame(s.rrat, t.rob, s.rob, x.tag - s.insts);
  }

  lemma RecoveredWaiting(s: Core, t: Core, j: nat)
    requires Shape(s) && Waiting(s) && j < |s.rob| && Recovered(s, t, j) && Shape(t)
    ensures Waiting(t)
  {
    forall i | 0 <= i < RS_SIZE && t.rs[i].valid ensures StationWaits(t, t.rs[i]) {
      KeptStations(s, t, j, i);
      KeptStationWaits(s, t, j, s.rs[i]);
    }
  }

  lemma RecoveredPath(f: Path, s: Core, t: Core, j: nat, k: nat)
    requires Shape(s) && j < |s.rob| && Recovered(s, t, j) && k <= j
    ensures OnPath(f, t, k) <==> OnPath(f, s, k)
  {
    assert forall l: nat | l <= k :: SameInst(f, s, l) == SameInst(f, t, l);
  }

  lemma RecoveredDone(f: Path, s: Core, t: Core, j: nat)
    requires Shape(s) && Done(f, s) && j < |s.rob| && Recovered(s, t, j) && Shape(t)
    ensures Done(f, t)
  {
    forall k: nat | k < |t.rob| ensures FinishedRight(f, t, k) {
      RecoveredPath(f, s, t, j, k);
      assert FinishedRight(f, s, k);
    }
  }

  lemma RecoveredOperands(f: Path, s: Core, t: Core, j: nat)
    requires Shape(s) && Operands(f, s) && j < |s.rob| && Recovered(s, t, j) && Shape(t)
    ensures Operands(f, t)
  {
    forall i | 0 <= i < RS_SIZE && t.rs[i].valid ensures StationRight(f, t, t.rs[i]) {
      KeptStations(s, t, j, i);
      assert StationRight(f, s, s.rs[i]);
      RecoveredPath(f, s, t, j, t.rs[i].tag - t.insts);
    }
    forall u | 0 <= u < NUM_UNITS && LiveLatch(t, u) ensures LatchRight(f, t, t.units[u]) {
      KeptLatches(s, t, j, u);
      assert LatchRight(f, s, s.units[u]);
      RecoveredPath(f, s, t, j, t.units[u].tag - t.insts);
    }
  }

  lemma RecoveredChain(prog: Program, s: Core, t: Core, j: nat)
    requires Shape(s) && j < |s.rob| && Recovered(s, t, j) && s.rob[j].ready
    requires Text(prog, s) && FirstPc(s) == s.pc
    requires forall k | 0 <= k < |InFlight(s)| && k != j :: ChainedAt(s, k)
    ensures Text(prog, t) && Chained(t)
  {
    HeadsAre(s);
    HeadsAre(t);
    assert forall k | 0 <= k < |InFlight(t)| :: InFlight(t)[k] == InFlight(s)[k];
    forall k | 0 <= k < |InFlight(t)| ensures ChainedAt(t, k) {
      if k != j { assert ChainedAt(s, k); }
    }
  }

  lemma RecoveredSound(prog: Program, f: Path, s: Core, j: nat, t: Core)
    requires Sound(prog, f, s) && j < |s.rob| && s.rob[j].ready && Recovered(s, t, j) && Renamed(t)
    requires FirstPc(s) == s.pc
    requires forall k | 0 <= k < |InFlight(s)| && k != j :: ChainedAt(s, k)
    ensures Full(prog, f, t)
  {
    RecoveredPlaced(s, t, j);
    RecoveredWaiting(s, t, j);
    RecoveredDone(f, s, t, j);
    RecoveredOperands(f, s, t, j);
    RecoveredChain(prog, s, t, j);
  }

  lemma RecoveryKeeps(prog: Program, f: Path, s: Core, w: Core, j: nat, t: Core)
    requires Sound(prog, f, s) && j < |s.rob| && s.rob[j].ready
    requires Renamed(w) && Undone(s, w, j + 1) && t == Discard(w, s.insts + j).(fetchPc := s.rob[j].dnpc)
    requires FirstPc(s) == s.pc
    requires forall k | 0 <= k < |InFlight(s)| && k != j :: ChainedAt(s, k)
    ensures Full(prog, f, t)
  {
    FlushRecovers(s, w, j, t);
    RecoveredSound(prog, f, s, j, t);
  }

  /** `w` is `s` with the entries from `k` on undone. */
  ghost predicate UndoneBy(s: Core, w: Core, k: nat)
    requires Shape(s)
  {
    k <= |s.rob| && forall n: nat | n == k :: w == Undo(s, n)
  }

  lemma UndoFacts(s: Core, w: Core, k: nat)
    requires Renamed(s) && UndoneBy(s, w, k)
    ensures Renamed(w) && Undone(s, w, k)
  {
    UndoRenamed(s, k);
  }

  lemma FlushIs(s: Core, j: nat) returns (w: Core)
    requires Shape(s) && j < |s.rob|
    ensures Shape(w) && UndoneBy(s, w, j + 1) && FlushAfter(s, j) == Discard(w, s.insts + j)
  {
    w := Undo(s, j + 1);
  }
}
