/**
 The out-of-order engine as the source keeps it: one object whose rings, maps, masks and latches the
 stages update in place.

 The ghost field `core` is the value-level engine.  `Tied` ties every real field to it and says that the
 masks equal their definitions; each stage is proved to take `core` where the stage function takes it, so
 everything proved of the functions, the refinement theorem included, holds of this machine.
 */
module OooEngine {
  import opened Isa
  import opened Forwarding
  import opened Tomasulo
  import opened TomasuloInvariant
  import opened TomasuloRecover
  import opened TomasuloFront
  import opened TomasuloStructure
  import opened TomasuloTheorem
  import opened OooRings
  import opened OooStages

  // ------------------------------------------------------------------ at start

  function EmptyStores(): (b: seq<StoreRec>)
    ensures |b| == STORE_BUF_SIZE
  {
    seq(STORE_BUF_SIZE, _ => StoreRec(0, 0, 1))
  }

  function EmptyRob(): (b: seq<RobSlot>)
    ensures |b| == ROB_SIZE && forall i | 0 <= i < ROB_SIZE :: !b[i].valid
  {
    seq(ROB_SIZE, _ => RobSlot(false, Entry(NOP, 0, 0, -1, -1, false, false, 0, 0, 0)))
  }

  function EmptyStations(): (b: seq<RsSlot>)
    ensures |b| == RS_SIZE && forall i | 0 <= i < RS_SIZE :: !b[i].valid
  {
    seq(RS_SIZE, _ => RsSlot(false, 0, 0, INT, false, 0, 0, false, 0, 0))
  }

  function EmptyUnits(): (b: seq<Unit>)
    ensures |b| == NUM_UNITS && forall u | 0 <= u < NUM_UNITS :: !b[u].valid
  {
    seq(NUM_UNITS, _ => Unit(false, 0, 0, 0, 0, false, false))
  }

  /** Registers 32 to 63 are free. */
  function FreeAtStart(): (b: seq<int>)
    ensures |b| == FREE_LIST_SIZE
  {
    Upper() + seq(32, _ => 0)
  }

  lemma BootRings(init: Arch)
    ensures var s := Boot(init);
      && RingTied(EmptyStores(), 0, 0, 0, s.sbuf) && RingTied(FreeAtStart(), 0, 32, 32, s.free)
      && RobTied(EmptyRob(), 0, 0, 0, s.rob, s.insts)
  {
  }

  lemma BootBack(init: Arch)
    ensures StationsTied(EmptyStations(), Boot(init).rs) && UnitsTied(EmptyUnits(), Boot(init).units)
    ensures MasksRight(EmptyStations(), Masks(LowBits(RS_SIZE), {}, {}, {}))
  {
  }

  class Engine {
    const prog: Program

    var insts: nat
    var gpr: Regs
    var pc: Word
    var mem: Mem

    var sbuf: seq<StoreRec>
    var sbufHead: nat
    var sbufTail: nat
    var sbufCount: nat

    var prf: seq<Phys>
    var rat: seq<int>
    var rrat: seq<int>

    var free: seq<int>
    var freeHead: nat
    var freeTail: nat
    var freeCount: nat

    var rob: seq<RobSlot>
    var robHead: nat
    var robTail: nat
    var robCount: nat

    var rs: seq<RsSlot>
    var masks: Masks
    var units: seq<Unit>

    var idrn: seq<Fetched>
    var ifid: seq<Fetched>
    var fetchPc: Word

    ghost var core: Core

    ghost predicate StoresTied()
      reads this
    {
      |sbuf| == STORE_BUF_SIZE && RingTied(sbuf, sbufHead, sbufTail, sbufCount, core.sbuf)
    }

    ghost predicate RegistersTied()
      reads this
    {
      && prf == core.prf && rat == core.rat && rrat == core.rrat
      && |free| == FREE_LIST_SIZE && RingTied(free, freeHead, freeTail, freeCount, core.free)
    }

    ghost predicate BufferTied()
      reads this
    {
      RobTied(rob, robHead, robTail, robCount, core.rob, core.insts)
    }

    ghost predicate BackTied()
      reads this
    {
      StationsTied(rs, core.rs) && MasksRight(rs, masks) && UnitsTied(units, core.units)
    }

    ghost predicate Tied()
      reads this
    {
      && insts == core.insts && gpr == core.gpr && pc == core.pc && mem == core.mem
      && idrn == core.idrn && ifid == core.ifid && fetchPc == core.fetchPc
      && |sbuf| == STORE_BUF_SIZE && RingTied(sbuf, sbufHead, sbufTail, sbufCount, core.sbuf)
      && prf == core.prf && rat == core.rat && rrat == core.rrat
      && |free| == FREE_LIST_SIZE && RingTied(free, freeHead, freeTail, freeCount, core.free)
      && RobTied(rob, robHead, robTail, robCount, core.rob, core.insts)
      && StationsTied(rs, core.rs) && MasksRight(rs, masks) && UnitsTied(units, core.units)
    }

    ghost predicate Valid()
      reads this
    {
      Sane(core) && Tied()
    }

    // ---------------------------------------------------------------- free list

    method FreePop() returns (r: int)
      requires |free| == FREE_LIST_SIZE && RingTied(free, freeHead, freeTail, freeCount, core.free) && core.free != []
      modifies this`freeHead, this`freeCount
      ensures r == core.free[0] && RingTied(free, freeHead, freeTail, freeCount, core.free[1..])
    {
      OooRings.Popped(free, freeHead, freeTail, freeCount, core.free);
      SlotIsMod(freeHead, 1, FREE_LIST_SIZE);
      r := free[freeHead];
      freeHead := (freeHead + 1) % FREE_LIST_SIZE;
      freeCount := freeCount - 1;
    }

    method FreePush(r: int)
      requires |free| == FREE_LIST_SIZE && RingTied(free, freeHead, freeTail, freeCount, core.free) && |core.free| < FREE_LIST_SIZE
      modifies this`free, this`freeTail, this`freeCount
      ensures |free| == FREE_LIST_SIZE && RingTied(free, freeHead, freeTail, freeCount, core.free + [r])
    {
      Pushed(free, freeHead, freeTail, freeCount, core.free, r);
      SlotIsMod(freeTail, 1, FREE_LIST_SIZE);
      free := free[freeTail := r];
      freeTail := (freeTail + 1) % FREE_LIST_SIZE;
      freeCount := freeCount + 1;
    }

    // -------------------------------------------------------------- store buffer

    method PopStore() returns (st: StoreRec)
      requires StoresTied() && sbufCount > 0
      modifies this`sbufHead, this`sbufCount
      ensures st == core.sbuf[0] && RingTied(sbuf, sbufHead, sbufTail, sbufCount, core.sbuf[1..])
    {
      OooRings.Popped(sbuf, sbufHead, sbufTail, sbufCount, core.sbuf);
      SlotIsMod(sbufHead, 1, STORE_BUF_SIZE);
      st := sbuf[sbufHead];
      sbufHead := (sbufHead + 1) % STORE_BUF_SIZE;
      sbufCount := sbufCount - 1;
    }

    method DrainOldest(ghost t: Core)
      requires Tied() && core.sbuf != [] && t.mem == Perform(core.mem, core.sbuf[0]) && t.sbuf == core.sbuf[1..]
      requires SameBackEnd(core, t) && t.idrn == core.idrn && t.ifid == core.ifid
      modifies this`mem, this`sbufHead, this`sbufCount, this`core
      ensures Tied() && core == t
    {
      var st := PopStore();
      mem := Perform(mem, st);
      core := t;
    }

    /** Drain one store to memory. */
    method DrainStore(tick: bool)
      requires Valid()
      modifies this`mem, this`sbufHead, this`sbufCount, this`core
      ensures Valid() && Did(prog, Draining(tick), old(core), core)
    {
      if sbufCount > 0 && tick {
        ghost var t := DrainPlan(prog, core);
        DrainOldest(t);
      } else {
        DrainDid(prog, core, core, tick);
      }
    }

    method PushStore(st: StoreRec)
      requires StoresTied() && sbufCount < STORE_BUF_SIZE
      modifies this`sbuf, this`sbufTail, this`sbufCount
      ensures |sbuf| == STORE_BUF_SIZE && RingTied(sbuf, sbufHead, sbufTail, sbufCount, core.sbuf + [st])
    {
      Pushed(sbuf, sbufHead, sbufTail, sbufCount, core.sbuf, st);
      SlotIsMod(sbufTail, 1, STORE_BUF_SIZE);
      sbuf := sbuf[sbufTail := st];
      sbufTail := (sbufTail + 1) % STORE_BUF_SIZE;
      sbufCount := sbufCount + 1;
    }

    // -------------------------------------------------------------------- commit

    /** The oldest entry's store leaves the reorder buffer. */
    method RetireStore(e: Entry)
      requires Tied() && Shape(core) && core.rob != [] && e == core.rob[0] && CanCommit(core)
      modifies this`sbuf, this`sbufTail, this`sbufCount, this`mem, this`core
      ensures Tied() && core == StoreRetired(old(core))
    {
      StoreRetiredFrame(core);
      if e.ir.kind == STORE {
        if InDram(e.addr) { PushStore(StoreOf(e)); } else { mem := Perform(mem, StoreOf(e)); }
      }
      core := StoreRetired(core);
    }

    /** Its register becomes architectural and the superseded one goes back to the free list. */
    method RetireRegister(e: Entry)
      requires RegistersTied() && gpr == core.gpr && Shape(core) && core.rob != [] && e == core.rob[0]
      requires |core.free| < FREE_LIST_SIZE
      modifies this`gpr, this`rrat, this`prf, this`free, this`freeTail, this`freeCount
      ensures var t := RegisterRetired(core);
        && gpr == t.gpr && prf == t.prf && rat == t.rat && rrat == t.rrat
        && |free| == FREE_LIST_SIZE && RingTied(free, freeHead, freeTail, freeCount, t.free)
    {
      if e.ir.rd != -1 && e.ir.rd != 0 {
        FreePush(e.prev);
        gpr := gpr[e.ir.rd := prf[e.phys].value];
        rrat := rrat[e.ir.rd := e.phys];
        prf := prf[e.prev := prf[e.prev].(ready := false)];
      }
      gpr := gpr[0 := 0];
    }

    method RetireMapping(e: Entry)
      requires Tied() && Shape(core) && core.rob != [] && e == core.rob[0] && |core.free| < FREE_LIST_SIZE
      modifies this`gpr, this`rrat, this`prf, this`free, this`freeTail, this`freeCount, this`core
      ensures Tied() && core == RegisterRetired(old(core))
    {
      RetireRegister(e);
      RegisterRetiredFrame(core);
      core := RegisterRetired(core);
    }

    /** Its slot is given up. */
    method RetireEntry(e: Entry)
      requires Tied() && core.rob != [] && e == core.rob[0]
      modifies this`pc, this`rob, this`robHead, this`robCount, this`insts, this`core
      ensures Tied() && core == EntryRetired(old(core))
    {
      RobPopFront(rob, robHead, robTail, robCount, core.rob, core.insts);
      pc := e.dnpc;
      rob := rob[robHead := rob[robHead].(valid := false)];
      robHead := (robHead + 1) % ROB_SIZE;
      robCount := robCount - 1;
      insts := insts + 1;
      core := core.(pc := pc, rob := core.rob[1..], insts := insts);
    }

    /** Retire the oldest entry, if it is finished and may retire. */
    method Commit() returns (more: bool)
      requires Valid()
      modifies this`gpr, this`pc, this`mem, this`insts, this`sbuf, this`sbufTail, this`sbufCount,
               this`prf, this`rrat, this`free, this`freeTail, this`freeCount, this`rob, this`robHead, this`robCount, this`core
      ensures Valid() && Did(prog, Committing, old(core), core)
    {
      ghost var s := core;
      more := robCount > 0;
      if more {
        RobPopFront(rob, robHead, robTail, robCount, core.rob, core.insts);
        var e := rob[robHead].e;
        more := e.ready && !(e.ir.kind == FENCE && sbufCount > 0) && !e.fault
                && !(e.ir.kind == STORE && InDram(e.addr) && sbufCount >= STORE_BUF_SIZE);
        if more {
          FreeCount(core);
          StoreRetiredShape(core);
          RetireStore(e);
          RetireMapping(e);
          RetireEntry(e);
          CommitDid(prog, s, core);
        }
      }
      if !more { NoCommitDid(prog, s); }
      DidKeeps(prog, Committing, s, core);
    }

    // ----------------------------------------------------------------- front end

    method DecodeGroup()
      requires Valid()
      modifies this`idrn, this`ifid, this`core
      ensures Valid() && Did(prog, Decoding, old(core), core)
    {
      ghost var t := DecodePlan(prog, core);
      MoveGroup(t);
    }

    method MoveGroup(ghost t: Core)
      requires Tied() && SameBackEnd(core, t) && t.mem == core.mem && t.sbuf == core.sbuf
      requires core.ifid != [] && core.idrn == [] ==> t.idrn == core.ifid && t.ifid == []
      requires core.ifid == [] || core.idrn != [] ==> t.idrn == core.idrn && t.ifid == core.ifid
      modifies this`idrn, this`ifid, this`core
      ensures Tied() && core == t
    {
      if ifid != [] && idrn == [] { idrn, ifid := ifid, []; }
      core := t;
    }

    /** Fetch one instruction of the group; `c` is the engine before it. */
    method FetchNext(p: Prediction, ghost c: Core) returns (more: bool)
      requires ifid == c.ifid && fetchPc == c.fetchPc
      modifies this`ifid, this`fetchPc
      ensures ifid == FetchOne(prog, c, p).0.ifid && fetchPc == FetchOne(prog, c, p).0.fetchPc
      ensures more == FetchOne(prog, c, p).1
      ensures FetchOne(prog, c, p).0 == c.(ifid := ifid, fetchPc := fetchPc)
    {
      var at: Word := fetchPc % 0x1_0000_0000;
      fetchPc := at;
      if !InDram(at) {
        fetchPc := Wrap(at + 4);
        return false;
      }
      var i := prog(at);
      if Control(i) && p.Goto? {
        ifid := ifid + [Fetched(i, at, p.target)];
        fetchPc := p.target;
        return false;
      }
      ifid := ifid + [Fetched(i, at, Wrap(at + 4))];
      fetchPc := Wrap(at + 4);
      more := true;
    }

    method FetchBoth(p0: Prediction, p1: Prediction, ghost c: Core) returns (ghost t: Core)
      requires Shape(c) && ifid == c.ifid && fetchPc == c.fetchPc
      modifies this`ifid, this`fetchPc
      ensures t == c.(ifid := ifid, fetchPc := fetchPc) && Did(prog, Fetching(p0, p1), c, t)
    {
      if ifid == [] {
        var more := FetchNext(p0, c);
        if more { more := FetchNext(p1, c.(ifid := ifid, fetchPc := fetchPc)); }
      }
      t := c.(ifid := ifid, fetchPc := fetchPc);
      FetchDid(prog, c, t, p0, p1);
    }

    method FetchGroup(p0: Prediction, p1: Prediction)
      requires Valid()
      modifies this`ifid, this`fetchPc, this`core
      ensures Valid() && Did(prog, Fetching(p0, p1), old(core), core)
    {
      ghost var t := FetchBoth(p0, p1, core);
      DidKeeps(prog, Fetching(p0, p1), core, t);
      core := t;
    }

    // -------------------------------------------------------------------- rename

    /** A source operand, through the speculative map. */
    method ReadOperand(r: int, lit: Word) returns (ready: bool, v: Word, t: int)
      requires Shape(core) && prf == core.prf && rat == core.rat && -1 <= r < 32
      ensures Source(ready, v, t) == ReadSource(core, r, lit)
    {
      if r == -1 { return true, lit, 0; }
      if r == 0 { return true, 0, 0; }
      t := rat[r];
      ready := prf[t].ready;
      v := if ready then prf[t].value else 0;
    }

    /** The lowest free station, from the mask; RS_SIZE if there is none. */
    method LowestFree() returns (k: nat)
      requires StationsTied(rs, core.rs) && MasksRight(rs, masks)
      ensures k == FreeStation(core.rs, 0)
    {
      k := 0;
      while k < RS_SIZE && k !in masks.free
        invariant 0 <= k <= RS_SIZE && FreeStation(core.rs, k) == FreeStation(core.rs, 0)
      {
        assert StationTied(rs[k], core.rs[k]);
        k := k + 1;
      }
      if k < RS_SIZE { assert StationTied(rs[k], core.rs[k]); }
    }

    /** Take a free register for destination `rd`, if there is one. */
    method AllocateRegister(rd: int, ghost t: Core, ghost e: Entry) returns (phys: int, prev: int)
      requires RegistersTied() && Shape(core) && -1 <= rd < 32 && Registered(core, t, rd, e.phys, e.prev)
      modifies this`rat, this`prf, this`freeHead, this`freeCount
      ensures phys == e.phys && prev == e.prev
      ensures prf == t.prf && rat == t.rat && RingTied(free, freeHead, freeTail, freeCount, t.free)
    {
      if rd != -1 && rd != 0 {
        assert RegisteredIf(true, core, t, rd, e.phys, e.prev);
        phys := FreePop();
        prev := rat[rd];
        rat := rat[rd := phys];
        prf := prf[phys := Phys(0, false)];
      } else {
        assert RegisteredIf(false, core, t, rd, e.phys, e.prev);
        phys, prev := rd, rd;
      }
    }

    /** Put a station in slot `k`, and its bits into the masks. */
    method SetStation(k: nat, x: RsSlot)
      requires |rs| == RS_SIZE && k < RS_SIZE && MasksRight(rs, masks) && (rs[k].valid ==> x.eu == rs[k].eu)
      modifies this`rs, this`masks
      ensures rs == old(rs)[k := x] && MasksRight(rs, masks)
    {
      MaskUpdated(rs, masks, k, x);
      rs := rs[k := x];
      masks := masks.(free := if x.valid then masks.free - {k} else masks.free + {k});
      var bits := ReadyMask(masks, x.eu);
      masks := SetReady(masks, x.eu, if Ready(x, x.eu) then bits + {k} else bits - {k});
    }

    /** Allocate a reorder-buffer slot at the tail. */
    method AllocateEntry(e: Entry) returns (idx: nat)
      requires BufferTied() && robCount < ROB_SIZE
      modifies this`rob, this`robTail, this`robCount
      ensures idx == (core.insts + |core.rob|) % ROB_SIZE
      ensures RobTied(rob, robHead, robTail, robCount, core.rob + [e], core.insts)
    {
      RobPush(rob, robHead, robTail, robCount, core.rob, core.insts, e);
      idx := robTail;
      rob := rob[robTail := RobSlot(true, e)];
      robTail := (robTail + 1) % ROB_SIZE;
      robCount := robCount + 1;
    }

    /** May the oldest decoded instruction be renamed now? */
    method MayRename() returns (may: bool)
      requires Valid()
      ensures may == CanRename(core)
    {
      if idrn == [] { return false; }
      var k := LowestFree();
      var i := idrn[0].ir;
      may := !(i.serializing && robCount > 0) && robCount < ROB_SIZE && k < RS_SIZE
             && !(i.rd != -1 && i.rd != 0 && freeCount == 0);
    }

    /** The station goes into the lowest free slot. */
    method PlaceStation(x: RsSlot, ghost y: Station)
      requires StationsTied(rs, core.rs) && MasksRight(rs, masks) && FreeStation(core.rs, 0) < RS_SIZE && StationTied(x, y)
      modifies this`rs, this`masks
      ensures StationsTied(rs, core.rs[FreeStation(core.rs, 0) := y]) && MasksRight(rs, masks)
    {
      var k := LowestFree();
      assert StationTied(rs[k], core.rs[k]);
      SetStation(k, x);
    }

    /** A destination register and a reorder-buffer slot for the instruction. */
    method Allocate(f: Fetched, ghost t: Core, ghost e: Entry) returns (idx: nat, phys: int)
      requires Shape(core) && RegistersTied() && BufferTied() && robCount < ROB_SIZE
      requires EntryFor(f, e) && Registered(core, t, e.ir.rd, e.phys, e.prev)
      modifies this`rat, this`prf, this`freeHead, this`freeCount, this`rob, this`robTail, this`robCount
      ensures phys == e.phys && idx == (core.insts + |core.rob|) % ROB_SIZE
      ensures prf == t.prf && rat == t.rat && RingTied(free, freeHead, freeTail, freeCount, t.free)
      ensures RobTied(rob, robHead, robTail, robCount, core.rob + [e], core.insts)
    {
      var prev;
      phys, prev := AllocateRegister(f.ir.rd, t, e);
      idx := AllocateEntry(Entry(f.ir, f.pc, f.pred, phys, prev, false, false, Wrap(f.pc + 4), 0, 0));
    }

    lemma StationMatches(s: Core, x: RsSlot, e: Entry, y: Station)
      requires Shape(s) && x.valid && x.robIdx == (s.insts + |s.rob|) % ROB_SIZE && Sourced(s, e, y)
      requires x.phys == e.phys && x.eu == EuOf(e.ir)
      requires Source(x.r1, x.v1, x.t1) == ReadSource(s, e.ir.rs1, e.ir.lit1)
      requires Source(x.r2, x.v2, x.t2) == ReadSource(s, e.ir.rs2, e.ir.lit2)
      ensures StationTied(x, y)
    {
    }

    /** Both operands, before the destination is renamed. */
    method ReadOperands(f: Fetched) returns (x: RsSlot)
      requires Shape(core) && prf == core.prf && rat == core.rat
      ensures x.valid && x.eu == EuOf(f.ir)
      ensures Source(x.r1, x.v1, x.t1) == ReadSource(core, f.ir.rs1, f.ir.lit1)
      ensures Source(x.r2, x.v2, x.t2) == ReadSource(core, f.ir.rs2, f.ir.lit2)
    {
      var r1, v1, t1 := ReadOperand(f.ir.rs1, f.ir.lit1);
      var r2, v2, t2 := ReadOperand(f.ir.rs2, f.ir.lit2);
      x := RsSlot(true, 0, -1, EuOf(f.ir), r1, v1, t1, r2, v2, t2);
    }

    /** Sources first, then the destination, the reorder-buffer slot and the station. */
    method Enter(ghost t: Core, ghost e: Entry, ghost y: Station)
      requires Shape(core) && RegistersTied() && BufferTied() && BackTied() && robCount < ROB_SIZE
      requires idrn == core.idrn != [] && RenamesTo(core, t, e, y)
      modifies this`rat, this`prf, this`freeHead, this`freeCount, this`rob, this`robTail, this`robCount,
               this`rs, this`masks
      ensures prf == t.prf && rat == t.rat && RingTied(free, freeHead, freeTail, freeCount, t.free)
      ensures RobTied(rob, robHead, robTail, robCount, t.rob, core.insts)
      ensures StationsTied(rs, t.rs) && MasksRight(rs, masks)
    {
      assert Sourced(core, e, y);
      var f := idrn[0];
      var x := ReadOperands(f);
      var idx, phys := Allocate(f, t, e);
      x := x.(robIdx := idx, phys := phys);
      StationMatches(core, x, e, y);
      PlaceStation(x, y);
    }

    method RenameNow(ghost t: Core, ghost e: Entry, ghost y: Station)
      requires Tied() && Shape(core) && robCount < ROB_SIZE && TakenFromGroup(core, t) && RenamesTo(core, t, e, y)
      modifies this`idrn, this`rat, this`prf, this`freeHead, this`freeCount, this`rob, this`robTail, this`robCount,
               this`rs, this`masks, this`core
      ensures Tied() && core == t
    {
      Enter(t, e, y);
      idrn := idrn[1..];
      core := t;
    }

    /** Rename the oldest decoded instruction, if there is room. */
    method Rename() returns (more: bool)
      requires Valid()
      modifies this`idrn, this`rat, this`prf, this`freeHead, this`freeCount, this`rob, this`robTail, this`robCount,
               this`rs, this`masks, this`core
      ensures Valid() && Did(prog, Renaming, old(core), core)
    {
      more := MayRename();
      if more {
        ghost var t, e, y := RenamePlan(prog, core);
        RenameNow(t, e, y);
      } else {
        NoRenameDid(prog, core);
      }
    }

    // --------------------------------------------------------------------- issue

    /** Is the load with this tag held back by an older store without address or data, or by an executed
        fence while the store buffer is not empty? */
    method HeldBack(idx: nat, ghost tag: nat) returns (blocked: bool)
      requires BufferTied() && StoresTied() && Live(core, tag) && idx == tag % ROB_SIZE
      ensures blocked == Blocked(core, tag)
    {
      TagSlot(tag, core.insts);
      var j := robHead;
      ghost var k := 0;
      while j != idx
        invariant 0 <= k <= tag - core.insts && j == Slot(robHead, k, ROB_SIZE)
        invariant forall m | 0 <= m < k :: (!(core.rob[m].ir.kind == STORE && !core.rob[m].ready)
          && !(core.rob[m].ir.kind == FENCE && core.rob[m].ready && core.sbuf != []))
        decreases tag - core.insts - k
      {
        var e := rob[j].e;
        assert rob[j] == RobSlot(true, core.rob[k]);
        NextSlot(robHead, k);
        if !e.ready && e.ir.kind == STORE { return true; }
        if e.ir.kind == FENCE && e.ready && sbufCount > 0 { return true; }
        j := (j + 1) % ROB_SIZE;
        k := k + 1;
      }
      SlotAt(robHead, k, tag - core.insts);
      blocked := false;
    }

    lemma NextSlot(head: nat, k: nat)
      requires head < ROB_SIZE && k < ROB_SIZE
      ensures (Slot(head, k, ROB_SIZE) + 1) % ROB_SIZE == Slot(head, k + 1, ROB_SIZE)
    {
    }

    lemma SlotAt(head: nat, k: nat, n: nat)
      requires head < ROB_SIZE && k <= n < ROB_SIZE && Slot(head, k, ROB_SIZE) == Slot(head, n, ROB_SIZE)
      ensures k == n
    {
    }

    /** Is station `i`, older than the best so far, better? */
    method Older(i: nat, b: int) returns (older: bool)
      requires Valid() && i < RS_SIZE && core.rs[i].valid && (b == -1 || (0 <= b < RS_SIZE && core.rs[b].valid))
      ensures older == (b == -1 || core.rs[i].tag < core.rs[b].tag)
    {
      if b == -1 { return true; }
      StationLive(core, i);
      StationLive(core, b);
      assert StationTied(rs[i], core.rs[i]) && StationTied(rs[b], core.rs[b]);
      AtSlot(rob, robHead, robTail, robCount, core.rob, core.insts, core.rs[i].tag);
      AtSlot(rob, robHead, robTail, robCount, core.rob, core.insts, core.rs[b].tag);
      AgeIsMod(rs[i].robIdx, robHead);
      AgeIsMod(rs[b].robIdx, robHead);
      older := (rs[i].robIdx - robHead + ROB_SIZE) % ROB_SIZE < (rs[b].robIdx - robHead + ROB_SIZE) % ROB_SIZE;
    }

    /** May station `i`, whose ready bit is set, not issue yet? */
    method MustWait(i: nat) returns (wait: bool)
      requires Valid() && i < RS_SIZE && core.rs[i].valid
      ensures Live(core, core.rs[i].tag)
      ensures wait == (core.rob[core.rs[i].tag - core.insts].ir.kind == LOAD && Blocked(core, core.rs[i].tag))
    {
      StationLive(core, i);
      assert StationTied(rs[i], core.rs[i]);
      AtSlot(rob, robHead, robTail, robCount, core.rob, core.insts, core.rs[i].tag);
      if rob[rs[i].robIdx].e.ir.kind != LOAD { return false; }
      wait := HeldBack(rs[i].robIdx, core.rs[i].tag);
    }

    /** One more station looked at. */
    method Consider(eu: EU, i: nat, best: int) returns (better: int)
      requires Valid() && i < RS_SIZE && best == Oldest(core, eu, i)
      ensures better == Oldest(core, eu, i + 1)
    {
      var ready := IsReady(eu, i);
      if ready {
        if best >= 0 { OldestLive(core, eu, i); }
        better := Weigh(i, best);
        OldestTaken(core, eu, i, best, better);
      } else {
        OldestSkipped(core, eu, i, best);
        better := best;
      }
    }

    /** The ready mask's bit of station `i`. */
    method IsReady(eu: EU, i: nat) returns (ready: bool)
      requires BackTied() && i < RS_SIZE
      ensures ready == StationReady(core.rs[i], eu)
    {
      assert StationTied(rs[i], core.rs[i]);
      assert ReadyMaskRight(rs, eu, ReadyMask(masks, eu));
      ready := i in ReadyMask(masks, eu);
    }

    /** Station `i`, which is ready, against the best one so far. */
    method Weigh(i: nat, best: int) returns (better: int)
      requires Valid() && i < RS_SIZE && core.rs[i].valid && (best == -1 || (0 <= best < RS_SIZE && core.rs[best].valid))
      ensures Live(core, core.rs[i].tag)
      ensures better == if core.rob[core.rs[i].tag - core.insts].ir.kind == LOAD && Blocked(core, core.rs[i].tag) then best
                        else if best == -1 || core.rs[i].tag < core.rs[best].tag then i else best
    {
      better := best;
      var wait := MustWait(i);
      if !wait {
        var older := Older(i, best);
        if older { better := i; }
      }
    }

    /** The oldest station of this unit that may issue, from the ready mask; -1 if there is none. */
    method Select(eu: EU) returns (best: int)
      requires Valid()
      ensures best == Oldest(core, eu, RS_SIZE)
    {
      best := -1;
      var i := 0;
      while i < RS_SIZE
        invariant 0 <= i <= RS_SIZE && best == Oldest(core, eu, i)
      {
        best := Consider(eu, i, best);
        i := i + 1;
      }
    }

    /** The station moves into latch `u`. */
    method LatchFrom(u: nat, b: nat)
      requires BackTied() && u < NUM_UNITS && b < RS_SIZE && core.rs[b].valid
      modifies this`units, this`rs, this`masks
      ensures var x := core.rs[b];
        && UnitsTied(units, core.units[u := Latch(true, x.tag, x.phys, x.v1, x.v2, false, false)])
        && StationsTied(rs, core.rs[b := x.(valid := false)]) && MasksRight(rs, masks)
    {
      assert StationTied(rs[b], core.rs[b]);
      units := units[u := Unit(true, rs[b].robIdx, rs[b].phys, rs[b].v1, rs[b].v2, false, false)];
      SetStation(b, rs[b].(valid := false));
    }

    method MoveToUnit(u: nat, b: nat, ghost t: Core)
      requires Tied() && u < NUM_UNITS && b < RS_SIZE && core.rs[b].valid
      requires var x := core.rs[b];
        t == core.(units := core.units[u := Latch(true, x.tag, x.phys, x.v1, x.v2, false, false)],
                   rs := core.rs[b := x.(valid := false)])
      modifies this`units, this`rs, this`masks, this`core
      ensures Tied() && core == t
    {
      LatchFrom(u, b);
      core := t;
    }

    /** Fill unit `u`, if it is free, with the oldest instruction that may issue. */
    method Issue(u: nat)
      requires Valid() && u < NUM_UNITS
      modifies this`units, this`rs, this`masks, this`core
      ensures Valid() && Did(prog, Issuing(u), old(core), core)
    {
      assert UnitTied(units[u], core.units[u]);
      var best := -1;
      if !units[u].valid { best := Select(EuOfUnit(u)); }
      if best == -1 {
        NoIssueDid(prog, core, u);
      } else {
        OldestLive(core, EuOfUnit(u), RS_SIZE);
        ghost var x := core.rs[best];
        ghost var t := core.(units := core.units[u := Latch(true, x.tag, x.phys, x.v1, x.v2, false, false)],
                             rs := core.rs[best := x.(valid := false)]);
        IssueDid(prog, core, u, best, t);
        DidKeeps(prog, Issuing(u), core, t);
        MoveToUnit(u, best, t);
      }
    }

    // ------------------------------------------------------------ result bus

    /** Station `i` takes the value if it waits for `p`. */
    method WakeOne(i: nat, p: int, v: Word, ghost y: Station)
      requires |rs| == RS_SIZE && i < RS_SIZE && MasksRight(rs, masks) && StationTied(rs[i], y)
      modifies this`rs, this`masks
      ensures |rs| == RS_SIZE && MasksRight(rs, masks) && StationTied(rs[i], Wake(y, p, v))
      ensures forall k | 0 <= k < RS_SIZE && k != i :: rs[k] == old(rs[k])
    {
      if i in masks.free { return; }
      var x := rs[i];
      if !x.r1 && x.t1 == p { x := x.(v1 := v, r1 := true); }
      if !x.r2 && x.t2 == p { x := x.(v2 := v, r2 := true); }
      SetStation(i, x);
    }

    /** Every station that waits for `p` takes the value. */
    method Wakeup(p: int, v: Word, ghost ys: seq<Station>)
      requires StationsTied(rs, ys) && MasksRight(rs, masks)
      modifies this`rs, this`masks
      ensures StationsTied(rs, Broadcast(ys, p, v)) && MasksRight(rs, masks)
    {
      var i := 0;
      while i < RS_SIZE
        invariant 0 <= i <= RS_SIZE && |rs| == RS_SIZE && MasksRight(rs, masks)
        invariant forall k | 0 <= k < i :: StationTied(rs[k], Wake(ys[k], p, v))
        invariant forall k | i <= k < RS_SIZE :: StationTied(rs[k], ys[k])
      {
        WakeOne(i, p, v, ys[i]);
        i := i + 1;
      }
    }

    /** The entry is finished: latch, reorder buffer, register and stations, as in `t`. */
    method Complete(u: nat, ghost tag: nat, e: Entry, result: Word, ghost t: Core)
      requires Shape(core) && u < NUM_UNITS && Live(core, tag) && BufferTied() && BackTied()
      requires units[u].robIdx == tag % ROB_SIZE && prf == core.prf && core.units[u].valid
      requires FinishedIn(core, t, u, tag - core.insts, e, result)
      modifies this`units, this`rob, this`prf, this`rs, this`masks
      ensures prf == t.prf && RobTied(rob, robHead, robTail, robCount, t.rob, t.insts)
      ensures StationsTied(rs, t.rs) && MasksRight(rs, masks) && UnitsTied(units, t.units)
    {
      RobSet(rob, robHead, robTail, robCount, core.rob, core.insts, tag, e.(ready := true));
      assert UnitTied(units[u], core.units[u]);
      var idx := units[u].robIdx;
      units := units[u := units[u].(valid := false)];
      rob := rob[idx := RobSlot(true, e.(ready := true))];
      if e.phys >= 0 {
        prf := prf[e.phys := Phys(result, true)];
        if e.phys > 0 { Wakeup(e.phys, result, core.rs); }
      }
    }

    // ------------------------------------------------------------------ recovery

    /** Undo the youngest entry: slot, map, ready bit and free list. */
    method UndoLast(ghost t: Core)
      requires BufferTied() && RegistersTied() && core.rob != [] && |core.free| < FREE_LIST_SIZE
      requires TakenBack(core, t, core.rob[|core.rob| - 1])
      modifies this`rob, this`robTail, this`robCount, this`rat, this`prf, this`free, this`freeTail, this`freeCount
      ensures prf == t.prf && rat == t.rat && |free| == FREE_LIST_SIZE && RingTied(free, freeHead, freeTail, freeCount, t.free)
      ensures RobTied(rob, robHead, robTail, robCount, core.rob[..|core.rob| - 1], core.insts)
    {
      RobPopBack(rob, robHead, robTail, robCount, core.rob, core.insts);
      robTail := (robTail - 1 + ROB_SIZE) % ROB_SIZE;
      var e := rob[robTail].e;
      rob := rob[robTail := rob[robTail].(valid := false)];
      robCount := robCount - 1;
      if e.ir.rd != -1 && e.ir.rd != 0 {
        assert TakenBackIf(true, core, t, e);
        rat := rat[e.ir.rd := e.prev];
        prf := prf[e.phys := prf[e.phys].(ready := false)];
        FreePush(e.phys);
      } else {
        assert TakenBackIf(false, core, t, e);
      }
    }

    method UndoOne(ghost w: Core, ghost k: nat)
      requires Tied() && Shape(core) && Consistent(core) && UndoneBy(core, w, k) && k < |core.rob|
      modifies this`rob, this`robTail, this`robCount, this`rat, this`prf, this`free, this`freeTail, this`freeCount, this`core
      ensures Tied() && Shape(core) && Consistent(core) && UndoneBy(core, w, k)
      ensures |core.rob| == |old(core).rob| - 1 && core.insts == old(core).insts
    {
      ghost var t := UndoStep(core, w, k);
      TakeBack(t);
    }

    method TakeBack(ghost t: Core)
      requires Tied() && core.rob != [] && |core.free| < FREE_LIST_SIZE && TakenBack(core, t, core.rob[|core.rob| - 1])
      requires t.rob == core.rob[..|core.rob| - 1] && t.insts == core.insts && t.gpr == core.gpr && t.pc == core.pc
      requires t.mem == core.mem && t.sbuf == core.sbuf && t.rrat == core.rrat && t.rs == core.rs && t.units == core.units
      requires t.idrn == core.idrn && t.ifid == core.ifid && t.fetchPc == core.fetchPc
      modifies this`rob, this`robTail, this`robCount, this`rat, this`prf, this`free, this`freeTail, this`freeCount, this`core
      ensures Tied() && core == t
    {
      UndoLast(t);
      core := t;
    }

    /** Shrink the tail back to just behind the branch, whatever the ring's state, full and wrapped included. */
    method UndoAfter(idx: nat, ghost tag: nat, ghost w: Core)
      requires Tied() && Shape(core) && Consistent(core) && Live(core, tag) && idx == tag % ROB_SIZE
      requires UndoneBy(core, w, tag + 1 - core.insts)
      modifies this`rob, this`robTail, this`robCount, this`rat, this`prf, this`free, this`freeTail, this`freeCount, this`core
      ensures Tied() && core == w
    {
      ghost var first, k := core.insts, tag + 1 - core.insts;
      var end := (idx + 1) % ROB_SIZE;
      TagSlot(tag, core.insts);
      assert end == Slot(robHead, k, ROB_SIZE);
      while robTail != end
        invariant Tied() && Shape(core) && Consistent(core) && UndoneBy(core, w, k) && core.insts == first
        decreases |core.rob|
      {
        UndoOne(w, k);
      }
      SlotAtEnd(robHead, |core.rob|, k);
      UndoEnds(core, w, k);
    }

    lemma SlotAtEnd(head: nat, n: nat, k: nat)
      requires head < ROB_SIZE && 0 < k <= n <= ROB_SIZE && Slot(head, n, ROB_SIZE) == Slot(head, k, ROB_SIZE)
      ensures n == k
    {
    }

    /** Is slot `a` younger than slot `b`?  Both tags are in the window. */
    method NewerThan(a: nat, b: nat, ghost ta: nat, ghost tb: nat) returns (newer: bool)
      requires robHead == core.insts % ROB_SIZE && a == ta % ROB_SIZE && b == tb % ROB_SIZE
      requires core.insts <= ta < core.insts + ROB_SIZE && core.insts <= tb < core.insts + ROB_SIZE
      ensures newer == (ta > tb)
    {
      TagSlot(ta, core.insts);
      TagSlot(tb, core.insts);
      AgeIsMod(a, robHead);
      AgeIsMod(b, robHead);
      newer := (a - robHead + ROB_SIZE) % ROB_SIZE > (b - robHead + ROB_SIZE) % ROB_SIZE;
    }

    method FlushStation(i: nat, idx: nat, ghost tag: nat)
      requires |rs| == RS_SIZE && i < RS_SIZE && MasksRight(rs, masks) && InWindow(core) && StationTied(rs[i], core.rs[i])
      requires robHead == core.insts % ROB_SIZE && idx == tag % ROB_SIZE && core.insts <= tag < core.insts + ROB_SIZE
      modifies this`rs, this`masks
      ensures |rs| == RS_SIZE && MasksRight(rs, masks) && StationTied(rs[i], Tomasulo.FlushStation(core.rs[i], tag))
      ensures forall k | 0 <= k < RS_SIZE && k != i :: rs[k] == old(rs[k])
    {
      if rs[i].valid {
        var newer := NewerThan(rs[i].robIdx, idx, core.rs[i].tag, tag);
        if newer { SetStation(i, rs[i].(valid := false)); }
      }
    }

    /** Drop the stations of instructions younger than the branch. */
    method FlushStations(idx: nat, ghost tag: nat)
      requires StationsTied(rs, core.rs) && MasksRight(rs, masks) && InWindow(core)
      requires robHead == core.insts % ROB_SIZE && idx == tag % ROB_SIZE && core.insts <= tag < core.insts + ROB_SIZE
      modifies this`rs, this`masks
      ensures StationsTied(rs, Tomasulo.FlushStations(core.rs, tag)) && MasksRight(rs, masks)
    {
      var i := 0;
      while i < RS_SIZE
        invariant 0 <= i <= RS_SIZE && |rs| == RS_SIZE && MasksRight(rs, masks)
        invariant forall k | 0 <= k < i :: StationTied(rs[k], Tomasulo.FlushStation(core.rs[k], tag))
        invariant forall k | i <= k < RS_SIZE :: StationTied(rs[k], core.rs[k])
      {
        FlushStation(i, idx, tag);
        i := i + 1;
      }
    }

    /** A latch of an instruction younger than the branch is dropped, or kept for its fill alone. */
    method FlushUnit(u: nat, idx: nat, ghost tag: nat)
      requires |units| == NUM_UNITS && u < NUM_UNITS && InWindow(core) && UnitTied(units[u], core.units[u])
      requires robHead == core.insts % ROB_SIZE && idx == tag % ROB_SIZE && core.insts <= tag < core.insts + ROB_SIZE
      modifies this`units
      ensures |units| == NUM_UNITS && UnitTied(units[u], FlushLatch(core.units[u], tag, EuOfUnit(u)))
      ensures forall k | 0 <= k < NUM_UNITS && k != u :: units[k] == old(units[k])
    {
      if units[u].valid && !units[u].flushed {
        assert LiveLatch(core, u);
        var newer := NewerThan(units[u].robIdx, idx, core.units[u].tag, tag);
        if newer {
          if EuOfUnit(u) == LSU && units[u].miss {
            units := units[u := units[u].(flushed := true)];
          } else {
            units := units[u := units[u].(valid := false)];
          }
        }
      }
    }

    method FlushUnits(idx: nat, ghost tag: nat)
      requires UnitsTied(units, core.units) && InWindow(core)
      requires robHead == core.insts % ROB_SIZE && idx == tag % ROB_SIZE && core.insts <= tag < core.insts + ROB_SIZE
      modifies this`units
      ensures UnitsTied(units, FlushLatches(core.units, tag))
    {
      var u := 0;
      while u < NUM_UNITS
        invariant 0 <= u <= NUM_UNITS && |units| == NUM_UNITS
        invariant forall k | 0 <= k < u :: UnitTied(units[k], FlushLatch(core.units[k], tag, EuOfUnit(k)))
        invariant forall k | u <= k < NUM_UNITS :: UnitTied(units[k], core.units[k])
      {
        FlushUnit(u, idx, tag);
        u := u + 1;
      }
    }

    /** Discard everything younger than the branch, once the renaming is undone. */
    method DropYounger(idx: nat, ghost tag: nat, target: Word, ghost t: Core)
      requires Tied() && InWindow(core) && idx == tag % ROB_SIZE && core.insts <= tag < core.insts + ROB_SIZE
      requires Discarded(core, t, tag, target)
      modifies this`rs, this`masks, this`units, this`idrn, this`ifid, this`fetchPc, this`core
      ensures Tied() && core == t
    {
      FlushBack(idx, tag);
      idrn, ifid, fetchPc := [], [], target;
      core := t;
    }

    method FlushBack(idx: nat, ghost tag: nat)
      requires BackTied() && InWindow(core)
      requires robHead == core.insts % ROB_SIZE && idx == tag % ROB_SIZE && core.insts <= tag < core.insts + ROB_SIZE
      modifies this`rs, this`masks, this`units
      ensures StationsTied(rs, Tomasulo.FlushStations(core.rs, tag)) && MasksRight(rs, masks)
      ensures UnitsTied(units, FlushLatches(core.units, tag))
    {
      FlushStations(idx, tag);
      FlushUnits(idx, tag);
    }

    /** Recovery: undo the renaming, drop what is younger, fetch from where the branch went. */
    method Recover(idx: nat, ghost tag: nat, target: Word)
      requires Valid() && Live(core, tag) && idx == tag % ROB_SIZE
      requires var e := core.rob[tag - core.insts]; Mispredicted(e) && InDram(e.dnpc) && target == e.dnpc
      modifies this`rob, this`robTail, this`robCount, this`rat, this`prf, this`free, this`freeTail, this`freeCount,
               this`rs, this`masks, this`units, this`idrn, this`ifid, this`fetchPc, this`core
      ensures Tied() && Resolves(old(core), tag - old(core).insts, core)
    {
      ghost var w, t := Plan(core, tag - core.insts);
      UndoAfter(idx, tag, w);
      DropYounger(idx, tag, target, t);
    }

    // --------------------------------------------------------------- INT and MUL

    /** Execute the instruction in latch `u`: `core` becomes the engine with the entry finished. */
    method Execute(u: nat) returns (idx: nat)
      requires Valid() && u < NUM_UNITS && LiveLatch(core, u)
      modifies this`units, this`rob, this`prf, this`rs, this`masks, this`core
      ensures Valid() && RunsAlu(old(core), u, core) && idx == old(core).units[u].tag % ROB_SIZE
    {
      UnitLive(core, u);
      ghost var l := core.units[u];
      assert UnitTied(units[u], l);
      AtSlot(rob, robHead, robTail, robCount, core.rob, core.insts, l.tag);
      idx := units[u].robIdx;
      var e, v1, v2 := rob[idx].e, units[u].v1, units[u].v2;
      var done, result := AfterExecute(e, v1, v2), Isa.Execute(e.ir, e.pc, v1, v2).result;
      ghost var t := AluPlan(core, u, done, result);
      FinishWith(u, l.tag, done, result, t);
    }

    /** Finish the entry, `t` being the engine that results. */
    method FinishWith(u: nat, ghost tag: nat, e: Entry, result: Word, ghost t: Core)
      requires Tied() && Shape(core) && u < NUM_UNITS && Live(core, tag) && core.units[u].valid && core.units[u].tag == tag
      requires FinishedIn(core, t, u, tag - core.insts, e, result)
      modifies this`units, this`rob, this`prf, this`rs, this`masks, this`core
      ensures Tied() && core == t
    {
      assert UnitTied(units[u], core.units[u]);
      Complete(u, tag, e, result, t);
      core := t;
    }

    /** Mark the entry as faulty: it went out of range, so it is on a wrong path. */
    method MarkFault(idx: nat, ghost tag: nat)
      requires Tied() && Live(core, tag) && idx == tag % ROB_SIZE
      modifies this`rob, this`core
      ensures Tied()
      ensures core == old(core).(rob := old(core).rob[tag - old(core).insts := old(core).rob[tag - old(core).insts].(fault := true)])
    {
      AtSlot(rob, robHead, robTail, robCount, core.rob, core.insts, tag);
      RobSet(rob, robHead, robTail, robCount, core.rob, core.insts, tag, rob[idx].e.(fault := true));
      rob := rob[idx := RobSlot(true, rob[idx].e.(fault := true))];
      core := core.(rob := core.rob[tag - core.insts := core.rob[tag - core.insts].(fault := true)]);
    }

    /** The instruction went elsewhere than predicted: recover, or leave it to an older branch to do so. */
    method Redirect(idx: nat, ghost tag: nat, target: Word)
      requires Valid() && Live(core, tag) && idx == tag % ROB_SIZE
      requires var e := core.rob[tag - core.insts]; Mispredicted(e) && target == e.dnpc
      modifies this`rob, this`robTail, this`robCount, this`rat, this`prf, this`free, this`freeTail, this`freeCount,
               this`rs, this`masks, this`units, this`idrn, this`ifid, this`fetchPc, this`core
      ensures Tied() && Resolves(old(core), tag - old(core).insts, core)
    {
      if !InDram(target) {
        ResolveFault(core, tag - core.insts);
        MarkFault(idx, tag);
      } else {
        Recover(idx, tag, target);
      }
    }

    /** Compare with the prediction, and recover if the instruction went elsewhere. */
    method CheckPrediction(idx: nat, ghost tag: nat)
      requires Valid() && Live(core, tag) && idx == tag % ROB_SIZE
      modifies this`rob, this`robTail, this`robCount, this`rat, this`prf, this`free, this`freeTail, this`freeCount,
               this`rs, this`masks, this`units, this`idrn, this`ifid, this`fetchPc, this`core
      ensures Tied() && Resolves(old(core), tag - old(core).insts, core)
    {
      AtSlot(rob, robHead, robTail, robCount, core.rob, core.insts, tag);
      var e := rob[idx].e;
      if Control(e.ir) && e.dnpc != (if e.pred != 0 then e.pred else Wrap(e.pc + 4)) {
        Redirect(idx, tag, e.dnpc);
      } else {
        ResolveNone(core, tag - core.insts);
      }
    }

    /** One INT slot. */
    method IntUnit(u: nat)
      requires Valid() && u < 2
      modifies this`units, this`rob, this`robTail, this`robCount, this`rat, this`prf, this`free, this`freeTail, this`freeCount,
               this`rs, this`masks, this`idrn, this`ifid, this`fetchPc, this`core
      ensures Valid() && Did(prog, OnInt(u), old(core), core)
    {
      ghost var s := core;
      assert UnitTied(units[u], core.units[u]);
      if units[u].valid {
        OnlyLoadsFlushed(core, u);
        var idx := Execute(u);
        ghost var r := core;
        RunsSame(s, u, r);
        CheckPrediction(idx, s.units[u].tag);
        RunsIntDid(prog, s, u, r, core);
      } else {
        NoIntDid(prog, s, u);
      }
      DidKeeps(prog, OnInt(u), s, core);
    }

    /** The MUL slot; `done` says that the countdown has ended. */
    method MulUnit(done: bool)
      requires Valid()
      modifies this`units, this`rob, this`prf, this`rs, this`masks, this`core
      ensures Valid() && Did(prog, OnMul(done), old(core), core)
    {
      ghost var s := core;
      assert UnitTied(units[2], core.units[2]);
      if units[2].valid && done {
        OnlyLoadsFlushed(core, 2);
        var idx := Execute(2);
        RunsMulDid(prog, s, core);
      } else {
        NoMulDid(prog, s, done);
      }
    }

    // ----------------------------------------------------------------------- LSU

    /** Overlay the store buffer, oldest to newest; the newest that covers the load wins. */
    method ForwardBuffered(cur: Word, a: Word, w: nat, signed: bool) returns (v: Word)
      requires StoresTied() && Width(w)
      ensures v == Forward(cur, core.sbuf, a, w, signed)
    {
      v := cur;
      var k := 0;
      while k < sbufCount
        invariant 0 <= k <= sbufCount && v == Forward(cur, core.sbuf[..k], a, w, signed)
      {
        SlotIsMod(sbufHead, k, STORE_BUF_SIZE);
        var st := sbuf[(sbufHead + k) % STORE_BUF_SIZE];
        ForwardOne(cur, core.sbuf[..k], st, a, w, signed);
        assert core.sbuf[..k + 1] == core.sbuf[..k] + [st];
        v := TryForward(v, st, a, w, signed);
        k := k + 1;
      }
      assert core.sbuf[..k] == core.sbuf;
    }

    /** One entry of the reorder buffer, position `k` of the window. */
    method ScanEntry(v: Word, scan: nat, a: Word, w: nat, signed: bool, ghost cur: Word, ghost k: nat) returns (v': Word)
      requires BufferTied() && Width(w) && k < |core.rob| && scan == Slot(robHead, k, ROB_SIZE)
      requires v == Forward(cur, RobStores(core.rob, k), a, w, signed)
      ensures v' == Forward(cur, RobStores(core.rob, k + 1), a, w, signed)
    {
      assert rob[scan] == RobSlot(true, core.rob[k]);
      var e := rob[scan].e;
      ForwardNext(cur, core.rob, k, v, a, w, signed);
      v' := if e.ready && e.ir.kind == STORE then TryForward(v, StoreOf(e), a, w, signed) else v;
    }

    /** Overlay the finished stores older than the load, in the reorder buffer. */
    method ForwardInFlight(cur: Word, idx: nat, a: Word, w: nat, signed: bool, ghost tag: nat) returns (v: Word)
      requires BufferTied() && Width(w) && Live(core, tag) && idx == tag % ROB_SIZE
      ensures v == Forward(cur, RobStores(core.rob, tag - core.insts), a, w, signed)
    {
      TagSlot(tag, core.insts);
      v := cur;
      var scan := robHead;
      ghost var k := 0;
      while scan != idx
        invariant 0 <= k <= tag - core.insts && scan == Slot(robHead, k, ROB_SIZE)
        invariant v == Forward(cur, RobStores(core.rob, k), a, w, signed)
        decreases tag - core.insts - k
      {
        v := ScanEntry(v, scan, a, w, signed, cur, k);
        NextSlot(robHead, k);
        scan := (scan + 1) % ROB_SIZE;
        k := k + 1;
      }
      SlotAt(robHead, k, tag - core.insts);
    }

    /** The value of a load: memory, then the store buffer, then the older stores in flight. */
    method ReadValue(idx: nat, a: Word, ghost tag: nat) returns (v: Word)
      requires Tied() && Live(core, tag) && idx == tag % ROB_SIZE
      ensures v == LoadValue(core, tag - core.insts, a)
    {
      AtSlot(rob, robHead, robTail, robCount, core.rob, core.insts, tag);
      var i := rob[idx].e.ir;
      v := Load(mem, a, i.width, i.signed);
      v := ForwardBuffered(v, a, i.width, i.signed);
      v := ForwardInFlight(v, idx, a, i.width, i.signed, tag);
    }

    /** The result of a load at `e.addr`; an address that is neither DRAM nor a device gives none. */
    method LoadResult(idx: nat, e: Entry, ghost tag: nat) returns (result: Word)
      requires Tied() && Shape(core) && Live(core, tag) && idx == tag % ROB_SIZE
      ensures result == if Accessible(e.addr) then LoadValue(core, tag - core.insts, e.addr) else Faulted(core, e.phys)
    {
      if Accessible(e.addr) {
        result := ReadValue(idx, e.addr, tag);
      } else {
        result := if e.phys == 0 then prf[0].value else 0;
      }
    }

    /** The entry of a load whose fill is complete, and its result. */
    method Filled(u: nat, ghost tag: nat) returns (e: Entry, result: Word)
      requires Tied() && Shape(core) && u < NUM_UNITS && core.units[u].valid && core.units[u].tag == tag && Live(core, tag)
      ensures IsFilled(core, u, e, result)
    {
      var idx, x := Addressed(u, tag);
      result := LoadResult(idx, x, tag);
      e := if Accessible(x.addr) then x else x.(fault := true);
      FilledIs(core, u, x, e, result);
    }

    /** The slot of the entry in latch `u`, and the entry with its address. */
    method Addressed(u: nat, ghost tag: nat) returns (idx: nat, x: Entry)
      requires BufferTied() && UnitsTied(units, core.units) && u < NUM_UNITS && core.units[u].valid
      requires core.units[u].tag == tag && Live(core, tag)
      ensures idx == tag % ROB_SIZE && x == AfterExecute(core.rob[tag - core.insts], core.units[u].v1, core.units[u].v2)
    {
      assert UnitTied(units[u], core.units[u]);
      AtSlot(rob, robHead, robTail, robCount, core.rob, core.insts, tag);
      idx := units[u].robIdx;
      x := AfterExecute(rob[idx].e, units[u].v1, units[u].v2);
    }

    /** A load completes. */
    method FillLoad(u: nat, ghost tag: nat)
      requires Valid() && 3 <= u < NUM_UNITS && LiveLatch(core, u) && core.units[u].tag == tag && Live(core, tag)
      requires core.rob[tag - core.insts].ir.kind != STORE
      modifies this`units, this`rob, this`prf, this`rs, this`masks, this`core
      ensures Valid() && Did(prog, OnLsu(u, Fill), old(core), core)
    {
      var e, result := Filled(u, tag);
      ghost var t := FillPlan(prog, core, u, e, result);
      FinishWith(u, tag, e, result, t);
    }

    /** A latch changes and nothing else does. */
    method SetUnit(u: nat, x: Unit, ghost l: Latch, ghost t: Core)
      requires Tied() && u < NUM_UNITS && UnitTied(x, l) && t == core.(units := core.units[u := l])
      modifies this`units, this`core
      ensures Tied() && core == t
    {
      units := units[u := x];
      core := t;
    }

    /** The store's entry becomes ready and its latch free. */
    method StoreReady(u: nat, e: Entry, ghost tag: nat)
      requires BufferTied() && u < NUM_UNITS && UnitsTied(units, core.units) && core.units[u].valid
      requires core.units[u].tag == tag && Live(core, tag)
      modifies this`units, this`rob
      ensures RobTied(rob, robHead, robTail, robCount, core.rob[tag - core.insts := e], core.insts)
      ensures UnitsTied(units, core.units[u := core.units[u].(valid := false)])
    {
      assert UnitTied(units[u], core.units[u]);
      RobSet(rob, robHead, robTail, robCount, core.rob, core.insts, tag, e);
      rob := rob[units[u].robIdx := RobSlot(true, e)];
      units := units[u := units[u].(valid := false)];
    }

    method StoreNow(u: nat, e: Entry, ghost tag: nat, ghost t: Core)
      requires Tied() && u < NUM_UNITS && core.units[u].valid && core.units[u].tag == tag && Live(core, tag)
      requires SameElse(core, t) && t.prf == core.prf && t.rs == core.rs
      requires t.units == core.units[u := core.units[u].(valid := false)] && t.rob == core.rob[tag - core.insts := e]
      modifies this`units, this`rob, this`core
      ensures Tied() && core == t
    {
      StoreReady(u, e, tag);
      core := t;
    }

    /** A store is finished as soon as it has its address and data. */
    method FinishStore(u: nat, ghost tag: nat, act: LsuAction)
      requires Valid() && 3 <= u < NUM_UNITS && LiveLatch(core, u) && core.units[u].tag == tag && Live(core, tag)
      requires core.rob[tag - core.insts].ir.kind == STORE
      modifies this`units, this`rob, this`core
      ensures Valid() && Did(prog, OnLsu(u, act), old(core), core)
    {
      assert UnitTied(units[u], core.units[u]);
      AtSlot(rob, robHead, robTail, robCount, core.rob, core.insts, tag);
      var e := AfterExecute(rob[units[u].robIdx].e, units[u].v1, units[u].v2).(ready := true);
      ghost var t := StorePlan(prog, core, u, act, e);
      StoreNow(u, e, tag, t);
    }

    /** A load that does not complete in this cycle. */
    method KeepWaiting(u: nat, act: LsuAction)
      requires Valid() && 3 <= u < NUM_UNITS && LiveLatch(core, u) && Live(core, core.units[u].tag) && act != Fill
      requires core.rob[core.units[u].tag - core.insts].ir.kind != STORE
      modifies this`units, this`core
      ensures Valid() && Did(prog, OnLsu(u, act), old(core), core)
    {
      ghost var s, l := core, core.units[u];
      assert UnitTied(units[u], l);
      if act == Retry {
        WaitDid(prog, s, u, act, s);
      } else {
        ghost var t := s.(units := s.units[u := l.(miss := true)]);
        WaitDid(prog, s, u, act, t);
        DidKeeps(prog, OnLsu(u, act), s, t);
        SetUnit(u, units[u].(miss := true), l.(miss := true), t);
      }
    }

    /** A latch whose instruction was flushed waits for its fill and is dropped. */
    method DropFlushed(u: nat, act: LsuAction)
      requires Valid() && 3 <= u < NUM_UNITS && core.units[u].valid && core.units[u].flushed
      modifies this`units, this`core
      ensures Valid() && Did(prog, OnLsu(u, act), old(core), core)
    {
      ghost var s, l := core, core.units[u];
      assert UnitTied(units[u], l);
      if act == Fill {
        ghost var t := s.(units := s.units[u := l.(valid := false)]);
        FlushedDid(prog, s, u, t);
        DidKeeps(prog, OnLsu(u, act), s, t);
        SetUnit(u, units[u].(valid := false), l.(valid := false), t);
      } else {
        NoLsuDid(prog, s, u, act);
      }
    }

    /** One LSU slot. */
    method LsuUnit(u: nat, act: LsuAction)
      requires Valid() && 3 <= u < NUM_UNITS
      modifies this`units, this`rob, this`prf, this`rs, this`masks, this`core
      ensures Valid() && Did(prog, OnLsu(u, act), old(core), core)
    {
      assert UnitTied(units[u], core.units[u]);
      if !units[u].valid {
        NoLsuDid(prog, core, u, act);
      } else if units[u].flushed {
        DropFlushed(u, act);
      } else {
        ghost var tag := core.units[u].tag;
        UnitLive(core, u);
        AtSlot(rob, robHead, robTail, robCount, core.rob, core.insts, tag);
        if rob[units[u].robIdx].e.ir.kind == STORE {
          FinishStore(u, tag, act);
        } else if act == Fill {
          FillLoad(u, tag);
        } else {
          KeepWaiting(u, act);
        }
      }
    }

    // --------------------------------------------------------------------- cycle

    /** Drain and commit. */
    method RetireStages(i: Inputs, ghost s: Core)
      requires Valid() && core == s
      modifies this
      ensures Valid() && core == Front(s, i.tick)
    {
      DrainStore(i.tick);
      ghost var a := core;
      var more := Commit();
      ghost var b := core;
      more := Commit();
      FrontIs(prog, s, a, b, core, i.tick);
    }

    method ExecuteStages(i: Inputs, ghost s: Core)
      requires Valid() && core == s
      modifies this
      ensures Valid() && core == Compute(s, i.mulDone)
    {
      IntUnit(0);
      ghost var a := core;
      IntUnit(1);
      ghost var b := core;
      MulUnit(i.mulDone);
      ComputeIs(prog, s, a, b, core, i.mulDone);
    }

    method IssueStages(ghost s: Core)
      requires Valid() && core == s
      modifies this
      ensures Valid() && core == TomasuloTheorem.Issue(s)
    {
      Issue(0);
      ghost var a := core;
      Issue(1);
      ghost var b := core;
      Issue(2);
      ghost var c := core;
      Issue(3);
      ghost var d := core;
      Issue(4);
      IssueIs(prog, s, a, b, c, d, core);
    }

    method FetchStages(i: Inputs, ghost s: Core)
      requires Valid() && Shape(s) && core == TomasuloTheorem.Issue(s)
      modifies this
      ensures Valid() && core == Back(prog, s, i)
    {
      ghost var q := core;
      var more := Rename();
      ghost var a := core;
      more := Rename();
      ghost var b := core;
      DecodeGroup();
      ghost var c := core;
      FetchGroup(i.pred0, i.pred1);
      BackIs(prog, s, q, a, b, c, core, i);
    }

    method LoadStoreStages(i: Inputs, ghost s: Core, ghost f: Core)
      requires Valid() && Shape(s) && f == Front(s, i.tick) && core == Compute(f, i.mulDone)
      modifies this
      ensures Valid() && core == AfterLsu(s, i)
    {
      ghost var c := core;
      LsuUnit(3, i.lsu0);
      ghost var a := core;
      LsuUnit(4, i.lsu1);
      LsuIs(prog, s, f, c, a, core, i);
    }

    /** One clock cycle. */
    method Tick(i: Inputs)
      requires Valid()
      modifies this
      ensures Valid() && Cycled(prog, old(core), core, i)
    {
      ghost var s := core;
      RetireStages(i, s);
      ghost var f := core;
      ExecuteStages(i, f);
      LoadStoreStages(i, s, f);
      ghost var l := core;
      IssueStages(l);
      FetchStages(i, l);
      CycleIs(prog, s, l, core, i);
    }

    // ---------------------------------------------------------------------- runs

    constructor (p: Program, init: Arch)
      ensures Valid() && core == Boot(init) && prog == p
    {
      prog := p;
      insts, gpr, pc, mem := 0, init.regs, init.pc, init.mem;
      sbuf, sbufHead, sbufTail, sbufCount := EmptyStores(), 0, 0, 0;
      prf := BootPhys(init.regs);
      rat, rrat := Identity(32), Identity(32);
      free, freeHead, freeTail, freeCount := FreeAtStart(), 0, 32, 32;
      rob := EmptyRob();
      robHead, robTail, robCount := 0, 0, 0;
      rs, masks := EmptyStations(), Masks(LowBits(RS_SIZE), {}, {}, {});
      units := EmptyUnits();
      idrn, ifid, fetchPc := [], [], init.pc;
      core := Boot(init);
      new;
      BootOrderly(init);
      BootRings(init);
      BootBack(init);
    }

    method TickFrom(i: Inputs, ghost init: Arch, ghost before: seq<Inputs>)
      requires Valid() && Reached(prog, init, before, core)
      modifies this
      ensures Valid() && Reached(prog, init, before + [i], core)
    {
      ghost var s := core;
      Tick(i);
      ReachedNext(prog, init, before, i, s, core);
    }

    /** Any number of cycles. */
    method RunAll(ins: seq<Inputs>, ghost init: Arch)
      requires Valid() && core == Boot(init)
      modifies this
      ensures Valid() && Reached(prog, init, ins, core)
    {
      ReachedStart(prog, init, core);
      var k := 0;
      assert ins[..0] == [];
      while k < |ins|
        invariant 0 <= k <= |ins| && Valid() && Reached(prog, init, ins[..k], core)
      {
        TickFrom(ins[k], init, ins[..k]);
        assert ins[..k] + [ins[k]] == ins[..k + 1];
        k := k + 1;
      }
      assert ins[..k] == ins;
    }

    /** For a program whose first `n` instructions are valid and whose loads can be forwarded to, what the machine
        has committed after any number of cycles, with any predictions and any timing, is what the functional
        machine does, until it has committed more than those `n` instructions. */
    method Simulate(ins: seq<Inputs>, ghost init: Arch, ghost n: nat)
      requires Valid() && core == Boot(init) && ValidUpTo(prog, init, n) && RunSafe(prog, init, n, ins)
      modifies this
      ensures Valid() && Reached(prog, init, ins, core) && (insts <= n ==> Agrees(prog, init, core))
      ensures insts == core.insts && gpr == core.gpr && pc == core.pc && mem == core.mem
      ensures RingTied(sbuf, sbufHead, sbufTail, sbufCount, core.sbuf)
    {
      RunAll(ins, init);
      if insts <= n { ReachedAgrees(prog, init, n, ins, core); }
    }
  }
}
