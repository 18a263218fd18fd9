/**
 The stages of one cycle under one name each, and what each does written out field by field; a cycle is
 the stages in order.
 */
module OooStages {
  import opened Isa
  import opened Forwarding
  import opened Tomasulo
  import opened TomasuloInvariant
  import opened TomasuloExecute
  import opened TomasuloRecover
  import opened TomasuloUnits
  import opened TomasuloFront
  import opened TomasuloStructure
  import opened TomasuloTheorem

  datatype Stage =
    | Draining(tick: bool) | Committing | OnInt(u: nat) | OnMul(done: bool) | OnLsu(u: nat, act: LsuAction)
    | Issuing(u: nat) | Renaming | Decoding | Fetching(p0: Prediction, p1: Prediction)

  predicate Named(k: Stage) {
    match k
    case OnInt(u) => u < 2
    case OnLsu(u, _) => 3 <= u < NUM_UNITS
    case Issuing(u) => u < NUM_UNITS
    case _ => true
  }

  function Do(prog: Program, k: Stage, s: Core): Core
    requires Shape(s) && Named(k)
  {
    match k
    case Draining(tick) => Drain(s, tick)
    case Committing => CommitOne(s)
    case OnInt(u) => IntSlot(s, u)
    case OnMul(done) => MulSlot(s, done)
    case OnLsu(u, act) => LsuSlot(s, u, act)
    case Issuing(u) => IssueSlot(s, u)
    case Renaming => RenameOne(s)
    case Decoding => Decode(s)
    case Fetching(p0, p1) => Fetch(prog, s, p0, p1)
  }

  /** Stage `k` takes `s` to `t`. */
  ghost predicate Did(prog: Program, k: Stage, s: Core, t: Core)
    requires Shape(s)
  {
    Named(k) && forall x: Stage {:trigger Do(prog, x, s)} | x == k :: t == Do(prog, x, s)
  }

  lemma DidIs(prog: Program, k: Stage, s: Core, t: Core)
    requires Shape(s) && Did(prog, k, s, t)
    ensures t == Do(prog, k, s)
  {
  }

  /** Every stage keeps the structural invariant. */
  lemma DidOrderly(prog: Program, k: Stage, s: Core, t: Core)
    requires Shape(s) && Orderly(s) && Did(prog, k, s, t)
    ensures Shape(t) && Orderly(t)
  {
    DidIs(prog, k, s, t);
    match k
    case Draining(tick) => DrainOrderly(s, tick);
    case Committing => CommitOrderly(s);
    case OnInt(u) => IntOrderly(s, u);
    case OnMul(done) => MulOrderly(s, done);
    case OnLsu(u, act) => LsuOrderly(s, u, act);
    case Issuing(u) => IssueOrderly(s, u);
    case Renaming => RenameOrderly(s);
    case Decoding => DecodeOrderly(s);
    case Fetching(p0, p1) => FetchOrderly(prog, s, p0, p1);
  }

  lemma DidDo(prog: Program, k: Stage, s: Core, t: Core)
    requires Shape(s) && Named(k) && t == Do(prog, k, s)
    ensures Did(prog, k, s, t)
  {
  }

  // ---------------------------------------------------- stages field by field

  lemma DrainDid(prog: Program, s: Core, t: Core, tick: bool)
    requires Shape(s)
    requires t == if s.sbuf == [] || !tick then s else s.(mem := Perform(s.mem, s.sbuf[0]), sbuf := s.sbuf[1..])
    ensures Did(prog, Draining(tick), s, t)
  {
    DidDo(prog, Draining(tick), s, t);
  }

  /** Everything but memory, the store buffer, the decode and the fetch group is as before. */
  ghost predicate SameBackEnd(s: Core, t: Core) {
    && t.insts == s.insts && t.gpr == s.gpr && t.pc == s.pc && t.rrat == s.rrat && t.rat == s.rat && t.free == s.free
    && t.prf == s.prf && t.rob == s.rob && t.rs == s.rs && t.units == s.units && t.fetchPc == s.fetchPc
  }

  lemma DrainPlan(prog: Program, s: Core) returns (t: Core)
    requires Sane(s) && s.sbuf != []
    ensures Sane(t) && Did(prog, Draining(true), s, t)
    ensures t.mem == Perform(s.mem, s.sbuf[0]) && t.sbuf == s.sbuf[1..]
    ensures SameBackEnd(s, t) && t.idrn == s.idrn && t.ifid == s.ifid
  {
    t := s.(mem := Perform(s.mem, s.sbuf[0]), sbuf := s.sbuf[1..]);
    DrainDid(prog, s, t, true);
    DidKeeps(prog, Draining(true), s, t);
  }

  lemma NoCommitDid(prog: Program, s: Core)
    requires Shape(s) && !CanCommit(s)
    ensures Did(prog, Committing, s, s)
  {
    DidDo(prog, Committing, s, s);
  }

  lemma StoreRetiredShape(s: Core)
    requires Shape(s) && CanCommit(s)
    ensures Shape(StoreRetired(s)) && StoreRetired(s).rob == s.rob
  {
  }

  lemma StoreRetiredFrame(s: Core)
    requires s.rob != []
    ensures var t := StoreRetired(s);
      && SameBackEnd(s, t) && t.idrn == s.idrn && t.ifid == s.ifid
      && (s.rob[0].ir.kind != STORE ==> t.mem == s.mem && t.sbuf == s.sbuf)
      && (s.rob[0].ir.kind == STORE && InDram(s.rob[0].addr) ==> t.mem == s.mem && t.sbuf == s.sbuf + [StoreOf(s.rob[0])])
      && (s.rob[0].ir.kind == STORE && !InDram(s.rob[0].addr) ==> t.mem == Perform(s.mem, StoreOf(s.rob[0])) && t.sbuf == s.sbuf)
  {
  }

  lemma RegisterRetiredFrame(s: Core)
    requires Shape(s) && s.rob != []
    ensures var t := RegisterRetired(s);
      && t.insts == s.insts && t.pc == s.pc && t.mem == s.mem && t.sbuf == s.sbuf && t.rat == s.rat && t.rob == s.rob
      && t.rs == s.rs && t.units == s.units && t.idrn == s.idrn && t.ifid == s.ifid && t.fetchPc == s.fetchPc
  {
  }

  lemma CommitDid(prog: Program, s: Core, t: Core)
    requires Shape(s) && CanCommit(s) && Shape(StoreRetired(s)) && StoreRetired(s).rob == s.rob
    requires t == EntryRetired(RegisterRetired(StoreRetired(s)))
    ensures Did(prog, Committing, s, t)
  {
    DidDo(prog, Committing, s, t);
  }

  lemma DecodeDid(prog: Program, s: Core, t: Core)
    requires Shape(s)
    requires t == if s.ifid == [] || s.idrn != [] then s else s.(idrn := s.ifid, ifid := [])
    ensures Did(prog, Decoding, s, t)
  {
    DidDo(prog, Decoding, s, t);
  }

  lemma DecodePlan(prog: Program, s: Core) returns (t: Core)
    requires Sane(s)
    ensures Sane(t) && Did(prog, Decoding, s, t) && SameBackEnd(s, t) && t.mem == s.mem && t.sbuf == s.sbuf
    ensures s.ifid != [] && s.idrn == [] ==> t.idrn == s.ifid && t.ifid == []
    ensures s.ifid == [] || s.idrn != [] ==> t.idrn == s.idrn && t.ifid == s.ifid
  {
    t := Decode(s);
    DecodeDid(prog, s, t);
    DidKeeps(prog, Decoding, s, t);
  }

  lemma FetchDid(prog: Program, s: Core, t: Core, p0: Prediction, p1: Prediction)
    requires Shape(s)
    requires t == if s.ifid != [] then s
                  else if FetchOne(prog, s, p0).1 then FetchOne(prog, FetchOne(prog, s, p0).0, p1).0
                  else FetchOne(prog, s, p0).0
    ensures Did(prog, Fetching(p0, p1), s, t)
  {
    DidDo(prog, Fetching(p0, p1), s, t);
  }

  // ------------------------------------------------------------------- rename

  /** The map, the registers and the free list after a destination, if there is one, got a register. */
  ghost predicate RegisteredIf(has: bool, s: Core, t: Core, rd: int, phys: int, prev: int) {
    if has then
      && 0 < rd < |s.rat| && 0 <= phys < |s.prf| && s.free != [] && phys == s.free[0] && prev == s.rat[rd]
      && t.rat == s.rat[rd := phys] && t.prf == s.prf[phys := Phys(0, false)] && t.free == s.free[1..]
    else t.rat == s.rat && t.prf == s.prf && t.free == s.free && phys == rd && prev == rd
  }

  ghost predicate Registered(s: Core, t: Core, rd: int, phys: int, prev: int) {
    forall has: bool {:trigger RegisteredIf(has, s, t, rd, phys, prev)} | has == (rd > 0) :: RegisteredIf(has, s, t, rd, phys, prev)
  }

  /** What renaming changes in the buffer and the stations. */
  ghost predicate Enrolled(s: Core, t: Core, e: Entry, y: Station) {
    FreeStation(s.rs, 0) < |s.rs| && t.rob == s.rob + [e] && t.rs == s.rs[FreeStation(s.rs, 0) := y]
  }

  /** The oldest decoded instruction is gone from its group, and what renaming leaves alone is as before. */
  ghost predicate TakenFromGroup(s: Core, t: Core) {
    && s.idrn != [] && t.idrn == s.idrn[1..]
    && t.insts == s.insts && t.gpr == s.gpr && t.pc == s.pc && t.mem == s.mem && t.sbuf == s.sbuf && t.rrat == s.rrat
    && t.units == s.units && t.ifid == s.ifid && t.fetchPc == s.fetchPc
  }

  /** The oldest decoded instruction becomes entry `e` and station `y`. */
  ghost predicate RenamesTo(s: Core, t: Core, e: Entry, y: Station)
    requires Shape(s) && s.idrn != []
  {
    forall x: Station {:trigger Sourced(s, e, x)} | x == y ::
      EntryFor(s.idrn[0], e) && Sourced(s, e, x) && Enrolled(s, t, e, x) && Registered(s, t, e.ir.rd, e.phys, e.prev)
  }

  lemma RenameFields(s: Core)
    requires Shape(s) && CanRename(s)
    ensures TakenFromGroup(s, RenameOne(s)) && RenamesTo(s, RenameOne(s), NewEntry(s), NewStation(s))
  {
    var t, e, y := RenameOne(s), NewEntry(s), NewStation(s);
    assert Registered(s, t, e.ir.rd, e.phys, e.prev);
    assert Sourced(s, e, y) && Enrolled(s, t, e, y);
  }

  lemma RenamePlan(prog: Program, s: Core) returns (t: Core, e: Entry, y: Station)
    requires Sane(s) && CanRename(s)
    ensures Sane(t) && Did(prog, Renaming, s, t)
    ensures TakenFromGroup(s, t) && RenamesTo(s, t, e, y)
  {
    t := RenameOne(s);
    e, y := NewEntry(s), NewStation(s);
    RenameFields(s);
    DidDo(prog, Renaming, s, t);
    DidKeeps(prog, Renaming, s, t);
  }

  lemma NoRenameDid(prog: Program, s: Core)
    requires Shape(s) && !CanRename(s)
    ensures Did(prog, Renaming, s, s)
  {
    DidDo(prog, Renaming, s, s);
  }

  // -------------------------------------------------------------------- issue

  lemma IssueDid(prog: Program, s: Core, u: nat, b: nat, t: Core)
    requires Shape(s) && u < NUM_UNITS && !s.units[u].valid && b < RS_SIZE && b == Oldest(s, EuOfUnit(u), RS_SIZE)
    requires var x := s.rs[b];
      t == s.(units := s.units[u := Latch(true, x.tag, x.phys, x.v1, x.v2, false, false)], rs := s.rs[b := x.(valid := false)])
    ensures Did(prog, Issuing(u), s, t)
  {
    DidDo(prog, Issuing(u), s, t);
  }

  lemma NoIssueDid(prog: Program, s: Core, u: nat)
    requires Shape(s) && u < NUM_UNITS && (s.units[u].valid || Oldest(s, EuOfUnit(u), RS_SIZE) == -1)
    ensures Did(prog, Issuing(u), s, s)
  {
    DidDo(prog, Issuing(u), s, s);
  }

  /** A valid station names an entry that is live. */
  lemma StationLive(s: Core, i: nat)
    requires Shape(s) && Orderly(s) && i < RS_SIZE && s.rs[i].valid
    ensures Live(s, s.rs[i].tag)
  {
    assert Has(Placement, s);
  }

  /** Extending the search for the oldest issuable station by one station. */
  lemma OldestNext(s: Core, eu: EU, i: nat, b: int)
    requires Shape(s) && Orderly(s) && i < RS_SIZE && b == Oldest(s, eu, i)
    ensures !StationReady(s.rs[i], eu) ==> Oldest(s, eu, i + 1) == b
    ensures StationReady(s.rs[i], eu) ==> Live(s, s.rs[i].tag)
    ensures StationReady(s.rs[i], eu) && s.rob[s.rs[i].tag - s.insts].ir.kind == LOAD && Blocked(s, s.rs[i].tag) ==>
      Oldest(s, eu, i + 1) == b
    ensures StationReady(s.rs[i], eu) && !(s.rob[s.rs[i].tag - s.insts].ir.kind == LOAD && Blocked(s, s.rs[i].tag)) ==>
      Oldest(s, eu, i + 1) == if b == -1 || s.rs[i].tag < s.rs[b].tag then i else b
  {
    if s.rs[i].valid { StationLive(s, i); }
    OldestStep(s, eu, i, b);
  }

  lemma OldestStep(s: Core, eu: EU, i: nat, b: int)
    requires Shape(s) && i < RS_SIZE && b == Oldest(s, eu, i)
    ensures Oldest(s, eu, i + 1) == if Issuable(s, i, eu) && (b == -1 || s.rs[i].tag < s.rs[b].tag) then i else b
  {
  }

  /** The station that `Weigh` below settles on is the oldest so far. */
  lemma OldestTaken(s: Core, eu: EU, i: nat, b: int, c: int)
    requires Shape(s) && Orderly(s) && i < RS_SIZE && b == Oldest(s, eu, i) && StationReady(s.rs[i], eu) && Live(s, s.rs[i].tag)
    requires c == if s.rob[s.rs[i].tag - s.insts].ir.kind == LOAD && Blocked(s, s.rs[i].tag) then b
                  else if b == -1 || s.rs[i].tag < s.rs[b].tag then i else b
    ensures c == Oldest(s, eu, i + 1)
  {
    OldestNext(s, eu, i, b);
  }

  lemma OldestSkipped(s: Core, eu: EU, i: nat, b: int)
    requires Shape(s) && Orderly(s) && i < RS_SIZE && b == Oldest(s, eu, i) && !StationReady(s.rs[i], eu)
    ensures b == Oldest(s, eu, i + 1)
  {
    OldestNext(s, eu, i, b);
  }

  lemma OldestLive(s: Core, eu: EU, i: nat)
    requires Shape(s) && i <= RS_SIZE && Oldest(s, eu, i) >= 0
    ensures Live(s, s.rs[Oldest(s, eu, i)].tag) && StationReady(s.rs[Oldest(s, eu, i)], eu)
  {
  }

  // ------------------------------------------------------------ INT and MUL

  /** A latch that is not flushed names a live entry that waits for it. */
  lemma UnitLive(s: Core, u: nat)
    requires Shape(s) && Orderly(s) && u < NUM_UNITS && LiveLatch(s, u)
    ensures Live(s, s.units[u].tag)
  {
    LatchIsPlaced(s, u);
  }

  lemma RunAluOrderly(s: Core, u: nat)
    requires Shape(s) && Orderly(s) && u < NUM_UNITS && LiveLatch(s, u) && Live(s, s.units[u].tag)
    ensures Orderly(RunAlu(s, u))
  {
    AluRan(s, u);
    RanOrderly(s, RunAlu(s, u), u, s.units[u].tag - s.insts, AluEntry(s, u), AluResult(s, u));
  }

  lemma IntDid(prog: Program, s: Core, u: nat, t: Core)
    requires Shape(s) && u < 2 && LiveLatch(s, u) && Live(s, s.units[u].tag)
    requires t == Resolve(RunAlu(s, u), s.units[u].tag - s.insts)
    ensures Did(prog, OnInt(u), s, t)
  {
    IntSlotIs(s, u);
    DidDo(prog, OnInt(u), s, t);
  }

  lemma NoIntDid(prog: Program, s: Core, u: nat)
    requires Shape(s) && u < 2 && !s.units[u].valid
    ensures Did(prog, OnInt(u), s, s)
  {
    DidDo(prog, OnInt(u), s, s);
  }

  lemma MulDid(prog: Program, s: Core, t: Core)
    requires Shape(s) && s.units[2].valid && Live(s, s.units[2].tag) && t == RunAlu(s, 2)
    ensures Did(prog, OnMul(true), s, t)
  {
    DidDo(prog, OnMul(true), s, t);
  }

  lemma NoMulDid(prog: Program, s: Core, done: bool)
    requires Shape(s) && (!s.units[2].valid || !done)
    ensures Did(prog, OnMul(done), s, s)
  {
    DidDo(prog, OnMul(done), s, s);
  }

  /** Everything but latches, reorder buffer, registers and stations is as before. */
  ghost predicate SameElse(s: Core, t: Core) {
    && t.insts == s.insts && t.gpr == s.gpr && t.pc == s.pc && t.mem == s.mem && t.sbuf == s.sbuf
    && t.rrat == s.rrat && t.rat == s.rat && t.free == s.free
    && t.idrn == s.idrn && t.ifid == s.ifid && t.fetchPc == s.fetchPc
  }

  /** Finishing entry `j`, held by latch `u`, field by field. */
  ghost predicate FinishedIn(s: Core, t: Core, u: nat, j: nat, e: Entry, result: Word)
    requires Shape(s) && u < NUM_UNITS && j < |s.rob|
  {
    && -1 <= e.phys < NUM_PHYS
    && t.units == s.units[u := s.units[u].(valid := false)]
    && t.rob == s.rob[j := e.(ready := true)]
    && t.prf == (if e.phys >= 0 then s.prf[e.phys := Phys(result, true)] else s.prf)
    && t.rs == (if e.phys > 0 then Broadcast(s.rs, e.phys, result) else s.rs)
    && SameElse(s, t)
  }

  lemma RunAluFields(s: Core, u: nat)
    requires Shape(s) && u < NUM_UNITS && Live(s, s.units[u].tag)
    ensures var j, l := s.units[u].tag - s.insts, s.units[u];
      var e := AfterExecute(s.rob[j], l.v1, l.v2);
      FinishedIn(s, RunAlu(s, u), u, j, e, Execute(e.ir, e.pc, l.v1, l.v2).result)
  {
  }

  // --------------------------------------------------------------------- LSU

  lemma NoLsuDid(prog: Program, s: Core, u: nat, act: LsuAction)
    requires Shape(s) && 3 <= u < NUM_UNITS
    requires !s.units[u].valid || (s.units[u].flushed && s.units[u].miss && act != Fill)
    ensures Did(prog, OnLsu(u, act), s, s)
  {
    DidDo(prog, OnLsu(u, act), s, s);
  }

  /** A flushed latch is dropped when its fill completes. */
  lemma FlushedDid(prog: Program, s: Core, u: nat, t: Core)
    requires Shape(s) && 3 <= u < NUM_UNITS && s.units[u].valid && s.units[u].flushed
    requires t == s.(units := s.units[u := s.units[u].(valid := false)])
    ensures Did(prog, OnLsu(u, Fill), s, t)
  {
    DidDo(prog, OnLsu(u, Fill), s, t);
  }

  /** A store that has its address and data, and its latch given up. */
  ghost predicate StoreFinished(s: Core, t: Core, u: nat)
    requires Shape(s) && u < NUM_UNITS && Live(s, s.units[u].tag)
  {
    var j, l := s.units[u].tag - s.insts, s.units[u];
    t == s.(units := s.units[u := l.(valid := false)],
            rob := s.rob[j := AfterExecute(s.rob[j], l.v1, l.v2).(ready := true)])
  }

  lemma StoreIs(s: Core, u: nat, act: LsuAction, t: Core)
    requires Shape(s) && 3 <= u < NUM_UNITS && LiveLatch(s, u) && Live(s, s.units[u].tag)
    requires s.rob[s.units[u].tag - s.insts].ir.kind == STORE && StoreFinished(s, t, u)
    ensures t == LsuSlot(s, u, act)
  {
  }

  lemma StoreDid(prog: Program, s: Core, u: nat, act: LsuAction, t: Core)
    requires Shape(s) && 3 <= u < NUM_UNITS && LiveLatch(s, u) && Live(s, s.units[u].tag)
    requires s.rob[s.units[u].tag - s.insts].ir.kind == STORE && StoreFinished(s, t, u)
    ensures Did(prog, OnLsu(u, act), s, t)
  {
    StoreIs(s, u, act, t);
    DidDo(prog, OnLsu(u, act), s, t);
  }

  lemma WaitDid(prog: Program, s: Core, u: nat, act: LsuAction, t: Core)
    requires Shape(s) && 3 <= u < NUM_UNITS && LiveLatch(s, u) && Live(s, s.units[u].tag) && act != Fill
    requires s.rob[s.units[u].tag - s.insts].ir.kind != STORE
    requires t == if act == Retry then s else s.(units := s.units[u := s.units[u].(miss := true)])
    ensures Did(prog, OnLsu(u, act), s, t)
  {
    DidDo(prog, OnLsu(u, act), s, t);
  }

  /** The entry and result of a load whose fill is complete. */
  function FilledEntry(s: Core, u: nat): Entry
    requires Shape(s) && u < NUM_UNITS && Live(s, s.units[u].tag)
  {
    var e := AfterExecute(s.rob[s.units[u].tag - s.insts], s.units[u].v1, s.units[u].v2);
    if Accessible(e.addr) then e else e.(fault := true)
  }

  function FilledResult(s: Core, u: nat): Word
    requires Shape(s) && u < NUM_UNITS && Live(s, s.units[u].tag)
  {
    var j := s.units[u].tag - s.insts;
    var e := AfterExecute(s.rob[j], s.units[u].v1, s.units[u].v2);
    if Accessible(e.addr) then LoadValue(s, j, e.addr) else Faulted(s, e.phys)
  }

  lemma FinishIs(s: Core, t: Core, u: nat, j: nat, e: Entry, result: Word, l: Latch)
    requires Shape(s) && u < NUM_UNITS && j < |s.rob| && FinishedIn(s, t, u, j, e, result) && l == s.units[u].(valid := false)
    requires e.ir == s.rob[j].ir && e.phys == s.rob[j].phys && e.prev == s.rob[j].prev
    ensures Shape(s.(units := s.units[u := l])) && t == Finish(s.(units := s.units[u := l]), j, e, result)
  {
  }

  lemma FilledSame(s: Core, u: nat)
    requires Shape(s) && u < NUM_UNITS && Live(s, s.units[u].tag)
    ensures var e, x := FilledEntry(s, u), s.rob[s.units[u].tag - s.insts];
      e.ir == x.ir && e.phys == x.phys && e.prev == x.prev
  {
  }

  lemma SlotFills(s: Core, u: nat, r: Core, j: nat, e: Entry, result: Word)
    requires Shape(s) && 3 <= u < NUM_UNITS && LiveLatch(s, u) && Live(s, s.units[u].tag) && j == s.units[u].tag - s.insts
    requires s.rob[j].ir.kind != STORE && r == s.(units := s.units[u := s.units[u].(valid := false)]) && Shape(r)
    requires e == FilledEntry(s, u) && result == FilledResult(s, u)
    requires e.ir == s.rob[j].ir && e.phys == s.rob[j].phys && e.prev == s.rob[j].prev
    ensures LsuSlot(s, u, Fill) == Finish(r, j, e, result)
  {
  }

  lemma FillIs(s: Core, u: nat, t: Core)
    requires Shape(s) && 3 <= u < NUM_UNITS && LiveLatch(s, u) && Live(s, s.units[u].tag)
    requires s.rob[s.units[u].tag - s.insts].ir.kind != STORE
    requires FinishedIn(s, t, u, s.units[u].tag - s.insts, FilledEntry(s, u), FilledResult(s, u))
    ensures t == LsuSlot(s, u, Fill)
  {
    var j, e, result := s.units[u].tag - s.insts, FilledEntry(s, u), FilledResult(s, u);
    FilledSame(s, u);
    FinishIs(s, t, u, j, e, result, s.units[u].(valid := false));
    SlotFills(s, u, s.(units := s.units[u := s.units[u].(valid := false)]), j, e, result);
  }

  lemma FillDid(prog: Program, s: Core, u: nat, t: Core)
    requires Shape(s) && 3 <= u < NUM_UNITS && LiveLatch(s, u) && Live(s, s.units[u].tag)
    requires s.rob[s.units[u].tag - s.insts].ir.kind != STORE
    requires FinishedIn(s, t, u, s.units[u].tag - s.insts, FilledEntry(s, u), FilledResult(s, u))
    ensures Did(prog, OnLsu(u, Fill), s, t)
  {
    FillIs(s, u, t);
    DidDo(prog, OnLsu(u, Fill), s, t);
  }

  /** What holds of the engine at all times. */
  ghost predicate Sane(s: Core) { Shape(s) && Orderly(s) }

  lemma DidKeeps(prog: Program, k: Stage, s: Core, t: Core)
    requires Shape(s) && Sane(s) && Did(prog, k, s, t)
    ensures Sane(t)
  {
    DidOrderly(prog, k, s, t);
  }

  // ----------------------------------------------------------------- recovery

  /** The renaming is consistent. */
  ghost predicate Consistent(s: Core) { forall a: Facet {:trigger Has(a, s)} | a == Naming :: Has(a, s) }

  lemma OrderlyConsistent(s: Core)
    requires Orderly(s)
    ensures Consistent(s)
  {
  }

  lemma LastUndoneIs(s: Core, k: nat)
    requires Renamed(s) && k < |s.rob|
    ensures Shape(LastUndone(s)) && Renamed(LastUndone(s)) && Undo(LastUndone(s), k) == Undo(s, k)
    ensures |s.free| < 64
  {
    LastUndonePops(s);
    PoppedRenamed(s, LastUndone(s));
    FreeCountOf(s);
  }

  /** The map, the registers and the free list after the youngest entry `e` was undone. */
  ghost predicate TakenBackIf(has: bool, s: Core, t: Core, e: Entry) {
    if has then
      && 0 < e.ir.rd < |s.rat| && 0 <= e.phys < |s.prf| && t.rat == s.rat[e.ir.rd := e.prev]
      && t.prf == s.prf[e.phys := s.prf[e.phys].(ready := false)] && t.free == s.free + [e.phys]
    else t.rat == s.rat && t.prf == s.prf && t.free == s.free
  }

  ghost predicate TakenBack(s: Core, t: Core, e: Entry) {
    forall has: bool {:trigger TakenBackIf(has, s, t, e)} | has == (e.ir.rd > 0) :: TakenBackIf(has, s, t, e)
  }

  /** Undoing the youngest entry, field by field, is a step toward undoing all from `k` on. */
  lemma UndoStep(s: Core, w: Core, k: nat) returns (t: Core)
    requires Shape(s) && Consistent(s) && UndoneBy(s, w, k) && k < |s.rob|
    ensures Shape(t) && Consistent(t) && UndoneBy(t, w, k) && |s.free| < 64
    ensures t.rob == s.rob[..|s.rob| - 1] && TakenBack(s, t, s.rob[|s.rob| - 1])
    ensures t.insts == s.insts && t.gpr == s.gpr && t.pc == s.pc && t.mem == s.mem && t.sbuf == s.sbuf && t.rrat == s.rrat
    ensures t.rs == s.rs && t.units == s.units && t.idrn == s.idrn && t.ifid == s.ifid && t.fetchPc == s.fetchPc
  {
    assert Has(Naming, s);
    LastUndoneIs(s, k);
    t := LastUndone(s);
  }

  lemma UndoEnds(s: Core, w: Core, k: nat)
    requires Shape(s) && UndoneBy(s, w, k) && k == |s.rob|
    ensures w == s
  {
    assert Undo(s, k) == s;
  }

  lemma UndoStarts(s: Core, k: nat) returns (w: Core)
    requires Shape(s) && k <= |s.rob|
    ensures UndoneBy(s, w, k) && w == Undo(s, k)
  {
    w := Undo(s, k);
  }

  /** Where the stations and latches point, so that slots can be compared by age. */
  ghost predicate InWindow(s: Core) {
    && |s.rs| == RS_SIZE && |s.units| == NUM_UNITS
    && (forall i | 0 <= i < RS_SIZE && s.rs[i].valid :: s.insts <= s.rs[i].tag < s.insts + ROB_SIZE)
    && (forall u | 0 <= u < NUM_UNITS && LiveLatch(s, u) :: s.insts <= s.units[u].tag < s.insts + ROB_SIZE)
    && (forall u | 0 <= u < NUM_UNITS && s.units[u].flushed :: EuOfUnit(u) == LSU)
  }

  lemma SaneInWindow(s: Core)
    requires Shape(s) && Orderly(s)
    ensures InWindow(s)
  {
    forall i | 0 <= i < RS_SIZE && s.rs[i].valid ensures s.insts <= s.rs[i].tag < s.insts + ROB_SIZE { StationLive(s, i); }
    forall u | 0 <= u < NUM_UNITS && LiveLatch(s, u) ensures s.insts <= s.units[u].tag < s.insts + ROB_SIZE { UnitLive(s, u); }
    forall u | 0 <= u < NUM_UNITS && s.units[u].flushed ensures EuOfUnit(u) == LSU {
      if u < 3 {
        OnlyLoadsFlushed(s, u);
        assert false;
      }
    }
  }

  /** The latch's entry executed, the flag and the result that go with its address: a filled load. */
  lemma FilledIs(s: Core, u: nat, x: Entry, e: Entry, result: Word)
    requires Shape(s) && u < NUM_UNITS && Live(s, s.units[u].tag)
    requires x == AfterExecute(s.rob[s.units[u].tag - s.insts], s.units[u].v1, s.units[u].v2)
    requires e == if Accessible(x.addr) then x else x.(fault := true)
    requires result == if Accessible(x.addr) then LoadValue(s, s.units[u].tag - s.insts, x.addr) else Faulted(s, x.phys)
    ensures IsFilled(s, u, e, result)
  {
    assert e == FilledEntry(s, u);
    assert result == FilledResult(s, u);
  }

  /** What recovery does to the state, once the renaming is undone. */
  lemma ResolveIs(s: Core, j: nat, w: Core)
    requires Shape(s) && j < |s.rob| && UndoneBy(s, w, j + 1) && Shape(w)
    requires Mispredicted(s.rob[j]) && InDram(s.rob[j].dnpc)
    ensures Resolve(s, j) == Discard(w, s.insts + j).(fetchPc := s.rob[j].dnpc)
  {
    assert w == Undo(s, j + 1);
  }

  lemma ResolveFault(s: Core, j: nat)
    requires Shape(s) && j < |s.rob| && Mispredicted(s.rob[j]) && !InDram(s.rob[j].dnpc)
    ensures Resolve(s, j) == s.(rob := s.rob[j := s.rob[j].(fault := true)])
  {
  }

  lemma ResolveNone(s: Core, j: nat)
    requires Shape(s) && j < |s.rob| && !Mispredicted(s.rob[j])
    ensures Resolve(s, j) == s
  {
  }

  lemma UndoneSame(s: Core, w: Core, k: nat)
    requires Shape(s) && Consistent(s) && UndoneBy(s, w, k)
    ensures Shape(w) && w.insts == s.insts && w.rs == s.rs && w.units == s.units
  {
    assert Has(Naming, s);
    UndoFacts(s, w, k);
  }

  /** Everything younger than `tag` dropped and fetching redirected, field by field. */
  ghost predicate Discarded(s: Core, t: Core, tag: int, target: Word) {
    && t.rs == FlushStations(s.rs, tag) && t.units == FlushLatches(s.units, tag)
    && t.idrn == [] && t.ifid == [] && t.fetchPc == target
    && t.insts == s.insts && t.gpr == s.gpr && t.pc == s.pc && t.mem == s.mem && t.sbuf == s.sbuf
    && t.rrat == s.rrat && t.rat == s.rat && t.free == s.free && t.prf == s.prf && t.rob == s.rob
  }

  lemma Plan(s: Core, j: nat) returns (w: Core, t: Core)
    requires Sane(s) && j < |s.rob| && Mispredicted(s.rob[j]) && InDram(s.rob[j].dnpc)
    ensures Consistent(s) && UndoneBy(s, w, j + 1) && Shape(w) && InWindow(w) && w.insts == s.insts
    ensures Discarded(w, t, s.insts + j, s.rob[j].dnpc) && Resolves(s, j, t)
  {
    SaneInWindow(s);
    OrderlyConsistent(s);
    w := UndoStarts(s, j + 1);
    UndoneSame(s, w, j + 1);
    ResolveIs(s, j, w);
    WindowKept(s, w);
    t := Discard(w, s.insts + j).(fetchPc := s.rob[j].dnpc);
  }

  lemma WindowKept(s: Core, w: Core)
    requires InWindow(s) && w.insts == s.insts && w.rs == s.rs && w.units == s.units
    ensures InWindow(w)
  {
    forall u | 0 <= u < NUM_UNITS && LiveLatch(w, u) ensures w.insts <= w.units[u].tag < w.insts + ROB_SIZE {
      assert LiveLatch(s, u);
    }
  }

  /** `t` is `s` with the instruction in latch `u` executed. */
  ghost predicate RunsAlu(s: Core, u: nat, t: Core)
    requires Shape(s)
  {
    && u < NUM_UNITS && Live(s, s.units[u].tag)
    && forall v: nat {:trigger RunAlu(s, v)} | v == u :: t == RunAlu(s, v)
  }

  /** `t` is `s` with the prediction of entry `j` checked. */
  ghost predicate Resolves(s: Core, j: nat, t: Core)
    requires Shape(s)
  {
    j < |s.rob| && forall k: nat {:trigger Resolve(s, k)} | k == j :: t == Resolve(s, k)
  }

  lemma AluPlan(s: Core, u: nat, e: Entry, result: Word) returns (t: Core)
    requires Sane(s) && u < NUM_UNITS && LiveLatch(s, u) && Live(s, s.units[u].tag)
    requires var l := s.units[u];
      var before := s.rob[l.tag - s.insts];
      e == AfterExecute(before, l.v1, l.v2) && result == Execute(before.ir, before.pc, l.v1, l.v2).result
    ensures Sane(t) && RunsAlu(s, u, t) && FinishedIn(s, t, u, s.units[u].tag - s.insts, e, result)
  {
    t := RunAlu(s, u);
    RunAluFields(s, u);
    RunAluOrderly(s, u);
  }

  lemma RunsIntDid(prog: Program, s: Core, u: nat, r: Core, t: Core)
    requires Shape(s) && u < 2 && LiveLatch(s, u) && RunsAlu(s, u, r) && Shape(r) && Resolves(r, s.units[u].tag - s.insts, t)
    ensures Did(prog, OnInt(u), s, t)
  {
    assert r == RunAlu(s, u);
    assert t == Resolve(r, s.units[u].tag - s.insts);
    IntDid(prog, s, u, t);
  }

  lemma RunsMulDid(prog: Program, s: Core, t: Core)
    requires Shape(s) && s.units[2].valid && RunsAlu(s, 2, t)
    ensures Did(prog, OnMul(true), s, t)
  {
    assert t == RunAlu(s, 2);
    MulDid(prog, s, t);
  }

  lemma RunsSame(s: Core, u: nat, t: Core)
    requires Shape(s) && RunsAlu(s, u, t)
    ensures t.insts == s.insts && |t.rob| == |s.rob|
  {
    assert t == RunAlu(s, u);
    RunAluFields(s, u);
  }

  ghost predicate IsFilled(s: Core, u: nat, e: Entry, result: Word)
    requires Shape(s)
  {
    && u < NUM_UNITS && Live(s, s.units[u].tag)
    && forall v: nat {:trigger FilledEntry(s, v)} | v == u :: e == FilledEntry(s, v) && result == FilledResult(s, v)
  }

  lemma FillPlan(prog: Program, s: Core, u: nat, e: Entry, result: Word) returns (t: Core)
    requires Sane(s) && 3 <= u < NUM_UNITS && LiveLatch(s, u) && Live(s, s.units[u].tag)
    requires s.rob[s.units[u].tag - s.insts].ir.kind != STORE && IsFilled(s, u, e, result)
    ensures Sane(t) && Did(prog, OnLsu(u, Fill), s, t) && FinishedIn(s, t, u, s.units[u].tag - s.insts, e, result)
  {
    var j := s.units[u].tag - s.insts;
    assert e == FilledEntry(s, u);
    t := s.(units := s.units[u := s.units[u].(valid := false)],
            rob := s.rob[j := e.(ready := true)],
            prf := if e.phys >= 0 then s.prf[e.phys := Phys(result, true)] else s.prf,
            rs := if e.phys > 0 then Broadcast(s.rs, e.phys, result) else s.rs);
    FillDid(prog, s, u, t);
    DidKeeps(prog, OnLsu(u, Fill), s, t);
  }

  /** One more store forwarded. */
  lemma ForwardOne(cur: Word, sts: seq<StoreRec>, st: StoreRec, a: int, w: nat, signed: bool)
    requires Width(w)
    ensures Forward(cur, sts + [st], a, w, signed) == TryForward(Forward(cur, sts, a, w, signed), st, a, w, signed)
  {
    ForwardAppend(cur, sts, [st], a, w, signed);
    var x := Forward(cur, sts, a, w, signed);
    assert Forward(x, [st], a, w, signed) == Forward(TryForward(x, st, a, w, signed), [], a, w, signed);
  }

  /** A finished store: its latch is free and its entry ready. */
  lemma StorePlan(prog: Program, s: Core, u: nat, act: LsuAction, e: Entry) returns (t: Core)
    requires Sane(s) && 3 <= u < NUM_UNITS && LiveLatch(s, u) && Live(s, s.units[u].tag)
    requires s.rob[s.units[u].tag - s.insts].ir.kind == STORE
    requires e == AfterExecute(s.rob[s.units[u].tag - s.insts], s.units[u].v1, s.units[u].v2).(ready := true)
    ensures Sane(t) && Did(prog, OnLsu(u, act), s, t) && SameElse(s, t) && t.prf == s.prf && t.rs == s.rs
    ensures t.units == s.units[u := s.units[u].(valid := false)] && t.rob == s.rob[s.units[u].tag - s.insts := e]
  {
    t := s.(units := s.units[u := s.units[u].(valid := false)], rob := s.rob[s.units[u].tag - s.insts := e]);
    StoreDid(prog, s, u, act, t);
    DidKeeps(prog, OnLsu(u, act), s, t);
  }

  /** One more entry of the reorder buffer looked at. */
  lemma ForwardNext(cur: Word, rob: seq<Entry>, k: nat, v: Word, a: int, w: nat, signed: bool)
    requires k < |rob| && Width(w) && v == Forward(cur, RobStores(rob, k), a, w, signed)
    ensures Forward(cur, RobStores(rob, k + 1), a, w, signed) ==
      if rob[k].ready && rob[k].ir.kind == STORE then TryForward(v, StoreOf(rob[k]), a, w, signed) else v
  {
    if rob[k].ready && rob[k].ir.kind == STORE {
      ForwardOne(cur, RobStores(rob, k), StoreOf(rob[k]), a, w, signed);
    } else {
      assert RobStores(rob, k + 1) == RobStores(rob, k);
    }
  }

  // ------------------------------------------------------------------- a cycle

  /** The first part of a cycle: drain, commit twice. */
  lemma FrontIs(prog: Program, s: Core, a: Core, b: Core, t: Core, tick: bool)
    requires Shape(s) && Did(prog, Draining(tick), s, a) && Shape(a)
    requires Did(prog, Committing, a, b) && Shape(b) && Did(prog, Committing, b, t)
    ensures t == Front(s, tick)
  {
    DidIs(prog, Draining(tick), s, a);
    DidIs(prog, Committing, a, b);
    DidIs(prog, Committing, b, t);
  }

  lemma ComputeIs(prog: Program, s: Core, a: Core, b: Core, t: Core, done: bool)
    requires Shape(s) && Did(prog, OnInt(0), s, a) && Shape(a) && Did(prog, OnInt(1), a, b) && Shape(b)
    requires Did(prog, OnMul(done), b, t)
    ensures t == Compute(s, done)
  {
    DidIs(prog, OnInt(0), s, a);
    DidIs(prog, OnInt(1), a, b);
    DidIs(prog, OnMul(done), b, t);
  }

  lemma LsuIs(prog: Program, s: Core, f: Core, c: Core, a: Core, t: Core, i: Inputs)
    requires Shape(s) && f == Front(s, i.tick) && c == Compute(f, i.mulDone)
    requires Did(prog, OnLsu(3, i.lsu0), c, a) && Shape(a) && Did(prog, OnLsu(4, i.lsu1), a, t)
    ensures t == AfterLsu(s, i)
  {
    DidIs(prog, OnLsu(3, i.lsu0), c, a);
    DidIs(prog, OnLsu(4, i.lsu1), a, t);
  }

  lemma IssueIs(prog: Program, s: Core, a: Core, b: Core, c: Core, d: Core, t: Core)
    requires Shape(s) && Did(prog, Issuing(0), s, a) && Shape(a) && Did(prog, Issuing(1), a, b) && Shape(b)
    requires Did(prog, Issuing(2), b, c) && Shape(c) && Did(prog, Issuing(3), c, d) && Shape(d) && Did(prog, Issuing(4), d, t)
    ensures t == Issue(s)
  {
    DidIs(prog, Issuing(0), s, a);
    DidIs(prog, Issuing(1), a, b);
    DidIs(prog, Issuing(2), b, c);
    DidIs(prog, Issuing(3), c, d);
    DidIs(prog, Issuing(4), d, t);
  }

  lemma BackIs(prog: Program, s: Core, q: Core, a: Core, b: Core, c: Core, t: Core, i: Inputs)
    requires Shape(s) && q == Issue(s) && Did(prog, Renaming, q, a) && Shape(a) && Did(prog, Renaming, a, b) && Shape(b)
    requires Did(prog, Decoding, b, c) && Shape(c) && Did(prog, Fetching(i.pred0, i.pred1), c, t)
    ensures t == Back(prog, s, i)
  {
    DidIs(prog, Renaming, q, a);
    DidIs(prog, Renaming, a, b);
    DidIs(prog, Decoding, b, c);
    DidIs(prog, Fetching(i.pred0, i.pred1), c, t);
  }

  /** `t` is `s` one cycle later. */
  ghost predicate Cycled(prog: Program, s: Core, t: Core, i: Inputs)
    requires Shape(s)
  {
    forall x: Inputs {:trigger Cycle(prog, s, x)} | x == i :: t == Cycle(prog, s, x)
  }

  lemma CycleIs(prog: Program, s: Core, l: Core, t: Core, i: Inputs)
    requires Shape(s) && l == AfterLsu(s, i) && t == Back(prog, l, i)
    ensures Cycled(prog, s, t, i)
  {
  }

  /** `s` is the engine after one cycle for each element of `ins`. */
  ghost predicate Reached(prog: Program, init: Arch, ins: seq<Inputs>, s: Core) {
    forall x: seq<Inputs> {:trigger Exec(prog, init, x)} | x == ins :: s == Exec(prog, init, x)
  }

  lemma ReachedStart(prog: Program, init: Arch, s: Core)
    requires s == Boot(init)
    ensures Reached(prog, init, [], s)
  {
  }

  lemma ExecNext(prog: Program, init: Arch, ins: seq<Inputs>, i: Inputs)
    ensures Exec(prog, init, ins + [i]) == Cycle(prog, Exec(prog, init, ins), i)
  {
    assert (ins + [i])[..|ins|] == ins;
  }

  lemma ReachedNext(prog: Program, init: Arch, ins: seq<Inputs>, i: Inputs, s: Core, t: Core)
    requires Shape(s) && Reached(prog, init, ins, s) && Cycled(prog, s, t, i)
    ensures Reached(prog, init, ins + [i], t)
  {
    ExecNext(prog, init, ins, i);
    assert s == Exec(prog, init, ins);
  }

  /** The machine state agrees with the functional machine after `s.insts` instructions. */
  ghost predicate Agrees(prog: Program, init: Arch, s: Core) { AgreesWith(s, Run(prog, init, s.insts)) }

  lemma ReachedAgrees(prog: Program, init: Arch, n: nat, ins: seq<Inputs>, s: Core)
    requires Reached(prog, init, ins, s) && ValidUpTo(prog, init, n) && RunSafe(prog, init, n, ins) && s.insts <= n
    ensures Agrees(prog, init, s)
  {
    assert s == Exec(prog, init, ins);
    Refinement(prog, init, n, ins);
  }
}
