/**
 The out-of-order engine on values: every stage of one cycle as a function of the whole engine state.

 The rings of the source (reorder buffer, free list, store buffer) are sequences, oldest first, and a
 reorder buffer entry is named by its tag: the number of committed instructions plus its position.
 The ring slot of an entry is its tag modulo ROB_SIZE.  Latencies (MUL/DIV countdown, cache misses,
 the drain tick) and predictions come from outside, one `Inputs` a cycle, so the theorems hold for
 any timing and any predictor.
 */
module Tomasulo {
  import opened Isa
  import opened Forwarding

  const NUM_PHYS := 64
  const ROB_SIZE := 32
  const RS_SIZE := 16
  const STORE_BUF_SIZE := 16
  const FETCH_WIDTH := 2

  /** Functional units: slots 0 and 1 are INT, 2 is MUL, 3 and 4 are LSU. */
  const NUM_UNITS := 5

  datatype EU = INT | MUL | LSU

  datatype Phys = Phys(value: Word, ready: bool)

  datatype Entry = Entry(
    ir: Inst, pc: Word, pred: Word, phys: int, prev: int,
    ready: bool, fault: bool, dnpc: Word, addr: Word, data: Word)

  datatype Station = Station(
    valid: bool, tag: int, phys: int, eu: EU,
    r1: bool, v1: Word, t1: int, r2: bool, v2: Word, t2: int)

  /** `miss`: waiting for a cache fill.  `flushed`: only the fill is still wanted. */
  datatype Latch = Latch(valid: bool, tag: int, phys: int, v1: Word, v2: Word, miss: bool, flushed: bool)

  datatype Fetched = Fetched(ir: Inst, pc: Word, pred: Word)

  datatype Core = Core(
    insts: nat, gpr: Regs, pc: Word, mem: Mem, sbuf: seq<StoreRec>,
    rrat: seq<int>, rat: seq<int>, free: seq<int>, prf: seq<Phys>,
    rob: seq<Entry>, rs: seq<Station>, units: seq<Latch>,
    idrn: seq<Fetched>, ifid: seq<Fetched>, fetchPc: Word)

  /** A register map: 0 goes to 0 and nothing else does. */
  predicate MapShape(m: seq<int>) {
    |m| == 32 && m[0] == 0 && forall r | 0 < r < 32 :: 0 < m[r] < NUM_PHYS
  }

  predicate FreeShape(free: seq<int>) { forall k | 0 <= k < |free| :: 0 < free[k] < NUM_PHYS }

  predicate EntryShape(e: Entry) {
    -1 <= e.phys < NUM_PHYS && -1 <= e.prev < NUM_PHYS && (e.ir.rd > 0 ==> e.phys > 0 && e.prev > 0)
  }

  predicate RobShape(rob: seq<Entry>) { |rob| <= ROB_SIZE && forall k | 0 <= k < |rob| :: EntryShape(rob[k]) }

  predicate StationsShape(rs: seq<Station>) {
    |rs| == RS_SIZE && forall i | 0 <= i < RS_SIZE && rs[i].valid :: -1 <= rs[i].phys < NUM_PHYS
  }

  predicate UnitsShape(units: seq<Latch>) {
    |units| == NUM_UNITS && forall u | 0 <= u < NUM_UNITS && units[u].valid :: -1 <= units[u].phys < NUM_PHYS
  }

  predicate Shape(s: Core) {
    && MapShape(s.rrat) && MapShape(s.rat) && FreeShape(s.free) && |s.prf| == NUM_PHYS
    && RobShape(s.rob) && StationsShape(s.rs) && UnitsShape(s.units)
    && |s.sbuf| <= STORE_BUF_SIZE && |s.idrn| <= FETCH_WIDTH && |s.ifid| <= FETCH_WIDTH
  }

  function EuOf(i: RawInst): EU {
    match i.kind
    case LOAD | STORE => LSU
    case MULDIV => MUL
    case _ => INT
  }

  function EuOfUnit(u: nat): EU { if u < 2 then INT else if u == 2 then MUL else LSU }

  /** The range the engine accepts for fetch and for cacheable data. */
  predicate InDram(a: int) { 0x8000_0000 <= a < 0x8800_0000 }

  // ------------------------------------------------------------ store buffer

  /** Drain the oldest committed store to memory, when the drain tick allows it. */
  function Drain(s: Core, tick: bool): Core {
    if s.sbuf == [] || !tick then s
    else s.(mem := Perform(s.mem, s.sbuf[0]), sbuf := s.sbuf[1..])
  }

  function StoreOf(e: Entry): StoreRec { StoreRec(e.addr, e.data, e.ir.width) }

  // ------------------------------------------------------------------ commit

  predicate CanCommit(s: Core) {
    && s.rob != [] && s.rob[0].ready
    && (s.rob[0].ir.kind == FENCE ==> s.sbuf == [])
    && !s.rob[0].fault
    && (s.rob[0].ir.kind == STORE && InDram(s.rob[0].addr) ==> |s.sbuf| < STORE_BUF_SIZE)
  }

  /** The oldest entry's store, if it has one, goes to the store buffer or, outside DRAM, to memory. */
  function StoreRetired(s: Core): Core
    requires s.rob != []
  {
    var e := s.rob[0];
    if e.ir.kind != STORE then s
    else if InDram(e.addr) then s.(sbuf := s.sbuf + [StoreOf(e)])
    else s.(mem := Perform(s.mem, StoreOf(e)))
  }

  /** Its register becomes architectural and the one it superseded is free. */
  function RegisterRetired(s: Core): Core
    requires Shape(s) && s.rob != []
  {
    var e := s.rob[0];
    if e.ir.rd <= 0 then s.(gpr := s.gpr[0 := 0])
    else s.(gpr := s.gpr[e.ir.rd := s.prf[e.phys].value][0 := 0], rrat := s.rrat[e.ir.rd := e.phys],
            prf := s.prf[e.prev := s.prf[e.prev].(ready := false)], free := s.free + [e.prev])
  }

  function EntryRetired(s: Core): Core
    requires s.rob != []
  {
    s.(pc := s.rob[0].dnpc, rob := s.rob[1..], insts := s.insts + 1)
  }

  /** Retire the oldest entry, if it may retire. */
  function CommitOne(s: Core): (t: Core)
    requires Shape(s)
    ensures Shape(t)
  {
    if CanCommit(s) then EntryRetired(RegisterRetired(StoreRetired(s))) else s
  }

  // ------------------------------------------------- result bus and recovery

  /** A station that waits for `p` takes the value. */
  function Wake(x: Station, p: int, v: Word): Station {
    if !x.valid then x
    else
      var y := if !x.r1 && x.t1 == p then x.(r1 := true, v1 := v) else x;
      if !y.r2 && y.t2 == p then y.(r2 := true, v2 := v) else y
  }

  function Broadcast(rs: seq<Station>, p: int, v: Word): (r: seq<Station>)
    ensures |r| == |rs| && forall i | 0 <= i < |rs| :: r[i] == Wake(rs[i], p, v)
  {
    seq(|rs|, i requires 0 <= i < |rs| => Wake(rs[i], p, v))
  }

  /** Entry `j` has executed: `e` replaces it, its result goes to the register file and the stations. */
  function Finish(s: Core, j: nat, e: Entry, result: Word): (t: Core)
    requires Shape(s) && j < |s.rob|
    requires e.ir == s.rob[j].ir && e.phys == s.rob[j].phys && e.prev == s.rob[j].prev
    ensures Shape(t)
  {
    var s1 := s.(rob := s.rob[j := e.(ready := true)]);
    if e.phys < 0 then s1
    else
      var s2 := s1.(prf := s1.prf[e.phys := Phys(result, true)]);
      if e.phys == 0 then s2 else s2.(rs := Broadcast(s2.rs, e.phys, result))
  }

  /** The renaming of the youngest entry undone. */
  function LastUndone(s: Core): (t: Core)
    requires Shape(s) && s.rob != []
    ensures Shape(t) && |t.rob| == |s.rob| - 1
  {
    var m := |s.rob| - 1;
    var e := s.rob[m];
    if e.ir.rd <= 0 then s.(rob := s.rob[..m])
    else s.(rob := s.rob[..m], rat := s.rat[e.ir.rd := e.prev],
            prf := s.prf[e.phys := s.prf[e.phys].(ready := false)], free := s.free + [e.phys])
  }

  /** Undo the renaming of the youngest entries until `k` are left, youngest first. */
  function Undo(s: Core, k: nat): (t: Core)
    requires Shape(s) && k <= |s.rob|
    ensures Shape(t)
    decreases |s.rob|
  {
    if |s.rob| == k then s else Undo(LastUndone(s), k)
  }

  function FlushStation(x: Station, tag: int): Station {
    if x.valid && x.tag > tag then x.(valid := false) else x
  }

  /** A latch past the branch is dropped; an outstanding cache fill is kept for the fill alone. */
  function FlushLatch(l: Latch, tag: int, eu: EU): Latch {
    if l.valid && l.tag > tag then
      if eu == LSU && l.miss then l.(flushed := true) else l.(valid := false)
    else l
  }

  function FlushStations(rs: seq<Station>, tag: int): (r: seq<Station>)
    ensures |r| == |rs| && forall i | 0 <= i < |rs| :: r[i] == FlushStation(rs[i], tag)
  {
    seq(|rs|, i requires 0 <= i < |rs| => FlushStation(rs[i], tag))
  }

  function FlushLatches(ls: seq<Latch>, tag: int): (r: seq<Latch>)
    ensures |r| == |ls| && forall u | 0 <= u < |ls| :: r[u] == FlushLatch(ls[u], tag, EuOfUnit(u))
  {
    seq(|ls|, u requires 0 <= u < |ls| => FlushLatch(ls[u], tag, EuOfUnit(u)))
  }

  /** Drop the stations and latches of instructions younger than `tag`, and the whole front end. */
  function Discard(s: Core, tag: int): Core
    requires Shape(s)
  {
    s.(rs := FlushStations(s.rs, tag), units := FlushLatches(s.units, tag), idrn := [], ifid := [])
  }

  /** Discard everything younger than entry `j`. */
  function FlushAfter(s: Core, j: nat): (t: Core)
    requires Shape(s) && j < |s.rob|
    ensures Shape(t)
  {
    Discard(Undo(s, j + 1), s.insts + j)
  }

  // ------------------------------------------------------------ INT and MUL

  predicate Live(s: Core, tag: int) { s.insts <= tag < s.insts + |s.rob| }

  /** Entry `e` after its executor ran on the two operand values. */
  function AfterExecute(e: Entry, v1: Word, v2: Word): Entry {
    var o := Execute(e.ir, e.pc, v1, v2);
    e.(dnpc := o.dnpc, addr := o.addr, data := v2, fault := e.ir.kind == INVALID)
  }

  function Predicted(e: Entry): Word { if e.pred == 0 then Wrap(e.pc + 4) else e.pred }

  predicate Mispredicted(e: Entry) { Control(e.ir) && e.dnpc != Predicted(e) }

  /** Executing the instruction in latch `u` of the INT or MUL unit. */
  function RunAlu(s: Core, u: nat): (t: Core)
    requires Shape(s) && u < NUM_UNITS && Live(s, s.units[u].tag)
    ensures Shape(t) && |t.rob| == |s.rob|
  {
    var l := s.units[u];
    var j := l.tag - s.insts;
    var e := AfterExecute(s.rob[j], l.v1, l.v2);
    var s1 := s.(units := s.units[u := l.(valid := false)]);
    Finish(s1, j, e, Execute(e.ir, e.pc, l.v1, l.v2).result)
  }

  /** Recover if the branch or jump in entry `j` went another way than predicted. */
  function Resolve(s: Core, j: nat): (t: Core)
    requires Shape(s) && j < |s.rob|
    ensures Shape(t)
  {
    var e := s.rob[j];
    if !Mispredicted(e) then s
    else if !InDram(e.dnpc) then s.(rob := s.rob[j := e.(fault := true)])
    else FlushAfter(s, j).(fetchPc := e.dnpc)
  }

  /** Latch `u` holds an instruction of the reorder buffer. */
  predicate Holding(s: Core, u: nat)
    requires u < |s.units|
  {
    s.units[u].valid && Live(s, s.units[u].tag)
  }

  /** One INT slot: execute, then check the prediction. */
  function IntSlot(s: Core, u: nat): (t: Core)
    requires Shape(s) && u < 2
    ensures Shape(t)
  {
    var l := s.units[u];
    if Holding(s, u) then Resolve(RunAlu(s, u), l.tag - s.insts)
    else if l.valid then s.(units := s.units[u := l.(valid := false)])
    else s
  }

  /** The MUL slot; `done` says that the countdown has ended. */
  function MulSlot(s: Core, done: bool): (t: Core)
    requires Shape(s)
    ensures Shape(t)
  {
    var l := s.units[2];
    if !l.valid || !done then s
    else if !Live(s, l.tag) then s.(units := s.units[2 := l.(valid := false)])
    else RunAlu(s, 2)
  }

  // --------------------------------------------------------------------- LSU

  datatype LsuAction = Retry | Miss | Fill

  /** The finished stores among the first `j` entries, oldest first. */
  function RobStores(rob: seq<Entry>, j: nat): seq<StoreRec>
    requires j <= |rob|
  {
    if j == 0 then []
    else RobStores(rob, j - 1) +
         (if rob[j - 1].ready && rob[j - 1].ir.kind == STORE then [StoreOf(rob[j - 1])] else [])
  }

  /** Every store older than entry `j` that has not reached memory, oldest first. */
  function Pending(s: Core, j: nat): seq<StoreRec>
    requires j <= |s.rob|
  {
    s.sbuf + RobStores(s.rob, j)
  }

  /** The value a load in entry `j` at address `a` obtains. */
  function LoadValue(s: Core, j: nat, a: Word): Word
    requires j < |s.rob|
  {
    var i := s.rob[j].ir;
    Forward(Forward(Load(s.mem, a, i.width, i.signed), s.sbuf, a, i.width, i.signed),
            RobStores(s.rob, j), a, i.width, i.signed)
  }

  predicate Accessible(a: Word) {
    var pa := a % 0x1_0000_0000;
    InDram(pa) || pa >= 0xa000_0000
  }

  /** The result of a load from an address that is neither DRAM nor a device: p0 keeps its value. */
  function Faulted(s: Core, p: int): Word
    requires Shape(s)
  {
    if p == 0 then s.prf[0].value else 0
  }

  /** One LSU slot: a store is finished at once, a load when its fill completes. */
  function LsuSlot(s: Core, u: nat, act: LsuAction): (t: Core)
    requires Shape(s) && 3 <= u < NUM_UNITS
    ensures Shape(t)
  {
    var l := s.units[u];
    if !l.valid then s
    else if l.flushed || !Live(s, l.tag) then
      if !l.miss || act == Fill then s.(units := s.units[u := l.(valid := false)]) else s
    else
      var j := l.tag - s.insts;
      var e := AfterExecute(s.rob[j], l.v1, l.v2);
      var s1 := s.(units := s.units[u := l.(valid := false)]);
      if e.ir.kind == STORE then s1.(rob := s1.rob[j := e.(ready := true)])
      else if act == Retry then s
      else if act == Miss then s.(units := s.units[u := l.(miss := true)])
      else if !Accessible(e.addr) then Finish(s1, j, e.(fault := true), Faulted(s, e.phys))
      else Finish(s1, j, e, LoadValue(s, j, e.addr))
  }

  // ------------------------------------------------------------------- issue

  predicate StationReady(x: Station, eu: EU) { x.valid && x.r1 && x.r2 && x.eu == eu }

  /** A load waits for every older store to have its address and data, and for an older executed
      fence while the store buffer is not empty. */
  predicate Blocked(s: Core, tag: int) {
    exists k | 0 <= k < |s.rob| && s.insts + k < tag ::
      (s.rob[k].ir.kind == STORE && !s.rob[k].ready) ||
      (s.rob[k].ir.kind == FENCE && s.rob[k].ready && s.sbuf != [])
  }

  predicate Issuable(s: Core, i: nat, eu: EU)
    requires Shape(s) && i < RS_SIZE
  {
    && StationReady(s.rs[i], eu)
    && Live(s, s.rs[i].tag)
    && (s.rob[s.rs[i].tag - s.insts].ir.kind == LOAD ==> !Blocked(s, s.rs[i].tag))
  }

  /** The issuable station with the oldest instruction among the first `i`, or -1. */
  function Oldest(s: Core, eu: EU, i: nat): (b: int)
    requires Shape(s) && i <= RS_SIZE
    ensures -1 <= b < i
    ensures b >= 0 ==> Issuable(s, b, eu)
    ensures forall k | 0 <= k < i && Issuable(s, k, eu) :: b >= 0 && s.rs[b].tag <= s.rs[k].tag
  {
    if i == 0 then -1
    else
      var b := Oldest(s, eu, i - 1);
      if Issuable(s, i - 1, eu) && (b == -1 || s.rs[i - 1].tag < s.rs[b].tag) then i - 1 else b
  }

  /** Fill unit `u`, if it is free, from the stations. */
  function IssueSlot(s: Core, u: nat): (t: Core)
    requires Shape(s) && u < NUM_UNITS
    ensures Shape(t)
  {
    if s.units[u].valid then s
    else
      var b := Oldest(s, EuOfUnit(u), RS_SIZE);
      if b == -1 then s
      else
        var x := s.rs[b];
        s.(units := s.units[u := Latch(true, x.tag, x.phys, x.v1, x.v2, false, false)],
           rs := s.rs[b := x.(valid := false)])
  }

  // ------------------------------------------------------------------ rename

  /** The lowest free station among `i..`, or RS_SIZE. */
  function FreeStation(rs: seq<Station>, i: nat): (k: nat)
    requires i <= |rs|
    ensures i <= k <= |rs|
    ensures k < |rs| ==> !rs[k].valid
    ensures forall m | i <= m < k :: rs[m].valid
    decreases |rs| - i
  {
    if i < |rs| && rs[i].valid then FreeStation(rs, i + 1) else i
  }

  datatype Source = Source(ready: bool, value: Word, tag: int)

  /** A source operand, through the speculative map. */
  function ReadSource(s: Core, r: int, lit: Word): Source
    requires Shape(s) && -1 <= r < 32
  {
    if r == -1 then Source(true, lit, 0)
    else if r == 0 then Source(true, 0, 0)
    else
      var t := s.rat[r];
      if s.prf[t].ready then Source(true, s.prf[t].value, t) else Source(false, 0, t)
  }

  predicate CanRename(s: Core)
    requires Shape(s)
  {
    && s.idrn != []
    && (s.idrn[0].ir.serializing ==> s.rob == [])
    && |s.rob| < ROB_SIZE
    && FreeStation(s.rs, 0) < RS_SIZE
    && (s.idrn[0].ir.rd > 0 ==> s.free != [])
  }

  /** The reorder buffer entry of the oldest decoded instruction. */
  function NewEntry(s: Core): Entry
    requires Shape(s) && CanRename(s)
  {
    var f := s.idrn[0];
    Entry(f.ir, f.pc, f.pred, if f.ir.rd > 0 then s.free[0] else f.ir.rd, if f.ir.rd > 0 then s.rat[f.ir.rd] else f.ir.rd,
          false, false, Wrap(f.pc + 4), 0, 0)
  }

  /** Its reservation station. */
  function NewStation(s: Core): Station
    requires Shape(s) && CanRename(s)
  {
    var i := s.idrn[0].ir;
    var a, b := ReadSource(s, i.rs1, i.lit1), ReadSource(s, i.rs2, i.lit2);
    Station(true, s.insts + |s.rob|, NewEntry(s).phys, EuOf(i), a.ready, a.value, a.tag, b.ready, b.value, b.tag)
  }

  /** Rename the oldest decoded instruction into the reorder buffer and a station. */
  function RenameOne(s: Core): (t: Core)
    requires Shape(s)
    ensures Shape(t)
  {
    if !CanRename(s) then s
    else
      var e := NewEntry(s);
      var s1 := s.(idrn := s.idrn[1..], rob := s.rob + [e], rs := s.rs[FreeStation(s.rs, 0) := NewStation(s)]);
      if e.ir.rd <= 0 then s1
      else s1.(rat := s1.rat[e.ir.rd := e.phys], prf := s1.prf[e.phys := Phys(0, false)], free := s1.free[1..])
  }

  // --------------------------------------------------------------- front end

  function Decode(s: Core): Core {
    if s.ifid == [] || s.idrn != [] then s else s.(idrn := s.ifid, ifid := [])
  }

  /** A prediction: the target of a taken branch that hits in the target buffer.  Targets are nonzero. */
  type Target = x: Word | x != 0 witness 1

  datatype Prediction = FallThrough | Goto(target: Target)

  /** Fetch one instruction; fetching of the group goes on only past a sequential instruction. */
  function FetchOne(prog: Program, s: Core, p: Prediction): (Core, bool) {
    var pc := s.fetchPc % 0x1_0000_0000;
    if !InDram(pc) then (s.(fetchPc := Wrap(pc + 4)), false)
    else
      var i := prog(pc);
      if Control(i) && p.Goto? then
        (s.(ifid := s.ifid + [Fetched(i, pc, p.target)], fetchPc := p.target), false)
      else
        (s.(ifid := s.ifid + [Fetched(i, pc, Wrap(pc + 4))], fetchPc := Wrap(pc + 4)), true)
  }

  function Fetch(prog: Program, s: Core, p0: Prediction, p1: Prediction): Core {
    if s.ifid != [] then s
    else
      var (s1, more) := FetchOne(prog, s, p0);
      if more then FetchOne(prog, s1, p1).0 else s1
  }
}
