/** The functional units: INT with misprediction recovery, MUL, and LSU with forwarding. */
module TomasuloUnits {
  import opened Isa
  import opened Forwarding
  import opened Tomasulo
  import opened TomasuloInvariant
  import opened TomasuloCommit
  import opened TomasuloExecute
  import opened TomasuloRecover

  // ------------------------------------------------------------ ALU operations

  function AluEntry(s: Core, u: nat): Entry
    requires Shape(s) && u < NUM_UNITS && Live(s, s.units[u].tag)
  {
    AfterExecute(s.rob[s.units[u].tag - s.insts], s.units[u].v1, s.units[u].v2).(ready := true)
  }

  function AluResult(s: Core, u: nat): Word
    requires Shape(s) && u < NUM_UNITS && Live(s, s.units[u].tag)
  {
    var e := s.rob[s.units[u].tag - s.insts];
    Execute(e.ir, e.pc, s.units[u].v1, s.units[u].v2).result
  }

  lemma AluRan(s: Core, u: nat)
    requires Shape(s) && u < NUM_UNITS && LiveLatch(s, u) && Live(s, s.units[u].tag)
    ensures Ran(s, RunAlu(s, u), u, s.units[u].tag - s.insts, AluEntry(s, u), AluResult(s, u))
  {
  }

  /** An instruction on the path is a valid one, and so is its successor. */
  lemma StepValid(prog: Program, f: Path, s: Core, j: nat)
    requires ValidTrace(prog, f) && j < |s.rob| && OnPath(f, s, j)
    ensures ValidStep(f.run(s.insts + j)) && ValidStep(f.run(s.insts + j + 1))
  {
    assert SameInst(f, s, j);
  }

  /** On the path, the latch holds the functional machine's operands, so it computes the same. */
  lemma LatchComputes(prog: Program, f: Path, s: Core, u: nat, j: nat)
    requires IsTrace(prog, f.run) && ValidStep(f.run(s.insts + j)) && j < |s.rob| && u < |s.units|
    requires s.units[u].tag == s.insts + j && LatchRight(f, s, s.units[u]) && OnPath(f, s, j)
    ensures var e := AfterExecute(s.rob[j], s.units[u].v1, s.units[u].v2);
      && e.dnpc == f.run(s.insts + j).dnpc && e.addr == f.run(s.insts + j).addr && e.data == f.run(s.insts + j).v2 && !e.fault
      && (e.ir.kind != LOAD ==> Execute(e.ir, e.pc, s.units[u].v1, s.units[u].v2).result == f.run(s.insts + j).result)
  {
    assert SameInst(f, s, j);
    assert Genuine(prog, f.run(s.insts + j));
  }

  lemma AluRight(prog: Program, f: Path, s: Core, u: nat)
    requires ValidTrace(prog, f) && Shape(s) && u < NUM_UNITS && Live(s, s.units[u].tag)
    requires LatchRight(f, s, s.units[u]) && s.rob[s.units[u].tag - s.insts].ir.kind != LOAD
    ensures OnPath(f, s, s.units[u].tag - s.insts) ==> RightResult(f.run(s.units[u].tag), AluEntry(s, u), AluResult(s, u))
  {
    var j := s.units[u].tag - s.insts;
    if OnPath(f, s, j) {
      StepValid(prog, f, s, j);
      LatchComputes(prog, f, s, u, j);
    }
  }

  /** An entry that goes where it was predicted to go stays linked to its successor. */
  lemma WellPredicted(prog: Program, s: Core, t: Core, u: nat, j: nat, e: Entry, result: Word)
    requires Shape(s) && Text(prog, s) && Chained(s) && Ran(s, t, u, j, e, result) && !s.rob[j].ready
    requires e.dnpc == s.rob[j].pred || !InDram(e.dnpc)
    ensures Chained(t)
  {
    RanChain(s, t, u, j, e, result);
    assert ChainedAt(t, j);
  }

  lemma PredictionKept(prog: Program, s: Core, j: nat, v1: Word, v2: Word)
    requires Text(prog, s) && j < |s.rob| && !Mispredicted(AfterExecute(s.rob[j], v1, v2))
    ensures AfterExecute(s.rob[j], v1, v2).dnpc == s.rob[j].pred
  {
    TextOfRob(prog, s);
  }

  /** A finished entry that goes where it was predicted to go, or out of range. */
  lemma RanKeeps(prog: Program, f: Path, s: Core, t: Core, u: nat, j: nat, e: Entry, result: Word)
    requires IsTrace(prog, f.run) && Full(prog, f, s) && Ran(s, t, u, j, e, result) && Shape(t) && !s.rob[j].ready
    requires OnPath(f, s, j) ==> RightResult(f.run(s.insts + j), e, result)
    requires e.dnpc == s.rob[j].pred || !InDram(e.dnpc)
    ensures Full(prog, f, t)
  {
    RanSound(prog, f, s, t, u, j, e, result);
    WellPredicted(prog, s, t, u, j, e, result);
  }

  /** A finished entry that was mispredicted, and the recovery from it. */
  lemma RanRecovers(prog: Program, f: Path, s: Core, s1: Core, w: Core, t: Core, u: nat, j: nat, e: Entry, result: Word)
    requires IsTrace(prog, f.run) && Full(prog, f, s) && Ran(s, s1, u, j, e, result) && Shape(s1) && !s.rob[j].ready
    requires OnPath(f, s, j) ==> RightResult(f.run(s.insts + j), e, result)
    requires UndoneBy(s1, w, j + 1) && Shape(w) && t == Discard(w, s1.insts + j).(fetchPc := e.dnpc)
    ensures Full(prog, f, t)
  {
    RanSound(prog, f, s, s1, u, j, e, result);
    RanChain(s, s1, u, j, e, result);
    UndoFacts(s1, w, j + 1);
    RecoveryKeeps(prog, f, s1, w, j, t);
  }

  /** What is known of an instruction in a latch. */
  ghost predicate InLatch(f: Path, s: Core, u: nat, j: nat)
    requires Shape(s)
  {
    && u < NUM_UNITS && LiveLatch(s, u) && s.units[u].tag == s.insts + j && j < |s.rob| && !s.rob[j].ready
    && EuOf(s.rob[j].ir) == EuOfUnit(u) && (s.rob[j].ir.kind == LOAD ==> OlderStoresReady(s, j))
    && LatchRight(f, s, s.units[u])
  }

  lemma LatchFacts(f: Path, s: Core, u: nat)
    requires Shape(s) && Placed(s) && Operands(f, s) && u < NUM_UNITS && LiveLatch(s, u)
    ensures Live(s, s.units[u].tag) && InLatch(f, s, u, s.units[u].tag - s.insts)
  {
    assert LatchPlaced(s, s.units[u], EuOfUnit(u));
  }

  /** What executing the latch gives, as far as the rest of the engine is concerned. */
  ghost predicate AluFacts(f: Path, s: Core, j: nat, e: Entry, result: Word)
    requires j < |s.rob|
  {
    && !s.rob[j].ready
    && (OnPath(f, s, j) ==> RightResult(f.run(s.insts + j), e, result) && InDram(e.dnpc))
    && (!Mispredicted(e) ==> e.dnpc == s.rob[j].pred)
  }

  lemma AluOnPath(prog: Program, f: Path, s: Core, u: nat, j: nat)
    requires ValidTrace(prog, f) && Shape(s) && u < 3 && InLatch(f, s, u, j) && OnPath(f, s, j)
    ensures RightResult(f.run(s.insts + j), AluEntry(s, u), AluResult(s, u)) && InDram(AluEntry(s, u).dnpc)
  {
    AluRight(prog, f, s, u);
    TraceStep(prog, f.run, s.insts + j);
    StepValid(prog, f, s, j);
  }

  lemma AluComputes(prog: Program, f: Path, s: Core, u: nat, j: nat)
    requires ValidTrace(prog, f) && Shape(s) && Text(prog, s) && u < 3 && InLatch(f, s, u, j)
    ensures AluFacts(f, s, j, AluEntry(s, u), AluResult(s, u))
  {
    if OnPath(f, s, j) { AluOnPath(prog, f, s, u, j); }
    if !Mispredicted(AluEntry(s, u)) { PredictionKept(prog, s, j, s.units[u].v1, s.units[u].v2); }
  }

  lemma Completed(prog: Program, f: Path, s: Core, t: Core, u: nat, j: nat, e: Entry, result: Word)
    requires IsTrace(prog, f.run) && Shape(s) && Inv(prog, f, s) && Ran(s, t, u, j, e, result) && Shape(t) && !s.rob[j].ready
    requires OnPath(f, s, j) ==> RightResult(f.run(s.insts + j), e, result)
    requires e.dnpc == s.rob[j].pred || !InDram(e.dnpc)
    ensures Inv(prog, f, t)
  {
    Unfold(prog, f, s);
    RanKeeps(prog, f, s, t, u, j, e, result);
    Fold(prog, f, t);
  }

  lemma CompletedElsewhere(prog: Program, f: Path, s: Core, s1: Core, w: Core, t: Core, u: nat, j: nat, e: Entry, result: Word)
    requires IsTrace(prog, f.run) && Shape(s) && Inv(prog, f, s) && Ran(s, s1, u, j, e, result) && Shape(s1) && !s.rob[j].ready
    requires OnPath(f, s, j) ==> RightResult(f.run(s.insts + j), e, result)
    requires UndoneBy(s1, w, j + 1) && Shape(w) && t == Discard(w, s1.insts + j).(fetchPc := e.dnpc)
    ensures Inv(prog, f, t)
  {
    Unfold(prog, f, s);
    RanRecovers(prog, f, s, s1, w, t, u, j, e, result);
    Fold(prog, f, t);
  }

  /** The three ways an INT instruction can end. */
  ghost predicate IntEnds(s: Core, s1: Core, w: Core, t: Core, u: nat, j: nat, e: Entry, result: Word)
    requires Shape(s) && Shape(s1) && Shape(w)
  {
    && Ran(s, s1, u, j, e, result)
    && (!Mispredicted(e) ==> t == s1)
    && (Mispredicted(e) && !InDram(e.dnpc) ==> Ran(s, t, u, j, e.(fault := true), result))
    && (Mispredicted(e) && InDram(e.dnpc) ==>
          UndoneBy(s1, w, j + 1) && t == Discard(w, s1.insts + j).(fetchPc := e.dnpc))
  }

  lemma RunAluIs(s: Core, u: nat, j: nat)
    requires Shape(s) && u < 2 && s.units[u].tag == s.insts + j && j < |s.rob|
    ensures RunAlu(s, u).insts == s.insts && |RunAlu(s, u).rob| == |s.rob|
    ensures RunAlu(s, u).rob[j] == AluEntry(s, u)
  {
  }

  lemma IntSlotIs(s: Core, u: nat)
    requires Shape(s) && u < 2 && Holding(s, u)
    ensures IntSlot(s, u) == Resolve(RunAlu(s, u), s.units[u].tag - s.insts)
  {
  }

  lemma ResolveCases(r: Core, j: nat, t: Core) returns (w: Core)
    requires Shape(r) && j < |r.rob| && t == Resolve(r, j)
    ensures Shape(w)
    ensures !Mispredicted(r.rob[j]) ==> t == r
    ensures Mispredicted(r.rob[j]) && !InDram(r.rob[j].dnpc) ==> t == r.(rob := r.rob[j := r.rob[j].(fault := true)])
    ensures Mispredicted(r.rob[j]) && InDram(r.rob[j].dnpc) ==>
      UndoneBy(r, w, j + 1) && t == Discard(w, r.insts + j).(fetchPc := r.rob[j].dnpc)
  {
    w := FlushIs(r, j);
  }

  lemma RanFaulty(s: Core, r: Core, t: Core, u: nat, j: nat, e: Entry, result: Word)
    requires Shape(s) && Ran(s, r, u, j, e, result) && t == r.(rob := r.rob[j := e.(fault := true)])
    ensures Ran(s, t, u, j, e.(fault := true), result)
  {
  }

  lemma IntCasesOf(s: Core, r: Core, t: Core, u: nat, j: nat, e: Entry, result: Word) returns (w: Core)
    requires Shape(s) && Shape(r) && Ran(s, r, u, j, e, result) && j < |r.rob| && r.rob[j] == e && t == Resolve(r, j)
    ensures Shape(w) && IntEnds(s, r, w, t, u, j, e, result)
  {
    w := ResolveCases(r, j, t);
    if Mispredicted(e) && !InDram(e.dnpc) { RanFaulty(s, r, t, u, j, e, result); }
  }

  lemma IntCases(s: Core, u: nat, j: nat) returns (w: Core)
    requires Shape(s) && u < 2 && LiveLatch(s, u) && s.units[u].tag == s.insts + j && j < |s.rob|
    ensures Shape(w) && IntEnds(s, RunAlu(s, u), w, IntSlot(s, u), u, j, AluEntry(s, u), AluResult(s, u))
  {
    AluRan(s, u);
    RunAluIs(s, u, j);
    IntSlotIs(s, u);
    w := IntCasesOf(s, RunAlu(s, u), IntSlot(s, u), u, j, AluEntry(s, u), AluResult(s, u));
  }

  lemma IntEnded(prog: Program, f: Path, s: Core, s1: Core, w: Core, t: Core, u: nat, j: nat, e: Entry, result: Word)
    requires IsTrace(prog, f.run) && Shape(s) && Inv(prog, f, s) && Shape(s1) && Shape(w) && Shape(t)
    requires IntEnds(s, s1, w, t, u, j, e, result) && AluFacts(f, s, j, e, result)
    ensures Inv(prog, f, t)
  {
    if !Mispredicted(e) {
      Completed(prog, f, s, t, u, j, e, result);
    } else if !InDram(e.dnpc) {
      Completed(prog, f, s, t, u, j, e.(fault := true), result);
    } else {
      CompletedElsewhere(prog, f, s, s1, w, t, u, j, e, result);
    }
  }

  lemma LatchRuns(prog: Program, f: Path, s: Core, u: nat)
    requires Shape(s) && Inv(prog, f, s) && u < NUM_UNITS && LiveLatch(s, u)
    ensures Live(s, s.units[u].tag) && InLatch(f, s, u, s.units[u].tag - s.insts)
  {
    Unfold(prog, f, s);
    LatchFacts(f, s, u);
  }

  lemma TextOf(prog: Program, f: Path, s: Core)
    requires Inv(prog, f, s)
    ensures Text(prog, s)
  {
    Unfold(prog, f, s);
  }

  lemma AluRuns(prog: Program, f: Path, s: Core, u: nat, j: nat)
    requires ValidTrace(prog, f) && Shape(s) && Inv(prog, f, s) && u < 3 && InLatch(f, s, u, j)
    ensures AluFacts(f, s, j, AluEntry(s, u), AluResult(s, u))
  {
    TextOf(prog, f, s);
    AluComputes(prog, f, s, u, j);
  }

  lemma LatchesKept(prog: Program, f: Path, s: Core, u: nat)
    requires Inv(prog, f, s) && u < NUM_UNITS
    ensures Shape(s) && (EuOfUnit(u) != LSU ==> !s.units[u].flushed)
  {
    Unfold(prog, f, s);
  }

  /** One INT slot keeps the invariant, whatever the instruction and whatever was predicted. */
  lemma IntKeeps(prog: Program, f: Path, s: Core, u: nat)
    requires ValidTrace(prog, f) && Shape(s) && Inv(prog, f, s) && u < 2
    ensures Inv(prog, f, IntSlot(s, u))
  {
    LatchesKept(prog, f, s, u);
    if s.units[u].valid {
      var j := s.units[u].tag - s.insts;
      LatchRuns(prog, f, s, u);
      AluRuns(prog, f, s, u, j);
      var w := IntCases(s, u, j);
      IntEnded(prog, f, s, RunAlu(s, u), w, IntSlot(s, u), u, j, AluEntry(s, u), AluResult(s, u));
    }
  }

  lemma NeverMispredicts(s: Core, u: nat)
    requires Shape(s) && u < NUM_UNITS && Live(s, s.units[u].tag)
    requires EuOf(s.rob[s.units[u].tag - s.insts].ir) == MUL
    ensures !Mispredicted(AluEntry(s, u))
  {
  }

  lemma MulRan(s: Core, t: Core)
    requires Shape(s) && LiveLatch(s, 2) && Live(s, s.units[2].tag) && t == RunAlu(s, 2)
    requires EuOf(s.rob[s.units[2].tag - s.insts].ir) == MUL
    ensures Ran(s, t, 2, s.units[2].tag - s.insts, AluEntry(s, 2), AluResult(s, 2)) && !Mispredicted(AluEntry(s, 2))
  {
    NeverMispredicts(s, 2);
    AluRan(s, 2);
  }

  lemma MulRuns(prog: Program, f: Path, s: Core, t: Core, j: nat)
    requires ValidTrace(prog, f) && Shape(s) && Inv(prog, f, s) && InLatch(f, s, 2, j) && t == RunAlu(s, 2)
    ensures Inv(prog, f, t)
  {
    MulRan(s, t);
    AluRuns(prog, f, s, 2, j);
    Completed(prog, f, s, t, 2, j, AluEntry(s, 2), AluResult(s, 2));
  }

  lemma MulKeeps(prog: Program, f: Path, s: Core, done: bool)
    requires ValidTrace(prog, f) && Shape(s) && Inv(prog, f, s)
    ensures Inv(prog, f, MulSlot(s, done))
  {
    LatchesKept(prog, f, s, 2);
    if s.units[2].valid && done {
      LatchRuns(prog, f, s, 2);
      MulRuns(prog, f, s, MulSlot(s, done), s.units[2].tag - s.insts);
    }
  }

  // --------------------------------------------------------------------- LSU

  /** The store of an entry, if it is one. */
  function StoredBy(e: Entry): seq<StoreRec> { if e.ir.kind == STORE then [StoreOf(e)] else [] }

  /** One more entry on the path: its store, if it is one, and nothing else changes memory. */
  lemma MemoryNext(prog: Program, f: Path, s: Core, j: nat, sts: seq<StoreRec>)
    requires IsTrace(prog, f.run) && Shape(s) && j < |s.rob| && SameInst(f, s, j) && PerformAll(s.mem, sts) == f.run(s.insts + j).mem
    requires s.rob[j].ir.kind == STORE ==> DoneAt(f.run(s.insts + j), s.rob[j], s.prf)
    ensures PerformAll(s.mem, sts + StoredBy(s.rob[j])) == f.run(s.insts + j + 1).mem
  {
    var e := s.rob[j];
    TraceStep(prog, f.run, s.insts + j);
    if e.ir.kind == STORE {
      PerformAllAppend(s.mem, sts, [StoreOf(e)]);
      PerformOne(PerformAll(s.mem, sts), StoreOf(e));
    } else {
      assert sts + StoredBy(e) == sts;
    }
  }

  lemma PendingStep(s: Core, j: nat)
    requires Shape(s) && j < |s.rob| && (s.rob[j].ir.kind == STORE ==> s.rob[j].ready) && Sized(Pending(s, j))
    ensures Pending(s, j + 1) == Pending(s, j) + StoredBy(s.rob[j]) && Sized(Pending(s, j + 1))
  {
    assert RobStores(s.rob, j + 1) == RobStores(s.rob, j) + StoredBy(s.rob[j]);
  }

  /** Memory with all pending older stores on top is what the functional machine reads. */
  lemma {:induction false} MemoryAt(prog: Program, f: Path, s: Core, j: nat)
    requires IsTrace(prog, f.run) && Shape(s) && Done(f, s) && CommittedMem(f, s)
    requires j <= |s.rob| && OnPath(f, s, j - 1) && OlderStoresReady(s, j)
    ensures PerformAll(s.mem, Pending(s, j)) == f.run(s.insts + j).mem
    ensures Sized(Pending(s, j))
    decreases j
  {
    if j == 0 {
      assert Pending(s, 0) == s.sbuf;
    } else {
      assert OnPath(f, s, j - 2) by { assert forall k: nat | k <= j - 2 :: SameInst(f, s, k); }
      MemoryAt(prog, f, s, j - 1);
      assert SameInst(f, s, j - 1) && FinishedRight(f, s, j - 1);
      PendingStep(s, j - 1);
      MemoryNext(prog, f, s, j - 1, Pending(s, j - 1));
    }
  }

  lemma PerformOne(m: Mem, st: StoreRec)
    ensures PerformAll(m, [st]) == Perform(m, st)
  {
    assert PerformAll(m, [st]) == PerformAll(Perform(m, st), []);
  }

  /** The run-time condition: at a fill, the newest pending store that touches the load covers it. */
  ghost predicate FillSafe(f: Path, s: Core, u: nat) {
    u < |s.units| && LiveLatch(s, u) && Live(s, s.units[u].tag) && OnPath(f, s, s.units[u].tag - s.insts)
    && f.run(s.units[u].tag).ir.kind == LOAD ==>
      Safe(Pending(s, s.units[u].tag - s.insts), f.run(s.units[u].tag).addr, f.run(s.units[u].tag).ir.width)
  }

  lemma LoadRight(prog: Program, f: Path, s: Core, j: nat)
    requires IsTrace(prog, f.run) && Shape(s) && Done(f, s) && CommittedMem(f, s)
    requires j < |s.rob| && OnPath(f, s, j) && OlderStoresReady(s, j) && s.rob[j].ir.kind == LOAD
    requires Safe(Pending(s, j), f.run(s.insts + j).addr, f.run(s.insts + j).ir.width)
    ensures LoadValue(s, j, f.run(s.insts + j).addr) == f.run(s.insts + j).result
  {
    assert SameInst(f, s, j);
    assert Genuine(prog, f.run(s.insts + j));
    assert OnPath(f, s, j - 1) by { assert forall k: nat | k <= j - 1 :: SameInst(f, s, k); }
    var i := s.rob[j].ir;
    var a := f.run(s.insts + j).addr;
    MemoryAt(prog, f, s, j);
    ForwardCorrect(s.mem, Pending(s, j), a, i.width, i.signed);
    ForwardAppend(Load(s.mem, a, i.width, i.signed), s.sbuf, RobStores(s.rob, j), a, i.width, i.signed);
  }

  function LsuEntry(s: Core, u: nat): Entry
    requires Shape(s) && u < NUM_UNITS && Live(s, s.units[u].tag)
  {
    AluEntry(s, u).(fault := AluEntry(s, u).ir.kind != STORE && (AluEntry(s, u).fault || !Accessible(AluEntry(s, u).addr)))
  }

  function LsuResult(s: Core, u: nat): Word
    requires Shape(s) && u < NUM_UNITS && Live(s, s.units[u].tag)
  {
    var e := AluEntry(s, u);
    if e.ir.kind == STORE then 0
    else if !Accessible(e.addr) then Faulted(s, e.phys)
    else LoadValue(s, s.units[u].tag - s.insts, e.addr)
  }

  lemma LsuStores(s: Core, u: nat, j: nat, act: LsuAction)
    requires Shape(s) && 3 <= u < NUM_UNITS && LiveLatch(s, u) && s.units[u].tag == s.insts + j && j < |s.rob|
    requires s.rob[j].ir.kind == STORE && s.rob[j].phys == -1
    ensures Ran(s, LsuSlot(s, u, act), u, j, LsuEntry(s, u), LsuResult(s, u))
  {
  }

  lemma LoadRan(s: Core, t: Core, u: nat, j: nat, e: Entry, result: Word)
    requires Shape(s) && u < NUM_UNITS && LiveLatch(s, u) && s.units[u].tag == s.insts + j && j < |s.rob|
    requires e == AfterExecute(s.rob[j], s.units[u].v1, s.units[u].v2).(fault := e.fault)
    requires t == Finish(s.(units := s.units[u := s.units[u].(valid := false)]), j, e, result)
    ensures Ran(s, t, u, j, e.(ready := true), result)
  {
  }

  lemma LsuLoads(s: Core, u: nat, j: nat)
    requires Shape(s) && 3 <= u < NUM_UNITS && LiveLatch(s, u) && s.units[u].tag == s.insts + j && j < |s.rob|
    requires s.rob[j].ir.kind == LOAD
    ensures Ran(s, LsuSlot(s, u, Fill), u, j, LsuEntry(s, u), LsuResult(s, u))
  {
    var x := AfterExecute(s.rob[j], s.units[u].v1, s.units[u].v2);
    var e := x.(fault := !Accessible(x.addr));
    LoadRan(s, LsuSlot(s, u, Fill), u, j, e, LsuResult(s, u));
  }

  lemma DramIsAccessible(a: Word)
    requires InDram(a)
    ensures Accessible(a)
  {
  }

  lemma LsuResultIs(s: Core, u: nat, a: Word)
    requires Shape(s) && u < NUM_UNITS && Live(s, s.units[u].tag) && AluEntry(s, u).ir.kind == LOAD
    requires AluEntry(s, u).addr == a && Accessible(a)
    ensures LsuResult(s, u) == LoadValue(s, s.units[u].tag - s.insts, a)
    ensures LsuEntry(s, u).fault == AluEntry(s, u).fault
  {
  }

  lemma LsuLoadRight(prog: Program, f: Path, s: Core, u: nat, j: nat)
    requires ValidTrace(prog, f) && Shape(s) && Done(f, s) && CommittedMem(f, s) && u >= 3 && InLatch(f, s, u, j)
    requires s.rob[j].ir.kind == LOAD && FillSafe(f, s, u) && OnPath(f, s, j)
    requires AluEntry(s, u).addr == f.run(s.insts + j).addr && InDram(f.run(s.insts + j).addr)
    ensures LsuResult(s, u) == f.run(s.insts + j).result && LsuEntry(s, u).fault == AluEntry(s, u).fault
  {
    assert SameInst(f, s, j);
    DramIsAccessible(f.run(s.insts + j).addr);
    LsuResultIs(s, u, f.run(s.insts + j).addr);
    LoadRight(prog, f, s, j);
  }

  lemma LsuEntryRight(x: Executed, s: Core, u: nat, j: nat)
    requires Shape(s) && u < NUM_UNITS && s.units[u].tag == s.insts + j && j < |s.rob|
    requires s.rob[j].ir.kind == STORE || (s.rob[j].ir.kind == LOAD && LsuResult(s, u) == x.result
                                           && LsuEntry(s, u).fault == AluEntry(s, u).fault)
    requires var e := AluEntry(s, u); e.dnpc == x.dnpc && e.addr == x.addr && e.data == x.v2 && !e.fault
    ensures RightResult(x, LsuEntry(s, u), LsuResult(s, u))
  {
  }

  lemma LsuRight(prog: Program, f: Path, s: Core, u: nat, j: nat)
    requires ValidTrace(prog, f) && Shape(s) && Done(f, s) && CommittedMem(f, s) && u >= 3 && InLatch(f, s, u, j)
    requires s.rob[j].ir.kind == LOAD ==> FillSafe(f, s, u)
    ensures OnPath(f, s, j) ==> RightResult(f.run(s.insts + j), LsuEntry(s, u), LsuResult(s, u))
  {
    if OnPath(f, s, j) {
      StepValid(prog, f, s, j);
      LatchComputes(prog, f, s, u, j);
      assert SameInst(f, s, j);
      if s.rob[j].ir.kind == LOAD { LsuLoadRight(prog, f, s, u, j); }
      LsuEntryRight(f.run(s.insts + j), s, u, j);
    }
  }

  // ---------------------------------------------- steps that change a latch only

  /** Latch `u` is dropped, or only its miss flag changes. */
  ghost predicate LatchTouched(s: Core, t: Core, u: nat)
    requires Shape(s) && u < NUM_UNITS
  {
    t == s.(units := t.units) && |t.units| == NUM_UNITS
    && (forall v | 0 <= v < NUM_UNITS && v != u :: t.units[v] == s.units[v])
    && (t.units[u] == s.units[u].(valid := false) || t.units[u] == s.units[u].(miss := true))
  }

  lemma TouchedDistinct(s: Core, t: Core, u: nat)
    requires Shape(s) && TagsDistinct(s) && u < NUM_UNITS && LatchTouched(s, t, u) && Shape(t)
    ensures TagsDistinct(t)
  {
    forall v: nat | v < NUM_UNITS && LiveLatch(t, v) ensures LiveLatch(s, v) && t.units[v].tag == s.units[v].tag {}
  }

  lemma TouchedPlaced(s: Core, t: Core, u: nat)
    requires Shape(s) && Placed(s) && u < NUM_UNITS && LatchTouched(s, t, u) && Shape(t)
    ensures Placed(t)
  {
    TouchedDistinct(s, t, u);
    forall v | 0 <= v < NUM_UNITS && LiveLatch(t, v) ensures LatchPlaced(t, t.units[v], EuOfUnit(v)) {
      assert LiveLatch(s, v) && LatchPlaced(s, s.units[v], EuOfUnit(v));
    }
  }

  lemma TouchedPath(f: Path, s: Core, t: Core, k: nat)
    requires t.rob == s.rob && t.insts == s.insts && k < |s.rob|
    ensures OnPath(f, s, k) <==> OnPath(f, t, k)
  {
    assert forall l: nat | l <= k :: SameInst(f, s, l) == SameInst(f, t, l);
  }

  lemma TouchedOperands(f: Path, s: Core, t: Core, u: nat)
    requires Shape(s) && Operands(f, s) && u < NUM_UNITS && LatchTouched(s, t, u) && Shape(t)
    ensures Operands(f, t)
  {
    forall i | 0 <= i < RS_SIZE && t.rs[i].valid ensures StationRight(f, t, t.rs[i]) {
      assert StationRight(f, s, s.rs[i]);
      TouchedPath(f, s, t, t.rs[i].tag - t.insts);
    }
    forall v | 0 <= v < NUM_UNITS && LiveLatch(t, v) ensures LatchRight(f, t, t.units[v]) {
      assert LiveLatch(s, v) && LatchRight(f, s, s.units[v]);
      TouchedPath(f, s, t, t.units[v].tag - t.insts);
    }
  }

  lemma TouchedDone(f: Path, s: Core, t: Core, u: nat)
    requires Shape(s) && Done(f, s) && u < NUM_UNITS && LatchTouched(s, t, u) && Shape(t)
    ensures Done(f, t)
  {
    forall k: nat | k < |t.rob| ensures FinishedRight(f, t, k) {
      assert FinishedRight(f, s, k);
      TouchedPath(f, s, t, k);
    }
  }

  lemma TouchedWaiting(s: Core, t: Core, u: nat)
    requires Shape(s) && Waiting(s) && u < NUM_UNITS && LatchTouched(s, t, u) && Shape(t)
    ensures Waiting(t)
  {
    forall i | 0 <= i < RS_SIZE && t.rs[i].valid ensures StationWaits(t, t.rs[i]) {
      assert StationWaits(s, s.rs[i]);
    }
  }

  lemma TouchedChain(s: Core, t: Core, u: nat)
    requires Shape(s) && Chained(s) && u < NUM_UNITS && LatchTouched(s, t, u)
    ensures Chained(t)
  {
    assert InFlight(t) == InFlight(s);
    forall k | 0 <= k < |InFlight(t)| ensures ChainedAt(t, k) { assert ChainedAt(s, k); }
  }

  lemma TouchedKeeps(prog: Program, f: Path, s: Core, t: Core, u: nat)
    requires Full(prog, f, s) && u < NUM_UNITS && LatchTouched(s, t, u) && Shape(t)
    ensures Full(prog, f, t)
  {
    RenamedFrame(s, t);
    TouchedPlaced(s, t, u);
    TouchedWaiting(s, t, u);
    TouchedOperands(f, s, t, u);
    TouchedDone(f, s, t, u);
    TouchedChain(s, t, u);
    assert InFlight(t) == InFlight(s);
  }

  lemma LsuComputes(prog: Program, f: Path, s: Core, u: nat, j: nat)
    requires ValidTrace(prog, f) && Shape(s) && Text(prog, s) && Done(f, s) && CommittedMem(f, s)
    requires u >= 3 && InLatch(f, s, u, j) && (s.rob[j].ir.kind == LOAD ==> FillSafe(f, s, u))
    ensures OnPath(f, s, j) ==> RightResult(f.run(s.insts + j), LsuEntry(s, u), LsuResult(s, u))
    ensures LsuEntry(s, u).dnpc == s.rob[j].pred
  {
    LsuRight(prog, f, s, u, j);
    PredictionKept(prog, s, j, s.units[u].v1, s.units[u].v2);
  }

  lemma LsuCompletes(prog: Program, f: Path, s: Core, t: Core, u: nat, j: nat)
    requires ValidTrace(prog, f) && Shape(s) && Inv(prog, f, s) && Shape(t) && u >= 3 && InLatch(f, s, u, j)
    requires Ran(s, t, u, j, LsuEntry(s, u), LsuResult(s, u))
    requires s.rob[j].ir.kind == LOAD ==> FillSafe(f, s, u)
    ensures Inv(prog, f, t)
  {
    Unfold(prog, f, s);
    LsuComputes(prog, f, s, u, j);
    Completed(prog, f, s, t, u, j, LsuEntry(s, u), LsuResult(s, u));
  }

  lemma LatchOnly(prog: Program, f: Path, s: Core, t: Core, u: nat)
    requires Shape(s) && Inv(prog, f, s) && u < NUM_UNITS && LatchTouched(s, t, u) && Shape(t)
    ensures Inv(prog, f, t)
  {
    Unfold(prog, f, s);
    TouchedKeeps(prog, f, s, t, u);
    Fold(prog, f, t);
  }

  lemma NoDestination(prog: Program, f: Path, s: Core, j: nat)
    requires Shape(s) && Inv(prog, f, s) && j < |s.rob|
    ensures s.rob[j].ir.rd <= 0 ==> s.rob[j].phys == s.rob[j].ir.rd
  {
    Unfold(prog, f, s);
  }

  lemma LsuLive(prog: Program, f: Path, s: Core, u: nat, act: LsuAction)
    requires ValidTrace(prog, f) && Shape(s) && Inv(prog, f, s) && 3 <= u < NUM_UNITS && LiveLatch(s, u)
    requires act == Fill ==> FillSafe(f, s, u)
    ensures Inv(prog, f, LsuSlot(s, u, act))
  {
    var j := s.units[u].tag - s.insts;
    var t := LsuSlot(s, u, act);
    LatchRuns(prog, f, s, u);
    NoDestination(prog, f, s, j);
    if s.rob[j].ir.kind == STORE {
      LsuStores(s, u, j, act);
      LsuCompletes(prog, f, s, t, u, j);
    } else if act == Fill {
      LsuLoads(s, u, j);
      LsuCompletes(prog, f, s, t, u, j);
    } else if act == Miss {
      LatchOnly(prog, f, s, t, u);
    }
  }

  /** One LSU slot keeps the invariant, for any timing of cache misses. */
  lemma LsuKeeps(prog: Program, f: Path, s: Core, u: nat, act: LsuAction)
    requires ValidTrace(prog, f) && Shape(s) && Inv(prog, f, s) && 3 <= u < NUM_UNITS
    requires act == Fill ==> FillSafe(f, s, u)
    ensures Inv(prog, f, LsuSlot(s, u, act))
  {
    var l := s.units[u];
    if LiveLatch(s, u) {
      LsuLive(prog, f, s, u, act);
    } else if l.valid && (!l.miss || act == Fill) {
      LatchOnly(prog, f, s, LsuSlot(s, u, act), u);
    }
  }
}
