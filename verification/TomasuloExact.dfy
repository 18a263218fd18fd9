/**
 The engine does no less than it should: what recovery discards is off the path, a load is held back for the reasons
 there are and no others, and fetch and commit use their width.
 */
module TomasuloExact {
  import opened Isa
  import opened Forwarding
  import opened Tomasulo
  import opened TomasuloInvariant
  import opened TomasuloCommit
  import opened TomasuloExecute
  import opened TomasuloRecover
  import opened TomasuloUnits
  import opened TomasuloFront
  import opened TomasuloStructure
  import opened TomasuloTheorem
  import opened TomasuloProgress

  // ------------------------------------------------------------------- recovery

  /** The instruction behind entry `j` of the path is the functional machine's next one. */
  ghost predicate FollowedRightly(f: Path, s: Core, j: nat) {
    j + 1 < |InFlight(s)| && InFlight(s)[j + 1].pc == f.run(s.insts + j + 1).pc
  }

  lemma KeptLength(s: Core, t: Core, u: nat, j: nat, e: Entry, result: Word)
    requires Shape(s) && Ran(s, t, u, j, e, result)
    ensures |InFlight(t)| == |InFlight(s)|
  {
  }

  lemma CutLength(s: Core, t: Core, j: nat)
    requires Shape(s) && j < |s.rob| && Recovered(s, t, j)
    ensures |InFlight(t)| == j + 1
  {
  }

  lemma IntEndsLength(s: Core, r: Core, w: Core, t: Core, u: nat, j: nat, e: Entry, result: Word)
    requires Orderly(s) && Shape(s) && Shape(r) && Shape(w) && IntEnds(s, r, w, t, u, j, e, result) && InDram(e.dnpc)
    ensures |InFlight(t)| == if Mispredicted(e) then j + 1 else |InFlight(s)|
  {
    KeptLength(s, r, u, j, e, result);
    if Mispredicted(e) {
      RanOrderly(s, r, u, j, e, result);
      FlushedRecovers(r, w, j, t);
      CutLength(r, t, j);
    }
  }

  /** Where the instruction behind an unfinished one is, if its prediction is in DRAM. */
  lemma FollowsPrediction(prog: Program, s: Core, j: nat)
    requires Text(prog, s) && Chained(s) && j < |s.rob| && !s.rob[j].ready && InDram(s.rob[j].pred) && j + 1 < |InFlight(s)|
    ensures InFlight(s)[j + 1].pc == s.rob[j].pred
  {
    HeadsAre(s);
    assert ChainedAt(s, j);
  }

  lemma MispredictedIs(prog: Program, s: Core, j: nat, e: Entry)
    requires Text(prog, s) && j < |s.rob| && e.ir == s.rob[j].ir && e.pc == s.rob[j].pc && e.pred == s.rob[j].pred
    requires !Control(e.ir) ==> e.dnpc == Wrap(e.pc + 4)
    ensures Mispredicted(e) <==> e.dnpc != s.rob[j].pred
  {
    TextOfRob(prog, s);
  }

  /** An INT slot recovers exactly if the engine has gone astray behind the instruction it executes: if the
      instruction behind it is the functional machine's next one everything in flight is kept, and if not everything
      behind it is discarded.  (The prediction must be in DRAM; fetching from elsewhere skips on.) */
  lemma RecoversExactly(prog: Program, f: Path, s: Core, u: nat, j: nat)
    requires ValidTrace(prog, f) && Shape(s) && Inv(prog, f, s) && u < 2 && LiveLatch(s, u) && s.units[u].tag == s.insts + j
    requires j < |s.rob| && OnPath(f, s, j) && InDram(s.rob[j].pred) && j + 1 < |InFlight(s)|
    ensures |InFlight(IntSlot(s, u))| == if FollowedRightly(f, s, j) then |InFlight(s)| else j + 1
  {
    LatchRuns(prog, f, s, u);
    AluRuns(prog, f, s, u, j);
    EntrySame(s, u, j);
    var w := IntCases(s, u, j);
    EndsRightly(prog, f, s, RunAlu(s, u), w, IntSlot(s, u), u, j, AluEntry(s, u), AluResult(s, u));
  }

  lemma Astray(prog: Program, f: Path, s: Core, j: nat, e: Entry)
    requires IsTrace(prog, f.run) && Text(prog, s) && Chained(s) && j < |s.rob| && !s.rob[j].ready
    requires InDram(s.rob[j].pred) && j + 1 < |InFlight(s)| && e.dnpc == f.run(s.insts + j).dnpc
    requires e.ir == s.rob[j].ir && e.pc == s.rob[j].pc && e.pred == s.rob[j].pred && (!Control(e.ir) ==> e.dnpc == Wrap(e.pc + 4))
    ensures Mispredicted(e) <==> !FollowedRightly(f, s, j)
  {
    FollowsPrediction(prog, s, j);
    MispredictedIs(prog, s, j, e);
    GoesOn(prog, f.run, s.insts + j);
  }

  lemma TextAndChain(prog: Program, f: Path, s: Core)
    requires Inv(prog, f, s)
    ensures Text(prog, s) && Chained(s)
  {
    Unfold(prog, f, s);
  }

  lemma EntrySame(s: Core, u: nat, j: nat)
    requires Shape(s) && u < NUM_UNITS && Live(s, s.units[u].tag) && j == s.units[u].tag - s.insts
    ensures var e := AluEntry(s, u);
      e.ir == s.rob[j].ir && e.pc == s.rob[j].pc && e.pred == s.rob[j].pred && (!Control(e.ir) ==> e.dnpc == Wrap(e.pc + 4))
  {
  }

  lemma EndsRightly(prog: Program, f: Path, s: Core, r: Core, w: Core, t: Core, u: nat, j: nat, e: Entry, result: Word)
    requires ValidTrace(prog, f) && Shape(s) && Inv(prog, f, s) && Shape(r) && Shape(w) && IntEnds(s, r, w, t, u, j, e, result)
    requires AluFacts(f, s, j, e, result) && OnPath(f, s, j) && InDram(s.rob[j].pred) && j + 1 < |InFlight(s)|
    requires e.ir == s.rob[j].ir && e.pc == s.rob[j].pc && e.pred == s.rob[j].pred && (!Control(e.ir) ==> e.dnpc == Wrap(e.pc + 4))
    ensures |InFlight(t)| == if FollowedRightly(f, s, j) then |InFlight(s)| else j + 1
  {
    InvOrderly(prog, f, s);
    TextAndChain(prog, f, s);
    IntEndsLength(s, r, w, t, u, j, e, result);
    Astray(prog, f, s, j, e);
  }

  // ---------------------------------------------------------------------- issue

  /** What holds a load in entry `j` back: an older store without address or data, or an older executed fence while
      stores wait to drain. */
  ghost predicate HeldUp(s: Core, j: nat) {
    exists k: nat :: k < j && k < |s.rob| && ((s.rob[k].ir.kind == STORE && !s.rob[k].ready)
                                               || (s.rob[k].ir.kind == FENCE && s.rob[k].ready && s.sbuf != []))
  }

  lemma BlockedIs(s: Core, j: nat)
    ensures Blocked(s, s.insts + j) <==> HeldUp(s, j)
  {
    if Blocked(s, s.insts + j) {
      var k :| 0 <= k < |s.rob| && s.insts + k < s.insts + j && ((s.rob[k].ir.kind == STORE && !s.rob[k].ready)
                                                                || (s.rob[k].ir.kind == FENCE && s.rob[k].ready && s.sbuf != []));
      assert k < j;
    }
  }

  /** Station `i` has all it needs for unit `u`. */
  ghost predicate MayGo(s: Core, i: nat, u: nat) {
    && i < |s.rs| && s.rs[i].valid && s.rs[i].r1 && s.rs[i].r2 && s.rs[i].eu == EuOfUnit(u) && Live(s, s.rs[i].tag)
    && (s.rob[s.rs[i].tag - s.insts].ir.kind == LOAD ==> !HeldUp(s, s.rs[i].tag - s.insts))
  }

  lemma IssuableIs(s: Core, i: nat, u: nat)
    requires Shape(s) && i < RS_SIZE
    ensures Issuable(s, i, EuOfUnit(u)) <==> MayGo(s, i, u)
  {
    if Live(s, s.rs[i].tag) { BlockedIs(s, s.rs[i].tag - s.insts); }
  }

  /** Station `b` may go, and none that may is older. */
  ghost predicate OldestThatMay(s: Core, b: nat, u: nat) {
    MayGo(s, b, u) && forall i: nat | MayGo(s, i, u) :: s.rs[b].tag <= s.rs[i].tag
  }

  /** A free unit takes the oldest instruction that may go, and takes one whenever there is one. */
  lemma IssuesExactly(s: Core, u: nat)
    requires Shape(s) && u < NUM_UNITS && !s.units[u].valid
    ensures (exists i: nat :: MayGo(s, i, u)) <==> IssueSlot(s, u).units[u].valid
    ensures IssueSlot(s, u).units[u].valid ==>
      exists b: nat :: OldestThatMay(s, b, u) && IssueSlot(s, u).units[u].tag == s.rs[b].tag && !IssueSlot(s, u).rs[b].valid
  {
    var b := Oldest(s, EuOfUnit(u), RS_SIZE);
    forall i: nat | i < RS_SIZE ensures Issuable(s, i, EuOfUnit(u)) <==> MayGo(s, i, u) { IssuableIs(s, i, u); }
    if b >= 0 {
      assert OldestThatMay(s, b, u);
      IssueMoves(s, u);
    }
  }

  // ----------------------------------------------------------- fetch and commit

  /** Fetching takes two instructions, the second where the first leads, unless the first is predicted to leave the
      group or there is nothing there. */
  lemma FetchesTwo(prog: Program, s: Core, p0: Prediction, p1: Prediction)
    requires s.ifid == [] && InDram(s.fetchPc)
    ensures var t, a := Fetch(prog, s, p0, p1), s.fetchPc;
      && |t.ifid| >= 1 && t.ifid[0].pc == a && t.ifid[0].ir == prog(a)
      && (Control(prog(a)) && p0.Goto? ==> |t.ifid| == 1 && t.ifid[0].pred == p0.target == t.fetchPc)
      && (!(Control(prog(a)) && p0.Goto?) && InDram(a + 4) ==>
            |t.ifid| == 2 && t.ifid[0].pred == a + 4 && t.ifid[1].pc == a + 4 && t.ifid[1].ir == prog(a + 4) && t.ifid[1].pred == t.fetchPc)
  {
    DramIsLow(s.fetchPc);
    if InDram(s.fetchPc + 4) { DramIsLow(s.fetchPc + 4); }
  }

  /** Two finished instructions that need nothing from memory commit in one cycle. */
  lemma CommitsTwo(s: Core, tick: bool)
    requires Shape(s) && |s.rob| >= 2
    requires forall k | 0 <= k < 2 :: s.rob[k].ready && !s.rob[k].fault && s.rob[k].ir.kind !in {STORE, FENCE}
    ensures Front(s, tick).insts == s.insts + 2 && Front(s, tick).rob == s.rob[2..] && Front(s, tick).pc == s.rob[1].dnpc
  {
    var d := Drain(s, tick);
    CommitRetires(d);
    var c := CommitOne(d);
    assert c.rob[0] == s.rob[1];
    CommitRetires(c);
    assert s.rob[1..][1..] == s.rob[2..];
  }

  /** A committing store goes to the end of the store buffer, or at once to memory if it is for a device. */
  lemma StoreLeaves(s: Core)
    requires Shape(s) && CanCommit(s) && s.rob[0].ir.kind == STORE
    ensures var t, e := CommitOne(s), s.rob[0];
      if 0x8000_0000 <= e.addr < 0x8800_0000 then t.sbuf == s.sbuf + [StoreRec(e.addr, e.data, e.ir.width)] && t.mem == s.mem
      else t.sbuf == s.sbuf && t.mem == Store(s.mem, e.addr, e.data, e.ir.width)
  {
  }

  // ---------------------------------------------------------------------- units

  /** Which instructions run where, in every state of every run (`AlwaysOrderly`): multiplications and divisions in the MUL unit, loads and stores in the
      LSU, and all others in the INT units. */
  lemma RunsWhere(s: Core, u: nat)
    requires Shape(s) && Orderly(s) && u < NUM_UNITS && LiveLatch(s, u)
    ensures Live(s, s.units[u].tag)
    ensures s.rob[s.units[u].tag - s.insts].ir.kind == MULDIV <==> u == 2
    ensures s.rob[s.units[u].tag - s.insts].ir.kind in {LOAD, STORE} <==> u >= 3
  {
    LatchIsPlaced(s, u);
    KindOf(s.rob[s.units[u].tag - s.insts].ir, u);
  }

  lemma KindOf(i: Inst, u: nat)
    requires u < NUM_UNITS && EuOf(i) == EuOfUnit(u)
    ensures (i.kind == MULDIV <==> u == 2) && (i.kind in {LOAD, STORE} <==> u >= 3)
  {
  }

  /** A load that completes is marked faulty exactly if its address is neither in DRAM nor a device's. */
  lemma FaultsWhen(s: Core, u: nat, j: nat, a: int)
    requires Shape(s) && 3 <= u < NUM_UNITS && LiveLatch(s, u) && j < |s.rob| && s.units[u].tag == s.insts + j
    requires s.rob[j].ir.kind == LOAD && a == (s.units[u].v1 + s.units[u].v2) % WORD % 0x1_0000_0000
    ensures var t := LsuSlot(s, u, Fill);
      |t.rob| == |s.rob| && t.rob[j].ready && (t.rob[j].fault <==> !(0x8000_0000 <= a < 0x8800_0000) && a < 0xa000_0000)
  {
    LsuLoads(s, u, j);
    RanEntry(s, LsuSlot(s, u, Fill), u, j, LsuEntry(s, u), LsuResult(s, u));
    FaultFlag(s, u, j);
  }

  lemma RanEntry(s: Core, t: Core, u: nat, j: nat, e: Entry, result: Word)
    requires Shape(s) && Ran(s, t, u, j, e, result)
    ensures |t.rob| == |s.rob| && t.rob[j] == e && e.ready
  {
  }

  lemma FaultFlag(s: Core, u: nat, j: nat)
    requires Shape(s) && u < NUM_UNITS && j < |s.rob| && s.units[u].tag == s.insts + j && s.rob[j].ir.kind == LOAD
    ensures LsuEntry(s, u).fault <==> !Accessible((s.units[u].v1 + s.units[u].v2) % WORD)
  {
  }

  /** Recovery drops the younger latches, but for a load whose fill is outstanding: that one stays, for the fill alone. */
  lemma FillsOutstanding(s: Core, j: nat, u: nat)
    requires Shape(s) && j < |s.rob| && u < NUM_UNITS && s.units[u].valid && s.units[u].tag > s.insts + j
    ensures var l := FlushAfter(s, j).units[u];
      if u >= 3 && s.units[u].miss then l.valid && l.flushed else !l.valid
  {
    var w := FlushIs(s, j);
    FillKept(s, w, FlushAfter(s, j), j, u);
  }

  lemma FillKept(s: Core, w: Core, t: Core, j: nat, u: nat)
    requires Shape(s) && Shape(w) && j < |s.rob| && u < NUM_UNITS && UndoneBy(s, w, j + 1) && t == Discard(w, s.insts + j)
    requires s.units[u].valid && s.units[u].tag > s.insts + j
    ensures if u >= 3 && s.units[u].miss then t.units[u].valid && t.units[u].flushed else !t.units[u].valid
  {
    UndoUnits(s, j + 1);
    assert w == Undo(s, j + 1);
    assert t.units[u] == FlushLatch(w.units[u], s.insts + j, EuOfUnit(u));
  }

  lemma {:induction false} UndoUnits(s: Core, k: nat)
    requires Shape(s) && k <= |s.rob|
    ensures Undo(s, k).units == s.units
    decreases |s.rob|
  {
    if k < |s.rob| {
      LastUndonePops(s);
      UndoUnits(LastUndone(s), k);
    }
  }
}
