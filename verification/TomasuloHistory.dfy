/**
 Recovery seen over a whole run.

 A run is followed one stage at a time.  An instruction that is in the reorder buffer all the while keeps its
 place in the renaming, so recovering from it brings back the register map as it was when it was renamed.
 */
module TomasuloHistory {
  import opened Isa
  import opened Tomasulo
  import opened TomasuloInvariant
  import opened TomasuloCommit
  import opened TomasuloExecute
  import opened TomasuloRecover
  import opened TomasuloUnits
  import opened TomasuloFront
  import opened TomasuloStructure
  import opened TomasuloTheorem
  import opened OooStages

  // ---------------------------------------------------------------- one stage

  /** The entries in both states name the same instructions and registers. */
  ghost predicate Carried(s: Core, t: Core) {
    && t.insts == s.insts && t.rrat == s.rrat
    && forall k | 0 <= k < |s.rob| && k < |t.rob| ::
         t.rob[k].ir == s.rob[k].ir && t.rob[k].pc == s.rob[k].pc && t.rob[k].phys == s.rob[k].phys
  }

  lemma RanCarried(s: Core, t: Core, u: nat, j: nat, e: Entry, result: Word)
    requires Shape(s) && Ran(s, t, u, j, e, result)
    ensures Carried(s, t) && |t.rob| == |s.rob|
  {
  }

  lemma CutCarried(s: Core, r: Core, w: Core, t: Core, tag: int, k: nat, target: Word)
    requires Carried(s, r) && |r.rob| == |s.rob| && k <= |r.rob| && Undone(r, w, k) && Shape(w)
    requires t == Discard(w, tag).(fetchPc := target)
    ensures Carried(s, t)
  {
  }

  lemma UndoCarried(s: Core, r: Core, w: Core, t: Core, j: nat, target: Word)
    requires Shape(r) && Orderly(r) && Carried(s, r) && |r.rob| == |s.rob| && j < |r.rob| && UndoneBy(r, w, j + 1) && Shape(w)
    requires t == Discard(w, r.insts + j).(fetchPc := target)
    ensures Carried(s, t)
  {
    assert Has(Naming, r);
    UndoFacts(r, w, j + 1);
    CutCarried(s, r, w, t, r.insts + j, j + 1, target);
  }

  lemma IntEndsCarried(s: Core, r: Core, w: Core, t: Core, u: nat, j: nat, e: Entry, result: Word)
    requires Orderly(s) && Shape(s) && Shape(r) && Shape(w) && IntEnds(s, r, w, t, u, j, e, result)
    ensures Carried(s, t)
  {
    RanCarried(s, r, u, j, e, result);
    if Mispredicted(e) && !InDram(e.dnpc) {
      RanCarried(s, t, u, j, e.(fault := true), result);
    } else if Mispredicted(e) {
      RanOrderly(s, r, u, j, e, result);
      UndoCarried(s, r, w, t, j, e.dnpc);
    }
  }

  lemma IntCarried(s: Core, u: nat)
    requires Shape(s) && Orderly(s) && u < 2
    ensures Carried(s, IntSlot(s, u))
  {
    OnlyLoadsFlushed(s, u);
    if s.units[u].valid {
      LatchIsPlaced(s, u);
      var j := s.units[u].tag - s.insts;
      var w := IntCases(s, u, j);
      IntEndsCarried(s, RunAlu(s, u), w, IntSlot(s, u), u, j, AluEntry(s, u), AluResult(s, u));
    }
  }

  lemma AluCarried(s: Core, u: nat)
    requires Shape(s) && Orderly(s) && u < NUM_UNITS && LiveLatch(s, u)
    ensures Live(s, s.units[u].tag) && Carried(s, RunAlu(s, u))
  {
    LatchIsPlaced(s, u);
    AluRan(s, u);
    RanCarried(s, RunAlu(s, u), u, s.units[u].tag - s.insts, AluEntry(s, u), AluResult(s, u));
  }

  lemma MulCarried(s: Core, done: bool)
    requires Shape(s) && Orderly(s)
    ensures Carried(s, MulSlot(s, done))
  {
    OnlyLoadsFlushed(s, 2);
    if s.units[2].valid && done {
      AluCarried(s, 2);
    }
  }

  lemma LsuLiveCarried(s: Core, u: nat, act: LsuAction)
    requires Shape(s) && Orderly(s) && 3 <= u < NUM_UNITS && LiveLatch(s, u)
    ensures Carried(s, LsuSlot(s, u, act))
  {
    LatchIsPlaced(s, u);
    var j := s.units[u].tag - s.insts;
    if s.rob[j].ir.kind == STORE {
      NoDestinationOf(s, j);
      LsuStores(s, u, j, act);
      RanCarried(s, LsuSlot(s, u, act), u, j, LsuEntry(s, u), LsuResult(s, u));
    } else if act == Fill {
      LsuLoads(s, u, j);
      RanCarried(s, LsuSlot(s, u, act), u, j, LsuEntry(s, u), LsuResult(s, u));
    }
  }

  lemma LsuCarried(s: Core, u: nat, act: LsuAction)
    requires Shape(s) && Orderly(s) && 3 <= u < NUM_UNITS
    ensures Carried(s, LsuSlot(s, u, act))
  {
    if LiveLatch(s, u) { LsuLiveCarried(s, u, act); }
  }

  lemma RenameCarried(s: Core)
    requires Shape(s)
    ensures Carried(s, RenameOne(s))
  {
  }

  lemma DidCarried(prog: Program, k: Stage, s: Core, t: Core)
    requires Shape(s) && Orderly(s) && Did(prog, k, s, t) && k != Committing
    ensures Carried(s, t)
  {
    DidIs(prog, k, s, t);
    match k
    case Draining(_) =>
    case OnInt(u) => IntCarried(s, u);
    case OnMul(done) => MulCarried(s, done);
    case OnLsu(u, act) => LsuCarried(s, u, act);
    case Issuing(_) =>
    case Renaming => RenameCarried(s);
    case Decoding =>
    case Fetching(p0, p1) => FetchShape(prog, s, p0, p1);
  }

  // -------------------------------------------------------------- the map of a tag

  /** The register map just after instruction `tag` was renamed, as the committed map and the buffer give it. */
  function MapAfter(s: Core, tag: int): seq<int>
    requires Shape(s) && Live(s, tag)
  {
    RatAt(s.rrat, s.rob, tag - s.insts + 1)
  }

  lemma CarriedMap(s: Core, t: Core, tag: int)
    requires Shape(s) && Shape(t) && Carried(s, t) && Live(s, tag) && Live(t, tag)
    ensures MapAfter(t, tag) == MapAfter(s, tag)
  {
    RatFrame(s.rrat, t.rob, s.rob, tag - s.insts + 1);
  }

  lemma CommitMap(s: Core, tag: int)
    requires Shape(s) && Live(s, tag) && Live(CommitOne(s), tag)
    ensures MapAfter(CommitOne(s), tag) == MapAfter(s, tag)
  {
    if CanCommit(s) {
      CommitRetires(s);
      RatAfterCommit(s, CommitOne(s), tag - s.insts);
    }
  }

  /** No stage changes the map of an instruction that stays in the buffer. */
  lemma DidMap(prog: Program, k: Stage, s: Core, t: Core, tag: int)
    requires Sane(s) && Did(prog, k, s, t) && Sane(t) && Live(s, tag) && Live(t, tag)
    ensures MapAfter(t, tag) == MapAfter(s, tag)
  {
    if k == Committing {
      DidIs(prog, k, s, t);
      CommitMap(s, tag);
    } else {
      DidCarried(prog, k, s, t);
      CarriedMap(s, t, tag);
    }
  }

  lemma CutMap(s: Core, w: Core, t: Core, j: nat, target: Word)
    requires Sane(s) && j < |s.rob| && UndoneBy(s, w, j + 1) && Shape(w) && t == Discard(w, s.insts + j).(fetchPc := target)
    ensures t.rat == MapAfter(s, s.insts + j) && t.insts == s.insts && |t.rob| == j + 1
  {
    UndoneExactly(s, w, j + 1);
    UndoneSame(s, w, j + 1);
  }

  lemma FlushMap(s: Core, t: Core, tag: int)
    requires Sane(s) && Live(s, tag) && t == FlushAfter(s, tag - s.insts)
    ensures t.rat == MapAfter(s, tag)
  {
    var w := FlushIs(s, tag - s.insts);
    CutMap(s, w, t, tag - s.insts, t.fetchPc);
  }

  lemma RecoveryMap(s: Core, r: Core, w: Core, t: Core, j: nat, target: Word)
    requires Sane(s) && Sane(r) && Carried(s, r) && |r.rob| == |s.rob| && j < |s.rob|
    requires UndoneBy(r, w, j + 1) && Shape(w) && t == Discard(w, r.insts + j).(fetchPc := target)
    ensures t.rat == MapAfter(s, s.insts + j) && Youngest(t, s.insts + j)
  {
    CutMap(r, w, t, j, target);
    CarriedMap(s, r, s.insts + j);
  }

  lemma IntRestoresIn(s: Core, r: Core, w: Core, t: Core, u: nat, j: nat, e: Entry, result: Word)
    requires Sane(s) && Shape(r) && Shape(w) && IntEnds(s, r, w, t, u, j, e, result) && Mispredicted(e) && InDram(e.dnpc)
    ensures t.rat == MapAfter(s, s.insts + j) && Youngest(t, s.insts + j)
  {
    RanCarried(s, r, u, j, e, result);
    RanOrderly(s, r, u, j, e, result);
    RecoveryMap(s, r, w, t, j, e.dnpc);
  }

  lemma IntRestores(s: Core, t: Core, u: nat, tag: int)
    requires Sane(s) && GoesElsewhere(s, u, tag) && t == IntSlot(s, u)
    ensures t.rat == MapAfter(s, tag) && Youngest(t, tag)
  {
    var j := tag - s.insts;
    var w := IntCases(s, u, j);
    IntRestoresIn(s, RunAlu(s, u), w, t, u, j, AluEntry(s, u), AluResult(s, u));
  }

  // --------------------------------------------------------------------- runs

  /** One stage of a run. */
  ghost predicate Stepped(prog: Program, k: Stage, s: Core, t: Core) { Shape(s) && Did(prog, k, s, t) }

  /** A run of the engine from its start, one stage at a time and in any order. */
  ghost predicate StageRun(prog: Program, init: Arch, run: seq<Core>, stages: seq<Stage>) {
    && |run| == |stages| + 1 && run[0] == Boot(init)
    && (forall i {:trigger stages[i]} | 0 <= i < |stages| :: Stepped(prog, stages[i], run[i], run[i + 1]))
  }

  lemma SteppedSane(prog: Program, k: Stage, s: Core, t: Core)
    requires Stepped(prog, k, s, t) && Sane(s)
    ensures Sane(t)
  {
    DidKeeps(prog, k, s, t);
  }

  lemma {:induction false} RunSane(prog: Program, init: Arch, run: seq<Core>, stages: seq<Stage>, i: nat)
    requires StageRun(prog, init, run, stages) && i < |run|
    ensures Sane(run[i])
  {
    if i == 0 {
      BootOrderly(init);
    } else {
      RunSane(prog, init, run, stages, i - 1);
      SteppedSane(prog, stages[i - 1], run[i - 1], run[i]);
    }
  }

  /** Instruction `tag` is the one renamed last. */
  predicate Youngest(s: Core, tag: int) { s.rob != [] && tag == s.insts + |s.rob| - 1 }

  /** Instruction `tag` is renamed last in state `a` and stays in the buffer, neither retired nor discarded, up to
      and including state `b`. */
  ghost predicate StaysLive(run: seq<Core>, a: nat, b: nat, tag: int) {
    a <= b < |run| && Youngest(run[a], tag) && forall i | a <= i <= b :: Live(run[i], tag)
  }

  /** In `s`, the map just after instruction `tag` was renamed is `m`. */
  ghost predicate HasMap(s: Core, tag: int, m: seq<int>) { Sane(s) && Live(s, tag) && MapAfter(s, tag) == m }

  lemma MapStarts(s: Core, tag: int)
    requires Sane(s) && Youngest(s, tag)
    ensures HasMap(s, tag, s.rat)
  {
    assert Has(Naming, s);
  }

  lemma MapSteps(prog: Program, k: Stage, s: Core, t: Core, tag: int, m: seq<int>)
    requires HasMap(s, tag, m) && Stepped(prog, k, s, t) && Live(t, tag)
    ensures HasMap(t, tag, m)
  {
    DidKeeps(prog, k, s, t);
    DidMap(prog, k, s, t, tag);
  }

  lemma {:induction false} MapKept(prog: Program, init: Arch, run: seq<Core>, stages: seq<Stage>, a: nat, b: nat, tag: int)
    requires StageRun(prog, init, run, stages) && StaysLive(run, a, b, tag)
    ensures HasMap(run[b], tag, run[a].rat)
    decreases b
  {
    if a == b {
      RunSane(prog, init, run, stages, a);
      MapStarts(run[a], tag);
    } else {
      MapKept(prog, init, run, stages, a, b - 1, tag);
      MapSteps(prog, stages[b - 1], run[b - 1], run[b], tag, run[a].rat);
    }
  }

  /** Recovering from instruction `tag` leaves map `m`. */
  ghost predicate RecoversTo(s: Core, tag: int, m: seq<int>) {
    Shape(s) && Live(s, tag) && FlushAfter(s, tag - s.insts).rat == m
  }

  lemma MapRecovers(s: Core, tag: int, m: seq<int>)
    requires HasMap(s, tag, m)
    ensures RecoversTo(s, tag, m)
  {
    FlushMap(s, FlushAfter(s, tag - s.insts), tag);
  }

  /** Recovery is exact over whole runs: whatever has been renamed, executed, retired or discarded since
      instruction `tag` was renamed, recovering from it gives back the register map of that moment. */
  lemma RecoveryRestores(prog: Program, init: Arch, run: seq<Core>, stages: seq<Stage>, a: nat, b: nat, tag: int)
    requires StageRun(prog, init, run, stages) && StaysLive(run, a, b, tag)
    ensures RecoversTo(run[b], tag, run[a].rat)
  {
    MapKept(prog, init, run, stages, a, b, tag);
    MapRecovers(run[b], tag, run[a].rat);
  }

  /** The instruction in latch `u` of an INT unit is `tag`, and it goes elsewhere than predicted. */
  predicate GoesElsewhere(s: Core, u: nat, tag: int) {
    && Shape(s) && u < 2 && LiveLatch(s, u) && s.units[u].tag == tag && Live(s, tag)
    && Mispredicted(AluEntry(s, u)) && InDram(AluEntry(s, u).dnpc)
  }

  lemma IntStepRestores(prog: Program, u: nat, s: Core, t: Core, tag: int, m: seq<int>)
    requires HasMap(s, tag, m) && Stepped(prog, OnInt(u), s, t) && GoesElsewhere(s, u, tag)
    ensures t.rat == m && Youngest(t, tag)
  {
    DidIs(prog, OnInt(u), s, t);
    IntRestores(s, t, u, tag);
  }

  /** The recovery that the INT stage makes, on a run: when a branch turns out mispredicted, the stage leaves the
      map as it was when the branch was renamed, and the branch as the youngest instruction. */
  lemma MispredictionRestores(prog: Program, init: Arch, run: seq<Core>, stages: seq<Stage>, a: nat, b: nat, tag: int, u: nat)
    requires StageRun(prog, init, run, stages) && StaysLive(run, a, b, tag) && b + 1 < |run|
    requires stages[b] == OnInt(u) && GoesElsewhere(run[b], u, tag)
    ensures run[b + 1].rat == run[a].rat && Youngest(run[b + 1], tag)
  {
    MapKept(prog, init, run, stages, a, b, tag);
    assert Stepped(prog, stages[b], run[b], run[b + 1]);
    IntStepRestores(prog, u, run[b], run[b + 1], tag, run[a].rat);
  }
}
