/**
 What holds of every run of the engine, whatever the program does: the renaming is consistent, physical
 registers are conserved, and whoever waits for an operand waits for an older instruction.
 None of this needs the program to be valid or the loads to be forwardable.
 */
module TomasuloStructure {
  import opened Isa
  import opened Forwarding
  import opened Tomasulo
  import opened TomasuloInvariant
  import opened TomasuloCommit
  import opened TomasuloExecute
  import opened TomasuloRecover
  import opened TomasuloUnits
  import opened TomasuloFront

  ghost predicate Structure(s: Core) { Renamed(s) && Placed(s) && Waiting(s) }

  datatype Facet = Naming | Placement | Arrival

  ghost predicate Has(a: Facet, s: Core) {
    match a
    case Naming => Renamed(s)
    case Placement => Shape(s) && Placed(s)
    case Arrival => Shape(s) && Waiting(s)
  }

  /** The structural invariant. */
  ghost predicate Orderly(s: Core) { forall a: Facet :: Has(a, s) }

  lemma Open(s: Core)
    requires Orderly(s)
    ensures Structure(s)
  {
    assert Has(Naming, s) && Has(Placement, s) && Has(Arrival, s);
  }

  lemma Close(s: Core)
    requires Structure(s)
    ensures Orderly(s)
  {
  }

  // ------------------------------------------------------------------- stages

  lemma BackOrderly(s: Core, t: Core)
    requires Orderly(s) && SameBack(s, t) && Shape(t)
    ensures Orderly(t)
  {
    Open(s);
    RenamedFrame(s, t);
    BackPlaced(s, t);
    BackWaiting(s, t);
    Close(t);
  }

  lemma DrainOrderly(s: Core, tick: bool)
    requires Shape(s) && Orderly(s)
    ensures Shape(Drain(s, tick)) && Orderly(Drain(s, tick))
  {
    BackOrderly(s, Drain(s, tick));
  }

  lemma RetiresOrderly(s: Core, t: Core)
    requires Orderly(s) && Shape(s) && CanCommit(s) && Retires(s, t) && Shape(t)
    ensures Orderly(t)
  {
    Open(s);
    RenamedAfterCommit(s, t);
    PlacedAfterCommit(s, t);
    WaitingAfterCommit(s, t);
    Close(t);
  }

  lemma CommitOrderly(s: Core)
    requires Shape(s) && Orderly(s)
    ensures Orderly(CommitOne(s))
  {
    if CanCommit(s) {
      CommitRetires(s);
      RetiresOrderly(s, CommitOne(s));
    }
  }

  lemma RanOrderly(s: Core, t: Core, u: nat, j: nat, e: Entry, result: Word)
    requires Orderly(s) && Shape(s) && Ran(s, t, u, j, e, result) && Shape(t)
    ensures Orderly(t)
  {
    Open(s);
    RanRenamed(s, t, u, j, e, result);
    RanPlaced(s, t, u, j, e, result);
    RanWaiting(s, t, u, j, e, result);
    Close(t);
  }

  lemma FlushOrderly(s: Core, w: Core, j: nat, t: Core)
    requires Orderly(s) && Shape(s) && j < |s.rob| && Shape(w) && UndoneBy(s, w, j + 1)
    requires t == Discard(w, s.insts + j).(fetchPc := s.rob[j].dnpc)
    ensures Orderly(t)
  {
    Open(s);
    UndoFacts(s, w, j + 1);
    FlushRecovers(s, w, j, t);
    RecoveredPlaced(s, t, j);
    RecoveredWaiting(s, t, j);
    Close(t);
  }

  lemma IntEndsOrderly(s: Core, s1: Core, w: Core, t: Core, u: nat, j: nat, e: Entry, result: Word)
    requires Orderly(s) && Shape(s) && Shape(s1) && Shape(w) && Shape(t) && IntEnds(s, s1, w, t, u, j, e, result)
    ensures Orderly(t)
  {
    if !Mispredicted(e) {
      RanOrderly(s, t, u, j, e, result);
    } else if !InDram(e.dnpc) {
      RanOrderly(s, t, u, j, e.(fault := true), result);
    } else {
      RanOrderly(s, s1, u, j, e, result);
      FlushOrderly(s1, w, j, t);
    }
  }

  /** What is known of a latch that has not been flushed. */
  lemma LatchIsPlaced(s: Core, u: nat)
    requires Orderly(s) && Shape(s) && u < NUM_UNITS && LiveLatch(s, u)
    ensures LatchPlaced(s, s.units[u], EuOfUnit(u))
  {
    Open(s);
  }

  lemma OnlyLoadsFlushed(s: Core, u: nat)
    requires Orderly(s) && Shape(s) && u < 3
    ensures !s.units[u].flushed
  {
    Open(s);
  }

  lemma IntOrderly(s: Core, u: nat)
    requires Shape(s) && Orderly(s) && u < 2
    ensures Orderly(IntSlot(s, u))
  {
    OnlyLoadsFlushed(s, u);
    if s.units[u].valid {
      LatchIsPlaced(s, u);
      var j := s.units[u].tag - s.insts;
      var w := IntCases(s, u, j);
      IntEndsOrderly(s, RunAlu(s, u), w, IntSlot(s, u), u, j, AluEntry(s, u), AluResult(s, u));
    }
  }

  lemma MulOrderly(s: Core, done: bool)
    requires Shape(s) && Orderly(s)
    ensures Orderly(MulSlot(s, done))
  {
    OnlyLoadsFlushed(s, 2);
    if s.units[2].valid && done {
      LatchIsPlaced(s, 2);
      AluRan(s, 2);
      RanOrderly(s, MulSlot(s, done), 2, s.units[2].tag - s.insts, AluEntry(s, 2), AluResult(s, 2));
    }
  }

  lemma TouchedOrderly(s: Core, t: Core, u: nat)
    requires Orderly(s) && Shape(s) && u < NUM_UNITS && LatchTouched(s, t, u) && Shape(t)
    ensures Orderly(t)
  {
    Open(s);
    RenamedFrame(s, t);
    TouchedPlaced(s, t, u);
    TouchedWaiting(s, t, u);
    Close(t);
  }

  lemma NoDestinationOf(s: Core, j: nat)
    requires Orderly(s) && Shape(s) && j < |s.rob| && s.rob[j].ir.rd <= 0
    ensures s.rob[j].phys == s.rob[j].ir.rd
  {
    Open(s);
  }

  lemma LsuLiveOrderly(s: Core, u: nat, act: LsuAction)
    requires Shape(s) && Orderly(s) && 3 <= u < NUM_UNITS && LiveLatch(s, u)
    ensures Orderly(LsuSlot(s, u, act))
  {
    LatchIsPlaced(s, u);
    var j := s.units[u].tag - s.insts;
    if s.rob[j].ir.kind == STORE {
      NoDestinationOf(s, j);
      LsuStores(s, u, j, act);
      RanOrderly(s, LsuSlot(s, u, act), u, j, LsuEntry(s, u), LsuResult(s, u));
    } else if act == Fill {
      LsuLoads(s, u, j);
      RanOrderly(s, LsuSlot(s, u, act), u, j, LsuEntry(s, u), LsuResult(s, u));
    } else {
      TouchedOrderly(s, s.(units := s.units[u := s.units[u].(miss := true)]), u);
    }
  }

  lemma LsuOrderly(s: Core, u: nat, act: LsuAction)
    requires Shape(s) && Orderly(s) && 3 <= u < NUM_UNITS
    ensures Orderly(LsuSlot(s, u, act))
  {
    var l := s.units[u];
    if LiveLatch(s, u) {
      LsuLiveOrderly(s, u, act);
    } else if l.valid && (!l.miss || act == Fill) {
      TouchedOrderly(s, LsuSlot(s, u, act), u);
    }
  }

  lemma IssuedOrderly(s: Core, t: Core, u: nat, b: nat)
    requires Orderly(s) && Shape(s) && Issued(s, t, u, b) && Shape(t)
    ensures Orderly(t)
  {
    Open(s);
    RenamedFrame(s, t);
    IssuedPlaced(s, t, u, b);
    IssuedWaiting(s, t, u, b);
    Close(t);
  }

  lemma IssueOrderly(s: Core, u: nat)
    requires Shape(s) && Orderly(s) && u < NUM_UNITS
    ensures Orderly(IssueSlot(s, u))
  {
    if !s.units[u].valid && Oldest(s, EuOfUnit(u), RS_SIZE) != -1 {
      IssueMoves(s, u);
      IssuedOrderly(s, IssueSlot(s, u), u, Oldest(s, EuOfUnit(u), RS_SIZE));
    }
  }

  lemma EnteredOrderly(s: Core, t: Core, k: nat, e: Entry, x: Station)
    requires Orderly(s) && Shape(s) && Entered(s, t, k, e, x) && Shape(t)
    ensures Orderly(t)
  {
    Open(s);
    EnteredRenamed(s, t, k, e, x);
    EnteredPlaced(s, t, k, e, x);
    EnteredWaiting(s, t, k, e, x);
    Close(t);
  }

  lemma RenameOrderly(s: Core)
    requires Shape(s) && Orderly(s)
    ensures Orderly(RenameOne(s))
  {
    if CanRename(s) {
      var k, e, x := RenameEnters(s);
      EnteredOrderly(s, RenameOne(s), k, e, x);
    }
  }

  lemma DecodeOrderly(s: Core)
    requires Shape(s) && Orderly(s)
    ensures Shape(Decode(s)) && Orderly(Decode(s))
  {
    BackOrderly(s, Decode(s));
  }

  lemma FetchOneShape(prog: Program, s: Core, p: Prediction)
    requires Shape(s) && |s.ifid| < FETCH_WIDTH
    ensures var t := FetchOne(prog, s, p).0; Shape(t) && SameBack(s, t) && |t.ifid| <= |s.ifid| + 1
  {
  }

  lemma FetchShape(prog: Program, s: Core, p0: Prediction, p1: Prediction)
    requires Shape(s)
    ensures Shape(Fetch(prog, s, p0, p1)) && SameBack(s, Fetch(prog, s, p0, p1))
  {
    if s.ifid == [] {
      FetchOneShape(prog, s, p0);
      var s1 := FetchOne(prog, s, p0).0;
      if FetchOne(prog, s, p0).1 { FetchOneShape(prog, s1, p1); }
    }
  }

  lemma FetchOrderly(prog: Program, s: Core, p0: Prediction, p1: Prediction)
    requires Shape(s) && Orderly(s)
    ensures Shape(Fetch(prog, s, p0, p1)) && Orderly(Fetch(prog, s, p0, p1))
  {
    FetchShape(prog, s, p0, p1);
    BackOrderly(s, Fetch(prog, s, p0, p1));
  }

  // ------------------------------------------------- what only commit changes

  /** The same instructions are committed, and the same stores are in memory and waiting for it. */
  ghost predicate SameQueue(s: Core, t: Core) { t.insts == s.insts && t.sbuf == s.sbuf && t.mem == s.mem }

  lemma SameQueueTrans(s: Core, r: Core, t: Core)
    requires SameQueue(s, r) && SameQueue(r, t)
    ensures SameQueue(s, t)
  {
  }

  lemma {:induction false} UndoQueue(s: Core, k: nat)
    requires Shape(s) && k <= |s.rob|
    ensures SameQueue(s, Undo(s, k))
    decreases |s.rob|
  {
    if k < |s.rob| {
      UndoQueue(LastUndone(s), k);
    }
  }

  lemma RunAluQueue(s: Core, u: nat)
    requires Shape(s) && u < NUM_UNITS && Live(s, s.units[u].tag)
    ensures SameQueue(s, RunAlu(s, u))
  {
  }

  lemma IntEndsQueue(s: Core, s1: Core, w: Core, t: Core, u: nat, j: nat, e: Entry, result: Word)
    requires Shape(s) && Shape(s1) && Shape(w) && IntEnds(s, s1, w, t, u, j, e, result)
    ensures SameQueue(s, t)
  {
    if Mispredicted(e) && InDram(e.dnpc) {
      UndoQueue(s1, j + 1);
      assert w == Undo(s1, j + 1);
    }
  }

  lemma IntQueue(s: Core, u: nat)
    requires Shape(s) && Orderly(s) && u < 2
    ensures SameQueue(s, IntSlot(s, u))
  {
    OnlyLoadsFlushed(s, u);
    if s.units[u].valid && Live(s, s.units[u].tag) {
      var j := s.units[u].tag - s.insts;
      var w := IntCases(s, u, j);
      IntEndsQueue(s, RunAlu(s, u), w, IntSlot(s, u), u, j, AluEntry(s, u), AluResult(s, u));
    }
  }

  lemma MulQueue(s: Core, done: bool)
    requires Shape(s)
    ensures SameQueue(s, MulSlot(s, done))
  {
    if s.units[2].valid && done && Live(s, s.units[2].tag) { RunAluQueue(s, 2); }
  }

  lemma LsuQueue(s: Core, u: nat, act: LsuAction)
    requires Shape(s) && 3 <= u < NUM_UNITS
    ensures SameQueue(s, LsuSlot(s, u, act))
  {
  }

  lemma IssueQueue(s: Core, u: nat)
    requires Shape(s) && u < NUM_UNITS
    ensures SameQueue(s, IssueSlot(s, u))
  {
  }

  lemma RenameQueue(s: Core)
    requires Shape(s)
    ensures SameQueue(s, RenameOne(s))
  {
  }

  lemma FetchQueue(prog: Program, s: Core, p0: Prediction, p1: Prediction)
    requires Shape(s)
    ensures SameQueue(s, Fetch(prog, s, p0, p1))
  {
  }

  // ------------------------------------------------------------- consequences

  function UpTo(n: nat): seq<int> { if n == 0 then [] else UpTo(n - 1) + [n - 1] }

  lemma {:induction false} UpToCounts(n: nat)
    ensures |UpTo(n)| == n && forall p: int :: multiset(UpTo(n))[p] == if 0 <= p < n then 1 else 0
  {
    if n > 0 { UpToCounts(n - 1); }
  }

  lemma {:induction false} DestsAtMost(rob: seq<Entry>, j: nat)
    requires j <= |rob|
    ensures |Dests(rob, j)| <= j
  {
    if j > 0 { DestsAtMost(rob, j - 1); }
  }

  lemma Cardinal(m: multiset<int>, n: nat)
    requires forall p: int :: m[p] == if 0 <= p < n then 1 else 0
    ensures |m| == n
  {
    UpToCounts(n);
    forall p: int ensures m[p] == multiset(UpTo(n))[p] {}
    assert m == multiset(UpTo(n));
  }

  lemma FreeCountOf(s: Core)
    requires Conserved(s) && |s.rrat| == 32
    ensures |s.free| == 32 - |Dests(s.rob, |s.rob|)|
  {
    Cardinal(Owned(s), NUM_PHYS);
  }

  /** Conservation in numbers: the free list holds exactly 32 registers less the in-flight
      destinations, so it cannot be empty while the reorder buffer has room. */
  lemma FreeCount(s: Core)
    requires Orderly(s)
    ensures |s.free| == 32 - |Dests(s.rob, |s.rob|)|
    ensures |s.rob| < ROB_SIZE ==> s.free != []
  {
    assert Has(Naming, s);
    FreeCountOf(s);
    DestsAtMost(s.rob, |s.rob|);
  }

  /** The free-list test of the rename stage never fails: only the buffer and the stations can stall. */
  lemma FreeListNeverStalls(s: Core)
    requires Orderly(s) && Shape(s)
    ensures CanRename(s) <==>
      s.idrn != [] && (s.idrn[0].ir.serializing ==> s.rob == []) && |s.rob| < ROB_SIZE && FreeStation(s.rs, 0) < RS_SIZE
  {
    FreeCount(s);
  }

  /** An operand that has not arrived is the destination of an older entry that is not ready. */
  lemma {:induction false} ProducerIsOlder(s: Core, j: nat, r: int) returns (k: nat)
    requires Shape(s) && ReadyBits(s) && j <= |s.rob| && 0 < r < 32
    requires 0 <= RatAt(s.rrat, s.rob, j)[r] < NUM_PHYS && !s.prf[RatAt(s.rrat, s.rob, j)[r]].ready
    ensures k < j && s.rob[k].ir.rd == r && s.rob[k].phys == RatAt(s.rrat, s.rob, j)[r] && !s.rob[k].ready
    decreases j
  {
    if j == 0 {
      assert false;
    } else {
      RatStep(s.rrat, s.rob, j, r);
      if s.rob[j - 1].ir.rd == r { k := j - 1; } else { k := ProducerIsOlder(s, j - 1, r); }
    }
  }

  /** Some entry older than entry `j` has destination `p` and has not finished. */
  ghost predicate OlderProducer(s: Core, j: nat, p: int)
    requires j <= |s.rob|
  {
    exists k: nat :: k < j && s.rob[k].ir.rd > 0 && s.rob[k].phys == p && !s.rob[k].ready
  }

  lemma AwaitsOlder(s: Core, j: nat, r: int, p: int)
    requires Shape(s) && ReadyBits(s) && j <= |s.rob| && Awaits(s, j, r, p)
    ensures OlderProducer(s, j, p)
  {
    var k := ProducerIsOlder(s, j, r);
  }

  lemma StationWaitsForOlder(s: Core, x: Station)
    requires Shape(s) && ReadyBits(s) && StationWaits(s, x)
    ensures !x.r1 ==> OlderProducer(s, x.tag - s.insts, x.t1)
    ensures !x.r2 ==> OlderProducer(s, x.tag - s.insts, x.t2)
  {
    var j := x.tag - s.insts;
    if !x.r1 { AwaitsOlder(s, j, s.rob[j].ir.rs1, x.t1); }
    if !x.r2 { AwaitsOlder(s, j, s.rob[j].ir.rs2, x.t2); }
  }

  /** Wakeup soundness: every operand a station still lacks is the destination of an older entry that
      has not finished. */
  lemma WaitsForOlder(s: Core, i: nat)
    requires Shape(s) && Orderly(s) && i < RS_SIZE && s.rs[i].valid
    ensures Live(s, s.rs[i].tag)
    ensures !s.rs[i].r1 ==> OlderProducer(s, s.rs[i].tag - s.insts, s.rs[i].t1)
    ensures !s.rs[i].r2 ==> OlderProducer(s, s.rs[i].tag - s.insts, s.rs[i].t2)
  {
    assert Has(Arrival, s) && Has(Naming, s);
    StationWaitsForOlder(s, s.rs[i]);
  }

  /** The head of the reorder buffer never waits for an operand. */
  lemma HeadHasOperands(s: Core, i: nat)
    requires Shape(s) && Orderly(s) && i < RS_SIZE && s.rs[i].valid && s.rs[i].tag == s.insts
    ensures s.rs[i].r1 && s.rs[i].r2
  {
    WaitsForOlder(s, i);
  }

  /** A serializing instruction in the reorder buffer is its head. */
  lemma SerializingAtHead(s: Core, k: nat)
    requires Orderly(s) && k < |s.rob| && s.rob[k].ir.serializing
    ensures k == 0
  {
    Open(s);
  }

  lemma UndoneMap(s: Core, w: Core, k: nat)
    requires Renamed(s) && UndoneBy(s, w, k)
    ensures w.rat == RatAt(s.rrat, s.rob, k) && w.rob == s.rob[..k] && w.rs == s.rs && w.units == s.units
  {
    RollbackExact(s, k);
    UndoRenamed(s, k);
  }

  /** No station and no latch that will write belongs to an instruction younger than `tag`. */
  ghost predicate NoneAfter(s: Core, t: Core, tag: int)
    requires Shape(s) && Shape(t)
  {
    && (forall i | 0 <= i < RS_SIZE && t.rs[i].valid :: t.rs[i] == s.rs[i] && s.insts <= t.rs[i].tag <= tag)
    && (forall u | 0 <= u < NUM_UNITS && LiveLatch(t, u) :: t.units[u] == s.units[u] && s.insts <= t.units[u].tag <= tag)
  }

  lemma DiscardLeavesNone(s: Core, w: Core, t: Core, tag: int)
    requires Shape(s) && Placed(s) && Shape(w) && Shape(t) && w.rs == s.rs && w.units == s.units && t == Discard(w, tag)
    ensures NoneAfter(s, t, tag)
  {
    forall i | 0 <= i < RS_SIZE && t.rs[i].valid
      ensures t.rs[i] == s.rs[i] && s.insts <= t.rs[i].tag <= tag
    {
      assert t.rs[i] == FlushStation(w.rs[i], tag);
    }
    forall u | 0 <= u < NUM_UNITS && LiveLatch(t, u)
      ensures t.units[u] == s.units[u] && s.insts <= t.units[u].tag <= tag
    {
      assert t.units[u] == FlushLatch(w.units[u], tag, EuOfUnit(u));
      assert LiveLatch(s, u) && LatchPlaced(s, s.units[u], EuOfUnit(u));
    }
  }

  /** `t` is `s` with everything younger than entry `j` gone. */
  ghost predicate CutAfter(s: Core, t: Core, j: nat)
    requires Shape(s) && Shape(t) && j < |s.rob|
  {
    && t.rat == RatAt(s.rrat, s.rob, j + 1) && t.rob == s.rob[..j + 1]
    && NoneAfter(s, t, s.insts + j) && t.idrn == [] && t.ifid == []
  }

  lemma UndoneExactly(s: Core, w: Core, k: nat)
    requires Shape(s) && Orderly(s) && UndoneBy(s, w, k)
    ensures w.rat == RatAt(s.rrat, s.rob, k) && w.rob == s.rob[..k] && w.rs == s.rs && w.units == s.units
  {
    assert Has(Naming, s);
    UndoneMap(s, w, k);
  }

  lemma NothingAfter(s: Core, w: Core, t: Core, tag: int)
    requires Shape(s) && Orderly(s) && Shape(w) && Shape(t) && w.rs == s.rs && w.units == s.units && t == Discard(w, tag)
    ensures NoneAfter(s, t, tag)
  {
    assert Has(Placement, s);
    DiscardLeavesNone(s, w, t, tag);
  }

  lemma DiscardCuts(s: Core, w: Core, t: Core, j: nat)
    requires Shape(s) && Orderly(s) && j < |s.rob| && UndoneBy(s, w, j + 1) && Shape(w)
    requires t == Discard(w, s.insts + j) && Shape(t)
    ensures CutAfter(s, t, j)
  {
    UndoneExactly(s, w, j + 1);
    NothingAfter(s, w, t, s.insts + j);
  }

  /** Recovery after entry `j` leaves the committed map with the destinations up to `j` on top, keeps exactly the
      entries up to it, and leaves nothing behind that belongs to a discarded instruction. */
  lemma FlushExact(s: Core, j: nat)
    requires Shape(s) && Orderly(s) && j < |s.rob|
    ensures CutAfter(s, FlushAfter(s, j), j)
  {
    var w := FlushIs(s, j);
    DiscardCuts(s, w, FlushAfter(s, j), j);
  }

  /** No recovery removes a serializing instruction. */
  lemma SerializingSurvives(s: Core, j: nat, k: nat)
    requires Shape(s) && Orderly(s) && j < |s.rob| && k < |s.rob| && s.rob[k].ir.serializing
    ensures k < |FlushAfter(s, j).rob| && FlushAfter(s, j).rob[k] == s.rob[k]
  {
    FlushExact(s, j);
    SerializingAtHead(s, k);
  }
}
