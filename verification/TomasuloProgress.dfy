/**
 The out-of-order engine gets on: if nothing outside makes it wait, it commits an instruction within a bounded number
 of cycles, whatever is predicted.  So its stages do issue, execute, broadcast and commit, and runs can be continued
 as far as the program is valid.
 */
module TomasuloProgress {
  import opened Isa
  import opened Forwarding
  import opened Tomasulo
  import opened TomasuloInvariant
  import opened TomasuloCommit
  import opened TomasuloExecute
  import opened TomasuloRecover
  import opened TomasuloUnits
  import opened TomasuloFront
  import opened TomasuloStructure
  import opened TomasuloTheorem
  import opened TomasuloStores
  import opened OooStages

  // ------------------------------------------------------------ who is attended

  ghost predicate Queueing(s: Core, tag: int) {
    exists i: nat :: i < |s.rs| && s.rs[i].valid && s.rs[i].tag == tag
  }

  ghost predicate Running(s: Core, tag: int) {
    exists u: nat :: u < |s.units| && LiveLatch(s, u) && s.units[u].tag == tag
  }

  ghost predicate AttendedTo(s: Core, tag: int) { Queueing(s, tag) || Running(s, tag) }

  /** Every instruction that has not finished is in a station or in a latch. */
  ghost predicate Attended(s: Core) {
    forall k: nat | k < |s.rob| && !s.rob[k].ready :: AttendedTo(s, s.insts + k)
  }

  lemma BackAttends(s: Core, t: Core)
    requires Attended(s) && t.rob == s.rob && t.insts == s.insts && t.rs == s.rs && t.units == s.units
    ensures Attended(t)
  {
    forall k: nat | k < |t.rob| && !t.rob[k].ready ensures AttendedTo(t, t.insts + k) {
      assert AttendedTo(s, s.insts + k);
      SameAttends(s, t, s.insts + k);
    }
  }

  lemma SameAttends(s: Core, t: Core, tag: int)
    requires t.rs == s.rs && t.units == s.units && AttendedTo(s, tag)
    ensures AttendedTo(t, tag)
  {
    if Queueing(s, tag) {
      var i: nat :| i < |s.rs| && s.rs[i].valid && s.rs[i].tag == tag;
      assert t.rs[i].valid;
    } else {
      var u: nat :| u < |s.units| && LiveLatch(s, u) && s.units[u].tag == tag;
      assert LiveLatch(t, u);
    }
  }

  lemma RetiresAttends(s: Core, t: Core)
    requires Shape(s) && Attended(s) && CanCommit(s) && Retires(s, t)
    ensures Attended(t)
  {
    forall k: nat | k < |t.rob| && !t.rob[k].ready ensures AttendedTo(t, t.insts + k) {
      assert t.rob[k] == s.rob[k + 1];
      assert AttendedTo(s, s.insts + (k + 1));
      SameAttends(s, t, s.insts + (k + 1));
    }
  }

  lemma RanQueue(s: Core, t: Core, u: nat, j: nat, e: Entry, result: Word, tag: int)
    requires Shape(s) && Ran(s, t, u, j, e, result) && Shape(t) && Queueing(s, tag)
    ensures Queueing(t, tag)
  {
    var i: nat :| i < |s.rs| && s.rs[i].valid && s.rs[i].tag == tag;
    RanStations(s, t, u, j, e, result, i);
    assert t.rs[i].valid;
  }

  lemma RanRunning(s: Core, t: Core, u: nat, j: nat, e: Entry, result: Word, tag: int)
    requires Shape(s) && Ran(s, t, u, j, e, result) && Running(s, tag) && tag != s.insts + j
    ensures Running(t, tag)
  {
    var v: nat :| v < |s.units| && LiveLatch(s, v) && s.units[v].tag == tag;
    assert LiveLatch(t, v) && t.units[v] == s.units[v];
  }

  lemma RanAttends(s: Core, t: Core, u: nat, j: nat, e: Entry, result: Word)
    requires Shape(s) && Attended(s) && Ran(s, t, u, j, e, result) && Shape(t)
    ensures Attended(t)
  {
    forall k: nat | k < |t.rob| && !t.rob[k].ready ensures AttendedTo(t, t.insts + k) {
      assert k != j && t.rob[k] == s.rob[k];
      assert AttendedTo(s, s.insts + k);
      if Queueing(s, s.insts + k) {
        RanQueue(s, t, u, j, e, result, s.insts + k);
      } else {
        RanRunning(s, t, u, j, e, result, s.insts + k);
      }
    }
  }

  lemma RecoveredAttends(s: Core, t: Core, j: nat, tag: int)
    requires Shape(s) && j < |s.rob| && Recovered(s, t, j) && Shape(t) && AttendedTo(s, tag) && tag <= s.insts + j
    ensures Queueing(s, tag) ==> Queueing(t, tag)
    ensures Running(s, tag) ==> Running(t, tag)
  {
    if Queueing(s, tag) {
      var i: nat :| i < |s.rs| && s.rs[i].valid && s.rs[i].tag == tag;
      assert t.rs[i] == FlushStation(s.rs[i], s.insts + j);
      assert t.rs[i].valid;
    }
    if Running(s, tag) {
      var u: nat :| u < |s.units| && LiveLatch(s, u) && s.units[u].tag == tag;
      assert t.units[u] == FlushLatch(s.units[u], s.insts + j, EuOfUnit(u));
      assert LiveLatch(t, u);
    }
  }

  lemma RecoveryAttends(s: Core, t: Core, j: nat)
    requires Shape(s) && Attended(s) && j < |s.rob| && Recovered(s, t, j) && Shape(t)
    ensures Attended(t)
  {
    forall k: nat | k < |t.rob| && !t.rob[k].ready ensures AttendedTo(t, t.insts + k) {
      assert AttendedTo(s, s.insts + k);
      RecoveredAttends(s, t, j, s.insts + k);
    }
  }

  lemma TouchedRunning(s: Core, t: Core, u: nat, tag: int)
    requires Shape(s) && u < NUM_UNITS && LatchTouched(s, t, u) && (LiveLatch(s, u) ==> t.units[u].valid) && Running(s, tag)
    ensures Running(t, tag)
  {
    var v: nat :| v < |s.units| && LiveLatch(s, v) && s.units[v].tag == tag;
    assert LiveLatch(t, v) && t.units[v].tag == tag;
  }

  lemma TouchedAttends(s: Core, t: Core, u: nat)
    requires Shape(s) && Attended(s) && u < NUM_UNITS && LatchTouched(s, t, u) && (LiveLatch(s, u) ==> t.units[u].valid)
    ensures Attended(t)
  {
    forall k: nat | k < |t.rob| && !t.rob[k].ready ensures AttendedTo(t, t.insts + k) {
      assert AttendedTo(s, s.insts + k);
      if Running(s, s.insts + k) { TouchedRunning(s, t, u, s.insts + k); }
    }
  }

  lemma IssuedAttends(s: Core, t: Core, u: nat, b: nat, tag: int)
    requires Shape(s) && Issued(s, t, u, b) && AttendedTo(s, tag)
    ensures AttendedTo(t, tag) && (Running(s, tag) ==> Running(t, tag))
    ensures Queueing(s, tag) && s.rs[b].tag != tag ==> Queueing(t, tag)
    ensures Running(t, s.rs[b].tag)
  {
    assert LiveLatch(t, u);
    if Running(s, tag) {
      var v: nat :| v < |s.units| && LiveLatch(s, v) && s.units[v].tag == tag;
      assert LiveLatch(t, v) && t.units[v] == s.units[v];
    }
    if Queueing(s, tag) {
      var i: nat :| i < |s.rs| && s.rs[i].valid && s.rs[i].tag == tag;
      if i != b { assert t.rs[i].valid; }
    }
  }

  lemma IssueAttends(s: Core, t: Core, u: nat, b: nat)
    requires Shape(s) && Attended(s) && Issued(s, t, u, b)
    ensures Attended(t)
  {
    forall k: nat | k < |t.rob| && !t.rob[k].ready ensures AttendedTo(t, t.insts + k) {
      assert AttendedTo(s, s.insts + k);
      IssuedAttends(s, t, u, b, s.insts + k);
    }
  }

  lemma EnteredAttends(s: Core, t: Core, k: nat, e: Entry, x: Station, tag: int)
    requires Shape(s) && Entered(s, t, k, e, x)
    ensures AttendedTo(s, tag) ==> AttendedTo(t, tag)
    ensures Queueing(t, x.tag)
  {
    assert t.rs[k].valid;
    if Queueing(s, tag) {
      var i: nat :| i < |s.rs| && s.rs[i].valid && s.rs[i].tag == tag;
      assert t.rs[i].valid;
    }
    if Running(s, tag) {
      var u: nat :| u < |s.units| && LiveLatch(s, u) && s.units[u].tag == tag;
      assert LiveLatch(t, u);
    }
  }

  lemma EntryAttends(s: Core, t: Core, k: nat, e: Entry, x: Station)
    requires Shape(s) && Attended(s) && Entered(s, t, k, e, x)
    ensures Attended(t)
  {
    forall l: nat | l < |t.rob| && !t.rob[l].ready ensures AttendedTo(t, t.insts + l) {
      if l < |s.rob| { assert AttendedTo(s, s.insts + l); }
      EnteredAttends(s, t, k, e, x, s.insts + l);
    }
  }

  // ------------------------------------------------------- what becomes of the head

  /** The head stays, finished if it was; if it was in a latch it still is or has finished. */
  ghost predicate HeadOn(s: Core, t: Core) {
    && t.insts == s.insts
    && (s.rob != [] ==> t.rob != [] && t.rob[0].ir == s.rob[0].ir && (s.rob[0].ready ==> t.rob[0].ready))
    && (s.rob != [] && Running(s, s.insts) ==> Running(t, t.insts) || t.rob[0].ready)
  }

  /** The head stays, and every unfinished instruction is attended to if it was. */
  ghost predicate Onward(s: Core, t: Core) { HeadOn(s, t) && (Attended(s) ==> Attended(t)) }

  lemma OnwardTrans(s: Core, r: Core, t: Core)
    requires Onward(s, r) && Onward(r, t)
    ensures Onward(s, t)
  {
  }

  lemma SameOnward(s: Core, t: Core)
    requires t.rob == s.rob && t.insts == s.insts && t.rs == s.rs && t.units == s.units
    ensures Onward(s, t)
  {
    if Attended(s) { BackAttends(s, t); }
    if Running(s, s.insts) {
      var u: nat :| u < |s.units| && LiveLatch(s, u) && s.units[u].tag == s.insts;
      assert LiveLatch(t, u);
    }
  }

  lemma RanOnward(s: Core, t: Core, u: nat, j: nat, e: Entry, result: Word)
    requires Shape(s) && Ran(s, t, u, j, e, result) && Shape(t)
    ensures Onward(s, t) && t.rob[j].ready
  {
    if Attended(s) { RanAttends(s, t, u, j, e, result); }
    if j != 0 && Running(s, s.insts) { RanRunning(s, t, u, j, e, result, s.insts); }
  }

  lemma RecoveredOnward(s: Core, t: Core, j: nat)
    requires Shape(s) && j < |s.rob| && Recovered(s, t, j) && Shape(t)
    ensures Onward(s, t)
  {
    if Attended(s) { RecoveryAttends(s, t, j); }
    if Running(s, s.insts) { RecoveredAttends(s, t, j, s.insts); }
  }

  lemma TouchedOnward(s: Core, t: Core, u: nat)
    requires Shape(s) && u < NUM_UNITS && LatchTouched(s, t, u) && (LiveLatch(s, u) ==> t.units[u].valid)
    ensures Onward(s, t)
  {
    if Attended(s) { TouchedAttends(s, t, u); }
    if Running(s, s.insts) { TouchedRunning(s, t, u, s.insts); }
  }

  lemma IssuedOnward(s: Core, t: Core, u: nat, b: nat)
    requires Shape(s) && Issued(s, t, u, b)
    ensures Onward(s, t)
  {
    if Attended(s) { IssueAttends(s, t, u, b); }
    if Running(s, s.insts) { IssuedAttends(s, t, u, b, s.insts); }
  }

  lemma EnteredOnward(s: Core, t: Core, k: nat, e: Entry, x: Station)
    requires Shape(s) && Entered(s, t, k, e, x)
    ensures Onward(s, t) && t.rob != []
  {
    if Attended(s) { EntryAttends(s, t, k, e, x); }
    if Running(s, s.insts) {
      var u: nat :| u < |s.units| && LiveLatch(s, u) && s.units[u].tag == s.insts;
      assert LiveLatch(t, u);
    }
  }

  // ------------------------------------------------------------ the stages in turn

  /** No unit that was free is taken. */
  ghost predicate NoneTaken(s: Core, t: Core) {
    |t.units| == |s.units| && forall v | 0 <= v < |s.units| && !s.units[v].valid :: !t.units[v].valid
  }

  /** Unit `u` is free, and none that was free is taken. */
  ghost predicate Vacated(s: Core, t: Core, u: nat) { NoneTaken(s, t) && u < |t.units| && !t.units[u].valid }

  lemma RanVacates(s: Core, t: Core, u: nat, j: nat, e: Entry, result: Word)
    requires Shape(s) && Ran(s, t, u, j, e, result)
    ensures Vacated(s, t, u)
  {
  }

  lemma RecoveredVacates(s: Core, r: Core, t: Core, u: nat, j: nat)
    requires Shape(r) && j < |r.rob| && Recovered(r, t, j) && Vacated(s, r, u)
    ensures Vacated(s, t, u)
  {
    forall v | 0 <= v < |s.units| && !r.units[v].valid ensures !t.units[v].valid {
      assert t.units[v] == FlushLatch(r.units[v], r.insts + j, EuOfUnit(v));
    }
  }

  lemma FlushedRecovers(r: Core, w: Core, j: nat, t: Core)
    requires Orderly(r) && Shape(r) && j < |r.rob| && Shape(w) && UndoneBy(r, w, j + 1)
    requires t == Discard(w, r.insts + j).(fetchPc := r.rob[j].dnpc)
    ensures Recovered(r, t, j)
  {
    assert Has(Naming, r);
    UndoFacts(r, w, j + 1);
    FlushRecovers(r, w, j, t);
  }

  lemma IntEndsOn(s: Core, r: Core, w: Core, t: Core, u: nat, j: nat, e: Entry, result: Word)
    requires Orderly(s) && Shape(s) && Shape(r) && Shape(w) && Shape(t) && IntEnds(s, r, w, t, u, j, e, result)
    ensures Onward(s, t) && Vacated(s, t, u)
  {
    RanOnward(s, r, u, j, e, result);
    RanVacates(s, r, u, j, e, result);
    if Mispredicted(e) && !InDram(e.dnpc) {
      RanOnward(s, t, u, j, e.(fault := true), result);
      RanVacates(s, t, u, j, e.(fault := true), result);
    } else if Mispredicted(e) {
      RanOrderly(s, r, u, j, e, result);
      FlushedRecovers(r, w, j, t);
      RecoveredOnward(r, t, j);
      OnwardTrans(s, r, t);
      RecoveredVacates(s, r, t, u, j);
    }
  }

  lemma IntOn(s: Core, u: nat)
    requires Shape(s) && Orderly(s) && u < 2
    ensures var t := IntSlot(s, u); Onward(s, t) && Vacated(s, t, u)
  {
    OnlyLoadsFlushed(s, u);
    if s.units[u].valid {
      LatchIsPlaced(s, u);
      var j := s.units[u].tag - s.insts;
      var w := IntCases(s, u, j);
      IntEndsOn(s, RunAlu(s, u), w, IntSlot(s, u), u, j, AluEntry(s, u), AluResult(s, u));
    } else {
      SameOnward(s, s);
    }
  }

  lemma MulFinishes(s: Core, t: Core, j: nat)
    requires Shape(s) && LiveLatch(s, 2) && Live(s, s.units[2].tag) && j == s.units[2].tag - s.insts && t == RunAlu(s, 2)
    ensures Onward(s, t) && Vacated(s, t, 2)
  {
    AluRan(s, 2);
    RanOnward(s, t, 2, j, AluEntry(s, 2), AluResult(s, 2));
    RanVacates(s, t, 2, j, AluEntry(s, 2), AluResult(s, 2));
  }

  lemma MulOn(s: Core)
    requires Shape(s) && Orderly(s)
    ensures var t := MulSlot(s, true); Onward(s, t) && Vacated(s, t, 2)
  {
    OnlyLoadsFlushed(s, 2);
    if s.units[2].valid {
      LatchIsPlaced(s, 2);
      MulFinishes(s, MulSlot(s, true), s.units[2].tag - s.insts);
    } else {
      SameOnward(s, s);
    }
  }

  lemma LsuLiveOn(s: Core, u: nat)
    requires Shape(s) && Orderly(s) && 3 <= u < NUM_UNITS && LiveLatch(s, u)
    ensures var t := LsuSlot(s, u, Fill); Onward(s, t) && Vacated(s, t, u)
  {
    LatchIsPlaced(s, u);
    var j := s.units[u].tag - s.insts;
    if s.rob[j].ir.kind == STORE {
      NoDestinationOf(s, j);
      LsuStores(s, u, j, Fill);
    } else {
      LsuLoads(s, u, j);
    }
    RanOnward(s, LsuSlot(s, u, Fill), u, j, LsuEntry(s, u), LsuResult(s, u));
    RanVacates(s, LsuSlot(s, u, Fill), u, j, LsuEntry(s, u), LsuResult(s, u));
  }

  lemma LsuOn(s: Core, u: nat)
    requires Shape(s) && Orderly(s) && 3 <= u < NUM_UNITS
    ensures var t := LsuSlot(s, u, Fill); Onward(s, t) && Vacated(s, t, u)
  {
    if LiveLatch(s, u) {
      LsuLiveOn(s, u);
    } else if s.units[u].valid {
      TouchedOnward(s, LsuSlot(s, u, Fill), u);
    } else {
      SameOnward(s, s);
    }
  }

  lemma LsuWaitsLive(s: Core, u: nat, act: LsuAction)
    requires Shape(s) && Orderly(s) && 3 <= u < NUM_UNITS && act != Fill && LiveLatch(s, u)
    ensures Onward(s, LsuSlot(s, u, act))
  {
    LatchIsPlaced(s, u);
    var j := s.units[u].tag - s.insts;
    if s.rob[j].ir.kind == STORE {
      NoDestinationOf(s, j);
      LsuStores(s, u, j, act);
      RanOnward(s, LsuSlot(s, u, act), u, j, LsuEntry(s, u), LsuResult(s, u));
    } else if act == Miss {
      TouchedOnward(s, LsuSlot(s, u, act), u);
    } else {
      SameOnward(s, s);
    }
  }

  lemma LsuWaitsOn(s: Core, u: nat, act: LsuAction)
    requires Shape(s) && Orderly(s) && 3 <= u < NUM_UNITS && act != Fill
    ensures Onward(s, LsuSlot(s, u, act))
  {
    if LiveLatch(s, u) {
      LsuWaitsLive(s, u, act);
    } else if s.units[u].valid && !s.units[u].miss {
      TouchedOnward(s, LsuSlot(s, u, act), u);
    } else {
      SameOnward(s, s);
    }
  }

  lemma LsuAnyOn(s: Core, u: nat, act: LsuAction)
    requires Shape(s) && Orderly(s) && 3 <= u < NUM_UNITS
    ensures Onward(s, LsuSlot(s, u, act))
  {
    if act == Fill { LsuOn(s, u); } else { LsuWaitsOn(s, u, act); }
  }

  lemma MulAnyOn(s: Core, done: bool)
    requires Shape(s) && Orderly(s)
    ensures Onward(s, MulSlot(s, done))
  {
    if done { MulOn(s); } else { SameOnward(s, s); }
  }

  lemma IssueOn(s: Core, u: nat)
    requires Shape(s) && u < NUM_UNITS
    ensures Onward(s, IssueSlot(s, u)) && IssueSlot(s, u).rob == s.rob
    ensures forall v | 0 <= v < NUM_UNITS && v != u :: IssueSlot(s, u).units[v] == s.units[v]
  {
    if !s.units[u].valid && Oldest(s, EuOfUnit(u), RS_SIZE) != -1 {
      IssueMoves(s, u);
      IssuedOnward(s, IssueSlot(s, u), u, Oldest(s, EuOfUnit(u), RS_SIZE));
    } else {
      SameOnward(s, s);
    }
  }

  lemma HeadIssuable(s: Core, i: nat, eu: EU)
    requires Shape(s) && Orderly(s) && s.rob != [] && i < RS_SIZE && s.rs[i].valid && s.rs[i].tag == s.insts
    requires eu == EuOf(s.rob[0].ir)
    ensures Issuable(s, i, eu)
  {
    HeadHasOperands(s, i);
    assert Has(Placement, s);
    assert Waits(s, s.rs[i].tag, s.rs[i].phys, s.rs[i].eu);
  }

  /** A head that waits in a station goes into the first free unit of its kind. */
  lemma HeadIssues(s: Core, u: nat)
    requires Shape(s) && Orderly(s) && s.rob != [] && u < NUM_UNITS && !s.units[u].valid
    requires EuOfUnit(u) == EuOf(s.rob[0].ir) && Queueing(s, s.insts)
    ensures Running(IssueSlot(s, u), s.insts)
  {
    var i: nat :| i < |s.rs| && s.rs[i].valid && s.rs[i].tag == s.insts;
    HeadIssuable(s, i, EuOfUnit(u));
    var b := Oldest(s, EuOfUnit(u), RS_SIZE);
    assert b >= 0 && s.rs[b].tag <= s.rs[i].tag;
    IssueMoves(s, u);
    assert AttendedTo(s, s.insts);
    IssuedAttends(s, IssueSlot(s, u), u, b, s.insts);
  }

  lemma RenameOn(s: Core)
    requires Shape(s)
    ensures Onward(s, RenameOne(s)) && (CanRename(s) ==> RenameOne(s).rob != [])
  {
    if CanRename(s) {
      var k, e, x := RenameEnters(s);
      EnteredOnward(s, RenameOne(s), k, e, x);
    } else {
      SameOnward(s, s);
    }
  }

  lemma CommitAttends(s: Core)
    requires Shape(s) && Attended(s)
    ensures Attended(CommitOne(s))
  {
    if CanCommit(s) {
      CommitRetires(s);
      RetiresAttends(s, CommitOne(s));
    }
  }

  // ------------------------------------------------------------- parts of a cycle

  lemma FrontAttends(s: Core, tick: bool)
    requires Shape(s) && Attended(s)
    ensures Attended(Front(s, tick))
  {
    SameOnward(s, Drain(s, tick));
    CommitAttends(Drain(s, tick));
    CommitAttends(CommitOne(Drain(s, tick)));
  }

  lemma ComputeOn(s: Core, mulDone: bool)
    requires Shape(s) && Orderly(s)
    ensures Onward(s, Compute(s, mulDone)) && Orderly(Compute(s, mulDone))
  {
    var a, b := IntSlot(s, 0), IntSlot(IntSlot(s, 0), 1);
    IntOn(s, 0);
    IntOrderly(s, 0);
    IntOn(a, 1);
    IntOrderly(a, 1);
    OnwardTrans(s, a, b);
    MulAnyOn(b, mulDone);
    MulOrderly(b, mulDone);
    OnwardTrans(s, b, MulSlot(b, mulDone));
  }

  lemma LsusOn(s: Core, x: LsuAction, y: LsuAction)
    requires Shape(s) && Orderly(s)
    ensures var t := LsuSlot(LsuSlot(s, 3, x), 4, y); Onward(s, t) && Orderly(t)
  {
    var a := LsuSlot(s, 3, x);
    LsuAnyOn(s, 3, x);
    LsuOrderly(s, 3, x);
    LsuAnyOn(a, 4, y);
    LsuOrderly(a, 4, y);
    OnwardTrans(s, a, LsuSlot(a, 4, y));
  }

  lemma IssuesOn(s: Core)
    requires Shape(s)
    ensures Onward(s, Issue(s))
  {
    var a := IssueSlot(s, 0);
    var b := IssueSlot(a, 1);
    var c := IssueSlot(b, 2);
    var d := IssueSlot(c, 3);
    IssueOn(s, 0);
    IssueOn(a, 1);
    IssueOn(b, 2);
    IssueOn(c, 3);
    IssueOn(d, 4);
    OnwardTrans(s, a, b);
    OnwardTrans(s, b, c);
    OnwardTrans(s, c, d);
    OnwardTrans(s, d, IssueSlot(d, 4));
  }

  /** Rename, decode and fetch. */
  function Supply(prog: Program, s: Core, i: Inputs): (t: Core)
    requires Shape(s)
    ensures Shape(t)
  {
    var r := Decode(RenameOne(RenameOne(s)));
    FetchShape(prog, r, i.pred0, i.pred1);
    Fetch(prog, r, i.pred0, i.pred1)
  }

  lemma SupplyOn(prog: Program, s: Core, i: Inputs)
    requires Shape(s)
    ensures Onward(s, Supply(prog, s, i)) && Supply(prog, s, i) == Fetch(prog, Decode(RenameOne(RenameOne(s))), i.pred0, i.pred1)
  {
    var a := RenameOne(s);
    var b := RenameOne(a);
    RenameOn(s);
    RenameOn(a);
    OnwardTrans(s, a, b);
    FetchShape(prog, Decode(b), i.pred0, i.pred1);
    SameOnward(b, Supply(prog, s, i));
    OnwardTrans(s, b, Supply(prog, s, i));
  }

  lemma BackIsSupply(prog: Program, s: Core, i: Inputs)
    requires Shape(s)
    ensures Back(prog, s, i) == Supply(prog, Issue(s), i)
  {
  }

  /** After commit every stage goes onward, whatever comes from outside. */
  lemma CycleOnward(prog: Program, s: Core, i: Inputs)
    requires Shape(s) && Orderly(s)
    ensures Onward(Front(s, i.tick), Cycle(prog, s, i))
  {
    var t := Front(s, i.tick);
    FrontOrderly(s, i.tick);
    ComputeOn(t, i.mulDone);
    var b, l := BeforeLsu(s, i), AfterLsu(s, i);
    LsusOn(b, i.lsu0, i.lsu1);
    OnwardTrans(t, b, l);
    IssuesOn(l);
    OnwardTrans(t, l, Issue(l));
    SupplyOn(prog, Issue(l), i);
    BackIsSupply(prog, l, i);
    OnwardTrans(t, Issue(l), Cycle(prog, s, i));
  }

  lemma BootAttended(init: Arch)
    ensures Attended(Boot(init))
  {
  }

  /** In every run of every program, every unfinished instruction is in a station or a latch. */
  lemma {:induction false} AlwaysAttended(prog: Program, init: Arch, ins: seq<Inputs>)
    ensures Attended(Exec(prog, init, ins))
  {
    if ins == [] {
      BootAttended(init);
    } else {
      var s, i := Exec(prog, init, ins[..|ins| - 1]), ins[|ins| - 1];
      AlwaysAttended(prog, init, ins[..|ins| - 1]);
      AlwaysOrderly(prog, init, ins[..|ins| - 1]);
      FrontAttends(s, i.tick);
      CycleOnward(prog, s, i);
    }
  }

  // -------------------------------------------------------------- a prompt cycle

  /** Nothing outside makes the engine wait in this cycle; predictions are free. */
  predicate Prompt(i: Inputs) { i.tick && i.mulDone && i.lsu0 == Fill && i.lsu1 == Fill }

  predicate AllFree(s: Core) { forall u | 0 <= u < |s.units| :: !s.units[u].valid }

  lemma NoneTakenTrans(s: Core, r: Core, t: Core)
    requires NoneTaken(s, r) && NoneTaken(r, t)
    ensures NoneTaken(s, t)
  {
  }

  /** With nothing to wait for, the units are all free after they have had their turn. */
  lemma UnitsEmpty(s: Core, i: Inputs)
    requires Shape(s) && Orderly(s) && Prompt(i)
    ensures AllFree(AfterLsu(s, i))
  {
    var t := Front(s, i.tick);
    FrontOrderly(s, i.tick);
    var a := IntSlot(t, 0);
    var b := IntSlot(a, 1);
    var c := MulSlot(b, true);
    var d := LsuSlot(c, 3, Fill);
    IntOn(t, 0);
    IntOrderly(t, 0);
    IntOn(a, 1);
    IntOrderly(a, 1);
    MulOn(b);
    MulOrderly(b, true);
    LsuOn(c, 3);
    LsuOrderly(c, 3, Fill);
    LsuOn(d, 4);
    FreeInTurn(a, b, c, d, LsuSlot(d, 4, Fill));
  }

  lemma FreeInTurn(a: Core, b: Core, c: Core, d: Core, e: Core)
    requires |a.units| == NUM_UNITS && !a.units[0].valid
    requires Vacated(a, b, 1) && Vacated(b, c, 2) && Vacated(c, d, 3) && Vacated(d, e, 4)
    ensures AllFree(e)
  {
    NoneTakenTrans(a, b, c);
    NoneTakenTrans(a, c, d);
    NoneTakenTrans(a, d, e);
    NoneTakenTrans(b, c, d);
    NoneTakenTrans(b, d, e);
    NoneTakenTrans(c, d, e);
    assert !e.units[0].valid && !e.units[1].valid && !e.units[2].valid && !e.units[3].valid;
  }

  lemma FreeMeansNotRunning(s: Core, tag: int)
    requires AllFree(s)
    ensures !Running(s, tag)
  {
  }

  /** The unit the head would be issued to. */
  function UnitFor(s: Core): (u: nat)
    requires s.rob != []
    ensures u < NUM_UNITS && EuOfUnit(u) == EuOf(s.rob[0].ir)
  {
    match EuOf(s.rob[0].ir)
    case INT => 0
    case MUL => 2
    case LSU => 3
  }

  /** One issue slot: the head gets into a latch if this is its unit, and stays where it is if not. */
  lemma IssueStep(s: Core, t: Core, u: nat)
    requires Shape(s) && Orderly(s) && Attended(s) && s.rob != [] && !s.rob[0].ready && u < NUM_UNITS && t == IssueSlot(s, u)
    requires u == UnitFor(s) ==> !s.units[u].valid || Running(s, s.insts)
    ensures Orderly(t) && Attended(t) && t.rob == s.rob && t.insts == s.insts
    ensures Running(s, s.insts) || u == UnitFor(s) ==> Running(t, t.insts)
    ensures forall v | 0 <= v < NUM_UNITS && v != u :: t.units[v] == s.units[v]
  {
    IssueOn(s, u);
    IssueOrderly(s, u);
    assert AttendedTo(s, s.insts + 0);
    if u == UnitFor(s) && !Running(s, s.insts) { HeadIssues(s, u); }
  }

  lemma HeadGetsUnit(s: Core)
    requires Shape(s) && Orderly(s) && Attended(s) && s.rob != [] && !s.rob[0].ready && AllFree(s)
    ensures Running(Issue(s), s.insts)
  {
    var a := IssueSlot(s, 0);
    var b := IssueSlot(a, 1);
    var c := IssueSlot(b, 2);
    var d := IssueSlot(c, 3);
    IssueStep(s, a, 0);
    IssueStep(a, b, 1);
    IssueStep(b, c, 2);
    IssueStep(c, d, 3);
    IssueStep(d, IssueSlot(d, 4), 4);
  }

  // -------------------------------------------------------------------- the rank

  /** How far the engine is from committing its next instruction. */
  ghost function Rank(s: Core): nat {
    if s.rob != [] then
      if s.rob[0].ready then |s.sbuf| else if Running(s, s.insts) then STORE_BUF_SIZE + 1 else STORE_BUF_SIZE + 2
    else if s.idrn != [] then STORE_BUF_SIZE + 3
    else if s.ifid != [] then STORE_BUF_SIZE + 4
    else STORE_BUF_SIZE + 5
  }

  /** A head that has not finished holds commit up. */
  lemma NoCommit(s: Core, tick: bool)
    requires Shape(s) && (s.rob == [] || !s.rob[0].ready)
    ensures Front(s, tick) == Drain(s, tick) && Drain(s, tick).rob == s.rob && Drain(s, tick).insts == s.insts
    ensures Drain(s, tick).rs == s.rs && Drain(s, tick).units == s.units
    ensures Drain(s, tick).idrn == s.idrn && Drain(s, tick).ifid == s.ifid && Drain(s, tick).fetchPc == s.fetchPc
  {
  }

  /** The head is waiting or running: at the end of the cycle it is running or has finished. */
  lemma HeadMoves(prog: Program, s: Core, i: Inputs)
    requires Shape(s) && Orderly(s) && Attended(s) && Prompt(i) && s.rob != [] && !s.rob[0].ready
    ensures var t := Cycle(prog, s, i);
      && t.insts == s.insts && t.rob != [] && (Running(s, s.insts) ==> t.rob[0].ready)
      && (t.rob[0].ready || Running(t, t.insts))
  {
    var f, l := Front(s, i.tick), AfterLsu(s, i);
    NoCommit(s, i.tick);
    SameOnward(s, f);
    FrontOrderly(s, i.tick);
    ComputeOn(f, i.mulDone);
    LsusOn(BeforeLsu(s, i), i.lsu0, i.lsu1);
    OnwardTrans(s, f, BeforeLsu(s, i));
    OnwardTrans(s, BeforeLsu(s, i), l);
    UnitsEmpty(s, i);
    FreeMeansNotRunning(l, l.insts);
    HeadMovesOn(prog, l, i);
  }

  lemma HeadMovesOn(prog: Program, s: Core, i: Inputs)
    requires Shape(s) && Orderly(s) && Attended(s) && s.rob != [] && AllFree(s)
    ensures var t := Back(prog, s, i);
      t.insts == s.insts && t.rob != [] && (s.rob[0].ready ==> t.rob[0].ready) && (t.rob[0].ready || Running(t, t.insts))
  {
    IssuesOn(s);
    if !s.rob[0].ready { HeadGetsUnit(s); }
    SupplyOn(prog, Issue(s), i);
    BackIsSupply(prog, s, i);
  }

  // ----------------------------------------------------------- an empty buffer

  /** Only latches differ. */
  ghost predicate LatchesAside(s: Core, t: Core) { t == s.(units := t.units) }

  lemma NobodyLive(s: Core, u: nat)
    requires Shape(s) && Orderly(s) && s.rob == [] && u < NUM_UNITS
    ensures !LiveLatch(s, u) && (u < 3 ==> !s.units[u].valid)
  {
    if LiveLatch(s, u) {
      LatchIsPlaced(s, u);
      assert false;
    }
    if u < 3 { OnlyLoadsFlushed(s, u); }
  }

  lemma NobodyWaits(s: Core, i: nat)
    requires Shape(s) && Orderly(s) && s.rob == [] && i < RS_SIZE
    ensures !s.rs[i].valid
  {
    if s.rs[i].valid {
      WaitsForOlder(s, i);
      assert false;
    }
  }

  lemma EmptyComputes(s: Core, done: bool)
    requires Shape(s) && Orderly(s) && s.rob == []
    ensures Compute(s, done) == s
  {
    NobodyLive(s, 0);
    NobodyLive(s, 1);
    NobodyLive(s, 2);
  }

  lemma EmptyLsu(s: Core, u: nat, act: LsuAction)
    requires Shape(s) && Orderly(s) && s.rob == [] && 3 <= u < NUM_UNITS
    ensures LatchesAside(s, LsuSlot(s, u, act))
  {
    NobodyLive(s, u);
  }

  lemma EmptyIssue(s: Core, u: nat)
    requires Shape(s) && Orderly(s) && s.rob == [] && u < NUM_UNITS
    ensures IssueSlot(s, u) == s
  {
    forall i: nat | i < RS_SIZE ensures !s.rs[i].valid { NobodyWaits(s, i); }
  }

  lemma EmptyIssues(s: Core)
    requires Shape(s) && Orderly(s) && s.rob == []
    ensures Issue(s) == s
  {
    EmptyIssue(s, 0);
    EmptyIssue(s, 1);
    EmptyIssue(s, 2);
    EmptyIssue(s, 3);
    EmptyIssue(s, 4);
  }

  /** With an empty buffer nothing moves until rename. */
  lemma EmptyUntilRename(prog: Program, s: Core, i: Inputs) returns (q: Core)
    requires Shape(s) && Orderly(s) && s.rob == []
    ensures Shape(q) && Orderly(q) && q.rob == [] && q.insts == s.insts && q.pc == s.pc
    ensures q.idrn == s.idrn && q.ifid == s.ifid && q.fetchPc == s.fetchPc
    ensures Cycle(prog, s, i) == Supply(prog, q, i)
  {
    var f := Front(s, i.tick);
    NoCommit(s, i.tick);
    FrontOrderly(s, i.tick);
    EmptyComputes(f, i.mulDone);
    var a := LsuSlot(f, 3, i.lsu0);
    EmptyLsu(f, 3, i.lsu0);
    LsuOrderly(f, 3, i.lsu0);
    EmptyLsu(a, 4, i.lsu1);
    LsuOrderly(a, 4, i.lsu1);
    q := LsuSlot(a, 4, i.lsu1);
    assert q == AfterLsu(s, i);
    EmptyIssues(q);
    BackIsSupply(prog, q, i);
  }

  lemma EmptyCanRename(s: Core)
    requires Shape(s) && Orderly(s) && s.rob == [] && s.idrn != []
    ensures CanRename(s)
  {
    NobodyWaits(s, 0);
    FreeListNeverStalls(s);
  }

  lemma EmptyRenames(prog: Program, s: Core, i: Inputs)
    requires Shape(s) && Orderly(s) && s.rob == [] && s.idrn != []
    ensures Supply(prog, s, i).rob != [] && Supply(prog, s, i).insts == s.insts
  {
    EmptyCanRename(s);
    RenameOn(s);
    var a := RenameOne(s);
    RenameOn(a);
    FetchShape(prog, Decode(RenameOne(a)), i.pred0, i.pred1);
  }

  lemma EmptyDecodes(prog: Program, s: Core, i: Inputs)
    requires Shape(s) && s.rob == [] && s.idrn == [] && s.ifid != []
    ensures var t := Supply(prog, s, i); t.rob == [] && t.idrn != [] && t.insts == s.insts
  {
    FetchShape(prog, Decode(s), i.pred0, i.pred1);
    assert RenameOne(s) == s;
    FetchLeaves(prog, Decode(s), i.pred0, i.pred1);
  }

  lemma FetchLeaves(prog: Program, s: Core, p0: Prediction, p1: Prediction)
    ensures Fetch(prog, s, p0, p1).idrn == s.idrn && Fetch(prog, s, p0, p1).rob == s.rob
  {
  }

  lemma EmptyFetches(prog: Program, s: Core, i: Inputs)
    requires Shape(s) && s.rob == [] && s.idrn == [] && s.ifid == [] && InDram(s.fetchPc)
    ensures var t := Supply(prog, s, i); t.rob == [] && t.idrn == [] && t.ifid != [] && t.insts == s.insts
  {
    DramIsLow(s.fetchPc);
    assert RenameOne(s) == s && Decode(s) == s;
    FetchShape(prog, s, i.pred0, i.pred1);
    FetchLeaves(prog, s, i.pred0, i.pred1);
    FetchGets(prog, s, i.pred0, i.pred1);
  }

  lemma FetchGets(prog: Program, s: Core, p0: Prediction, p1: Prediction)
    requires s.ifid == [] && InDram(s.fetchPc) && s.fetchPc % 0x1_0000_0000 == s.fetchPc
    ensures Fetch(prog, s, p0, p1).ifid != []
  {
  }

  lemma PipeFills(prog: Program, s: Core, i: Inputs)
    requires Shape(s) && Orderly(s) && s.rob == [] && (s.idrn == [] && s.ifid == [] ==> InDram(s.fetchPc))
    ensures Cycle(prog, s, i).insts == s.insts && Rank(Cycle(prog, s, i)) < Rank(s)
  {
    var q := EmptyUntilRename(prog, s, i);
    if s.idrn != [] {
      EmptyRenames(prog, q, i);
      RankInBuffer(Supply(prog, q, i));
    } else if s.ifid != [] {
      EmptyDecodes(prog, q, i);
    } else {
      EmptyFetches(prog, q, i);
    }
  }

  lemma RankInBuffer(s: Core)
    requires Shape(s) && s.rob != []
    ensures Rank(s) <= STORE_BUF_SIZE + 2
  {
  }

  // ---------------------------------------------------------------- commit itself

  /** A finished head commits, unless it is a fence that still waits for stores to drain. */
  lemma HeadCommits(s: Core)
    requires Shape(s) && s.rob != [] && s.rob[0].ready && !s.rob[0].fault
    requires s.rob[0].ir.kind != FENCE || Drain(s, true).sbuf == []
    ensures Front(s, true).insts > s.insts
  {
    var d := Drain(s, true);
    assert CanCommit(d);
    CommitRetires(d);
    CommitGrows(CommitOne(d));
  }

  lemma CommitGrows(s: Core)
    requires Shape(s)
    ensures CommitOne(s).insts >= s.insts
  {
  }

  lemma FenceWaits(s: Core)
    requires Shape(s) && s.rob != [] && s.rob[0].ir.kind == FENCE && Drain(s, true).sbuf != []
    ensures Front(s, true) == Drain(s, true) && |Drain(s, true).sbuf| == |s.sbuf| - 1
    ensures Drain(s, true).rob == s.rob && Drain(s, true).insts == s.insts
    ensures Drain(s, true).rs == s.rs && Drain(s, true).units == s.units
  {
  }

  lemma HeadRetires(prog: Program, s: Core, i: Inputs)
    requires Shape(s) && Orderly(s) && Prompt(i) && s.rob != [] && s.rob[0].ready && !s.rob[0].fault
    ensures var t := Cycle(prog, s, i); t.insts > s.insts || (t.insts == s.insts && Rank(t) < Rank(s))
  {
    CycleQueue(prog, s, i);
    if s.rob[0].ir.kind == FENCE && Drain(s, true).sbuf != [] {
      FenceWaits(s);
      CycleOnward(prog, s, i);
    } else {
      HeadCommits(s);
    }
  }

  /** One prompt cycle commits an instruction or gets nearer to it. */
  lemma CycleProgress(prog: Program, s: Core, i: Inputs)
    requires Shape(s) && Orderly(s) && Attended(s) && Prompt(i)
    requires s.rob != [] && s.rob[0].ready ==> !s.rob[0].fault
    requires s.rob == [] && s.idrn == [] && s.ifid == [] ==> InDram(s.fetchPc)
    ensures var t := Cycle(prog, s, i); t.insts > s.insts || (t.insts == s.insts && Rank(t) < Rank(s))
  {
    if s.rob == [] {
      PipeFills(prog, s, i);
    } else if s.rob[0].ready {
      HeadRetires(prog, s, i);
    } else {
      HeadMoves(prog, s, i);
      RankOfHead(s, Cycle(prog, s, i));
    }
  }

  lemma RankOfHead(s: Core, t: Core)
    requires Shape(t) && s.rob != [] && !s.rob[0].ready && t.rob != []
    requires (Running(s, s.insts) ==> t.rob[0].ready) && (t.rob[0].ready || Running(t, t.insts))
    ensures Rank(t) < Rank(s)
  {
  }

  // ----------------------------------------------------------------------- runs

  lemma AtNextPc(prog: Program, f: Path, s: Core)
    requires ValidTrace(prog, f) && Inv(prog, f, s) && s.rob == [] && s.idrn == [] && s.ifid == []
    ensures InDram(s.fetchPc)
  {
    Unfold(prog, f, s);
    assert InFlight(s) == [];
    assert ValidStep(f.run(s.insts));
  }

  lemma Steady(prog: Program, f: Path, s: Core)
    requires ValidTrace(prog, f) && Inv(prog, f, s) && s.insts < f.limit
    ensures s.rob != [] && s.rob[0].ready ==> !s.rob[0].fault
    ensures s.rob == [] && s.idrn == [] && s.ifid == [] ==> InDram(s.fetchPc)
  {
    HeadNeverFaulty(prog, f, s);
    if s.rob == [] && s.idrn == [] && s.ifid == [] { AtNextPc(prog, f, s); }
  }

  /** One more cycle, and what is known of the state before it. */
  lemma NextOf(prog: Program, init: Arch, ins: seq<Inputs>, s: Core, i: Inputs) returns (t: Core)
    requires Reached(prog, init, ins, s)
    ensures Shape(s) && Orderly(s) && Attended(s) && t == Cycle(prog, s, i) && Reached(prog, init, ins + [i], t) && s.insts <= t.insts
  {
    assert s == Exec(prog, init, ins);
    AlwaysOrderly(prog, init, ins);
    AlwaysAttended(prog, init, ins);
    t := Cycle(prog, s, i);
    CycleCounts(prog, s, i);
    ReachedNext(prog, init, ins, i, s, t);
  }

  lemma InvAt(prog: Program, init: Arch, n: nat, ins: seq<Inputs>, s: Core)
    requires Suitable(prog, init, n) && Reached(prog, init, ins, s) && s.insts < n
    ensures ValidTrace(prog, Path(History(prog, init), n)) && Inv(prog, Path(History(prog, init), n), s)
  {
    assert s == Exec(prog, init, ins);
    ValidIsTrace(prog, init, n);
    RunQueued(prog, init, n, ins);
  }

  lemma SteadyAt(prog: Program, init: Arch, n: nat, ins: seq<Inputs>, s: Core)
    requires Suitable(prog, init, n) && Reached(prog, init, ins, s) && s.insts < n
    ensures s.rob != [] && s.rob[0].ready ==> !s.rob[0].fault
    ensures s.rob == [] && s.idrn == [] && s.ifid == [] ==> InDram(s.fetchPc)
  {
    InvAt(prog, init, n, ins, s);
    Steady(prog, Path(History(prog, init), n), s);
  }

  /** From any state of any run, a prompt cycle commits or gets nearer. */
  lemma RunProgress(prog: Program, init: Arch, n: nat, ins: seq<Inputs>, s: Core, i: Inputs) returns (t: Core)
    requires Suitable(prog, init, n) && Reached(prog, init, ins, s) && s.insts < n && Prompt(i)
    ensures Reached(prog, init, ins + [i], t) && (t.insts > s.insts || (t.insts == s.insts && Rank(t) < Rank(s)))
  {
    t := NextOf(prog, init, ins, s, i);
    SteadyAt(prog, init, n, ins, s);
    CycleProgress(prog, s, i);
  }

  lemma Later(prog: Program, init: Arch, ins: seq<Inputs>, s: Core, i: Inputs) returns (t: Core)
    requires Reached(prog, init, ins, s)
    ensures Reached(prog, init, ins + [i], t) && s.insts <= t.insts
  {
    t := NextOf(prog, init, ins, s, i);
  }

  lemma {:induction false} NeverBack(prog: Program, init: Arch, ins: seq<Inputs>, s: Core, more: seq<Inputs>) returns (t: Core)
    requires Reached(prog, init, ins, s)
    ensures Reached(prog, init, ins + more, t) && s.insts <= t.insts
    decreases |more|
  {
    if more == [] {
      assert ins + more == ins;
      t := s;
    } else {
      t := Later(prog, init, ins, s, more[0]);
      assert ins + more == ins + [more[0]] + more[1..];
      t := NeverBack(prog, init, ins + [more[0]], t, more[1..]);
    }
  }

  lemma {:induction false} CommitsSoon(prog: Program, init: Arch, n: nat, ins: seq<Inputs>, s: Core, more: seq<Inputs>) returns (t: Core)
    requires Suitable(prog, init, n) && Reached(prog, init, ins, s) && s.insts < n
    requires |more| > Rank(s) && forall k | 0 <= k < |more| :: Prompt(more[k])
    ensures Reached(prog, init, ins + more, t) && s.insts < t.insts
    decreases |more|
  {
    var r := RunProgress(prog, init, n, ins, s, more[0]);
    assert ins + more == ins + [more[0]] + more[1..];
    if r.insts > s.insts {
      t := NeverBack(prog, init, ins + [more[0]], r, more[1..]);
    } else {
      t := CommitsSoon(prog, init, n, ins + [more[0]], r, more[1..]);
    }
  }

  lemma RankBound(s: Core)
    requires Shape(s)
    ensures Rank(s) < 22
  {
  }

  /** Progress: in any run, as long as the program is valid, 22 cycles in which nothing outside makes the engine wait
      commit at least one instruction, whatever is predicted. */
  lemma CommitsWithin(prog: Program, init: Arch, n: nat, ins: seq<Inputs>, more: seq<Inputs>, s: Core, t: Core)
    requires Suitable(prog, init, n) && Reached(prog, init, ins, s) && Reached(prog, init, ins + more, t) && s.insts < n
    requires |more| >= 22 && forall k | 0 <= k < |more| :: Prompt(more[k])
    ensures t.insts > s.insts
  {
    ReachedRank(prog, init, ins, s);
    var r := CommitsSoon(prog, init, n, ins, s, more);
    ReachedSame(prog, init, ins + more, r, t);
  }

  lemma ReachedRank(prog: Program, init: Arch, ins: seq<Inputs>, s: Core)
    requires Reached(prog, init, ins, s)
    ensures Rank(s) < 22
  {
    assert s == Exec(prog, init, ins);
    RankBound(s);
  }

  lemma ReachedSame(prog: Program, init: Arch, ins: seq<Inputs>, s: Core, t: Core)
    requires Reached(prog, init, ins, s) && Reached(prog, init, ins, t)
    ensures s == t
  {
    assert s == Exec(prog, init, ins);
  }

  function Prompts(k: nat): (ins: seq<Inputs>)
    ensures |ins| == k && forall j | 0 <= j < k :: Prompt(ins[j])
  {
    seq(k, _ => Inputs(true, true, Fill, Fill, FallThrough, FallThrough))
  }

  /** Completion: every run of a program that is valid for `n` instructions can be continued until they have committed. */
  lemma {:induction false} Completes(prog: Program, init: Arch, n: nat, ins: seq<Inputs>, s: Core) returns (more: seq<Inputs>, t: Core)
    requires Suitable(prog, init, n) && Reached(prog, init, ins, s)
    ensures Reached(prog, init, ins + more, t) && t.insts >= n
    decreases n - s.insts
  {
    if s.insts >= n {
      more, t := [], s;
      assert ins + more == ins;
    } else {
      ReachedRank(prog, init, ins, s);
      var some := Prompts(22);
      var r := CommitsSoon(prog, init, n, ins, s, some);
      var rest;
      rest, t := Completes(prog, init, n, ins + some, r);
      more := some + rest;
      assert ins + more == ins + some + rest;
    }
  }
}
