/**
 The invariant of the out-of-order engine, and what follows from it in one state.

 `f.run(s.insts + k)`, of the functional execution `f`, is the instruction that entry `k` should be;
 `OnPath` says that it is, and so are all older entries.  Values are only
 claimed for entries on the path: past an unresolved misprediction anything may be in flight.
 */
module TomasuloInvariant {
  import opened Isa
  import opened Forwarding
  import opened Tomasulo

  // ---------------------------------------------------------------- renaming

  /** The register map just before entry `j` was renamed: the committed map with the older
      in-flight destinations on top. */
  function RatAt(rrat: seq<int>, rob: seq<Entry>, j: nat): (m: seq<int>)
    requires |rrat| == 32 && j <= |rob|
    ensures |m| == 32
  {
    if j == 0 then rrat
    else
      var m := RatAt(rrat, rob, j - 1);
      var e := rob[j - 1];
      if e.ir.rd > 0 then m[e.ir.rd := e.phys] else m
  }

  ghost predicate Names(s: Core)
    requires Shape(s)
  {
    && s.rat == RatAt(s.rrat, s.rob, |s.rob|)
    && (forall k | 0 <= k < |s.rob| && s.rob[k].ir.rd > 0 ::
          s.rob[k].prev == RatAt(s.rrat, s.rob, k)[s.rob[k].ir.rd])
    && (forall k | 0 <= k < |s.rob| && s.rob[k].ir.rd <= 0 :: s.rob[k].phys == s.rob[k].ir.rd)
  }

  function Dest(e: Entry): multiset<int> { if e.ir.rd > 0 then multiset{e.phys} else multiset{} }

  /** The physical registers held as destinations by the first `j` entries. */
  function Dests(rob: seq<Entry>, j: nat): multiset<int>
    requires j <= |rob|
  {
    if j == 0 then multiset{}
    else Dests(rob, j - 1) + Dest(rob[j - 1])
  }

  function Owned(s: Core): multiset<int> { multiset(s.rrat) + Dests(s.rob, |s.rob|) + multiset(s.free) }

  /** Committed map, in-flight destinations and free list partition the physical registers. */
  ghost predicate Conserved(s: Core) {
    forall p: int :: Owned(s)[p] == if 0 <= p < NUM_PHYS then 1 else 0
  }

  ghost predicate ReadyBits(s: Core)
    requires Shape(s)
  {
    && (forall r | 0 < r < 32 :: s.prf[s.rrat[r]].ready)
    && (forall k | 0 <= k < |s.rob| && s.rob[k].ir.rd > 0 :: s.prf[s.rob[k].phys].ready == s.rob[k].ready)
  }

  ghost predicate Renamed(s: Core) { Shape(s) && Names(s) && Conserved(s) && ReadyBits(s) }

  lemma RenamedFrame(s: Core, t: Core)
    requires Renamed(s) && Shape(t)
    requires t.rrat == s.rrat && t.rat == s.rat && t.free == s.free && t.prf == s.prf && t.rob == s.rob
    ensures Renamed(t)
  {
    forall p: int ensures Owned(t)[p] == if 0 <= p < NUM_PHYS then 1 else 0 { assert Owned(s)[p] == Owned(t)[p]; }
  }

  // -------------------------------------------------- where instructions wait

  predicate LiveLatch(s: Core, u: nat)
    requires u < |s.units|
  {
    s.units[u].valid && !s.units[u].flushed
  }

  ghost predicate TagsDistinct(s: Core)
    requires Shape(s)
  {
    && (forall i, k | 0 <= i < k < RS_SIZE && s.rs[i].valid && s.rs[k].valid :: s.rs[i].tag != s.rs[k].tag)
    && (forall u, v | 0 <= u < v < NUM_UNITS && LiveLatch(s, u) && LiveLatch(s, v) :: s.units[u].tag != s.units[v].tag)
    && (forall i, u | 0 <= i < RS_SIZE && 0 <= u < NUM_UNITS && s.rs[i].valid && LiveLatch(s, u) ::
          s.rs[i].tag != s.units[u].tag)
  }

  /** A station or latch names an entry that waits for it. */
  predicate Waits(s: Core, tag: int, phys: int, eu: EU)
    requires Shape(s)
  {
    && Live(s, tag)
    && !s.rob[tag - s.insts].ready
    && s.rob[tag - s.insts].phys == phys
    && EuOf(s.rob[tag - s.insts].ir) == eu
  }

  predicate OlderStoresReady(s: Core, j: nat)
    requires j <= |s.rob|
  {
    forall k | 0 <= k < j && s.rob[k].ir.kind == STORE :: s.rob[k].ready
  }

  /** A load that has been issued has all older stores before it ready. */
  predicate LatchPlaced(s: Core, l: Latch, eu: EU)
    requires Shape(s)
  {
    && Waits(s, l.tag, l.phys, eu)
    && (s.rob[l.tag - s.insts].ir.kind == LOAD ==> OlderStoresReady(s, l.tag - s.insts))
  }

  ghost predicate Placed(s: Core)
    requires Shape(s)
  {
    && TagsDistinct(s)
    && (forall i | 0 <= i < RS_SIZE && s.rs[i].valid :: Waits(s, s.rs[i].tag, s.rs[i].phys, s.rs[i].eu))
    && (forall u | 0 <= u < NUM_UNITS && LiveLatch(s, u) :: LatchPlaced(s, s.units[u], EuOfUnit(u)))
    && (forall u | 0 <= u < NUM_UNITS && EuOfUnit(u) != LSU :: !s.units[u].flushed)
    && (forall k | 0 <= k < |s.rob| && s.rob[k].ir.serializing :: k == 0)
  }

  /** An operand that has not arrived names the register of an older entry that is not ready. */
  ghost predicate Awaits(s: Core, j: nat, r: int, t: int)
    requires Shape(s) && j <= |s.rob|
  {
    0 < r < 32 && t == RatAt(s.rrat, s.rob, j)[r] && 0 <= t < NUM_PHYS && !s.prf[t].ready
  }

  /** The operands station `x` has not got are on their way. */
  ghost predicate StationWaits(s: Core, x: Station)
    requires Shape(s)
  {
    && Live(s, x.tag)
    && (!x.r1 ==> Awaits(s, x.tag - s.insts, s.rob[x.tag - s.insts].ir.rs1, x.t1))
    && (!x.r2 ==> Awaits(s, x.tag - s.insts, s.rob[x.tag - s.insts].ir.rs2, x.t2))
  }

  ghost predicate Waiting(s: Core)
    requires Shape(s)
  {
    forall i | 0 <= i < RS_SIZE && s.rs[i].valid :: StationWaits(s, s.rs[i])
  }

  // -------------------------------------------------------------------- path

  function Heads(rob: seq<Entry>): (z: seq<Fetched>)
    ensures |z| == |rob|
    ensures forall k | 0 <= k < |rob| :: z[k] == Fetched(rob[k].ir, rob[k].pc, rob[k].pred)
  {
    seq(|rob|, k requires 0 <= k < |rob| => Fetched(rob[k].ir, rob[k].pc, rob[k].pred))
  }

  /** Everything fetched and not committed, oldest first. */
  function InFlight(s: Core): seq<Fetched> { Heads(s.rob) + s.idrn + s.ifid }

  /** The pc that follows in-flight instruction `k`. */
  function NextPc(s: Core, k: nat): Word
    requires k < |InFlight(s)|
  {
    if k + 1 < |InFlight(s)| then InFlight(s)[k + 1].pc else s.fetchPc
  }

  /** Where instruction `k` goes as far as the engine knows. */
  function Expected(s: Core, k: nat): Word
    requires k < |InFlight(s)|
  {
    if k < |s.rob| && s.rob[k].ready then s.rob[k].dnpc else InFlight(s)[k].pred
  }

  ghost predicate ChainedAt(s: Core, k: nat)
    requires k < |InFlight(s)|
  {
    InDram(Expected(s, k)) ==> NextPc(s, k) == Expected(s, k)
  }

  ghost predicate TextAt(prog: Program, f: Fetched) {
    f.ir == prog(f.pc) && f.pred != 0 && (!Control(f.ir) ==> f.pred == Wrap(f.pc + 4))
  }

  ghost predicate Text(prog: Program, s: Core) {
    forall k | 0 <= k < |InFlight(s)| :: TextAt(prog, InFlight(s)[k])
  }

  function FirstPc(s: Core): Word { if |InFlight(s)| > 0 then InFlight(s)[0].pc else s.fetchPc }

  ghost predicate Chained(s: Core) {
    && FirstPc(s) == s.pc
    && forall k | 0 <= k < |InFlight(s)| :: ChainedAt(s, k)
  }

  // ------------------------------------------------------------------ values

  /** An execution and how much of it is of interest: values are claimed for its first `limit` instructions. */
  datatype Path = Path(run: Trace, limit: nat)

  ghost predicate SameInst(f: Path, s: Core, k: nat)
    requires k < |s.rob|
  {
    s.insts + k < f.limit && s.rob[k].pc == f.run(s.insts + k).pc && s.rob[k].ir == f.run(s.insts + k).ir
  }

  /** The entries up to `j` are the next instructions of the functional execution. */
  ghost predicate OnPath(f: Path, s: Core, j: int)
    requires j < |s.rob|
  {
    forall k: nat | k <= j :: SameInst(f, s, k)
  }

  /** A finished entry holds what the functional machine computes. */
  ghost predicate DoneAt(x: Executed, e: Entry, prf: seq<Phys>)
    requires |prf| == NUM_PHYS && -1 <= e.phys < NUM_PHYS && (e.ir.rd > 0 ==> e.phys > 0)
  {
    && e.dnpc == x.dnpc && !e.fault
    && (e.ir.rd > 0 ==> prf[e.phys].value == x.result)
    && (e.ir.kind == STORE ==> e.addr == x.addr && e.data == x.v2)
  }

  ghost predicate FinishedRight(f: Path, s: Core, k: nat)
    requires Shape(s) && k < |s.rob|
  {
    s.rob[k].ready && OnPath(f, s, k) ==> DoneAt(f.run(s.insts + k), s.rob[k], s.prf)
  }

  ghost predicate Done(f: Path, s: Core)
    requires Shape(s)
  {
    forall k: nat {:trigger FinishedRight(f, s, k)} | k < |s.rob| :: FinishedRight(f, s, k)
  }

  /** Operands that have arrived, for a station or latch of entry `j`. */
  ghost predicate Arrived(f: Path, s: Core, j: nat, r1: bool, v1: Word, r2: bool, v2: Word)
    requires j < |s.rob|
  {
    OnPath(f, s, j) ==> (r1 ==> v1 == f.run(s.insts + j).v1) && (r2 ==> v2 == f.run(s.insts + j).v2)
  }

  ghost predicate StationRight(f: Path, s: Core, x: Station) {
    Live(s, x.tag) && Arrived(f, s, x.tag - s.insts, x.r1, x.v1, x.r2, x.v2)
  }

  ghost predicate LatchRight(f: Path, s: Core, l: Latch) {
    Live(s, l.tag) && Arrived(f, s, l.tag - s.insts, true, l.v1, true, l.v2)
  }

  ghost predicate Operands(f: Path, s: Core)
    requires Shape(s)
  {
    && (forall i | 0 <= i < RS_SIZE && s.rs[i].valid :: StationRight(f, s, s.rs[i]))
    && (forall u | 0 <= u < NUM_UNITS && LiveLatch(s, u) :: LatchRight(f, s, s.units[u]))
  }

  /** The committed registers are those of the functional machine after `insts` instructions, and the
      committed map leads to them. */
  ghost predicate CommittedRegs(f: Path, s: Core)
    requires Shape(s)
  {
    && s.insts <= f.limit && s.gpr == f.run(s.insts).regs && s.pc == f.run(s.insts).pc
    && (forall r | 0 < r < 32 :: s.prf[s.rrat[r]].value == s.gpr[r])
  }

  /** Memory with the store buffer on top is the memory of the functional machine. */
  ghost predicate CommittedMem(f: Path, s: Core) {
    PerformAll(s.mem, s.sbuf) == f.run(s.insts).mem && Sized(s.sbuf)
  }

  ghost predicate Values(f: Path, s: Core)
    requires Shape(s)
  {
    Done(f, s) && Operands(f, s) && CommittedRegs(f, s) && CommittedMem(f, s)
  }

  // ------------------------------------------------------------------- whole

  /** Everything except how in-flight instructions follow one another. */
  ghost predicate Sound(prog: Program, f: Path, s: Core) {
    && Renamed(s) && Placed(s) && Waiting(s)
    && Text(prog, s) && Values(f, s)
  }

  ghost predicate Full(prog: Program, f: Path, s: Core) { Sound(prog, f, s) && Chained(s) }

  datatype Aspect = Contents | Order

  ghost predicate Holds(a: Aspect, prog: Program, f: Path, s: Core) {
    match a
    case Contents => Sound(prog, f, s)
    case Order => Chained(s)
  }

  /** The invariant of the engine running `prog`, whose functional execution is `f`.

      The quantifier over the two aspects is there to keep the definition folded.  A proof that only hands the
      invariant on sees one fact; `Unfold` opens it.  `Orderly` below has the same shape, and so have the predicates
      that say that a state is what a function gives (`UndoneBy`, `Did`, `Cycled`, `Reached` and others), as a
      quantifier over the one point in question: naming the function's result at that point opens them. */
  ghost predicate Inv(prog: Program, f: Path, s: Core) { forall a: Aspect :: Holds(a, prog, f, s) }

  lemma Unfold(prog: Program, f: Path, s: Core)
    requires Inv(prog, f, s)
    ensures Full(prog, f, s)
  {
    assert Holds(Contents, prog, f, s) && Holds(Order, prog, f, s);
  }

  lemma Fold(prog: Program, f: Path, s: Core)
    requires Full(prog, f, s)
    ensures Inv(prog, f, s)
  {
  }

  /** The programs the engine is for: the functional machine stays in DRAM, meets no invalid
      instruction and accesses DRAM only. */
  ghost predicate ValidStep(x: Executed) {
    InDram(x.pc) && x.ir.kind != INVALID && (x.ir.kind in {LOAD, STORE} ==> InDram(x.addr))
  }

  ghost predicate ValidTrace(prog: Program, f: Path) {
    IsTrace(prog, f.run) && forall n: nat {:trigger ValidStep(f.run(n))} | n <= f.limit :: ValidStep(f.run(n))
  }

  // -------------------------------------------------- the register partition

  lemma {:induction false} DestCounted(rob: seq<Entry>, j: nat, k: nat)
    requires k < j <= |rob| && rob[k].ir.rd > 0
    ensures Dests(rob, j)[rob[k].phys] >= 1
  {
    if k < j - 1 { DestCounted(rob, j - 1, k); }
  }

  lemma {:induction false} DestsCounted(rob: seq<Entry>, j: nat, k: nat, l: nat)
    requires k < l < j <= |rob| && rob[k].ir.rd > 0 && rob[l].ir.rd > 0 && rob[k].phys == rob[l].phys
    ensures Dests(rob, j)[rob[k].phys] >= 2
  {
    if l == j - 1 { DestCounted(rob, j - 1, k); } else { DestsCounted(rob, j - 1, k, l); }
  }

  lemma RratCounted(s: Core, r: nat)
    requires Shape(s) && r < 32
    ensures multiset(s.rrat)[s.rrat[r]] >= 1
  {
    assert s.rrat[r] in s.rrat;
  }

  lemma RratsCounted(s: Core, r: nat, q: nat)
    requires Shape(s) && r < q < 32 && s.rrat[r] == s.rrat[q]
    ensures multiset(s.rrat)[s.rrat[r]] >= 2
  {
    var p := s.rrat[r];
    assert s.rrat == s.rrat[..q] + s.rrat[q..];
    assert p in s.rrat[..q] && p in s.rrat[q..] by { assert s.rrat[..q][r] == p && s.rrat[q..][0] == p; }
  }

  /** In-flight destinations are distinct, and no register is both in flight and committed. */
  lemma Distinct(s: Core)
    requires Shape(s) && Conserved(s)
    ensures forall k, l | 0 <= k < l < |s.rob| && s.rob[k].ir.rd > 0 && s.rob[l].ir.rd > 0 ::
              s.rob[k].phys != s.rob[l].phys
    ensures forall k, r | 0 <= k < |s.rob| && s.rob[k].ir.rd > 0 && 0 <= r < 32 :: s.rob[k].phys != s.rrat[r]
    ensures forall r, q | 0 <= r < q < 32 :: s.rrat[r] != s.rrat[q]
  {
    forall k, l | 0 <= k < l < |s.rob| && s.rob[k].ir.rd > 0 && s.rob[l].ir.rd > 0
      ensures s.rob[k].phys != s.rob[l].phys
    {
      assert Owned(s)[s.rob[k].phys] <= 1;
      if s.rob[k].phys == s.rob[l].phys { DestsCounted(s.rob, |s.rob|, k, l); assert false; }
    }
    forall k, r | 0 <= k < |s.rob| && s.rob[k].ir.rd > 0 && 0 <= r < 32
      ensures s.rob[k].phys != s.rrat[r]
    {
      DestCounted(s.rob, |s.rob|, k);
      RratCounted(s, r);
      assert Owned(s)[s.rob[k].phys] <= 1;
    }
    forall r, q | 0 <= r < q < 32 ensures s.rrat[r] != s.rrat[q] {
      assert Owned(s)[s.rrat[r]] <= 1;
      if s.rrat[r] == s.rrat[q] { RratsCounted(s, r, q); assert false; }
    }
  }

  /** A free register is neither committed nor in flight. */
  lemma FreeIsFree(s: Core, i: nat)
    requires Shape(s) && Conserved(s) && i < |s.free|
    ensures forall k | 0 <= k < |s.rob| && s.rob[k].ir.rd > 0 :: s.rob[k].phys != s.free[i]
    ensures forall r | 0 <= r < 32 :: s.rrat[r] != s.free[i]
  {
    var p := s.free[i];
    assert p in s.free && Owned(s)[p] <= 1;
    forall k | 0 <= k < |s.rob| && s.rob[k].ir.rd > 0 ensures s.rob[k].phys != p {
      DestCounted(s.rob, |s.rob|, k);
    }
    forall r | 0 <= r < 32 ensures s.rrat[r] != p { RratCounted(s, r); }
  }

  // ---------------------------------------------------------- frames of RatAt

  /** The map depends on destinations and physical registers only. */
  lemma {:induction false} RatFrame(rrat: seq<int>, a: seq<Entry>, b: seq<Entry>, j: nat)
    requires |rrat| == 32 && j <= |a| && j <= |b|
    requires forall k | 0 <= k < j :: a[k].ir.rd == b[k].ir.rd && a[k].phys == b[k].phys
    ensures RatAt(rrat, a, j) == RatAt(rrat, b, j)
  {
    if j > 0 { RatFrame(rrat, a, b, j - 1); }
  }

  lemma {:induction false} DestsFrame(a: seq<Entry>, b: seq<Entry>, j: nat)
    requires j <= |a| && j <= |b|
    requires forall k | 0 <= k < j :: a[k].ir.rd == b[k].ir.rd && a[k].phys == b[k].phys
    ensures Dests(a, j) == Dests(b, j)
  {
    if j > 0 { DestsFrame(a, b, j - 1); }
  }

  lemma RatLast(rrat: seq<int>, rob: seq<Entry>, e: Entry)
    requires |rrat| == 32
    ensures RatAt(rrat, rob + [e], |rob| + 1) ==
      if e.ir.rd > 0 then RatAt(rrat, rob, |rob|)[e.ir.rd := e.phys] else RatAt(rrat, rob, |rob|)
  {
    RatFrame(rrat, rob + [e], rob, |rob|);
    assert (rob + [e])[|rob|] == e;
  }

  lemma DestsLast(rob: seq<Entry>, e: Entry)
    ensures Dests(rob + [e], |rob| + 1) == Dests(rob, |rob|) + Dest(e)
  {
    DestsFrame(rob + [e], rob, |rob|);
    assert (rob + [e])[|rob|] == e;
  }

  lemma RatStep(rrat: seq<int>, rob: seq<Entry>, j: nat, r: int)
    requires |rrat| == 32 && 0 < j <= |rob| && 0 < r < 32
    ensures RatAt(rrat, rob, j)[r] == if rob[j - 1].ir.rd == r then rob[j - 1].phys else RatAt(rrat, rob, j - 1)[r]
  {
  }

  lemma {:induction false} RatRange(s: Core, j: nat)
    requires Shape(s) && j <= |s.rob|
    ensures forall r | 0 < r < 32 :: 0 < RatAt(s.rrat, s.rob, j)[r] < NUM_PHYS
  {
    if j > 0 { RatRange(s, j - 1); }
  }

  // --------------------------------------------------- values through the map

  /** A ready register reached through the map at entry `j` holds the value the functional machine
      has in that register when it comes to that instruction. */
  lemma {:induction false} ValueThroughMap(prog: Program, f: Path, s: Core, j: nat, r: int)
    requires IsTrace(prog, f.run)
    requires Shape(s) && ReadyBits(s) && Done(f, s) && CommittedRegs(f, s)
    requires j <= |s.rob| && OnPath(f, s, j - 1) && 0 < r < 32
    requires 0 <= RatAt(s.rrat, s.rob, j)[r] < NUM_PHYS && s.prf[RatAt(s.rrat, s.rob, j)[r]].ready
    ensures s.prf[RatAt(s.rrat, s.rob, j)[r]].value == f.run(s.insts + j).regs[r]
    decreases j
  {
    if j > 0 {
      RatStep(s.rrat, s.rob, j, r);
      StepRegs(prog, f.run, s.insts + (j - 1), r);
      assert SameInst(f, s, j - 1);
      if s.rob[j - 1].ir.rd == r {
        assert FinishedRight(f, s, j - 1);
      } else {
        ValueThroughMap(prog, f, s, j - 1, r);
      }
    }
  }

  lemma HeadsAre(s: Core)
    ensures |InFlight(s)| == |s.rob| + |s.idrn| + |s.ifid|
    ensures forall k | 0 <= k < |s.rob| :: InFlight(s)[k] == Fetched(s.rob[k].ir, s.rob[k].pc, s.rob[k].pred)
  {
  }

  lemma TextOfRob(prog: Program, s: Core)
    requires Text(prog, s)
    ensures forall k | 0 <= k < |s.rob| :: s.rob[k].ir == prog(s.rob[k].pc) && s.rob[k].pred != 0
    ensures forall k | 0 <= k < |s.rob| && !Control(s.rob[k].ir) :: s.rob[k].pred == Wrap(s.rob[k].pc + 4)
  {
    HeadsAre(s);
    forall k | 0 <= k < |s.rob|
      ensures s.rob[k].ir == prog(s.rob[k].pc) && s.rob[k].pred != 0
      ensures !Control(s.rob[k].ir) ==> s.rob[k].pred == Wrap(s.rob[k].pc + 4)
    {
      assert TextAt(prog, InFlight(s)[k]);
    }
  }
}
