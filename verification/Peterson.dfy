/**
 Peterson's lock protecting a counter, on two cores with store buffers.

 Every interleaving of program steps and drains of the two cores is a run.  Each of the three fences can be there
 or not.  The one after the store to `turn` decides: with it at most one core is in the critical section and the
 final count is 2 * N, whether the others are there or not; without it both can be inside and updates are lost.
 */
module Peterson {
  import opened Tso

  datatype Var = Want(i: nat) | Turn | Counter | Seq(i: nat)

  /** Where a core is: `Enter`, `Sync` and `Await` are the store, the fence and the spin of barrier `n`. */
  datatype Pc =
    | Enter(n: nat) | Sync(n: nat) | Await(n: nat)
    | SetWant | Fence1 | SetTurn | Fence2 | TestWant | TestTurn
    | ReadCounter | WriteCounter | ClearWant | Fence3
    | Report | Done

  datatype Core = Core(pc: Pc, iter: nat, tmp: int, out: int, buf: seq<Pending<Var>>)

  datatype State = State(mem: Memory<Var>, cores: seq<Core>)

  /** Which fences the build has: after the store to `want`, after the one to `turn`, and after the release. */
  datatype Fences = Fences(afterWant: bool, afterTurn: bool, afterRelease: bool)

  predicate Two(s: State) { |s.cores| == 2 }

  // -------------------------------------------------------------------- steps

  /** The oldest buffered store of core `i` reaches memory. */
  function Drain(s: State, i: nat): (t: State)
    requires Two(s) && i < 2
    ensures Two(t)
  {
    var c := s.cores[i];
    State(Drained(s.mem, c.buf), s.cores[i := c.(buf := Undrained(c.buf))])
  }

  function Put(c: Core, v: Var, x: int, next: Pc): Core { c.(buf := c.buf + [Pending(v, x)], pc := next) }

  function Fence(c: Core, there: bool, next: Pc): Core { if MayPass(c.buf, there) then c.(pc := next) else c }

  function LoopTest(c: Core, iter: nat, n: nat): Core { c.(iter := iter, pc := if iter < n then SetWant else Enter(2)) }

  /** Where the program goes after barrier `k`. */
  function AfterBarrier(c: Core, i: nat, k: nat, n: nat): Core {
    if k == 1 then LoopTest(c, 0, n)
    else if k == 2 then c.(pc := if i == 0 then Report else Enter(3))
    else c.(pc := Done)
  }

  /** One program step of core `i`, with `n` iterations; a spin or fence that must wait does nothing. */
  function Advance(m: Memory<Var>, c: Core, i: nat, n: nat, f: Fences): Core
    requires i < 2
  {
    var j := 1 - i;
    match c.pc
    case Enter(k) => Put(c, Seq(i), k, Sync(k))
    case Sync(k) => Fence(c, true, Await(k))
    case Await(k) => if Read(m, c.buf, Seq(j)) < k then c else AfterBarrier(c, i, k, n)
    case SetWant => Put(c, Want(i), 1, Fence1)
    case Fence1 => Fence(c, f.afterWant, SetTurn)
    case SetTurn => Put(c, Turn, j, Fence2)
    case Fence2 => Fence(c, f.afterTurn, TestWant)
    case TestWant => c.(pc := if Read(m, c.buf, Want(j)) != 0 then TestTurn else ReadCounter)
    case TestTurn => c.(pc := if Read(m, c.buf, Turn) == j then TestWant else ReadCounter)
    case ReadCounter => c.(tmp := Read(m, c.buf, Counter), pc := WriteCounter)
    case WriteCounter => Put(c, Counter, c.tmp + 1, ClearWant)
    case ClearWant => Put(c, Want(i), 0, Fence3)
    case Fence3 => if MayPass(c.buf, f.afterRelease) then LoopTest(c, c.iter + 1, n) else c
    case Report => c.(out := Read(m, c.buf, Counter), pc := Enter(3))
    case Done => c
  }

  function Step(s: State, ch: Choice, n: nat, f: Fences): (t: State)
    requires Two(s)
    ensures Two(t)
  {
    var i := Mover(ch);
    if ch.drain then Drain(s, i) else s.(cores := s.cores[i := Advance(s.mem, s.cores[i], i, n, f)])
  }

  function Boot(): (s: State)
    ensures Two(s)
  {
    var c := Core(Enter(1), 0, 0, 0, []);
    State((v: Var) => 0, [c, c])
  }

  /** The state after these choices. */
  function Run(chs: seq<Choice>, n: nat, f: Fences): (s: State)
    ensures Two(s)
  {
    if chs == [] then Boot() else Step(Run(chs[..|chs| - 1], n, f), chs[|chs| - 1], n, f)
  }

  // ---------------------------------------------------------------- invariant

  /** How many stores a core may have outstanding: those since it last had to wait for its buffer. */
  function Outstanding(c: Core): nat {
    match c.pc
    case ClearWant => 1
    case Fence3 => 2
    case SetWant => 2
    case Fence1 => 3
    case SetTurn => 3
    case Fence2 => 4
    case Enter(k) => if k == 2 then 2 else 0
    case Sync(k) => if k == 2 then 3 else 1
    case _ => 0
  }

  /** How many of them come after the release of the lock. */
  function Later(c: Core): nat {
    match c.pc
    case Fence1 => 1
    case SetTurn => 1
    case Fence2 => 2
    case Sync(k) => 1
    case _ => 0
  }

  /** The store that releases the lock is in the buffer. */
  predicate Releasing(c: Core) { c.pc != ClearWant && |c.buf| > Later(c) }

  /** The outstanding store of core `i` that `k` others follow. */
  function StoreAt(c: Core, i: nat, k: nat): Pending<Var> {
    if c.pc == ClearWant || k == Later(c) + 1 then Pending(Counter, c.tmp + 1)
    else if k == Later(c) then Pending(Want(i), 0)
    else if c.pc.Sync? then Pending(Seq(i), c.pc.n)
    else if c.pc == Fence2 && k == 0 then Pending(Turn, 1 - i)
    else Pending(Want(i), 1)
  }

  /** The buffer holds the newest of those stores. */
  ghost predicate Buffered(c: Core, i: nat) {
    forall k: nat | k < |c.buf| :: c.buf[|c.buf| - 1 - k] == StoreAt(c, i, k)
  }

  /** In the critical section, until the store that leaves it has drained. */
  predicate Inside(c: Core) { c.pc in {ReadCounter, WriteCounter, ClearWant} || Releasing(c) }

  /** The turn has been given away. */
  predicate Yielded(c: Core) { c.pc in {TestWant, TestTurn} || Inside(c) || (c.pc == Fence2 && c.buf == []) }

  /** The other core can see that this one wants to enter, or is still inside. */
  predicate Wanting(c: Core) {
    || c.pc in {TestWant, TestTurn} || Inside(c)
    || (c.pc in {Fence1, SetTurn} && c.buf == []) || (c.pc == Fence2 && |c.buf| <= 1)
  }

  /** The increment is in the buffer. */
  predicate Unseen(c: Core) { if c.pc == ClearWant then c.buf != [] else |c.buf| > Later(c) + 1 }

  predicate Placed(c: Core, i: nat, n: nat) {
    match c.pc
    case Enter(k) => 1 <= k <= 3 && c.iter == (if k == 1 then 0 else n)
    case Sync(k) => 1 <= k <= 3 && c.iter == (if k == 1 then 0 else n)
    case Await(k) => 1 <= k <= 3 && c.iter == (if k == 1 then 0 else n)
    case Report => i == 0 && c.iter == n
    case Done => c.iter == n
    case _ => c.iter < n
  }

  /** The barrier number this core has made visible. */
  function Shown(c: Core): int {
    match c.pc
    case Enter(k) => k - 1
    case Sync(k) => if c.buf == [] then k else k - 1
    case Await(k) => k
    case Report => 2
    case Done => 3
    case _ => 1
  }

  /** The barrier this core has passed. */
  function PassedBarrier(c: Core): int {
    match c.pc
    case Enter(k) => k - 1
    case Sync(k) => k - 1
    case Await(k) => k - 1
    case Report => 2
    case Done => 3
    case _ => 1
  }

  /** Increments executed. */
  function Did(c: Core): nat { c.iter + if c.pc in {ClearWant, Fence3} then 1 else 0 }

  ghost predicate CoreOk(m: Memory<Var>, c: Core, i: nat, n: nat) {
    && Placed(c, i, n) && |c.buf| <= Outstanding(c)
    && m(Want(i)) == (if Wanting(c) then 1 else 0)
    && m(Seq(i)) == Shown(c)
    && (c.pc == WriteCounter || Unseen(c) ==> c.tmp == m(Counter))
  }

  /** Between two cores: who is inside was given the turn, and whoever passed a barrier was let through. */
  ghost predicate PairOk(m: Memory<Var>, c: Core, d: Core, i: nat) {
    && (Inside(c) && Yielded(d) ==> m(Turn) == i)
    && Shown(d) >= PassedBarrier(c)
  }

  ghost predicate Counted(m: Memory<Var>, c: Core, d: Core) {
    m(Counter) == Did(c) + Did(d) - (if Unseen(c) then 1 else 0) - (if Unseen(d) then 1 else 0)
  }

  ghost predicate Reported(c: Core, n: nat) { HasReported(c) ==> c.out == 2 * n }

  /** The invariant, seen from core `i` in state `c` with the other in state `d`. */
  ghost predicate Good(m: Memory<Var>, c: Core, d: Core, i: nat, n: nat)
    requires i < 2
  {
    && CoreOk(m, c, i, n) && CoreOk(m, d, 1 - i, n)
    && PairOk(m, c, d, i) && PairOk(m, d, c, 1 - i)
    && 0 <= m(Turn) <= 1 && Counted(m, c, d)
    && (i == 0 ==> Reported(c, n)) && (i == 1 ==> Reported(d, n))
  }

  ghost predicate Inv(s: State, n: nat) {
    && Two(s) && Good(s.mem, s.cores[0], s.cores[1], 0, n)
    && Buffered(s.cores[0], 0) && Buffered(s.cores[1], 1)
  }

  lemma Mirror(m: Memory<Var>, c: Core, d: Core, i: nat, n: nat)
    requires i < 2 && Good(m, c, d, i, n)
    ensures Good(m, d, c, 1 - i, n)
  {
  }

  /** The invariant excludes two cores inside. */
  lemma NotBoth(m: Memory<Var>, c: Core, d: Core, i: nat, n: nat)
    requires i < 2 && Good(m, c, d, i, n)
    ensures !(Inside(c) && Inside(d))
  {
  }

  // ------------------------------------------------------------ steps keep it

  lemma BarrierKeeps(m: Memory<Var>, c: Core, d: Core, i: nat, n: nat, f: Fences)
    requires i < 2 && Good(m, c, d, i, n) && (c.pc.Enter? || c.pc.Sync? || c.pc == Report || c.pc == Done)
    ensures Good(m, Advance(m, c, i, n, f), d, i, n)
  {
  }

  lemma AwaitKeeps(m: Memory<Var>, c: Core, d: Core, i: nat, n: nat, f: Fences)
    requires i < 2 && Good(m, c, d, i, n) && c.pc.Await?
    ensures Good(m, Advance(m, c, i, n, f), d, i, n)
  {
  }

  lemma LockKeeps(m: Memory<Var>, c: Core, d: Core, i: nat, n: nat, f: Fences)
    requires i < 2 && Good(m, c, d, i, n) && c.pc in {SetWant, Fence1, SetTurn, Fence2, TestWant, TestTurn} && f.afterTurn
    ensures Good(m, Advance(m, c, i, n, f), d, i, n)
  {
  }

  lemma InsideKeeps(m: Memory<Var>, c: Core, d: Core, i: nat, n: nat, f: Fences)
    requires i < 2 && Good(m, c, d, i, n) && c.pc in {ReadCounter, WriteCounter, ClearWant, Fence3} && f.afterTurn
    ensures Good(m, Advance(m, c, i, n, f), d, i, n)
  {
    NotBoth(m, c, d, i, n);
  }

  /** A program step keeps the invariant, if the fence after the store to `turn` is there. */
  lemma AdvanceKeeps(m: Memory<Var>, c: Core, d: Core, i: nat, n: nat, f: Fences)
    requires i < 2 && Good(m, c, d, i, n) && f.afterTurn
    ensures Good(m, Advance(m, c, i, n, f), d, i, n)
  {
    if c.pc in {SetWant, Fence1, SetTurn, Fence2, TestWant, TestTurn} {
      LockKeeps(m, c, d, i, n, f);
    } else if c.pc in {ReadCounter, WriteCounter, ClearWant, Fence3} {
      InsideKeeps(m, c, d, i, n, f);
    } else if c.pc.Await? {
      AwaitKeeps(m, c, d, i, n, f);
    } else {
      BarrierKeeps(m, c, d, i, n, f);
    }
  }

  /** A store goes to the end, and the others have one more after them. */
  lemma Grows(c: Core, e: Core, i: nat, x: Pending<Var>)
    requires Buffered(c, i) && e.buf == c.buf + [x] && StoreAt(e, i, 0) == x
    requires forall k: nat | k < |c.buf| :: StoreAt(e, i, k + 1) == StoreAt(c, i, k)
    ensures Buffered(e, i)
  {
    forall k: nat | k < |e.buf| ensures e.buf[|e.buf| - 1 - k] == StoreAt(e, i, k) {
      if k > 0 { assert c.buf[|c.buf| - 1 - (k - 1)] == StoreAt(c, i, k - 1) == StoreAt(e, i, (k - 1) + 1); }
    }
  }

  /** A program step adds at most its own store. */
  lemma Stays(c: Core, e: Core, i: nat)
    requires Buffered(c, i) && e.buf == c.buf && (c.buf == [] || forall k: nat :: StoreAt(e, i, k) == StoreAt(c, i, k))
    ensures Buffered(e, i)
  {
    forall k: nat | k < |e.buf| ensures e.buf[|e.buf| - 1 - k] == StoreAt(e, i, k) {
      assert c.buf[|c.buf| - 1 - k] == StoreAt(c, i, k);
    }
  }

  lemma BufferKeeps(m: Memory<Var>, c: Core, i: nat, n: nat, f: Fences)
    requires i < 2 && Buffered(c, i) && |c.buf| <= Outstanding(c) && f.afterTurn
    ensures Buffered(Advance(m, c, i, n, f), i)
  {
    var e := Advance(m, c, i, n, f);
    if |e.buf| > |c.buf| { Grows(c, e, i, e.buf[|c.buf|]); } else { Stays(c, e, i); }
  }

  lemma BufferDrains(c: Core, i: nat)
    requires Buffered(c, i) && c.buf != []
    ensures Buffered(c.(buf := c.buf[1..]), i) && c.buf[0] == StoreAt(c, i, |c.buf| - 1)
  {
    var e := c.(buf := c.buf[1..]);
    assert c.buf[|c.buf| - 1 - (|c.buf| - 1)] == StoreAt(c, i, |c.buf| - 1);
    forall k: nat | k < |e.buf| ensures e.buf[|e.buf| - 1 - k] == StoreAt(e, i, k) {
      assert c.buf[|c.buf| - 1 - k] == StoreAt(c, i, k) == StoreAt(e, i, k);
    }
  }

  /** A drain keeps the invariant. */
  lemma DrainKeeps(m: Memory<Var>, c: Core, d: Core, i: nat, n: nat, p: Pending<Var>, rest: seq<Pending<Var>>)
    requires i < 2 && Good(m, c, d, i, n) && c.buf != [] && p == StoreAt(c, i, |c.buf| - 1) && |rest| == |c.buf| - 1
    ensures Good(Set(m, p.to, p.value), c.(buf := rest), d, i, n)
  {
    NotBoth(m, c, d, i, n);
    if Inside(c) { DrainInside(m, c, d, i, n, p, rest); } else { DrainOutside(m, c, d, i, n, p, rest); }
  }

  lemma DrainInside(m: Memory<Var>, c: Core, d: Core, i: nat, n: nat, p: Pending<Var>, rest: seq<Pending<Var>>)
    requires i < 2 && Good(m, c, d, i, n) && c.buf != [] && p == StoreAt(c, i, |c.buf| - 1) && |rest| == |c.buf| - 1
    requires Inside(c) && !Inside(d)
    ensures Good(Set(m, p.to, p.value), c.(buf := rest), d, i, n)
  {
    if Unseen(c) { DrainCount(m, c, d, i, n, p, rest); }
  }

  lemma DrainCount(m: Memory<Var>, c: Core, d: Core, i: nat, n: nat, p: Pending<Var>, rest: seq<Pending<Var>>)
    requires i < 2 && Good(m, c, d, i, n) && Unseen(c) && p == StoreAt(c, i, |c.buf| - 1) && |rest| == |c.buf| - 1
    requires Inside(c) && !Inside(d)
    ensures Good(Set(m, p.to, p.value), c.(buf := rest), d, i, n)
  {
    assert p == Pending(Counter, c.tmp + 1);
    assert Inside(c.(buf := rest));
  }

  lemma DrainOutside(m: Memory<Var>, c: Core, d: Core, i: nat, n: nat, p: Pending<Var>, rest: seq<Pending<Var>>)
    requires i < 2 && Good(m, c, d, i, n) && c.buf != [] && p == StoreAt(c, i, |c.buf| - 1) && |rest| == |c.buf| - 1
    requires !Inside(c)
    ensures Good(Set(m, p.to, p.value), c.(buf := rest), d, i, n)
  {
  }

  /** One step of core `i`, seen from that core. */
  lemma CoreKeeps(m: Memory<Var>, c: Core, d: Core, i: nat, n: nat, f: Fences, drain: bool)
    requires i < 2 && Good(m, c, d, i, n) && Buffered(c, i) && f.afterTurn
    ensures drain ==> Good(Drained(m, c.buf), c.(buf := Undrained(c.buf)), d, i, n) && Buffered(c.(buf := Undrained(c.buf)), i)
    ensures !drain ==> Good(m, Advance(m, c, i, n, f), d, i, n) && Buffered(Advance(m, c, i, n, f), i)
  {
    if !drain {
      AdvanceKeeps(m, c, d, i, n, f);
      BufferKeeps(m, c, i, n, f);
    } else if c.buf != [] {
      BufferDrains(c, i);
      DrainKeeps(m, c, d, i, n, c.buf[0], c.buf[1..]);
    }
  }

  lemma StepKeeps(s: State, ch: Choice, n: nat, f: Fences)
    requires Inv(s, n) && f.afterTurn
    ensures Inv(Step(s, ch, n, f), n)
  {
    var i := Mover(ch);
    var c, d := s.cores[i], s.cores[1 - i];
    if i == 1 { Mirror(s.mem, d, c, 0, n); }
    CoreKeeps(s.mem, c, d, i, n, f, ch.drain);
    if i == 1 {
      if ch.drain {
        Mirror(Drained(s.mem, c.buf), c.(buf := Undrained(c.buf)), d, 1, n);
      } else {
        Mirror(s.mem, Advance(s.mem, c, i, n, f), d, 1, n);
      }
    }
  }

  lemma {:induction false} RunKeeps(chs: seq<Choice>, n: nat, f: Fences)
    requires f.afterTurn
    ensures Inv(Run(chs, n, f), n)
  {
    if chs != [] {
      RunKeeps(chs[..|chs| - 1], n, f);
      StepKeeps(Run(chs[..|chs| - 1], n, f), chs[|chs| - 1], n, f);
    }
  }

  /** Mutual exclusion, in every state of every interleaving. */
  lemma MutualExclusion(chs: seq<Choice>, n: nat, f: Fences)
    requires f.afterTurn
    ensures var s := Run(chs, n, f); !(Inside(s.cores[0]) && Inside(s.cores[1]))
  {
    RunKeeps(chs, n, f);
    var s := Run(chs, n, f);
    NotBoth(s.mem, s.cores[0], s.cores[1], 0, n);
  }

  /** Past the report, which is between the second barrier and the third. */
  predicate HasReported(c: Core) { PassedBarrier(c) >= 2 && c.pc != Report }

  /** No update is lost: whenever core 0 has reported, the count it reported is 2 * n. */
  lemma NoLostUpdates(chs: seq<Choice>, n: nat, f: Fences)
    requires f.afterTurn
    ensures var s := Run(chs, n, f);
      && (HasReported(s.cores[0]) ==> s.cores[0].out == 2 * n)
      && (s.cores[0].pc == Done && s.cores[1].pc == Done ==> s.mem(Counter) == 2 * n)
  {
    RunKeeps(chs, n, f);
  }

  // --------------------------------------------- without the fence after `turn`

  datatype View = View(seq0: int, seq1: int, want0: int, want1: int, turn: int, count: int)

  /** A state written out: both cores and memory. */
  datatype Picture = Picture(first: Core, second: Core, view: View)

  predicate Like(c: Core, d: Core) {
    c.pc == d.pc && c.iter == d.iter && c.tmp == d.tmp && c.out == d.out && c.buf == d.buf
  }

  ghost predicate At(s: State, x: Picture) {
    && Two(s) && Like(s.cores[0], x.first) && Like(s.cores[1], x.second)
    && s.mem(Seq(0)) == x.view.seq0 && s.mem(Seq(1)) == x.view.seq1
    && s.mem(Want(0)) == x.view.want0 && s.mem(Want(1)) == x.view.want1
    && s.mem(Turn) == x.view.turn && s.mem(Counter) == x.view.count
  }

  /** The choices lead to the state pictured. */
  ghost predicate Leads(chs: seq<Choice>, n: nat, f: Fences, x: Picture) {
    forall k: nat {:trigger Run(chs, k, f)} | k == n :: At(Run(chs, k, f), x)
  }

  /** One more choice takes a state like `x` to one like `y`. */
  lemma StepTo(chs: seq<Choice>, ch: Choice, n: nat, f: Fences, x: Picture, y: Picture) returns (more: seq<Choice>)
    requires Leads(chs, n, f, x) && forall s: State | At(s, x) :: At(Step(s, ch, n, f), y)
    ensures Leads(more, n, f, y)
  {
    more := chs + [ch];
    assert more[..|chs|] == chs;
    assert At(Run(chs, n, f), x);
  }

  const BOOTED := Picture(Core(Enter(1), 0, 0, 0, []), Core(Enter(1), 0, 0, 0, []), View(0, 0, 0, 0, 0, 0))
  const ARRIVED := Picture(Core(Sync(1), 0, 0, 0, []), Core(Sync(1), 0, 0, 0, []), View(1, 1, 0, 0, 0, 0))
  const STARTED := Picture(Core(SetWant, 0, 0, 0, []), Core(SetWant, 0, 0, 0, []), View(1, 1, 0, 0, 0, 0))
  const ANNOUNCED := Picture(Core(Fence2, 0, 0, 0, [Pending(Turn, 1)]), Core(SetWant, 0, 0, 0, []), View(1, 1, 1, 0, 0, 0))
  const ONE_IN := Picture(Core(ReadCounter, 0, 0, 0, [Pending(Turn, 1)]), Core(SetWant, 0, 0, 0, []), View(1, 1, 1, 0, 0, 0))
  const WANTED := Picture(Core(ReadCounter, 0, 0, 0, [Pending(Turn, 1)]), Core(SetTurn, 0, 0, 0, []), View(1, 1, 1, 1, 0, 0))
  const CONTENDED := Picture(Core(ReadCounter, 0, 0, 0, [Pending(Turn, 1)]), Core(Fence2, 0, 0, 0, []), View(1, 1, 1, 1, 0, 0))
  const BOTH_IN := Picture(Core(ReadCounter, 0, 0, 0, []), Core(ReadCounter, 0, 0, 0, []), View(1, 1, 1, 1, 1, 0))
  const BOTH_READ := Picture(Core(WriteCounter, 0, 0, 0, []), Core(WriteCounter, 0, 0, 0, []), View(1, 1, 1, 1, 1, 0))
  const ONE_WROTE := Picture(Core(ClearWant, 0, 0, 0, []), Core(WriteCounter, 0, 0, 0, []), View(1, 1, 1, 1, 1, 1))
  const ONE_LEFT := Picture(Core(Enter(2), 1, 0, 0, []), Core(WriteCounter, 0, 0, 0, []), View(1, 1, 0, 1, 1, 1))
  const BOTH_WROTE := Picture(Core(Enter(2), 1, 0, 0, []), Core(ClearWant, 0, 0, 0, []), View(1, 1, 0, 1, 1, 1))
  const BOTH_LEFT := Picture(Core(Enter(2), 1, 0, 0, []), Core(Enter(2), 1, 0, 0, []), View(1, 1, 0, 0, 1, 1))
  const FINISHED := Picture(Core(Await(2), 1, 0, 0, []), Core(Sync(2), 1, 0, 0, []), View(2, 2, 0, 0, 1, 1))
  const REPORTED := Picture(Core(Enter(3), 1, 0, 1, []), Core(Sync(2), 1, 0, 0, []), View(2, 2, 0, 0, 1, 1))

  /** Both cores reach the first barrier. */
  lemma BothArrive(chs: seq<Choice>, n: nat, f: Fences) returns (more: seq<Choice>)
    requires Leads(chs, n, f, BOOTED)
    ensures Leads(more, n, f, ARRIVED)
  {
    var a := BOOTED.(first := BOOTED.first.(pc := Sync(1), buf := [Pending(Seq(0), 1)]));
    more := StepTo(chs, P, n, f, BOOTED, a);
    var b := a.(first := a.first.(buf := []), view := a.view.(seq0 := 1));
    more := StepTo(more, PD, n, f, a, b);
    var c := b.(second := b.second.(pc := Sync(1), buf := [Pending(Seq(1), 1)]));
    more := StepTo(more, Q, n, f, b, c);
    var d := c.(second := c.second.(buf := []), view := c.view.(seq1 := 1));
    more := StepTo(more, QD, n, f, c, d);
  }

  /** Both pass it. */
  lemma BothStart(chs: seq<Choice>, n: nat, f: Fences) returns (more: seq<Choice>)
    requires Leads(chs, n, f, ARRIVED) && n > 0
    ensures Leads(more, n, f, STARTED)
  {
    var a := ARRIVED.(first := ARRIVED.first.(pc := Await(1)));
    more := StepTo(chs, P, n, f, ARRIVED, a);
    var b := a.(first := a.first.(pc := SetWant));
    more := StepTo(more, P, n, f, a, b);
    var c := b.(second := b.second.(pc := Await(1)));
    more := StepTo(more, Q, n, f, b, c);
    var d := c.(second := c.second.(pc := SetWant));
    more := StepTo(more, Q, n, f, c, d);
  }

  /** Core 0 wants to enter; its store to `turn` stays in the buffer. */
  lemma FirstAnnounces(chs: seq<Choice>, n: nat, f: Fences) returns (more: seq<Choice>)
    requires Leads(chs, n, f, STARTED)
    ensures Leads(more, n, f, ANNOUNCED)
  {
    var a := STARTED.(first := STARTED.first.(pc := Fence1, buf := [Pending(Want(0), 1)]));
    more := StepTo(chs, P, n, f, STARTED, a);
    var b := a.(first := a.first.(buf := []), view := a.view.(want0 := 1));
    more := StepTo(more, PD, n, f, a, b);
    var c := b.(first := b.first.(pc := SetTurn));
    more := StepTo(more, P, n, f, b, c);
    var d := c.(first := c.first.(pc := Fence2, buf := [Pending(Turn, 1)]));
    more := StepTo(more, P, n, f, c, d);
  }

  /** Without the fence it looks, and finds nobody. */
  lemma FirstEnters(chs: seq<Choice>, n: nat, f: Fences) returns (more: seq<Choice>)
    requires Leads(chs, n, f, ANNOUNCED) && !f.afterTurn
    ensures Leads(more, n, f, ONE_IN)
  {
    var a := ANNOUNCED.(first := ANNOUNCED.first.(pc := TestWant));
    more := StepTo(chs, P, n, f, ANNOUNCED, a);
    var b := a.(first := a.first.(pc := ReadCounter));
    more := StepTo(more, P, n, f, a, b);
  }

  /** Core 1 wants to enter. */
  lemma SecondWants(chs: seq<Choice>, n: nat, f: Fences) returns (more: seq<Choice>)
    requires Leads(chs, n, f, ONE_IN)
    ensures Leads(more, n, f, WANTED)
  {
    var a := ONE_IN.(second := ONE_IN.second.(pc := Fence1, buf := [Pending(Want(1), 1)]));
    more := StepTo(chs, Q, n, f, ONE_IN, a);
    var b := a.(second := a.second.(buf := []), view := a.view.(want1 := 1));
    more := StepTo(more, QD, n, f, a, b);
    var c := b.(second := b.second.(pc := SetTurn));
    more := StepTo(more, Q, n, f, b, c);
  }

  /** It gives the turn away. */
  lemma SecondAnnounces(chs: seq<Choice>, n: nat, f: Fences) returns (more: seq<Choice>)
    requires Leads(chs, n, f, WANTED)
    ensures Leads(more, n, f, CONTENDED)
  {
    var a := WANTED.(second := WANTED.second.(pc := Fence2, buf := [Pending(Turn, 0)]));
    more := StepTo(chs, Q, n, f, WANTED, a);
    var b := a.(second := a.second.(buf := []));
    more := StepTo(more, QD, n, f, a, b);
  }

  /** The old store of core 0 gives the turn back to core 1. */
  lemma SecondEnters(chs: seq<Choice>, n: nat, f: Fences) returns (more: seq<Choice>)
    requires Leads(chs, n, f, CONTENDED)
    ensures Leads(more, n, f, BOTH_IN)
  {
    var a := CONTENDED.(second := CONTENDED.second.(pc := TestWant));
    more := StepTo(chs, Q, n, f, CONTENDED, a);
    var b := a.(second := a.second.(pc := TestTurn));
    more := StepTo(more, Q, n, f, a, b);
    var c := b.(first := b.first.(buf := []), view := b.view.(turn := 1));
    more := StepTo(more, PD, n, f, b, c);
    var d := c.(second := c.second.(pc := ReadCounter));
    more := StepTo(more, Q, n, f, c, d);
  }

  /** Both read the same count. */
  lemma BothRead(chs: seq<Choice>, n: nat, f: Fences) returns (more: seq<Choice>)
    requires Leads(chs, n, f, BOTH_IN)
    ensures Leads(more, n, f, BOTH_READ)
  {
    var a := BOTH_IN.(first := BOTH_IN.first.(pc := WriteCounter));
    more := StepTo(chs, P, n, f, BOTH_IN, a);
    var b := a.(second := a.second.(pc := WriteCounter));
    more := StepTo(more, Q, n, f, a, b);
  }

  /** Core 0 writes it back, incremented. */
  lemma FirstWrites(chs: seq<Choice>, n: nat, f: Fences) returns (more: seq<Choice>)
    requires Leads(chs, n, f, BOTH_READ)
    ensures Leads(more, n, f, ONE_WROTE)
  {
    var a := BOTH_READ.(first := BOTH_READ.first.(pc := ClearWant, buf := [Pending(Counter, 1)]));
    more := StepTo(chs, P, n, f, BOTH_READ, a);
    var b := a.(first := a.first.(buf := []), view := a.view.(count := 1));
    more := StepTo(more, PD, n, f, a, b);
  }

  /** Core 0 leaves. */
  lemma FirstLeaves(chs: seq<Choice>, n: nat, f: Fences) returns (more: seq<Choice>)
    requires Leads(chs, n, f, ONE_WROTE) && n == 1
    ensures Leads(more, n, f, ONE_LEFT)
  {
    var a := ONE_WROTE.(first := ONE_WROTE.first.(pc := Fence3, buf := [Pending(Want(0), 0)]));
    more := StepTo(chs, P, n, f, ONE_WROTE, a);
    var b := a.(first := a.first.(buf := []), view := a.view.(want0 := 0));
    more := StepTo(more, PD, n, f, a, b);
    var c := b.(first := b.first.(pc := Enter(2), iter := 1));
    more := StepTo(more, P, n, f, b, c);
  }

  /** Core 1 writes the same over it. */
  lemma SecondWrites(chs: seq<Choice>, n: nat, f: Fences) returns (more: seq<Choice>)
    requires Leads(chs, n, f, ONE_LEFT)
    ensures Leads(more, n, f, BOTH_WROTE)
  {
    var a := ONE_LEFT.(second := ONE_LEFT.second.(pc := ClearWant, buf := [Pending(Counter, 1)]));
    more := StepTo(chs, Q, n, f, ONE_LEFT, a);
    var b := a.(second := a.second.(buf := []));
    more := StepTo(more, QD, n, f, a, b);
  }

  /** Core 1 leaves. */
  lemma SecondLeaves(chs: seq<Choice>, n: nat, f: Fences) returns (more: seq<Choice>)
    requires Leads(chs, n, f, BOTH_WROTE) && n == 1
    ensures Leads(more, n, f, BOTH_LEFT)
  {
    var a := BOTH_WROTE.(second := BOTH_WROTE.second.(pc := Fence3, buf := [Pending(Want(1), 0)]));
    more := StepTo(chs, Q, n, f, BOTH_WROTE, a);
    var b := a.(second := a.second.(buf := []), view := a.view.(want1 := 0));
    more := StepTo(more, QD, n, f, a, b);
    var c := b.(second := b.second.(pc := Enter(2), iter := 1));
    more := StepTo(more, Q, n, f, b, c);
  }

  /** Both reach the second barrier. */
  lemma BothFinish(chs: seq<Choice>, n: nat, f: Fences) returns (more: seq<Choice>)
    requires Leads(chs, n, f, BOTH_LEFT)
    ensures Leads(more, n, f, FINISHED)
  {
    var a := BOTH_LEFT.(first := BOTH_LEFT.first.(pc := Sync(2), buf := [Pending(Seq(0), 2)]));
    more := StepTo(chs, P, n, f, BOTH_LEFT, a);
    var b := a.(first := a.first.(buf := []), view := a.view.(seq0 := 2));
    more := StepTo(more, PD, n, f, a, b);
    var c := b.(first := b.first.(pc := Await(2)));
    more := StepTo(more, P, n, f, b, c);
    var d := c.(second := c.second.(pc := Sync(2), buf := [Pending(Seq(1), 2)]));
    more := StepTo(more, Q, n, f, c, d);
    var e := d.(second := d.second.(buf := []), view := d.view.(seq1 := 2));
    more := StepTo(more, QD, n, f, d, e);
  }

  /** Core 0 reports one update too few. */
  lemma FirstReports(chs: seq<Choice>, n: nat, f: Fences) returns (more: seq<Choice>)
    requires Leads(chs, n, f, FINISHED)
    ensures Leads(more, n, f, REPORTED)
  {
    var a := FINISHED.(first := FINISHED.first.(pc := Report));
    more := StepTo(chs, P, n, f, FINISHED, a);
    var b := a.(first := a.first.(pc := Enter(3), out := 1));
    more := StepTo(more, P, n, f, a, b);
  }

  /** Without the fence, an interleaving that takes both cores inside, for any number of iterations. */
  lemma BothInside(n: nat, f: Fences) returns (chs: seq<Choice>)
    requires n > 0 && !f.afterTurn
    ensures Leads(chs, n, f, BOTH_IN)
  {
    assert Leads([], n, f, BOOTED);
    chs := BothArrive([], n, f);
    chs := BothStart(chs, n, f);
    chs := FirstAnnounces(chs, n, f);
    chs := FirstEnters(chs, n, f);
    chs := SecondWants(chs, n, f);
    chs := SecondAnnounces(chs, n, f);
    chs := SecondEnters(chs, n, f);
  }

  /** Without the fence, an interleaving of one iteration each in which core 0 reports 1. */
  lemma UpdateLost(n: nat, f: Fences) returns (chs: seq<Choice>)
    requires n == 1 && !f.afterTurn
    ensures Leads(chs, n, f, REPORTED)
  {
    chs := BothInside(n, f);
    chs := BothRead(chs, n, f);
    chs := FirstWrites(chs, n, f);
    chs := FirstLeaves(chs, n, f);
    chs := SecondWrites(chs, n, f);
    chs := SecondLeaves(chs, n, f);
    chs := BothFinish(chs, n, f);
    chs := FirstReports(chs, n, f);
  }

  ghost predicate Excludes(n: nat, f: Fences) {
    forall chs: seq<Choice> :: !(Inside(Run(chs, n, f).cores[0]) && Inside(Run(chs, n, f).cores[1]))
  }

  /** Which fence the lock needs: mutual exclusion over every interleaving holds exactly if the fence after the
      store to `turn` is there (given anything to do).  The other two make no difference. */
  lemma FencesNeeded(n: nat, f: Fences)
    requires n > 0
    ensures Excludes(n, f) <==> f.afterTurn
  {
    if f.afterTurn {
      forall chs: seq<Choice> ensures !(Inside(Run(chs, n, f).cores[0]) && Inside(Run(chs, n, f).cores[1])) {
        MutualExclusion(chs, n, f);
      }
    } else {
      var chs := BothInside(n, f);
      assert At(Run(chs, n, f), BOTH_IN);
      assert Inside(Run(chs, n, f).cores[0]) && Inside(Run(chs, n, f).cores[1]);
    }
  }

  ghost predicate CountsAll(n: nat, f: Fences) {
    forall chs: seq<Choice> :: HasReported(Run(chs, n, f).cores[0]) ==> Run(chs, n, f).cores[0].out == 2 * n
  }

  /** And so with the count: it is right in every run of every length exactly if that fence is there. */
  lemma CountNeedsFence(f: Fences)
    ensures (forall n: nat :: CountsAll(n, f)) <==> f.afterTurn
  {
    if f.afterTurn {
      forall n: nat, chs: seq<Choice> | HasReported(Run(chs, n, f).cores[0])
        ensures Run(chs, n, f).cores[0].out == 2 * n
      {
        NoLostUpdates(chs, n, f);
      }
    } else {
      var n := 1;
      var chs := UpdateLost(n, f);
      assert At(Run(chs, n, f), REPORTED);
      assert HasReported(Run(chs, n, f).cores[0]);
      assert !CountsAll(n, f);
    }
  }
}
