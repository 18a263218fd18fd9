/**
 The store-load litmus program on two cores with store buffers: trials separated by a barrier of
 monotonic sequence numbers.

 Core 0 counts the trials in which both loads returned 0.  Over every interleaving of program steps and drains
 and for any number of trials there are none in the fenced build; in the other some interleaving has one.
 */
module Litmus {
  import opened Tso

  datatype Var = X | Y | R1 | R2 | Seq(i: nat)

  /** `Enter`, `Sync` and `Await` are the store, the fence and the spin of barrier `n`. */
  datatype Pc =
    | Enter(n: nat) | Sync(n: nat) | Await(n: nat)
    | ResetX | ResetY | Store | Fence | Load | Save | Check | Done

  datatype Core = Core(pc: Pc, trial: nat, reg: int, violations: nat, buf: seq<Pending<Var>>)

  datatype State = State(mem: Memory<Var>, cores: seq<Core>)

  predicate Two(s: State) { |s.cores| == 2 }

  // -------------------------------------------------------------------- steps

  function Drain(s: State, i: nat): (t: State)
    requires Two(s) && i < 2
    ensures Two(t)
  {
    var c := s.cores[i];
    State(Drained(s.mem, c.buf), s.cores[i := c.(buf := Undrained(c.buf))])
  }

  function Put(c: Core, v: Var, x: int, next: Pc): Core { c.(buf := c.buf + [Pending(v, x)], pc := next) }

  /** The variable core `i` sets, the one it reads, and where it saves what it read. */
  function Mine(i: nat): Var { if i == 0 then X else Y }

  function Theirs(i: nat): Var { if i == 0 then Y else X }

  function Result(i: nat): Var { if i == 0 then R1 else R2 }

  /** The top of the trial loop: core 0 resets the variables, core 1 goes to the barrier. */
  function Top(c: Core, i: nat, trial: nat, trials: nat): Core {
    c.(trial := trial,
       pc := if trial == trials then Enter(3 * trials + 5) else if i == 0 then ResetX else Enter(3 * trial + 2))
  }

  function AfterBarrier(c: Core, i: nat, n: nat, trials: nat): Core {
    if n == 3 * trials + 5 then c.(pc := Done)
    else if n == 1 then Top(c, i, 0, trials)
    else if n == 3 * c.trial + 2 then c.(pc := Store)
    else if n == 3 * c.trial + 3 then c.(pc := if i == 0 then Check else Enter(3 * c.trial + 4))
    else Top(c, i, c.trial + 1, trials)
  }

  /** One program step of core `i`; a spin or fence that must wait does nothing. */
  function Advance(m: Memory<Var>, c: Core, i: nat, trials: nat, fenced: bool): Core
    requires i < 2
  {
    match c.pc
    case Enter(n) => Put(c, Seq(i), n, Sync(n))
    case Sync(n) => if c.buf != [] then c else c.(pc := Await(n))
    case Await(n) => if Read(m, c.buf, Seq(1 - i)) < n then c else AfterBarrier(c, i, n, trials)
    case ResetX => Put(c, X, 0, ResetY)
    case ResetY => Put(c, Y, 0, Enter(3 * c.trial + 2))
    case Store => Put(c, Mine(i), 1, Fence)
    case Fence => if MayPass(c.buf, fenced) then c.(pc := Load) else c
    case Load => c.(reg := Read(m, c.buf, Theirs(i)), pc := Save)
    case Save => Put(c, Result(i), c.reg, Enter(3 * c.trial + 3))
    case Check =>
      var bad := Read(m, c.buf, R1) == 0 && Read(m, c.buf, R2) == 0;
      c.(violations := c.violations + (if bad then 1 else 0), pc := Enter(3 * c.trial + 4))
    case Done => c
  }

  function Step(s: State, ch: Choice, trials: nat, fenced: bool): (t: State)
    requires Two(s)
    ensures Two(t)
  {
    var i := Mover(ch);
    if ch.drain then Drain(s, i) else s.(cores := s.cores[i := Advance(s.mem, s.cores[i], i, trials, fenced)])
  }

  function Boot(): (s: State)
    ensures Two(s)
  {
    var c := Core(Enter(1), 0, 0, 0, []);
    State((v: Var) => 0, [c, c])
  }

  function Run(chs: seq<Choice>, trials: nat, fenced: bool): (s: State)
    ensures Two(s)
  {
    if chs == [] then Boot() else Step(Run(chs[..|chs| - 1], trials, fenced), chs[|chs| - 1], trials, fenced)
  }

  // ---------------------------------------------------------------- invariant

  predicate AtBarrier(c: Core) { c.pc.Enter? || c.pc.Sync? || c.pc.Await? }

  /** Which barriers there are, and in which trial. */
  predicate BarrierOk(n: nat, trial: nat, trials: nat) {
    || (n == 1 && trial == 0)
    || (trial < trials && 3 * trial + 2 <= n <= 3 * trial + 4)
    || (n == 3 * trials + 5 && trial == trials)
  }

  predicate Placed(c: Core, i: nat, trials: nat) {
    if AtBarrier(c) then BarrierOk(c.pc.n, c.trial, trials)
    else if c.pc == Done then c.trial == trials
    else c.trial < trials && (c.pc in {ResetX, ResetY, Check} ==> i == 0)
  }

  /** The barrier before barrier `n`. */
  function Before(n: nat, trials: nat): int { if n == 3 * trials + 5 then 3 * trials + 1 else n - 1 }

  /** The barrier this core has passed. */
  function PassedBarrier(c: Core, trials: nat): int {
    if AtBarrier(c) then Before(c.pc.n, trials)
    else if c.pc in {ResetX, ResetY} then 3 * c.trial + 1
    else if c.pc == Check then 3 * c.trial + 3
    else if c.pc == Done then 3 * trials + 5
    else 3 * c.trial + 2
  }

  /** The barrier number this core has made visible. */
  function Shown(c: Core, trials: nat): int {
    if c.pc.Await? || (c.pc.Sync? && c.buf == []) then c.pc.n else PassedBarrier(c, trials)
  }

  /** The stores a core can have outstanding before its barrier store: a suffix of what it stored since the
      last fence. */
  predicate Leftover(b: seq<Pending<Var>>, c: Core, i: nat, n: nat) {
    || b == []
    || (n == 3 * c.trial + 2 && i == 0 && (b == [Pending(Y, 0)] || b == [Pending(X, 0), Pending(Y, 0)]))
    || (n == 3 * c.trial + 3 && b == [Pending(Result(i), c.reg)])
  }

  predicate Buffered(c: Core, i: nat) {
    match c.pc
    case ResetY => c.buf == [] || c.buf == [Pending(X, 0)]
    case Enter(n) => Leftover(c.buf, c, i, n)
    case Sync(n) =>
      c.buf == [] || (c.buf[|c.buf| - 1] == Pending(Seq(i), n) && Leftover(c.buf[..|c.buf| - 1], c, i, n))
    case Fence => c.buf == [] || c.buf == [Pending(Mine(i), 1)]
    case _ => c.buf == []
  }

  /** The store of the current trial is visible, up to the end of its second barrier. */
  predicate PastFence(c: Core) {
    c.pc in {Load, Save, Check} || (c.pc == Fence && c.buf == []) || (AtBarrier(c) && c.pc.n == 3 * c.trial + 3)
  }

  /** Has loaded in the current trial. */
  predicate Loaded(c: Core) {
    c.pc in {Save, Check} || (AtBarrier(c) && (c.pc.n == 3 * c.trial + 3 || c.pc.n == 3 * c.trial + 4) && c.pc.n > 1)
  }

  /** What was loaded has reached memory. */
  predicate Saved(c: Core) {
    || c.pc == Await(3 * c.trial + 3) || (c.pc == Sync(3 * c.trial + 3) && |c.buf| <= 1)
    || (c.pc == Enter(3 * c.trial + 3) && c.buf == []) || c.pc == Check
    || (AtBarrier(c) && c.pc.n == 3 * c.trial + 4)
  }

  ghost predicate CoreOk(m: Memory<Var>, c: Core, i: nat, trials: nat) {
    && Placed(c, i, trials) && Buffered(c, i)
    && m(Seq(i)) == Shown(c, trials)
    && (Saved(c) ==> m(Result(i)) == c.reg)
    && (PastFence(c) ==> m(Mine(i)) == 1)
  }

  /** The two cores: whoever passed a barrier was let through, and not both loaded 0 in one trial. */
  ghost predicate Good(m: Memory<Var>, c: Core, d: Core, i: nat, trials: nat)
    requires i < 2
  {
    && CoreOk(m, c, i, trials) && CoreOk(m, d, 1 - i, trials)
    && Shown(d, trials) >= PassedBarrier(c, trials) && Shown(c, trials) >= PassedBarrier(d, trials)
    && (Loaded(c) && Loaded(d) && c.trial == d.trial ==> c.reg != 0 || d.reg != 0)
    && c.violations == 0 && d.violations == 0
  }

  ghost predicate Inv(s: State, trials: nat) { Two(s) && Good(s.mem, s.cores[0], s.cores[1], 0, trials) }

  lemma Mirror(m: Memory<Var>, c: Core, d: Core, i: nat, trials: nat)
    requires i < 2 && Good(m, c, d, i, trials)
    ensures Good(m, d, c, 1 - i, trials)
  {
  }

  /** The barrier separates the phases: a core that is loading or has not yet saved finds the other in the
      same trial, between the first and second barriers. */
  lemma SamePhase(m: Memory<Var>, c: Core, d: Core, i: nat, trials: nat)
    requires i < 2 && Good(m, c, d, i, trials) && c.pc == Load && Loaded(d) && c.trial == d.trial
    ensures PastFence(d)
  {
  }

  lemma AtCheck(m: Memory<Var>, c: Core, d: Core, trials: nat)
    requires Good(m, c, d, 0, trials) && c.pc == Check
    ensures Saved(d) && Loaded(d) && d.trial == c.trial
  {
  }

  // ------------------------------------------------------------ steps keep it

  lemma EnterKeeps(m: Memory<Var>, c: Core, d: Core, i: nat, trials: nat)
    requires i < 2 && Good(m, c, d, i, trials) && c.pc.Enter?
    ensures Good(m, Advance(m, c, i, trials, true), d, i, trials)
  {
    var e := Advance(m, c, i, trials, true);
    assert e.buf[..|e.buf| - 1] == c.buf;
  }

  lemma SyncKeeps(m: Memory<Var>, c: Core, d: Core, i: nat, trials: nat)
    requires i < 2 && Good(m, c, d, i, trials) && c.pc.Sync?
    ensures Good(m, Advance(m, c, i, trials, true), d, i, trials)
  {
  }

  /** Passing a barrier that leads to the top of the loop. */
  lemma TopKeeps(m: Memory<Var>, c: Core, d: Core, i: nat, trial: nat, trials: nat)
    requires i < 2 && Good(m, c, d, i, trials) && c.pc.Await? && Shown(d, trials) >= c.pc.n && trial <= trials
    requires c.pc.n == 3 * trial + 1 && (c.trial == trial == 0 || c.trial == trial - 1)
    ensures Good(m, Top(c, i, trial, trials), d, i, trials)
  {
  }

  lemma WithinTrial(m: Memory<Var>, c: Core, d: Core, i: nat, trials: nat)
    requires i < 2 && Good(m, c, d, i, trials) && c.pc.Await? && Shown(d, trials) >= c.pc.n
    requires c.pc.n != 1 && c.pc.n != 3 * c.trial + 4
    ensures Good(m, AfterBarrier(c, i, c.pc.n, trials), d, i, trials)
  {
  }

  lemma AwaitKeeps(m: Memory<Var>, c: Core, d: Core, i: nat, trials: nat)
    requires i < 2 && Good(m, c, d, i, trials) && c.pc.Await?
    ensures Good(m, Advance(m, c, i, trials, true), d, i, trials)
  {
    if Shown(d, trials) >= c.pc.n {
      if c.pc.n == 1 {
        TopKeeps(m, c, d, i, 0, trials);
      } else if c.pc.n == 3 * c.trial + 4 {
        TopKeeps(m, c, d, i, c.trial + 1, trials);
      } else {
        WithinTrial(m, c, d, i, trials);
      }
    }
  }

  lemma StoreKeeps(m: Memory<Var>, c: Core, d: Core, i: nat, trials: nat)
    requires i < 2 && Good(m, c, d, i, trials) && c.pc in {ResetX, ResetY, Store, Fence, Save, Done}
    ensures Good(m, Advance(m, c, i, trials, true), d, i, trials)
  {
  }

  lemma LoadKeeps(m: Memory<Var>, c: Core, d: Core, i: nat, trials: nat)
    requires i < 2 && Good(m, c, d, i, trials) && c.pc == Load
    ensures Good(m, Advance(m, c, i, trials, true), d, i, trials)
  {
    if Loaded(d) && c.trial == d.trial { SamePhase(m, c, d, i, trials); }
  }

  lemma CheckKeeps(m: Memory<Var>, c: Core, d: Core, i: nat, trials: nat)
    requires i < 2 && Good(m, c, d, i, trials) && c.pc == Check
    ensures Good(m, Advance(m, c, i, trials, true), d, i, trials)
  {
    AtCheck(m, c, d, trials);
  }

  /** A program step keeps the invariant. */
  lemma AdvanceKeeps(m: Memory<Var>, c: Core, d: Core, i: nat, trials: nat)
    requires i < 2 && Good(m, c, d, i, trials)
    ensures Good(m, Advance(m, c, i, trials, true), d, i, trials)
  {
    match c.pc
    case Enter(_) => EnterKeeps(m, c, d, i, trials);
    case Sync(_) => SyncKeeps(m, c, d, i, trials);
    case Await(_) => AwaitKeeps(m, c, d, i, trials);
    case Load => LoadKeeps(m, c, d, i, trials);
    case Check => CheckKeeps(m, c, d, i, trials);
    case _ => StoreKeeps(m, c, d, i, trials);
  }

  /** Draining keeps what is known of the core itself. */
  lemma DrainMine(m: Memory<Var>, c: Core, i: nat, trials: nat)
    requires i < 2 && CoreOk(m, c, i, trials) && c.buf != []
    ensures CoreOk(Set(m, c.buf[0].to, c.buf[0].value), c.(buf := c.buf[1..]), i, trials)
  {
    if |c.buf| > 1 { assert c.buf[1..][..|c.buf| - 2] == c.buf[..|c.buf| - 1][1..]; }
  }

  /** Draining keeps what is known of the other core. */
  lemma DrainTheirs(m: Memory<Var>, c: Core, d: Core, i: nat, trials: nat)
    requires i < 2 && Good(m, c, d, i, trials) && c.buf != []
    ensures CoreOk(Set(m, c.buf[0].to, c.buf[0].value), d, 1 - i, trials)
  {
  }

  /** A drain keeps the invariant. */
  lemma DrainKeeps(m: Memory<Var>, c: Core, d: Core, i: nat, trials: nat)
    requires i < 2 && Good(m, c, d, i, trials)
    ensures Good(Drained(m, c.buf), c.(buf := Undrained(c.buf)), d, i, trials)
  {
    if c.buf != [] {
      DrainMine(m, c, i, trials);
      DrainTheirs(m, c, d, i, trials);
    }
  }

  lemma StepKeeps(s: State, ch: Choice, trials: nat)
    requires Inv(s, trials)
    ensures Inv(Step(s, ch, trials, true), trials)
  {
    var i := Mover(ch);
    var c, d := s.cores[i], s.cores[1 - i];
    if i == 1 { Mirror(s.mem, d, c, 0, trials); }
    if ch.drain {
      DrainKeeps(s.mem, c, d, i, trials);
      if i == 1 { Mirror(Drained(s.mem, c.buf), c.(buf := Undrained(c.buf)), d, 1, trials); }
    } else {
      AdvanceKeeps(s.mem, c, d, i, trials);
      if i == 1 { Mirror(s.mem, Advance(s.mem, c, i, trials, true), d, 1, trials); }
    }
  }

  lemma {:induction false} RunKeeps(chs: seq<Choice>, trials: nat)
    ensures Inv(Run(chs, trials, true), trials)
  {
    if chs != [] {
      RunKeeps(chs[..|chs| - 1], trials);
      StepKeeps(Run(chs[..|chs| - 1], trials, true), chs[|chs| - 1], trials);
    }
  }

  /** The fenced build never counts a violation, for any number of trials and any interleaving. */
  lemma NoViolations(chs: seq<Choice>, trials: nat)
    ensures Run(chs, trials, true).cores[0].violations == 0
  {
    RunKeeps(chs, trials);
  }

  /** The barrier separates the phases: the cores are never more than one barrier apart. */
  lemma PhasesSeparated(chs: seq<Choice>, trials: nat)
    ensures var s := Run(chs, trials, true);
      && PassedBarrier(s.cores[0], trials) <= Shown(s.cores[1], trials)
      && PassedBarrier(s.cores[1], trials) <= Shown(s.cores[0], trials)
  {
    RunKeeps(chs, trials);
  }

  // ---------------------------------------------------------- without the fence

  datatype View = View(seq0: int, seq1: int, x: int, y: int, r1: int, r2: int)

  /** A state written out: both cores and memory. */
  datatype Picture = Picture(first: Core, second: Core, view: View)

  predicate Like(c: Core, d: Core) {
    c.pc == d.pc && c.trial == d.trial && c.reg == d.reg && c.violations == d.violations && c.buf == d.buf
  }

  ghost predicate At(s: State, p: Picture) {
    && Two(s) && Like(s.cores[0], p.first) && Like(s.cores[1], p.second)
    && s.mem(Seq(0)) == p.view.seq0 && s.mem(Seq(1)) == p.view.seq1 && s.mem(X) == p.view.x && s.mem(Y) == p.view.y
    && s.mem(R1) == p.view.r1 && s.mem(R2) == p.view.r2
  }

  /** The choices lead to the state pictured, in the build without the fence. */
  ghost predicate Leads(chs: seq<Choice>, trials: nat, p: Picture) {
    forall k: nat {:trigger Run(chs, k, false)} | k == trials :: At(Run(chs, k, false), p)
  }

  /** One more choice takes a state like `p` to one like `q`. */
  lemma StepTo(chs: seq<Choice>, ch: Choice, trials: nat, p: Picture, q: Picture) returns (more: seq<Choice>)
    requires Leads(chs, trials, p) && forall s: State | At(s, p) :: At(Step(s, ch, trials, false), q)
    ensures Leads(more, trials, q)
  {
    more := chs + [ch];
    assert more[..|chs|] == chs;
    assert At(Run(chs, trials, false), p);
  }

  const BOOTED := Picture(Core(Enter(1), 0, 0, 0, []), Core(Enter(1), 0, 0, 0, []), View(0, 0, 0, 0, 0, 0))
  const ARRIVED := Picture(Core(Sync(1), 0, 0, 0, []), Core(Sync(1), 0, 0, 0, []), View(1, 1, 0, 0, 0, 0))
  const STARTED := Picture(Core(ResetX, 0, 0, 0, []), Core(Enter(2), 0, 0, 0, []), View(1, 1, 0, 0, 0, 0))
  const RESET := Picture(Core(Enter(2), 0, 0, 0, []), Core(Enter(2), 0, 0, 0, []), View(1, 1, 0, 0, 0, 0))
  const READY := Picture(Core(Sync(2), 0, 0, 0, []), Core(Sync(2), 0, 0, 0, []), View(2, 2, 0, 0, 0, 0))
  const TESTING := Picture(Core(Store, 0, 0, 0, []), Core(Store, 0, 0, 0, []), View(2, 2, 0, 0, 0, 0))
  const STORED := Picture(Core(Load, 0, 0, 0, [Pending(X, 1)]), Core(Load, 0, 0, 0, [Pending(Y, 1)]), View(2, 2, 0, 0, 0, 0))
  const LOADED := Picture(Core(Save, 0, 0, 0, []), Core(Save, 0, 0, 0, []), View(2, 2, 1, 1, 0, 0))
  const SAVED := Picture(Core(Enter(3), 0, 0, 0, []), Core(Enter(3), 0, 0, 0, []), View(2, 2, 1, 1, 0, 0))
  const COMPARED := Picture(Core(Sync(3), 0, 0, 0, []), Core(Sync(3), 0, 0, 0, []), View(3, 3, 1, 1, 0, 0))
  const COUNTED := Picture(Core(Enter(4), 0, 0, 1, []), Core(Sync(3), 0, 0, 0, []), View(3, 3, 1, 1, 0, 0))

  /** Both cores reach the first barrier. */
  lemma BothArrive(chs: seq<Choice>, trials: nat) returns (more: seq<Choice>)
    requires Leads(chs, trials, BOOTED)
    ensures Leads(more, trials, ARRIVED)
  {
    var a := BOOTED.(first := BOOTED.first.(pc := Sync(1), buf := [Pending(Seq(0), 1)]));
    more := StepTo(chs, P, trials, BOOTED, a);
    var b := a.(first := a.first.(buf := []), view := a.view.(seq0 := 1));
    more := StepTo(more, PD, trials, a, b);
    var c := b.(second := b.second.(pc := Sync(1), buf := [Pending(Seq(1), 1)]));
    more := StepTo(more, Q, trials, b, c);
    var d := c.(second := c.second.(buf := []), view := c.view.(seq1 := 1));
    more := StepTo(more, QD, trials, c, d);
  }

  /** Both pass it. */
  lemma BothStart(chs: seq<Choice>, trials: nat) returns (more: seq<Choice>)
    requires Leads(chs, trials, ARRIVED) && trials > 0
    ensures Leads(more, trials, STARTED)
  {
    var a := ARRIVED.(first := ARRIVED.first.(pc := Await(1)));
    more := StepTo(chs, P, trials, ARRIVED, a);
    var b := a.(second := a.second.(pc := Await(1)));
    more := StepTo(more, Q, trials, a, b);
    var c := b.(first := b.first.(pc := ResetX));
    more := StepTo(more, P, trials, b, c);
    var d := c.(second := c.second.(pc := Enter(2)));
    more := StepTo(more, Q, trials, c, d);
  }

  /** Core 0 resets the variables. */
  lemma FirstResets(chs: seq<Choice>, trials: nat) returns (more: seq<Choice>)
    requires Leads(chs, trials, STARTED)
    ensures Leads(more, trials, RESET)
  {
    var a := STARTED.(first := STARTED.first.(pc := ResetY, buf := [Pending(X, 0)]));
    more := StepTo(chs, P, trials, STARTED, a);
    var b := a.(first := a.first.(buf := []));
    more := StepTo(more, PD, trials, a, b);
    var c := b.(first := b.first.(pc := Enter(2), buf := [Pending(Y, 0)]));
    more := StepTo(more, P, trials, b, c);
    var d := c.(first := c.first.(buf := []));
    more := StepTo(more, PD, trials, c, d);
  }

  /** Both reach the barrier before the test. */
  lemma BothReady(chs: seq<Choice>, trials: nat) returns (more: seq<Choice>)
    requires Leads(chs, trials, RESET)
    ensures Leads(more, trials, READY)
  {
    var a := RESET.(first := RESET.first.(pc := Sync(2), buf := [Pending(Seq(0), 2)]));
    more := StepTo(chs, P, trials, RESET, a);
    var b := a.(first := a.first.(buf := []), view := a.view.(seq0 := 2));
    more := StepTo(more, PD, trials, a, b);
    var c := b.(second := b.second.(pc := Sync(2), buf := [Pending(Seq(1), 2)]));
    more := StepTo(more, Q, trials, b, c);
    var d := c.(second := c.second.(buf := []), view := c.view.(seq1 := 2));
    more := StepTo(more, QD, trials, c, d);
  }

  /** Both pass it. */
  lemma BothPass(chs: seq<Choice>, trials: nat) returns (more: seq<Choice>)
    requires Leads(chs, trials, READY) && trials > 0
    ensures Leads(more, trials, TESTING)
  {
    var a := READY.(first := READY.first.(pc := Await(2)));
    more := StepTo(chs, P, trials, READY, a);
    var b := a.(second := a.second.(pc := Await(2)));
    more := StepTo(more, Q, trials, a, b);
    var c := b.(first := b.first.(pc := Store));
    more := StepTo(more, P, trials, b, c);
    var d := c.(second := c.second.(pc := Store));
    more := StepTo(more, Q, trials, c, d);
  }

  /** Both stores are buffered, and without the fence both cores go on. */
  lemma BothStore(chs: seq<Choice>, trials: nat) returns (more: seq<Choice>)
    requires Leads(chs, trials, TESTING)
    ensures Leads(more, trials, STORED)
  {
    var a := TESTING.(first := TESTING.first.(pc := Fence, buf := [Pending(X, 1)]));
    more := StepTo(chs, P, trials, TESTING, a);
    var b := a.(second := a.second.(pc := Fence, buf := [Pending(Y, 1)]));
    more := StepTo(more, Q, trials, a, b);
    var c := b.(first := b.first.(pc := Load));
    more := StepTo(more, P, trials, b, c);
    var d := c.(second := c.second.(pc := Load));
    more := StepTo(more, Q, trials, c, d);
  }

  /** Neither load sees the other core's store. */
  lemma BothLoad(chs: seq<Choice>, trials: nat) returns (more: seq<Choice>)
    requires Leads(chs, trials, STORED)
    ensures Leads(more, trials, LOADED)
  {
    var a := STORED.(first := STORED.first.(pc := Save));
    more := StepTo(chs, P, trials, STORED, a);
    var b := a.(second := a.second.(pc := Save));
    more := StepTo(more, Q, trials, a, b);
    var c := b.(first := b.first.(buf := []), view := b.view.(x := 1));
    more := StepTo(more, PD, trials, b, c);
    var d := c.(second := c.second.(buf := []), view := c.view.(y := 1));
    more := StepTo(more, QD, trials, c, d);
  }

  /** Both results are saved. */
  lemma BothSave(chs: seq<Choice>, trials: nat) returns (more: seq<Choice>)
    requires Leads(chs, trials, LOADED)
    ensures Leads(more, trials, SAVED)
  {
    var a := LOADED.(first := LOADED.first.(pc := Enter(3), buf := [Pending(R1, 0)]));
    more := StepTo(chs, P, trials, LOADED, a);
    var b := a.(first := a.first.(buf := []));
    more := StepTo(more, PD, trials, a, b);
    var c := b.(second := b.second.(pc := Enter(3), buf := [Pending(R2, 0)]));
    more := StepTo(more, Q, trials, b, c);
    var d := c.(second := c.second.(buf := []));
    more := StepTo(more, QD, trials, c, d);
  }

  /** Both reach the barrier after the test. */
  lemma BothDone(chs: seq<Choice>, trials: nat) returns (more: seq<Choice>)
    requires Leads(chs, trials, SAVED)
    ensures Leads(more, trials, COMPARED)
  {
    var a := SAVED.(first := SAVED.first.(pc := Sync(3), buf := [Pending(Seq(0), 3)]));
    more := StepTo(chs, P, trials, SAVED, a);
    var b := a.(first := a.first.(buf := []), view := a.view.(seq0 := 3));
    more := StepTo(more, PD, trials, a, b);
    var c := b.(second := b.second.(pc := Sync(3), buf := [Pending(Seq(1), 3)]));
    more := StepTo(more, Q, trials, b, c);
    var d := c.(second := c.second.(buf := []), view := c.view.(seq1 := 3));
    more := StepTo(more, QD, trials, c, d);
  }

  /** Core 0 finds both results 0 and counts. */
  lemma FirstCounts(chs: seq<Choice>, trials: nat) returns (more: seq<Choice>)
    requires Leads(chs, trials, COMPARED) && trials > 0
    ensures Leads(more, trials, COUNTED)
  {
    var a := COMPARED.(first := COMPARED.first.(pc := Await(3)));
    more := StepTo(chs, P, trials, COMPARED, a);
    var b := a.(first := a.first.(pc := Check));
    more := StepTo(more, P, trials, a, b);
    var c := b.(first := b.first.(pc := Enter(4), violations := 1));
    more := StepTo(more, P, trials, b, c);
  }

  /** An interleaving of the build without the fence that counts a violation in the first trial. */
  lemma Violation(trials: nat) returns (chs: seq<Choice>)
    requires trials > 0
    ensures Leads(chs, trials, COUNTED)
  {
    assert Leads([], trials, BOOTED);
    chs := BothArrive([], trials);
    chs := BothStart(chs, trials);
    chs := FirstResets(chs, trials);
    chs := BothReady(chs, trials);
    chs := BothPass(chs, trials);
    chs := BothStore(chs, trials);
    chs := BothLoad(chs, trials);
    chs := BothSave(chs, trials);
    chs := BothDone(chs, trials);
    chs := FirstCounts(chs, trials);
  }

  /** The program counts no violation in any interleaving exactly if the fence is there (given a trial). */
  lemma FenceNeeded(trials: nat, fenced: bool)
    requires trials > 0
    ensures (forall chs: seq<Choice> :: Run(chs, trials, fenced).cores[0].violations == 0) <==> fenced
  {
    if fenced {
      forall chs: seq<Choice> ensures Run(chs, trials, fenced).cores[0].violations == 0 { NoViolations(chs, trials); }
    } else {
      var chs := Violation(trials);
      assert At(Run(chs, trials, false), COUNTED);
      assert Run(chs, trials, fenced).cores[0].violations == 1;
    }
  }
}
