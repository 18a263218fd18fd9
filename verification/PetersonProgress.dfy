/**
 Peterson's lock gets somewhere: from every state that the build with the fence after `turn` can reach, some
 continuation takes both cores to the end, and then the count is right.  So the fences let the cores through, and
 what is proved of critical sections and counts is about runs that have them.
 */
module PetersonProgress {
  import opened Tso
  import opened Peterson

  // ----------------------------------------------------------------- a measure

  /** The program steps a core has left, taking the spin as one. */
  function Steps(c: Core, n: nat): nat {
    var rest := 7 + if c.iter < n then 9 * (n - c.iter - 1) else 0;
    match c.pc
    case Enter(k) => if k == 1 then 7 + 9 * n + 3 else if k == 2 then 7 else 3
    case Sync(k) => if k == 1 then 7 + 9 * n + 2 else if k == 2 then 6 else 2
    case Await(k) => if k == 1 then 7 + 9 * n + 1 else if k == 2 then 5 else 1
    case SetWant => rest + 9
    case Fence1 => rest + 8
    case SetTurn => rest + 7
    case Fence2 => rest + 6
    case TestWant => rest + 5
    case TestTurn => rest + 5
    case ReadCounter => rest + 4
    case WriteCounter => rest + 3
    case ClearWant => rest + 2
    case Fence3 => rest + 1
    case Report => 4
    case Done => 0
  }

  /** Each step may buffer one store, which drains later. */
  function Left(c: Core, n: nat): nat { 2 * Steps(c, n) + |c.buf| }

  /** Within the spin: what is left depends on whether the other core can be seen to want the lock. */
  function Spin(c: Core, theirs: int): nat {
    if c.pc == TestWant then 1 else if c.pc == TestTurn && theirs == 0 then 2 else 0
  }

  function Measure(s: State, n: nat): nat
    requires Two(s)
  {
    4 * Left(s.cores[0], n) + Spin(s.cores[0], s.mem(Want(1))) + 4 * Left(s.cores[1], n) + Spin(s.cores[1], s.mem(Want(0)))
  }

  predicate Finished(s: State)
    requires Two(s)
  {
    s.cores[0].pc == Done && s.cores[1].pc == Done
  }

  // ------------------------------------------------------------------- one step

  /** Core `i`, whose buffer is empty, has a step that counts. */
  predicate CanGo(m: Memory<Var>, c: Core, i: nat)
    requires i < 2
  {
    && c.pc != Done
    && (c.pc.Await? ==> m(Seq(1 - i)) >= c.pc.n)
    && (c.pc == TestTurn ==> m(Want(1 - i)) == 0 || m(Turn) != 1 - i)
  }

  lemma Goes(m: Memory<Var>, c: Core, i: nat, n: nat, f: Fences)
    requires i < 2 && Placed(c, i, n) && c.buf == [] && CanGo(m, c, i)
    ensures var e := Advance(m, c, i, n, f);
      4 * Left(e, n) + Spin(e, m(Want(1 - i))) < 4 * Left(c, n) + Spin(c, m(Want(1 - i)))
  {
  }

  lemma Drains(m: Memory<Var>, c: Core, d: Core, i: nat, n: nat)
    requires i < 2 && c.buf != []
    ensures var l, e := Drained(m, c.buf), c.(buf := Undrained(c.buf));
      4 * Left(e, n) + Spin(e, l(Want(1 - i))) + Spin(d, l(Want(i))) < 4 * Left(c, n) + Spin(c, m(Want(1 - i))) + Spin(d, m(Want(i)))
  {
    var l, e := Drained(m, c.buf), c.(buf := Undrained(c.buf));
    assert Left(e, n) == Left(c, n) - 1;
  }

  /** The two cores never wait for each other: neither at a barrier nor in the spin. */
  lemma OneCan(m: Memory<Var>, c: Core, d: Core, n: nat)
    requires Good(m, c, d, 0, n) && c.buf == [] && d.buf == [] && !(c.pc == Done && d.pc == Done)
    ensures CanGo(m, c, 0) || CanGo(m, d, 1)
  {
  }

  /** From every state of the invariant in which a core has not finished, a step goes on. */
  lemma GoesOn(s: State, n: nat, f: Fences) returns (ch: Choice)
    requires Inv(s, n) && f.afterTurn && !Finished(s)
    ensures Measure(Step(s, ch, n, f), n) < Measure(s, n)
  {
    var c, d := s.cores[0], s.cores[1];
    if c.buf != [] || d.buf != [] {
      ch := DrainsOn(s, n, f);
    } else {
      OneCan(s.mem, c, d, n);
      ch := if CanGo(s.mem, c, 0) then P else Q;
      StepsOn(s, n, f, Mover(ch));
    }
  }

  lemma DrainsOn(s: State, n: nat, f: Fences) returns (ch: Choice)
    requires Two(s) && (s.cores[0].buf != [] || s.cores[1].buf != [])
    ensures Measure(Step(s, ch, n, f), n) < Measure(s, n)
  {
    if s.cores[0].buf != [] {
      ch := PD;
      Drains(s.mem, s.cores[0], s.cores[1], 0, n);
    } else {
      ch := QD;
      Drains(s.mem, s.cores[1], s.cores[0], 1, n);
    }
  }

  lemma StepsOn(s: State, n: nat, f: Fences, i: nat)
    requires Two(s) && i < 2 && Placed(s.cores[i], i, n) && s.cores[i].buf == [] && CanGo(s.mem, s.cores[i], i)
    ensures Measure(Step(s, if i == 0 then P else Q, n, f), n) < Measure(s, n)
  {
    Goes(s.mem, s.cores[i], i, n, f);
  }

  // --------------------------------------------------------------------- runs

  /** Completion: every run can be continued until both cores are done, and then core 0 has reported 2 * n. */
  lemma Completes(chs: seq<Choice>, n: nat, f: Fences) returns (more: seq<Choice>)
    requires f.afterTurn
    ensures chs <= more && Finished(Run(more, n, f))
    ensures Run(more, n, f).cores[0].out == 2 * n && Run(more, n, f).mem(Counter) == 2 * n
    decreases Measure(Run(chs, n, f), n)
  {
    RunKeeps(chs, n, f);
    if Finished(Run(chs, n, f)) {
      more := chs;
      NoLostUpdates(chs, n, f);
    } else {
      var ch := GoesOn(Run(chs, n, f), n, f);
      OneMore(chs, ch, n, f);
      more := Completes(chs + [ch], n, f);
    }
  }

  lemma OneMore(chs: seq<Choice>, ch: Choice, n: nat, f: Fences)
    ensures Run(chs + [ch], n, f) == Step(Run(chs, n, f), ch, n, f)
  {
    assert (chs + [ch])[..|chs|] == chs;
  }
}
