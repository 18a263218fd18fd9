/**
 The fenced litmus program gets to its end: from every state it can reach, some continuation completes all trials on
 both cores, and then no violation has been counted.
 */
module LitmusProgress {
  import opened Tso
  import opened Litmus

  // ----------------------------------------------------------------- a measure

  /** The steps after trial `t` is over. */
  function After(t: nat, trials: nat): nat { 3 + if t < trials then 16 * (trials - t - 1) else 0 }

  /** The steps after barrier `n`. */
  function AfterBarrier(n: nat, t: nat, trials: nat): nat {
    if n == 1 then 3 + 16 * trials
    else if n == 3 * trials + 5 then 0
    else if n == 3 * t + 2 then After(t, trials) + 11
    else if n == 3 * t + 3 then After(t, trials) + 4
    else After(t, trials)
  }

  /** The program steps a core has left. */
  function Steps(c: Core, trials: nat): nat {
    match c.pc
    case Enter(n) => AfterBarrier(n, c.trial, trials) + 3
    case Sync(n) => AfterBarrier(n, c.trial, trials) + 2
    case Await(n) => AfterBarrier(n, c.trial, trials) + 1
    case ResetX => After(c.trial, trials) + 16
    case ResetY => After(c.trial, trials) + 15
    case Store => After(c.trial, trials) + 11
    case Fence => After(c.trial, trials) + 10
    case Load => After(c.trial, trials) + 9
    case Save => After(c.trial, trials) + 8
    case Check => After(c.trial, trials) + 4
    case Done => 0
  }

  /** Each step may buffer one store, which drains later. */
  function Left(c: Core, trials: nat): nat { 2 * Steps(c, trials) + |c.buf| }

  function Measure(s: State, trials: nat): nat
    requires Two(s)
  {
    Left(s.cores[0], trials) + Left(s.cores[1], trials)
  }

  predicate Finished(s: State)
    requires Two(s)
  {
    s.cores[0].pc == Done && s.cores[1].pc == Done
  }

  // ------------------------------------------------------------------- one step

  /** Core `i`, whose buffer is empty, has a step that counts. */
  predicate CanGo(m: Memory<Var>, c: Core, i: nat)
    requires i < 2
  {
    c.pc != Done && (c.pc.Await? ==> m(Seq(1 - i)) >= c.pc.n)
  }

  lemma PassesBarrier(c: Core, i: nat, trials: nat)
    requires i < 2 && Placed(c, i, trials) && c.pc.Await?
    ensures Left(Litmus.AfterBarrier(c, i, c.pc.n, trials), trials) < Left(c, trials)
  {
  }

  lemma Goes(m: Memory<Var>, c: Core, i: nat, trials: nat)
    requires i < 2 && Placed(c, i, trials) && c.buf == [] && CanGo(m, c, i)
    ensures Left(Advance(m, c, i, trials, true), trials) < Left(c, trials)
  {
    if c.pc.Await? { PassesBarrier(c, i, trials); }
  }

  /** The two cores never wait for each other. */
  lemma OneCan(m: Memory<Var>, c: Core, d: Core, trials: nat)
    requires Good(m, c, d, 0, trials) && c.buf == [] && d.buf == [] && !(c.pc == Done && d.pc == Done)
    ensures CanGo(m, c, 0) || CanGo(m, d, 1)
  {
  }

  lemma DrainsOn(s: State, trials: nat) returns (ch: Choice)
    requires Two(s) && (s.cores[0].buf != [] || s.cores[1].buf != [])
    ensures Measure(Step(s, ch, trials, true), trials) < Measure(s, trials)
  {
    ch := if s.cores[0].buf != [] then PD else QD;
  }

  lemma StepsOn(s: State, trials: nat, i: nat)
    requires Two(s) && i < 2 && Placed(s.cores[i], i, trials) && s.cores[i].buf == [] && CanGo(s.mem, s.cores[i], i)
    ensures Measure(Step(s, if i == 0 then P else Q, trials, true), trials) < Measure(s, trials)
  {
    Goes(s.mem, s.cores[i], i, trials);
  }

  /** From every state of the invariant in which a core has not finished, a step goes on. */
  lemma GoesOn(s: State, trials: nat) returns (ch: Choice)
    requires Inv(s, trials) && !Finished(s)
    ensures Measure(Step(s, ch, trials, true), trials) < Measure(s, trials)
  {
    var c, d := s.cores[0], s.cores[1];
    if c.buf != [] || d.buf != [] {
      ch := DrainsOn(s, trials);
    } else {
      OneCan(s.mem, c, d, trials);
      ch := if CanGo(s.mem, c, 0) then P else Q;
      StepsOn(s, trials, Mover(ch));
    }
  }

  // --------------------------------------------------------------------- runs

  /** Completion: every fenced run can be continued until both cores have completed all trials. */
  lemma Completes(chs: seq<Choice>, trials: nat) returns (more: seq<Choice>)
    ensures chs <= more && Finished(Run(more, trials, true))
    ensures Run(more, trials, true).cores[0].trial == trials && Run(more, trials, true).cores[0].violations == 0
    decreases Measure(Run(chs, trials, true), trials)
  {
    RunKeeps(chs, trials);
    if Finished(Run(chs, trials, true)) {
      more := chs;
    } else {
      var ch := GoesOn(Run(chs, trials, true), trials);
      OneMore(chs, ch, trials);
      more := Completes(chs + [ch], trials);
    }
  }

  lemma OneMore(chs: seq<Choice>, ch: Choice, trials: nat)
    ensures Run(chs + [ch], trials, true) == Step(Run(chs, trials, true), ch, trials, true)
  {
    assert (chs + [ch])[..|chs|] == chs;
  }
}
