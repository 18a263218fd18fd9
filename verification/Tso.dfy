/**
 Memory with one first-in first-out store buffer for each core: a store is visible to its own core at
 once and to the other core when it drains.  A fence waits until the buffer is empty.
 */
module Tso {

  datatype Pending<V(==)> = Pending(to: V, value: int)

  type Memory<!V(==)> = V -> int

  function Set<V(==)>(m: Memory<V>, v: V, x: int): Memory<V> { (u: V) => if u == v then x else m(u) }

  /** What a core with this buffer reads: its newest buffered store, or memory. */
  function Read<V(==)>(m: Memory<V>, buf: seq<Pending<V>>, v: V): int {
    if buf == [] then m(v)
    else if buf[|buf| - 1].to == v then buf[|buf| - 1].value
    else Read(m, buf[..|buf| - 1], v)
  }

  lemma {:induction false} Unbuffered<V>(m: Memory<V>, buf: seq<Pending<V>>, v: V)
    requires forall k | 0 <= k < |buf| :: buf[k].to != v
    ensures Read(m, buf, v) == m(v)
  {
    if buf != [] { Unbuffered(m, buf[..|buf| - 1], v); }
  }

  /** One step of a run: which core moves, and whether it drains a store or takes a program step. */
  datatype Choice = Choice(core: bool, drain: bool)

  /** Core 0 or core 1 takes a program step (`P`, `Q`) or drains a store (`PD`, `QD`). */
  const P := Choice(false, false)
  const PD := Choice(false, true)
  const Q := Choice(true, false)
  const QD := Choice(true, true)

  function Mover(ch: Choice): (i: nat)
    ensures i < 2
  {
    if ch.core then 1 else 0
  }

  /** Memory once the oldest buffered store has drained. */
  function Drained<V(==)>(m: Memory<V>, buf: seq<Pending<V>>): Memory<V> {
    if buf == [] then m else Set(m, buf[0].to, buf[0].value)
  }

  function Undrained<V(==)>(buf: seq<Pending<V>>): seq<Pending<V>> { if buf == [] then [] else buf[1..] }

  /** A fence that is there waits for the buffer to be empty. */
  predicate MayPass<V(==)>(buf: seq<Pending<V>>, there: bool) { there ==> buf == [] }
}
