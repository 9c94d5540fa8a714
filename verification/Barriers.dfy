/** The counted barriers that threads meet at: an atomic counter and a promise. */
module Barriers {
  import opened Counting
  import opened Wrappers

  /**
    A counter that each thread decrements once; the one that brings it to zero sets the promise.
    `arrived`, `last` and `passedSet` are history.
   */
  datatype Barrier = Barrier(remaining: int, promised: nat, arrived: set<nat>, last: Option<nat>, passedSet: set<nat>)

  function NewBarrier(n: nat): Barrier {
    Barrier(n, 0, {}, None, {})
  }

  function Arrive(b: Barrier, i: nat): Barrier {
    b.(remaining := b.remaining - 1, arrived := b.arrived + {i},
       last := if b.remaining - 1 == 0 then Some(i) else b.last)
  }

  /** The thread sets the promise if its own decrement gave zero. */
  function SetIfLast(b: Barrier, i: nat): Barrier {
    b.(promised := b.promised + (if b.last == Some(i) then 1 else 0), passedSet := b.passedSet + {i})
  }

  /** A waiting thread goes on when it reads zero, or once the promise is set. */
  predicate Open(b: Barrier) {
    b.remaining == 0 || b.promised > 0
  }

  ghost predicate BarrierOk(b: Barrier, n: nat) {
    && (forall i :: i in b.arrived ==> i < n) && b.remaining == n - |b.arrived|
    && b.passedSet <= b.arrived
    && (b.last.Some? ==> b.last.value in b.arrived && b.remaining == 0)
    && (b.arrived != {} && b.remaining == 0 ==> b.last.Some?)
    && b.promised == (if b.last.Some? && b.last.value in b.passedSet then 1 else 0)
  }

  /** Threads of which there are n: their number says when they are all. */
  lemma SubsetIsAll(a: set<nat>, n: nat)
    requires forall i :: i in a ==> i < n
    ensures |a| <= n && (|a| == n ==> a == Range(0, n))
  {
    SubsetSize(a, Range(0, n));
    if |a| == n { EqualWhenSameSize(a, Range(0, n)); }
  }

  lemma ArriveOk(b: Barrier, n: nat, i: nat)
    requires BarrierOk(b, n) && i < n && i !in b.arrived
    ensures BarrierOk(Arrive(b, i), n)
  {
    SubsetIsAll(b.arrived + {i}, n);
  }

  lemma SetOk(b: Barrier, n: nat, i: nat)
    requires BarrierOk(b, n) && i in b.arrived && i !in b.passedSet
    ensures BarrierOk(SetIfLast(b, i), n)
  {
  }

  /** Whoever gets past a barrier knows that every thread has arrived. */
  lemma OpenMeansAll(b: Barrier, n: nat)
    requires BarrierOk(b, n) && Open(b)
    ensures b.arrived == Range(0, n)
  {
    SubsetIsAll(b.arrived, n);
  }

  /** Once all threads have arrived, nobody waits for ever. */
  lemma AllMeansOpen(b: Barrier, n: nat)
    requires BarrierOk(b, n) && b.arrived == Range(0, n)
    ensures Open(b)
  {
  }

  lemma AllArrived(b: Barrier, n: nat)
    requires BarrierOk(b, n) && forall i: nat :: i < n ==> i in b.arrived
    ensures Open(b)
  {
    assert b.arrived == Range(0, n);
    AllMeansOpen(b, n);
  }

  lemma SetByAll(b: Barrier, n: nat)
    requires n > 0 && BarrierOk(b, n) && forall i: nat :: i < n ==> i in b.passedSet
    ensures b.promised == 1
  {
    assert b.arrived == Range(0, n);
    assert 0 in b.arrived;
  }
}
