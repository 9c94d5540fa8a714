/**
  How the set-up threads of both parties use the precomputed transfers: first for a thread's circuits, then for
  its buckets' intersections, each time waiting until enough transfers are done.
 */
module Transfers {
  import opened Allocation
  import Division

  /** Transfers start, start + 1, ... of a thread's own. */
  datatype Interval = Interval(start: nat, size: nat) {
    function End(): nat {
      start + size
    }
  }

  /** A thread and what all threads share; perPsi transfers go into each bucket's intersection. */
  datatype Setup = Setup(thread: nat, threads: nat, circuits: nat, perPsi: nat, buckets: nat) {
    predicate Valid() {
      thread < threads
    }

    function Circuits(): nat
      requires Valid()
    {
      RangesPartition(circuits, threads, thread);
      RangeStart(thread + 1, circuits, threads) - RangeStart(thread, circuits, threads)
    }

    function Buckets(): nat
      requires Valid()
    {
      BucketsOf(thread, threads, buckets)
    }

    /** The transfers made ready for the thread, when each circuit takes `used`. */
    function Ready(used: nat): nat
      requires Valid()
    {
      Budget(used, circuits, perPsi, buckets, threads)
    }
  }

  /** count intervals of one size, one after the other. */
  function Consecutive(start: nat, size: nat, count: nat): (r: seq<Interval>)
    ensures |r| == count
  {
    seq(count, k requires 0 <= k < count => Interval(start + k * size, size))
  }

  /** What a thread uses: one interval per circuit, then one per bucket. */
  function Use(p: Setup, used: nat): (r: seq<Interval>)
    requires p.Valid()
    ensures |r| == p.Circuits() + p.Buckets()
  {
    Consecutive(0, used, p.Circuits()) + Consecutive(p.Circuits() * used, p.perPsi, p.Buckets())
  }

  lemma UseAt(p: Setup, used: nat, k: nat)
    requires p.Valid() && k < |Use(p, used)|
    ensures k < p.Circuits() ==> Use(p, used)[k] == Interval(k * used, used)
    ensures k >= p.Circuits() ==>
      Use(p, used)[k] == Interval(p.Circuits() * used + (k - p.Circuits()) * p.perPsi, p.perPsi)
  {
  }

  lemma OneMore(k: nat, size: nat)
    ensures (k + 1) * size == k * size + size
  {
  }

  lemma ConsecutiveStep(start: nat, size: nat, count: nat)
    ensures Consecutive(start, size, count + 1) ==
      Consecutive(start, size, count) + [Interval(start + count * size, size)]
  {
  }

  /**
    Before its k-th use the thread waits until `waited` transfers past its position are done, or perPsi if it is a
    bucket.
   */
  predicate WaitEnds(p: Setup, waited: nat, used: nat, total: nat, k: nat)
    requires p.Valid() && k < |Use(p, used)|
  {
    Use(p, used)[k].start + (if k < p.Circuits() then waited else p.perPsi) <= total
  }

  predicate WaitsEnd(p: Setup, waited: nat, used: nat, total: nat)
    requires p.Valid()
  {
    forall k :: 0 <= k < |Use(p, used)| ==> WaitEnds(p, waited, used, total, k)
  }

  /** How many buckets are left for the thread from bucket b on. */
  function Left(p: Setup, b: nat): nat
    requires p.Valid()
  {
    if b < p.buckets then (p.buckets - b + p.threads - 1) / p.threads else 0
  }

  lemma LeftStarts(p: Setup)
    requires p.Valid()
    ensures Left(p, p.thread) == p.Buckets()
  {
    if p.thread >= p.buckets {
      Division.QuotientUnique(p.buckets + p.threads - 1 - p.thread, p.threads, 0, p.buckets + p.threads - 1 - p.thread);
    }
  }

  lemma LeftStep(p: Setup, b: nat)
    requires p.Valid() && b < p.buckets
    ensures Left(p, b) == Left(p, b + p.threads) + 1
  {
    var x, n := p.buckets - b + p.threads - 1, p.threads;
    if b + n < p.buckets {
      var y := x - n;
      assert x == n * (y / n + 1) + y % n by {
        assert y == n * (y / n) + y % n;
        assert n * (y / n + 1) == n * (y / n) + n;
      }
      Division.QuotientUnique(x, n, y / n + 1, y % n);
    } else {
      Division.QuotientUnique(x, n, 1, x - n);
    }
  }

  /**
    The thread's loops over its circuits and its buckets. `total` transfers will be done in the end, so a wait for
    more never ends and the thread is stuck there.
   */
  method UseTransfers(p: Setup, waited: nat, used: nat, total: nat) returns (stuck: bool, intervals: seq<Interval>)
    requires p.Valid()
    ensures stuck <==> !WaitsEnd(p, waited, used, total)
    ensures !stuck ==> intervals == Use(p, used)
  {
    hide Setup.Circuits, Setup.Buckets, WaitsEnd, Use, Left;
    var otIdx: nat;
    stuck, intervals, otIdx := UseForCircuits(p, waited, used, total);
    if stuck { return; }
    ghost var n := p.Circuits();
    LeftStarts(p);
    var bcktIdx, count := p.thread, 0;
    while bcktIdx < p.buckets
      invariant count + Left(p, bcktIdx) == p.Buckets() && otIdx == n * used + count * p.perPsi
      invariant intervals == Consecutive(0, used, n) + Consecutive(n * used, p.perPsi, count)
      invariant forall k :: 0 <= k < n + count ==> WaitEnds(p, waited, used, total, k)
      decreases p.buckets - bcktIdx
    {
      LeftStep(p, bcktIdx);
      UseAt(p, used, n + count);
      if total < otIdx + p.perPsi {
        SticksAt(p, waited, used, total, n + count);
        return true, intervals;
      }
      ConsecutiveStep(n * used, p.perPsi, count);
      OneMore(count, p.perPsi);
      assert Consecutive(0, used, n) + Consecutive(n * used, p.perPsi, count + 1) ==
        intervals + [Interval(otIdx, p.perPsi)];
      intervals := intervals + [Interval(otIdx, p.perPsi)];
      otIdx := otIdx + p.perPsi;
      bcktIdx := bcktIdx + p.threads;
      count := count + 1;
    }
    NoneLeft(p, bcktIdx);
    UseIs(p, used);
    AllEnd(p, waited, used, total);
    stuck := false;
  }

  /** The loop over the thread's circuits. */
  method UseForCircuits(p: Setup, waited: nat, used: nat, total: nat)
    returns (stuck: bool, intervals: seq<Interval>, otIdx: nat)
    requires p.Valid()
    ensures stuck ==> !WaitsEnd(p, waited, used, total)
    ensures !stuck ==> intervals == Consecutive(0, used, p.Circuits()) && otIdx == p.Circuits() * used
    ensures !stuck ==> forall k :: 0 <= k < p.Circuits() ==> WaitEnds(p, waited, used, total, k)
  {
    RangesPartition(p.circuits, p.threads, p.thread);
    var startIdx, endIdx := RangeStart(p.thread, p.circuits, p.threads),
      RangeStart(p.thread + 1, p.circuits, p.threads);
    assert endIdx - startIdx == p.Circuits();
    hide Setup.Circuits, Setup.Buckets, WaitsEnd, Use;
    intervals, otIdx := [], 0;
    for i := startIdx to endIdx
      invariant intervals == Consecutive(0, used, i - startIdx) && otIdx == (i - startIdx) * used
      invariant forall k :: 0 <= k < i - startIdx ==> WaitEnds(p, waited, used, total, k)
    {
      UseAt(p, used, i - startIdx);
      if total < otIdx + waited {
        SticksAt(p, waited, used, total, i - startIdx);
        return true, intervals, otIdx;
      }
      ConsecutiveStep(0, used, i - startIdx);
      OneMore(i - startIdx, used);
      intervals := intervals + [Interval(otIdx, used)];
      otIdx := otIdx + used;
    }
    stuck := false;
  }

  lemma SticksAt(p: Setup, waited: nat, used: nat, total: nat, k: nat)
    requires p.Valid() && k < |Use(p, used)| && !WaitEnds(p, waited, used, total, k)
    ensures !WaitsEnd(p, waited, used, total)
  {
  }

  lemma AllEnd(p: Setup, waited: nat, used: nat, total: nat)
    requires p.Valid() && forall k :: 0 <= k < p.Circuits() + p.Buckets() ==> WaitEnds(p, waited, used, total, k)
    ensures WaitsEnd(p, waited, used, total)
  {
  }

  lemma NoneLeft(p: Setup, b: nat)
    requires p.Valid() && b >= p.buckets
    ensures Left(p, b) == 0
  {
  }

  lemma UseIs(p: Setup, used: nat)
    requires p.Valid()
    ensures Use(p, used) == Consecutive(0, used, p.Circuits()) + Consecutive(p.Circuits() * used, p.perPsi, p.Buckets())
  {
  }

  // ---------------------------------------------------------------- where the intervals lie

  /** The intervals follow one another. */
  lemma UseAdvances(p: Setup, used: nat, k: nat)
    requires p.Valid() && k + 1 < |Use(p, used)|
    ensures Use(p, used)[k].End() == Use(p, used)[k + 1].start
  {
    UseAt(p, used, k);
    UseAt(p, used, k + 1);
    hide Use, Setup.Circuits, Setup.Buckets;
    var n := p.Circuits();
    if k < n {
      OneMore(k, used);
    } else {
      OneMore(k - n, p.perPsi);
    }
  }

  lemma {:induction false} UseAscends(p: Setup, used: nat, i: nat, j: nat)
    requires p.Valid() && i < j < |Use(p, used)|
    ensures Use(p, used)[i].End() <= Use(p, used)[j].start
  {
    hide Use;
    if j > i + 1 {
      UseAscends(p, used, i, j - 1);
    }
    UseAdvances(p, used, j - 1);
  }

  lemma LastEnd(p: Setup, used: nat)
    requires p.Valid() && |Use(p, used)| > 0
    ensures Use(p, used)[|Use(p, used)| - 1].End() == p.Circuits() * used + p.Buckets() * p.perPsi
  {
    var k := |Use(p, used)| - 1;
    UseAt(p, used, k);
    hide Use, Setup.Circuits, Setup.Buckets;
    var n, m := p.Circuits(), p.Buckets();
    if m == 0 {
      OneMore(k, used);
    } else {
      OneMore(m - 1, p.perPsi);
    }
  }

  /** No transfer is used twice, and none past those made ready. */
  lemma UseIsDisjoint(p: Setup, used: nat, i: nat, j: nat)
    requires p.Valid() && i < |Use(p, used)| && j < |Use(p, used)|
    ensures i < j ==> Use(p, used)[i].End() <= Use(p, used)[j].start
    ensures Use(p, used)[i].End() <= p.Ready(used)
  {
    hide Use, Setup.Circuits, Setup.Buckets;
    if i < j { UseAscends(p, used, i, j); }
    if i < |Use(p, used)| - 1 { UseAscends(p, used, i, |Use(p, used)| - 1); }
    LastEnd(p, used);
    UseFits(p, used);
  }

  lemma UseFits(p: Setup, used: nat)
    requires p.Valid()
    ensures p.Circuits() * used + p.Buckets() * p.perPsi <= p.Ready(used)
  {
    UseWithinBudget(p.thread, p.threads, used, p.circuits, p.perPsi, p.buckets);
    assert p.Circuits() * used == used * p.Circuits() && p.Buckets() * p.perPsi == p.perPsi * p.Buckets();
  }

  // ---------------------------------------------------------------- which waits end

  /** A bucket's wait always ends, as it waits for what it uses. */
  lemma BucketWaitsEnd(p: Setup, waited: nat, used: nat, k: nat)
    requires p.Valid() && p.Circuits() <= k < |Use(p, used)|
    ensures WaitEnds(p, waited, used, p.Ready(used), k)
  {
    UseAt(p, used, k);
    hide Use, Setup.Circuits, Setup.Buckets;
    UseIsDisjoint(p, used, k, k);
  }

  /**
    The exact condition for a thread that waits for one size and uses another, with what the other side makes ready for
    the size used: every wait ends if and only if the thread has no circuits, or the size waited for is there before
    its last circuit.
   */
  lemma WaitsEndIff(p: Setup, waited: nat, used: nat)
    requires p.Valid()
    ensures WaitsEnd(p, waited, used, p.Ready(used)) <==>
            p.Circuits() == 0 || (p.Circuits() - 1) * used + waited <= p.Ready(used)
  {
    hide Use, Setup.Circuits, Setup.Buckets, Setup.Ready;
    var n, total := p.Circuits(), p.Ready(used);
    if n > 0 {
      UseAt(p, used, n - 1);
      assert WaitEnds(p, waited, used, total, n - 1) <==> (n - 1) * used + waited <= total;
    }
    if n == 0 || (n - 1) * used + waited <= total {
      forall k | 0 <= k < |Use(p, used)|
        ensures WaitEnds(p, waited, used, total, k)
      {
        if k < n {
          UseAt(p, used, k);
          MulLe(k, n - 1, used);
        } else {
          BucketWaitsEnd(p, waited, used, k);
        }
      }
    }
  }

  /** A thread that waits for no more than it uses is never stuck: so no sender of circuits ever is. */
  lemma SmallWaitsEnd(p: Setup, waited: nat, used: nat)
    requires p.Valid() && waited <= used
    ensures WaitsEnd(p, waited, used, p.Ready(used))
  {
    WaitsEndIff(p, waited, used);
    UseFits(p, used);
    hide Use, Setup.Circuits, Setup.Buckets, Setup.Ready, WaitsEnd;
    if p.Circuits() > 0 { OneMore(p.Circuits() - 1, used); }
    NonNegative(p.Buckets(), p.perPsi);
  }

  lemma NonNegative(a: nat, b: nat)
    ensures a * b >= 0
  {
  }

  /**
    Both ends of one pair of threads: the circuits' sender, of encoding size `senders`, waits for that size and uses it;
    the receiver waits for its own encoding size `receivers` and uses the sender's. The sender gets through; if the
    receiver does too, both have used the same transfers.
   */
  method UseAtBothEnds(p: Setup, senders: nat, receivers: nat)
    returns (sent: seq<Interval>, stuck: bool, received: seq<Interval>)
    requires p.Valid()
    ensures sent == Use(p, senders)
    ensures !stuck ==> received == sent
    ensures stuck <==> p.Circuits() > 0 && (p.Circuits() - 1) * senders + receivers > p.Ready(senders)
  {
    hide Use, Setup.Circuits, Setup.Buckets, WaitsEnd;
    var total := p.Ready(senders);
    var senderStuck;
    senderStuck, sent := UseTransfers(p, senders, senders, total);
    SmallWaitsEnd(p, senders, senders);
    stuck, received := UseTransfers(p, receivers, senders, total);
    WaitsEndIff(p, receivers, senders);
  }

  lemma OneCircuit(p: Setup, waited: nat, used: nat)
    requires p.Valid() && p.Circuits() == 1
    ensures WaitsEnd(p, waited, used, p.Ready(used)) <==> waited <= p.Ready(used)
  {
    hide Use, Setup.Circuits, Setup.Buckets, Setup.Ready, WaitsEnd;
    WaitsEndIff(p, waited, used);
  }

  lemma OneThread(p: Setup, used: nat)
    requires p == Setup(0, 1, 1, 2, 1)
    ensures p.Valid() && p.Ready(used) == used + 2 && p.Circuits() == 1
  {
  }

  /**
    One circuit, one bucket of two transfers and one thread: an encoding three longer than the sender's waits for ever.
   */
  lemma LongerEncodingSticks(p: Setup, used: nat)
    requires p == Setup(0, 1, 1, 2, 1)
    ensures p.Valid() && WaitsEnd(p, used + 2, used, p.Ready(used)) && !WaitsEnd(p, used + 3, used, p.Ready(used))
  {
    hide *;
    OneThread(p, used);
    OneCircuit(p, used + 2, used);
    OneCircuit(p, used + 3, used);
  }
}
