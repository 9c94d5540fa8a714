/** How circuits, buckets and transfers are divided: cut and choose, threads, and the transfer budget. */
module Allocation {
  import opened Division

  // ---------------------------------------------------------------- cut and choose

  ghost function Indices(n: nat): (m: multiset<nat>)
    ensures forall i: nat :: m[i] == if i < n then 1 else 0
  {
    if n == 0 then multiset{} else Indices(n - 1) + multiset{n - 1}
  }

  /** The two lists together hold every index below n once. */
  ghost predicate Partition(s: seq<nat>, t: seq<nat>, n: nat) {
    multiset(s) + multiset(t) == Indices(n)
  }

  lemma AppendNext(s: seq<nat>, t: seq<nat>, n: nat)
    requires Partition(s, t, n)
    ensures Partition(s, t + [n], n + 1)
  {
  }

  lemma SwapKeeps(s: seq<nat>, t: seq<nat>, i: nat, j: nat, n: nat)
    requires i < |s| && j < |t| && Partition(s, t, n)
    ensures Partition(s[i := t[j]], t[j := s[i]], n)
  {
  }

  lemma {:induction false} CountingIsAll(s: seq<nat>)
    requires forall i :: 0 <= i < |s| ==> s[i] == i
    ensures multiset(s) == Indices(|s|)
  {
    if s != [] {
      var front: seq<nat> := s[..|s| - 1];
      CountingIsAll(front);
      assert s == front + [|s| - 1];
    } else {
      assert multiset(s) == multiset{};
    }
  }

  /** The place that index i draws, by the number that is drawn for it. */
  function Draw(random: nat -> nat, subsetSize: nat, i: nat): (r: nat)
    requires 0 < i && subsetSize <= i
    ensures r < i
  {
    random(i - subsetSize) % i
  }

  /** Among the indices below n, x is the last to draw place p, or p itself if none has. */
  ghost predicate IsLast(random: nat -> nat, subsetSize: nat, n: nat, p: nat, x: nat)
    requires p < subsetSize <= n
  {
    && (x == p || (subsetSize <= x < n && Draw(random, subsetSize, x) == p))
    && forall i: nat :: subsetSize <= i < n && (x == p || i > x) ==> Draw(random, subsetSize, i) != p
  }

  /** Index i stays out of the subset, or it drives out the index that had its place. */
  ghost predicate IsDrivenOut(random: nat -> nat, subsetSize: nat, i: nat, x: nat)
    requires 0 < subsetSize <= i
  {
    var p := Draw(random, subsetSize, i);
    if p < subsetSize then IsLast(random, subsetSize, i, p, x) else x == i
  }

  /**
    GetRandSubset, for every stream of random numbers: the two results together hold each index below setSize exactly
    once. Each place of the subset ends with the last index to draw it, and the j-th of the others is the index that the
    j-th draw drives out.
   */
  method GetRandSubset(subsetSize: nat, setSize: nat, random: nat -> nat)
    returns (subset: array<nat>, difference: array<nat>)
    requires subsetSize <= setSize
    ensures fresh(subset) && fresh(difference) && subset.Length == subsetSize
    ensures difference.Length == setSize - subsetSize
    ensures Partition(subset[..], difference[..], setSize)
    ensures forall p: nat :: p < subsetSize ==> IsLast(random, subsetSize, setSize, p, subset[p])
    ensures forall j: nat :: j < setSize - subsetSize ==>
      if subsetSize > 0 then IsDrivenOut(random, subsetSize, subsetSize + j, difference[j]) else difference[j] == j
  {
    hide Partition, Indices, IsLast, Draw;
    subset, difference := new nat[subsetSize], new nat[setSize - subsetSize];
    Fill(subset);
    StartPartition(subset[..]);
    if subsetSize > 0 {
      var i, j := subsetSize, 0;
      assert difference[..0] == [];
      forall p: nat | p < subsetSize
        ensures IsLast(random, subsetSize, subsetSize, p, subset[p])
      {
        NoneDrawn(random, subsetSize, p);
      }
      while i < setSize
        modifies subset, difference
        invariant subsetSize <= i <= setSize && j == i - subsetSize
        invariant Partition(subset[..], difference[..j], i)
        invariant forall p: nat :: p < subsetSize ==> IsLast(random, subsetSize, i, p, subset[p])
        invariant forall k: nat :: k < j ==> IsDrivenOut(random, subsetSize, subsetSize + k, difference[k])
      {
        ghost var before := subset[..];
        DrawIs(random, subsetSize, i);
        var randIdx := random(j) % i;
        ghost var out := difference[..j];
        Place(subset, difference, i, j, randIdx);
        forall p: nat | p < subsetSize
          ensures IsLast(random, subsetSize, i + 1, p, subset[p])
        {
          LastMoves(random, subsetSize, i, p, before[p]);
        }
        forall k: nat | k < j
          ensures difference[k] == out[k]
        {
          assert difference[..j][k] == out[k];
        }
        i, j := i + 1, j + 1;
      }
      assert difference[..j] == difference[..];
    } else {
      Fill(difference);
      assert subset[..] == [];
      AllInDifference(difference[..]);
    }
  }

  lemma NoneDrawn(random: nat -> nat, subsetSize: nat, p: nat)
    requires p < subsetSize
    ensures IsLast(random, subsetSize, subsetSize, p, p)
  {
  }

  lemma DrawIs(random: nat -> nat, subsetSize: nat, i: nat)
    requires 0 < subsetSize <= i
    ensures Draw(random, subsetSize, i) == random(i - subsetSize) % i
  {
  }

  /** The next index is the last to draw its place, and the other places keep theirs. */
  lemma LastMoves(random: nat -> nat, subsetSize: nat, i: nat, p: nat, x: nat)
    requires p < subsetSize <= i && IsLast(random, subsetSize, i, p, x)
    ensures IsLast(random, subsetSize, i + 1, p, if Draw(random, subsetSize, i) == p then i else x)
  {
  }

  /** Exactly the indices that drew a place of the subset which no later index drew, or whose own place none drew. */
  lemma InSubsetIff(random: nat -> nat, subsetSize: nat, setSize: nat, subset: seq<nat>, i: nat)
    requires 0 < subsetSize == |subset| <= setSize && i < setSize
    requires forall p: nat :: p < subsetSize ==> IsLast(random, subsetSize, setSize, p, subset[p])
    ensures i in subset <==>
            if i < subsetSize then forall k: nat :: subsetSize <= k < setSize ==> Draw(random, subsetSize, k) != i
            else Draw(random, subsetSize, i) < subsetSize &&
                 forall k: nat :: i < k < setSize ==> Draw(random, subsetSize, k) != Draw(random, subsetSize, i)
  {
    hide Draw;
    if i < subsetSize {
      assert IsLast(random, subsetSize, setSize, i, subset[i]);
    } else if Draw(random, subsetSize, i) < subsetSize {
      var p: nat := Draw(random, subsetSize, i);
      assert IsLast(random, subsetSize, setSize, p, subset[p]);
    }
    if i in subset {
      var p: nat :| p < |subset| && subset[p] == i;
      assert IsLast(random, subsetSize, setSize, p, subset[p]);
    }
  }

  /**
    Index i goes to the end of the difference, or takes a random place of the subset, whose index goes there instead.
   */
  method Place(subset: array<nat>, difference: array<nat>, i: nat, j: nat, randIdx: nat)
    requires subset != difference && j < difference.Length && Partition(subset[..], difference[..j], i)
    modifies subset, difference
    ensures Partition(subset[..], difference[..j + 1], i + 1) && difference[..j] == old(difference[..j])
    ensures forall p :: 0 <= p < subset.Length ==> subset[p] == if p == randIdx then i else old(subset[p])
    ensures difference[j] == if randIdx < subset.Length then old(subset[randIdx]) else i
  {
    hide Partition, Indices;
    ghost var s, t := subset[..], difference[..j] + [i];
    AppendNext(s, difference[..j], i);
    difference[j] := i;
    assert difference[..j + 1] == t;
    if randIdx < subset.Length {
      SwapKeeps(s, t, randIdx, j, i + 1);
      subset[randIdx], difference[j] := difference[j], subset[randIdx];
      assert subset[..] == s[randIdx := t[j]] && difference[..j + 1] == t[j := s[randIdx]];
    }
  }

  lemma StartPartition(s: seq<nat>)
    requires forall i :: 0 <= i < |s| ==> s[i] == i
    ensures Partition(s, [], |s|)
  {
    CountingIsAll(s);
    var none: seq<nat> := [];
    assert multiset(none) == multiset{};
  }

  lemma AllInDifference(t: seq<nat>)
    requires forall i :: 0 <= i < |t| ==> t[i] == i
    ensures Partition([], t, |t|)
  {
    CountingIsAll(t);
    var none: seq<nat> := [];
    assert multiset(none) == multiset{};
  }

  /** a[i] = i. */
  method Fill(a: array<nat>)
    modifies a
    ensures forall i :: 0 <= i < a.Length ==> a[i] == i
  {
    for i := 0 to a.Length
      invariant forall k :: 0 <= k < i ==> a[k] == k
    {
      a[i] := i;
    }
  }

  // ---------------------------------------------------------------- circuit ranges per thread

  /** The first circuit of thread i, of n threads for c circuits. */
  function RangeStart(i: nat, c: nat, n: nat): nat
    requires n > 0
  {
    i * c / n
  }

  lemma DivMono(a: nat, b: nat, n: nat)
    requires n > 0 && a <= b
    ensures a / n <= b / n
  {
    var q, r := a / n, b / n;
    assert a == n * q + a % n && b == n * r + b % n;
    assert n * (q - r) == n * q - n * r;
    Multiples(q - r, n);
  }

  lemma DivSum(a: nat, b: nat, n: nat)
    requires n > 0
    ensures a / n + b / n <= (a + b) / n <= a / n + b / n + 1
  {
    var q, r, s := a / n, b / n, (a + b) / n;
    assert a == n * q + a % n && b == n * r + b % n && a + b == n * s + (a + b) % n;
    SumOfQuotients(q, r, s, n, a % n, b % n, (a + b) % n);
  }

  lemma SumOfQuotients(q: int, r: int, s: int, n: nat, x: nat, y: nat, z: nat)
    requires x < n && y < n && z < n && n * q + x + n * r + y == n * s + z
    ensures q + r <= s <= q + r + 1
  {
    assert n * (s - (q + r)) == n * s - n * q - n * r;
    Multiples(s - (q + r), n);
    Multiples(s - (q + r) - 2, n);
    assert n * (s - (q + r) - 2) == n * (s - (q + r)) - 2 * n;
  }

  /** The threads' ranges follow each other from 0 to c. */
  lemma RangesPartition(c: nat, n: nat, i: nat)
    requires n > 0 && i < n
    ensures RangeStart(0, c, n) == 0 && RangeStart(n, c, n) == c
    ensures RangeStart(i, c, n) <= RangeStart(i + 1, c, n) <= c
  {
    MulDiv(c, n);
    MulLe(i, i + 1, c);
    MulLe(i + 1, n, c);
    DivMono(i * c, (i + 1) * c, n);
    DivMono((i + 1) * c, n * c, n);
  }

  lemma MulLe(a: nat, b: nat, c: nat)
    requires a <= b
    ensures 0 <= a * c <= b * c
  {
    assert (b - a) * c >= 0;
    assert b * c == a * c + (b - a) * c;
  }

  lemma MulDiv(c: nat, n: nat)
    requires n > 0
    ensures n * c / n == c
  {
    var q := n * c / n;
    assert n * c == n * q + (n * c) % n;
    assert n * (c - q) == (n * c) % n;
    Multiples(c - q, n);
  }

  lemma {:induction false} RangeStartsAscend(c: nat, n: nat, i: nat, j: nat)
    requires n > 0 && i <= j <= n
    ensures RangeStart(i, c, n) <= RangeStart(j, c, n)
  {
    if i < j {
      RangeStartsAscend(c, n, i, j - 1);
      RangesPartition(c, n, j - 1);
    }
  }

  /** Different threads never share a circuit. */
  lemma RangesDisjoint(c: nat, n: nat, i: nat, j: nat, circuit: nat)
    requires n > 0 && i < j < n
    requires RangeStart(i, c, n) <= circuit < RangeStart(i + 1, c, n)
    ensures !(RangeStart(j, c, n) <= circuit < RangeStart(j + 1, c, n))
  {
    RangeStartsAscend(c, n, i + 1, j);
  }

  /** Every circuit has its thread. */
  lemma {:induction false} RangeCovers(c: nat, n: nat, m: nat, circuit: nat) returns (i: nat)
    requires 0 < m <= n && circuit < RangeStart(m, c, n)
    ensures i < m && RangeStart(i, c, n) <= circuit < RangeStart(i + 1, c, n)
  {
    if RangeStart(m - 1, c, n) <= circuit {
      i := m - 1;
    } else {
      assert m > 1 by { RangesPartition(c, n, 0); }
      i := RangeCovers(c, n, m - 1, circuit);
    }
  }

  // ---------------------------------------------------------------- buckets

  /**
    The bucketing loop of one thread: it moves an iterator over the evaluation set. Bucket b gets
    exactly the positions from b * size on, whatever the number of threads.
   */
  method AssignBuckets(thread: nat, threads: nat, size: nat, buckets: nat, evalSize: nat)
    returns (starts: map<nat, nat>)
    requires thread < threads && evalSize == buckets * size
    ensures forall b: nat :: b in starts <==> b < buckets && b % threads == thread
    ensures forall b :: b in starts ==> starts[b] == b * size && b * size + size <= evalSize
  {
    starts := map[];
    var numSkip := (threads - 1) * size;
    var evalIter, bucket := thread * size, thread;
    assert thread % threads == thread;
    while bucket < buckets
      invariant evalIter == bucket * size || bucket >= buckets
      invariant bucket % threads == thread && bucket < buckets + threads
      invariant forall b: nat :: b in starts <==> b < buckets && b < bucket && b % threads == thread
      invariant forall b :: b in starts ==> starts[b] == b * size && b * size + size <= evalSize
      decreases buckets - bucket
    {
      InRange(bucket, size, buckets);
      starts := starts[bucket := evalIter];
      evalIter := evalIter + size;
      if bucket + threads < buckets { evalIter := evalIter + numSkip; }
      NextOfThread(bucket, threads, thread);
      SkipOthers(bucket, threads, size);
      bucket := bucket + threads;
    }
  }

  lemma InRange(b: nat, size: nat, buckets: nat)
    requires b < buckets
    ensures b * size + size <= buckets * size
  {
    assert (buckets - b - 1) * size >= 0;
    assert buckets * size == b * size + size + (buckets - b - 1) * size;
  }

  lemma SkipOthers(b: nat, threads: nat, size: nat)
    requires threads > 0
    ensures (b + threads) * size == b * size + size + (threads - 1) * size
  {
  }

  /** The next number with the same remainder is one full round further. */
  lemma NextOfThread(b: nat, threads: nat, thread: nat)
    requires threads > 0 && b % threads == thread
    ensures (b + threads) % threads == thread
    ensures forall k: nat :: b < k < b + threads ==> k % threads != thread
  {
    var q := b / threads;
    assert b == threads * q + thread;
    QuotientUnique(b + threads, threads, q + 1, thread);
    forall k: nat | b < k < b + threads
      ensures k % threads != thread
    {
      if thread + (k - b) < threads {
        QuotientUnique(k, threads, q, thread + (k - b));
      } else {
        assert threads * (q + 1) == threads * q + threads;
        QuotientUnique(k, threads, q + 1, thread + (k - b) - threads);
      }
    }
  }

  // ---------------------------------------------------------------- transfer budget

  /** The transfers made ready for each thread: two terms, each rounded down as a whole. */
  function Budget(encoding: nat, circuits: nat, perPsi: nat, buckets: nat, threads: nat): nat
    requires threads > 0
  {
    Share(encoding, circuits + threads - 1, threads) + Share(perPsi, buckets + threads - 1, threads)
  }

  function Share(k: nat, x: nat, threads: nat): nat
    requires threads > 0
  {
    k * x / threads
  }

  /** How many buckets a thread has. */
  function BucketsOf(thread: nat, threads: nat, buckets: nat): nat
    requires thread < threads
  {
    (buckets + threads - 1 - thread) / threads
  }

  lemma RoundedUp(k: nat, x: nat, n: nat, used: nat)
    requires n > 0 && used <= x / n
    ensures k * used <= Share(k, x, n)
  {
    var q := x / n;
    assert x == n * q + x % n;
    assert k * x == n * (k * q) + k * (x % n);
    assert k * (x % n) >= 0 && k * used <= k * q by {
      assert k * (q - used) >= 0;
      assert k * q == k * used + k * (q - used);
    }
    MulDiv(k * q, n);
    DivMono(n * (k * q), k * x, n);
  }

  /** A thread's circuits are at most the circuits per thread, rounded up. */
  lemma RangeSize(i: nat, c: nat, n: nat)
    requires i < n
    ensures RangeStart(i + 1, c, n) - RangeStart(i, c, n) <= (c + n - 1) / n
  {
    assert (i + 1) * c == i * c + c;
    DivSum(i * c, c, n);
    var q := c / n;
    assert c == n * q + c % n;
    if c % n == 0 {
      assert i * c == n * (i * q) by { assert c == n * q; }
      assert (i + 1) * c == n * ((i + 1) * q);
      MulDiv(i * q, n);
      MulDiv((i + 1) * q, n);
      assert (i + 1) * q == i * q + q;
      DivMono(c, c + n - 1, n);
    } else {
      assert n * (q + 1) == n * q + n;
      MulDiv(q + 1, n);
      DivMono(n * (q + 1), c + n - 1, n);
    }
  }

  /** What a thread uses never exceeds what was made ready for it. */
  lemma UseWithinBudget(thread: nat, threads: nat, encoding: nat, circuits: nat, perPsi: nat, buckets: nat)
    requires thread < threads
    ensures encoding * (RangeStart(thread + 1, circuits, threads) - RangeStart(thread, circuits, threads)) +
            perPsi * BucketsOf(thread, threads, buckets) <= Budget(encoding, circuits, perPsi, buckets, threads)
  {
    RangesPartition(circuits, threads, thread);
    RangeSize(thread, circuits, threads);
    DivMono(buckets + threads - 1 - thread, buckets + threads - 1, threads);
    RoundedUp(encoding, circuits + threads - 1, threads,
              RangeStart(thread + 1, circuits, threads) - RangeStart(thread, circuits, threads));
    RoundedUp(perPsi, buckets + threads - 1, threads, BucketsOf(thread, threads, buckets));
  }
}
