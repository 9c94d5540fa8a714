/** Adding blocks lane by lane, each 64-bit lane wrapping: how the tweaks count. */
module Lanes {
  import opened Blocks
  import opened Division

  /** The unsigned value of bits, lowest first. */
  function BitsValue(s: seq<bool>): nat {
    if s == [] then 0 else (if s[0] then 1 else 0) + 2 * BitsValue(s[1..])
  }

  /** The block sum: each lane's sum without the carry out of its 64 bits. */
  function AddLanes(x: Block, y: Block): Block {
    FromLanes(BitsValue(x.bits[..64]) + BitsValue(y.bits[..64]), BitsValue(x.bits[64..]) + BitsValue(y.bits[64..]))
  }

  const ONE_BLOCK: Block := FromLanes(1, 0)

  lemma HalfQuotient(n: nat, q: nat)
    requires q > 0
    ensures n / (2 * q) == n / 2 / q
  {
    var h := n / 2;
    assert h == q * (h / q) + h % q;
    QuotientUnique(n, 2 * q, h / q, 2 * (h % q) + n % 2);
  }

  lemma NatBitsSplit(n: nat, k: nat)
    requires k > 0
    ensures NatBits(n, k) == [n % 2 == 1] + NatBits(n / 2, k - 1)
  {
    assert n / Pow2(0) == n;
    forall i | 0 < i < k
      ensures NatBits(n, k)[i] == NatBits(n / 2, k - 1)[i - 1]
    {
      HalfQuotient(n, Pow2(i - 1));
    }
  }

  lemma DoublePower(t: int, k: nat)
    requires k > 0
    ensures t * Pow2(k) == 2 * (t * Pow2(k - 1))
  {
  }

  lemma {:induction false} ValueOfNatBits(n: nat, k: nat) returns (t: nat)
    ensures n == BitsValue(NatBits(n, k)) + t * Pow2(k)
  {
    hide NatBits, Pow2;
    if k == 0 {
      t := n;
      assert Pow2(0) == 1 by { PowerZero(); }
    } else {
      t := ValueOfNatBits(n / 2, k - 1);
      NatBitsSplit(n, k);
      DoublePower(t, k);
      ValueSplit(n % 2 == 1, NatBits(n / 2, k - 1));
    }
  }

  lemma PowerZero()
    ensures Pow2(0) == 1
  {
  }

  lemma ValueSplit(b: bool, s: seq<bool>)
    ensures BitsValue([b] + s) == (if b then 1 else 0) + 2 * BitsValue(s)
  {
    assert ([b] + s)[1..] == s;
  }

  /** Only the residue modulo the k-bit range matters. */
  lemma {:induction false} NatBitsWrap(m: nat, t: nat, k: nat)
    ensures NatBits(m + t * Pow2(k), k) == NatBits(m, k)
  {
    hide NatBits, Pow2;
    if k == 0 {
      NoBits(m + t * Pow2(k), m);
    } else {
      var n := m + t * Pow2(k);
      DoublePower(t, k);
      assert n / 2 == m / 2 + t * Pow2(k - 1) && n % 2 == m % 2;
      NatBitsSplit(n, k);
      NatBitsSplit(m, k);
      NatBitsWrap(m / 2, t, k - 1);
    }
  }

  lemma NoBits(m: nat, n: nat)
    ensures NatBits(m, 0) == NatBits(n, 0)
  {
  }

  lemma Distribute(t: int, u: int, p: int)
    ensures (t + u) * p == t * p + u * p
  {
  }

  lemma NatBitsSum(m: nat, n: nat, k: nat)
    ensures NatBits(BitsValue(NatBits(m, k)) + BitsValue(NatBits(n, k)), k) == NatBits(m + n, k)
  {
    hide *;
    var t := ValueOfNatBits(m, k);
    var u := ValueOfNatBits(n, k);
    var low := BitsValue(NatBits(m, k)) + BitsValue(NatBits(n, k));
    Distribute(t, u, Pow2(k));
    NatBitsWrap(low, t + u, k);
  }

  /** Lanes add as numbers, modulo 2 to the 64. */
  lemma AddedLanes(m0: nat, m1: nat, n0: nat, n1: nat)
    ensures AddLanes(FromLanes(m0, m1), FromLanes(n0, n1)) == FromLanes(m0 + n0, m1 + n1)
  {
    hide NatBits, BitsValue, Pow2;
    NatBitsSum(m0, n0, 64);
    NatBitsSum(m1, n1, 64);
    var x, y := FromLanes(m0, m1).bits, FromLanes(n0, n1).bits;
    assert x[..64] == NatBits(m0, 64) && x[64..] == NatBits(m1, 64);
    assert y[..64] == NatBits(n0, 64) && y[64..] == NatBits(n1, 64);
  }

  /** Adding one block counts the low lane up by one and leaves the high lane. */
  lemma CountUp(low: nat, high: nat)
    ensures AddLanes(FromLanes(low, high), ONE_BLOCK) == FromLanes(low + 1, high)
  {
    AddedLanes(low, high, 1, 0);
  }

  lemma NatBitsPrefix(n: nat, j: nat, k: nat)
    requires j <= k
    ensures NatBits(n, k)[..j] == NatBits(n, j)
  {
  }

  /** Shifting the lanes doubles them, each modulo 2 to the 64. */
  lemma ShiftDoubles(low: nat, high: nat)
    ensures FromLanes(low, high).ShiftLanes() == FromLanes(2 * low, 2 * high)
  {
    NatBitsSplit(2 * low, 64);
    NatBitsSplit(2 * high, 64);
    NatBitsPrefix(low, 63, 64);
    NatBitsPrefix(high, 63, 64);
    hide NatBits;
    var x, y := FromLanes(low, high).ShiftLanes().bits, FromLanes(2 * low, 2 * high).bits;
    forall i | 0 <= i < 128
      ensures x[i] == y[i]
    {
      if 0 < i < 64 {
        assert NatBits(low, 64)[..63][i - 1] == NatBits(low, 63)[i - 1];
      } else if i > 64 {
        assert NatBits(high, 64)[..63][i - 65] == NatBits(high, 63)[i - 65];
      }
    }
    assert x == y;
  }

  lemma {:induction false} SmallValue(n: nat, k: nat)
    requires n < Pow2(k)
    ensures BitsValue(NatBits(n, k)) == n
  {
    hide NatBits;
    var t := ValueOfNatBits(n, k);
    NotTwice(n - BitsValue(NatBits(n, k)), t, Pow2(k));
  }

  lemma NotTwice(n: int, t: nat, p: nat)
    requires n == t * p && n < p
    ensures n <= 0
  {
    assert t > 0 ==> t * p >= p;
  }

  /** Lanes below 2 to the 64 are read back. */
  lemma LanesDiffer(a: nat, b: nat, c: nat, d: nat)
    requires a < Pow2(64) && b < Pow2(64) && c < Pow2(64) && d < Pow2(64)
    ensures FromLanes(a, b) == FromLanes(c, d) <==> a == c && b == d
  {
    hide NatBits, Pow2, BitsValue;
    SmallValue(a, 64);
    SmallValue(b, 64);
    SmallValue(c, 64);
    SmallValue(d, 64);
    var x, y := FromLanes(a, b).bits, FromLanes(c, d).bits;
    assert x[..64] == NatBits(a, 64) && x[64..] == NatBits(b, 64);
    assert y[..64] == NatBits(c, 64) && y[64..] == NatBits(d, 64);
  }
}
