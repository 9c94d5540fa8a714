/** The transpose's table of mask words, and which of their bits are set. */
module TransposeMasks {
  import opened Blocks
  import opened Division
  import opened Lanes

  /** TRANSPOSE_MASKS128: per pass the word for the high lane, then the one for the low lane. */
  const MASKS: seq<(nat, nat)> := [
    (0x0000000000000000, 0xFFFFFFFFFFFFFFFF),
    (0x00000000FFFFFFFF, 0x00000000FFFFFFFF),
    (0x0000FFFF0000FFFF, 0x0000FFFF0000FFFF),
    (0x00FF00FF00FF00FF, 0x00FF00FF00FF00FF),
    (0x0F0F0F0F0F0F0F0F, 0x0F0F0F0F0F0F0F0F),
    (0x3333333333333333, 0x3333333333333333),
    (0x5555555555555555, 0x5555555555555555)
  ]

  lemma {:induction false} PowerSum(m: nat, n: nat)
    ensures Pow2(m + n) == Pow2(m) * Pow2(n)
  {
    if m > 0 {
      PowerSum(m - 1, n);
      Regroup(Pow2(m - 1), Pow2(n));
    }
  }

  lemma Regroup(a: nat, b: nat)
    ensures 2 * (a * b) == (2 * a) * b
  {
  }

  lemma SquarePower(m: nat, p: nat)
    requires Pow2(m) == p
    ensures Pow2(m + m) == p * p
  {
    hide Pow2;
    PowerSum(m, m);
  }

  lemma FirstPower()
    ensures Pow2(1) == 2
  {
    assert Pow2(0) == 1;
  }

  lemma Powers()
    ensures Pow2(1) == 2 && Pow2(2) == 4 && Pow2(4) == 16 && Pow2(8) == 256 && Pow2(16) == 65536
    ensures Pow2(32) == 4294967296 && Pow2(64) == 18446744073709551616
  {
    hide Pow2;
    FirstPower();
    SquarePower(1, 2);
    SquarePower(2, 4);
    SquarePower(4, 16);
    SquarePower(8, 256);
    SquarePower(16, 65536);
    SquarePower(32, 4294967296);
  }

  /** Low bits first, the bits of a number put together from two are theirs. */
  lemma {:induction false} JoinBits(a: nat, b: nat, m: nat, n: nat)
    requires a < Pow2(m)
    ensures NatBits(a + Pow2(m) * b, m + n) == NatBits(a, m) + NatBits(b, n)
  {
    hide NatBits;
    if m == 0 {
      NoBitsOf(a);
      assert a + Pow2(m) * b == b;
    } else {
      var c := a + Pow2(m) * b;
      DoublePower(b, m);
      assert c / 2 == a / 2 + Pow2(m - 1) * b && c % 2 == a % 2;
      NatBitsSplit(c, m + n);
      NatBitsSplit(a, m);
      JoinBits(a / 2, b, m - 1, n);
    }
  }

  lemma NoBitsOf(a: nat)
    ensures NatBits(a, 0) == []
  {
  }

  lemma {:induction false} OnesAndZeros(k: nat)
    ensures NatBits(Pow2(k) - 1, k) == seq(k, _ => true) && NatBits(0, k) == seq(k, _ => false)
  {
    if k > 0 {
      OnesAndZeros(k - 1);
      NatBitsSplit(Pow2(k) - 1, k);
      NatBitsSplit(0, k);
      assert (Pow2(k) - 1) % 2 == 1 && (Pow2(k) - 1) / 2 == Pow2(k - 1) - 1;
      assert [true] + seq(k - 1, _ => true) == seq(k, _ => true);
      assert [false] + seq(k - 1, _ => false) == seq(k, _ => false);
    }
  }

  /** k times w ones followed by w zeros. */
  function Pattern(w: nat, k: nat): nat {
    if k == 0 then 0 else (Pow2(w) - 1) + Pow2(2 * w) * Pattern(w, k - 1)
  }

  lemma SquareGrows(p: nat)
    requires p >= 1
    ensures p * p >= p
  {
    assert p * p == p + p * (p - 1);
  }

  lemma SmallOnes(w: nat)
    ensures Pow2(2 * w) == Pow2(w) * Pow2(w) && Pow2(w) - 1 < Pow2(2 * w)
  {
    hide Pow2;
    PowerSum(w, w);
    assert w + w == 2 * w;
    SquareGrows(Pow2(w));
  }

  lemma PeriodBits(w: nat)
    ensures NatBits(Pow2(w) - 1, 2 * w) == seq(w, _ => true) + seq(w, _ => false)
  {
    JoinBits(Pow2(w) - 1, 0, w, w);
    OnesAndZeros(w);
  }

  /** Position i of n, all of the pattern's, holds a one exactly if i div w is even. */
  lemma {:induction false} PatternBit(w: nat, k: nat, n: nat, i: nat)
    requires w > 0 && n == 2 * w * k && i < n
    ensures NatBits(Pattern(w, k), n)[i] == ((i / w) % 2 == 0)
    decreases k
  {
    hide NatBits, Pow2, Pattern;
    LastPeriod(w, k, n);
    var rest := n - 2 * w;
    if i < 2 * w {
      FirstPeriod(w, k, n, i);
    } else {
      PatternBit(w, k - 1, rest, i - 2 * w);
      LaterPeriod(i, w);
      PatternJoins(w, k, n);
      assert NatBits(Pattern(w, k), n)[i] == NatBits(Pattern(w, k - 1), rest)[i - 2 * w];
    }
  }

  lemma LastPeriod(w: nat, k: nat, n: nat)
    requires w > 0 && n == 2 * w * k && n > 0
    ensures k > 0 && n >= 2 * w && n - 2 * w == 2 * w * (k - 1)
  {
    LastTerm(2 * w, k);
  }

  lemma LastTerm(u: nat, k: nat)
    ensures k == 0 ==> u * k == 0
    ensures k > 0 ==> u * k == u * (k - 1) + u && u * (k - 1) >= 0
  {
  }

  lemma PatternJoins(w: nat, k: nat, n: nat)
    requires w > 0 && k > 0 && n >= 2 * w
    ensures NatBits(Pattern(w, k), n) == NatBits(Pow2(w) - 1, 2 * w) + NatBits(Pattern(w, k - 1), n - 2 * w)
  {
    hide NatBits, Pow2;
    SmallOnes(w);
    JoinBits(Pow2(w) - 1, Pattern(w, k - 1), 2 * w, n - 2 * w);
  }

  lemma FirstPeriod(w: nat, k: nat, n: nat, i: nat)
    requires w > 0 && k > 0 && n >= 2 * w && i < 2 * w
    ensures NatBits(Pattern(w, k), n)[i] == ((i / w) % 2 == 0)
  {
    hide NatBits, Pow2, Pattern;
    PatternJoins(w, k, n);
    PeriodBits(w);
    if i < w { QuotientUnique(i, w, 0, i); } else { QuotientUnique(i, w, 1, i - w); }
  }

  lemma LaterPeriod(i: nat, w: nat)
    requires w > 0 && i >= 2 * w
    ensures i / w == (i - 2 * w) / w + 2
  {
    var j := i - 2 * w;
    assert j == w * (j / w) + j % w;
    assert w * (j / w + 2) == w * (j / w) + 2 * w;
    QuotientUnique(i, w, j / w + 2, j % w);
  }

  lemma {:induction false} PatternClosed(w: nat, k: nat)
    ensures 2 * w * k >= 0 && Pattern(w, k) * (Pow2(w) + 1) == Pow2(2 * w * k) - 1
  {
    if k == 0 {
      assert 2 * w * k == 0;
    } else {
      var rest := 2 * w * (k - 1);
      assert 2 * w * k == 2 * w + rest;
      PatternClosed(w, k - 1);
      SmallOnes(w);
      PowerSum(2 * w, rest);
      ClosedStep(Pow2(w), Pow2(2 * w), Pattern(w, k - 1), Pow2(rest));
    }
  }

  lemma ClosedStep(p: nat, pp: nat, x: nat, r: nat)
    requires pp == p * p && x * (p + 1) == r - 1
    ensures ((p - 1) + pp * x) * (p + 1) == pp * r - 1
  {
    assert (p - 1) * (p + 1) == pp - 1;
    assert pp * x * (p + 1) == pp * (x * (p + 1));
    assert pp * (r - 1) == pp * r - pp;
  }

  /** A word that divides evenly is the pattern. */
  lemma IsPattern(w: nat, k: nat, word: nat)
    requires 2 * w * k == 64 && word * (Pow2(w) + 1) == Pow2(64) - 1
    ensures Pattern(w, k) == word
  {
    PatternClosed(w, k);
    Cancels(Pattern(w, k), word, Pow2(w) + 1);
  }

  lemma Cancels(x: nat, y: nat, d: nat)
    requires d > 0 && x * d == y * d
    ensures x == y
  {
    assert (x - y) * d == 0;
    Multiples(x - y, d);
  }

  /** Bit p of the words for the pass of width w below 64. */
  lemma NarrowMask(i: nat, w: nat, k: nat, p: nat)
    requires 1 <= i < 7 && 2 * w * k == 64 && w > 0 && p < 64
    requires w == if i == 1 then 32 else if i == 2 then 16 else if i == 3 then 8 else if i == 4 then 4
      else if i == 5 then 2 else 1
    ensures NatBits(MASKS[i].0, 64)[p] == NatBits(MASKS[i].1, 64)[p] == ((p / w) % 2 == 0)
  {
    Powers();
    hide Pow2, Pattern, NatBits;
    IsPattern(w, k, MASKS[i].0);
    PatternBit(w, k, 64, p);
  }

  /** The first pass keeps the low lane and clears the high one. */
  lemma WideMask(p: nat)
    requires p < 64
    ensures NatBits(MASKS[0].1, 64)[p] && !NatBits(MASKS[0].0, 64)[p]
  {
    Powers();
    OnesAndZeros(64);
    hide Pow2, NatBits;
  }
}
