/** The in-place 128 x 128 bit transpose: seven passes, each swapping one bit of the row and column indices. */
module Transpose {
  import opened Division
  import opened Blocks
  import opened TransposeMasks

  /** A 64-bit half of a block. */
  type Lane = x: seq<bool> | |x| == 64 witness Zeros(64)

  function Low(b: Block): Lane {
    b.bits[..64]
  }

  function High(b: Block): Lane {
    b.bits[64..]
  }

  function Joined(low: seq<bool>, high: seq<bool>): Block
    requires |low| == |high| == 64
  {
    Block(low + high)
  }

  function LaneAnd(x: Lane, y: Lane): (z: Lane)
    ensures forall i :: 0 <= i < 64 ==> z[i] == (x[i] && y[i])
  {
    seq(64, i requires 0 <= i < 64 => x[i] && y[i])
  }

  function LaneNot(x: Lane): (z: Lane)
    ensures forall i :: 0 <= i < 64 ==> z[i] == !x[i]
  {
    seq(64, i requires 0 <= i < 64 => !x[i])
  }

  function LaneXor(x: Lane, y: Lane): (z: Lane)
    ensures forall i :: 0 <= i < 64 ==> z[i] == (x[i] != y[i])
  {
    XorBits(x, y)
  }

  function ShiftLeft(x: Lane, n: nat): (z: Lane)
    ensures forall i :: 0 <= i < 64 ==> z[i] == (i >= n && x[i - n])
  {
    seq(64, i requires 0 <= i < 64 => i >= n && x[i - n])
  }

  function ShiftRight(x: Lane, n: nat): (z: Lane)
    ensures forall i :: 0 <= i < 64 ==> z[i] == (i + n < 64 && x[i + n])
  {
    seq(64, i requires 0 <= i < 64 => i + n < 64 && x[i + n])
  }

  predicate IsWidth(w: nat) {
    w == 1 || w == 2 || w == 4 || w == 8 || w == 16 || w == 32 || w == 64
  }

  /** The bit of index i that the pass of this width looks at. */
  predicate OddAt(w: nat, i: nat)
    requires IsWidth(w)
  {
    (i / w) % 2 == 1
  }

  /** The mask of a pass for a lane: the positions whose index bit is 0. */
  function Mask(w: nat, lane: nat): (z: Lane)
    requires IsWidth(w)
    ensures forall i :: 0 <= i < 64 ==> z[i] == !OddAt(w, 64 * lane + i)
  {
    seq(64, i requires 0 <= i < 64 => !OddAt(w, 64 * lane + i))
  }

  lemma DivAdd(x: nat, w: nat, m: nat)
    requires w > 0
    ensures (m * w + x) / w == m + x / w && (m * w + x) % w == x % w
  {
    assert m * w + x == (m + x / w) * w + x % w;
    QuotientUnique(m * w + x, w, m + x / w, x % w);
  }

  /** The number of rows in pairs of this width; 64 and 128 are even multiples of the widths below them. */
  function Halves(w: nat): (m: nat)
    requires IsWidth(w)
    ensures m * w == 64 && (w < 64 ==> m % 2 == 0)
  {
    64 / w
  }

  lemma Parity(w: nat, i: nat)
    requires IsWidth(w)
    ensures OddAt(w, i + w) == !OddAt(w, i)
    ensures OddAt(w, i) ==> i >= w
    ensures w < 64 ==> OddAt(w, 64 + i) == OddAt(w, i)
  {
    DivAdd(i, w, 1);
    var m := Halves(w);
    DivAdd(i, w, m);
    if i < w { QuotientUnique(i, w, 0, i); }
    hide IsWidth;
  }

  /** An even position has its partner inside the same range. */
  lemma EvenHasPartner(w: nat, i: nat, n: nat)
    requires IsWidth(w) && i < n && (n == 128 || (n == 64 && w < 64)) && !OddAt(w, i)
    ensures i + w < n
  {
    var m := if n == 64 then Halves(w) else 2 * Halves(w);
    WidthPositive(w);
    WholePairs(w, n);
    hide *;
    OddDigit(w, i);
    EvenFits(i / w, i % w, m, w);
    assert i == w * (i / w) + i % w;
  }

  lemma WholePairs(w: nat, n: nat)
    requires IsWidth(w) && (n == 128 || (n == 64 && w < 64))
    ensures var m := if n == 64 then Halves(w) else 2 * Halves(w);
            m * w == n && m % 2 == 0
  {
    hide IsWidth, Halves;
    var h := Halves(w);
    assert 2 * h * w == 2 * (h * w);
  }

  lemma EvenFits(q: nat, r: nat, m: nat, w: nat)
    requires r < w && q % 2 == 0 && m % 2 == 0 && w * q + r < m * w
    ensures w * q + r + w < m * w
  {
    DistributeMinus(w, m, q);
    DistributeMinus(w, m, q + 1);
    Multiples(m - q, w);
    Multiples(m - q - 1, w);
  }

  lemma DistributeMinus(w: int, m: int, q: int)
    ensures w * (m - q) == m * w - w * q && w * (q + 1) == w * q + w
  {
  }

  /** The new upper row of a pair: its own bits, and the lower row's where the index bit is 1. */
  function Upper(x: Block, y: Block, w: nat): (z: Block)
    requires IsWidth(w)
    ensures forall p: nat :: p < 128 ==> z.bits[p] == if OddAt(w, p) && p >= w then y.bits[p - w] else x.bits[p]
  {
    Block(seq(128, p requires 0 <= p < 128 => if OddAt(w, p) && p >= w then y.bits[p - w] else x.bits[p]))
  }

  function Lower(x: Block, y: Block, w: nat): (z: Block)
    requires IsWidth(w)
    ensures forall p: nat :: p < 128 ==> z.bits[p] == if !OddAt(w, p) && p + w < 128 then x.bits[p + w] else y.bits[p]
  {
    Block(seq(128, p requires 0 <= p < 128 => if !OddAt(w, p) && p + w < 128 then x.bits[p + w] else y.bits[p]))
  }

  /** The pair's lanes for widths below 64. */
  method SwapNarrow(x: Block, y: Block, w: nat, mask1: Lane, mask2: Lane) returns (x': Block, y': Block)
    requires IsWidth(w) && w < 64 && mask1 == Mask(w, 0) && mask2 == Mask(w, 1)
    ensures x' == Upper(x, y, w) && y' == Lower(x, y, w)
  {
    var invMask1, invMask2 := LaneNot(mask1), LaneNot(mask2);
    var t1, t2, tt1, tt2 := Low(x), High(x), Low(y), High(y);
    var d1 := LaneXor(LaneAnd(t1, mask1), ShiftLeft(LaneAnd(tt1, mask1), w));
    var d2 := LaneXor(LaneXor(LaneAnd(t2, mask2), ShiftLeft(LaneAnd(tt2, mask2), w)),
                      ShiftRight(LaneAnd(tt1, mask1), 64 - w));
    var dd1 := LaneXor(LaneXor(LaneAnd(tt1, invMask1), ShiftRight(LaneAnd(t1, invMask1), w)),
                       ShiftLeft(LaneAnd(t2, invMask2), 64 - w));
    var dd2 := LaneXor(LaneAnd(tt2, invMask2), ShiftRight(LaneAnd(t2, invMask2), w));
    x', y' := Joined(d1, d2), Joined(dd1, dd2);
    hide OddAt;
    forall p: nat | p < 128
      ensures x'.bits[p] == Upper(x, y, w).bits[p] && y'.bits[p] == Lower(x, y, w).bits[p]
    {
      NarrowBit(x, y, w, p, d1, d2, dd1, dd2);
    }
  }

  lemma NarrowBit(x: Block, y: Block, w: nat, p: nat, d1: Lane, d2: Lane, dd1: Lane, dd2: Lane)
    requires IsWidth(w) && w < 64 && p < 128
    requires d1 == LaneXor(LaneAnd(Low(x), Mask(w, 0)), ShiftLeft(LaneAnd(Low(y), Mask(w, 0)), w))
    requires d2 == LaneXor(LaneXor(LaneAnd(High(x), Mask(w, 1)), ShiftLeft(LaneAnd(High(y), Mask(w, 1)), w)),
                           ShiftRight(LaneAnd(Low(y), Mask(w, 0)), 64 - w))
    requires dd1 ==
      LaneXor(LaneXor(LaneAnd(Low(y), LaneNot(Mask(w, 0))), ShiftRight(LaneAnd(Low(x), LaneNot(Mask(w, 0))), w)),
                            ShiftLeft(LaneAnd(High(x), LaneNot(Mask(w, 1))), 64 - w))
    requires dd2 == LaneXor(LaneAnd(High(y), LaneNot(Mask(w, 1))), ShiftRight(LaneAnd(High(x), LaneNot(Mask(w, 1))), w))
    ensures Joined(d1, d2).bits[p] == Upper(x, y, w).bits[p] && Joined(dd1, dd2).bits[p] == Lower(x, y, w).bits[p]
  {
    hide OddAt, LaneXor, LaneAnd, LaneNot, ShiftLeft, ShiftRight, Mask, Upper, Lower, IsWidth;
    if p < 64 { NarrowLow(x, y, w, p); } else { NarrowHigh(x, y, w, p - 64); }
  }

  lemma NarrowLow(x: Block, y: Block, w: nat, i: nat)
    requires IsWidth(w) && w < 64 && i < 64
    ensures LaneXor(LaneAnd(Low(x), Mask(w, 0)), ShiftLeft(LaneAnd(Low(y), Mask(w, 0)), w))[i] == Upper(x, y, w).bits[i]
    ensures LaneXor(LaneXor(LaneAnd(Low(y), LaneNot(Mask(w, 0))), ShiftRight(LaneAnd(Low(x), LaneNot(Mask(w, 0))), w)),
                    ShiftLeft(LaneAnd(High(x), LaneNot(Mask(w, 1))), 64 - w))[i] == Lower(x, y, w).bits[i]
  {
    hide *;
    NarrowLowUpper(x, y, w, i);
    NarrowLowLower(x, y, w, i);
  }

  lemma NarrowLowUpper(x: Block, y: Block, w: nat, i: nat)
    requires IsWidth(w) && w < 64 && i < 64
    ensures LaneXor(LaneAnd(Low(x), Mask(w, 0)), ShiftLeft(LaneAnd(Low(y), Mask(w, 0)), w))[i] == Upper(x, y, w).bits[i]
  {
    hide OddAt, LaneXor, LaneAnd, ShiftLeft, Mask, Upper, IsWidth;
    Parity(w, i);
    if i >= w { Parity(w, i - w); }
  }

  lemma NarrowLowLower(x: Block, y: Block, w: nat, i: nat)
    requires IsWidth(w) && w < 64 && i < 64
    ensures LaneXor(LaneXor(LaneAnd(Low(y), LaneNot(Mask(w, 0))), ShiftRight(LaneAnd(Low(x), LaneNot(Mask(w, 0))), w)),
                    ShiftLeft(LaneAnd(High(x), LaneNot(Mask(w, 1))), 64 - w))[i] == Lower(x, y, w).bits[i]
  {
    hide OddAt, LaneXor, LaneAnd, LaneNot, ShiftLeft, ShiftRight, Mask, Lower, IsWidth;
    Parity(w, i);
    if !OddAt(w, i) { EvenHasPartner(w, i, 64); }
    if i >= 64 - w {
      assert OddAt(w, i) && 64 * 1 + (i - (64 - w)) == i + w;
    }
    assert 64 * 0 + (i + w) == i + w;
  }

  lemma NarrowHigh(x: Block, y: Block, w: nat, i: nat)
    requires IsWidth(w) && w < 64 && i < 64
    ensures LaneXor(LaneXor(LaneAnd(High(x), Mask(w, 1)), ShiftLeft(LaneAnd(High(y), Mask(w, 1)), w)),
                    ShiftRight(LaneAnd(Low(y), Mask(w, 0)), 64 - w))[i] == Upper(x, y, w).bits[64 + i]
    ensures LaneXor(LaneAnd(High(y), LaneNot(Mask(w, 1))), ShiftRight(LaneAnd(High(x), LaneNot(Mask(w, 1))), w))[i] ==
      Lower(x, y, w).bits[64 + i]
  {
    hide *;
    NarrowHighUpper(x, y, w, i);
    NarrowHighLower(x, y, w, i);
  }

  lemma NarrowHighUpper(x: Block, y: Block, w: nat, i: nat)
    requires IsWidth(w) && w < 64 && i < 64
    ensures LaneXor(LaneXor(LaneAnd(High(x), Mask(w, 1)), ShiftLeft(LaneAnd(High(y), Mask(w, 1)), w)),
                    ShiftRight(LaneAnd(Low(y), Mask(w, 0)), 64 - w))[i] == Upper(x, y, w).bits[64 + i]
  {
    hide *;
    if i >= w { NarrowHighFar(x, y, w, i); } else { NarrowHighNear(x, y, w, i); }
  }

  /** The partner bit is in the same lane. */
  lemma NarrowHighFar(x: Block, y: Block, w: nat, i: nat)
    requires IsWidth(w) && w <= i < 64
    ensures LaneXor(LaneXor(LaneAnd(High(x), Mask(w, 1)), ShiftLeft(LaneAnd(High(y), Mask(w, 1)), w)),
                    ShiftRight(LaneAnd(Low(y), Mask(w, 0)), 64 - w))[i] == Upper(x, y, w).bits[64 + i]
  {
    hide OddAt, LaneXor, LaneAnd, ShiftLeft, ShiftRight, Mask, Upper, IsWidth;
    Parity(w, i);
    Parity(w, i - w);
    assert 64 * 1 + (i - w) == 64 + (i - w);
  }

  /** The partner bit comes over from the low lane. */
  lemma NarrowHighNear(x: Block, y: Block, w: nat, i: nat)
    requires IsWidth(w) && w < 64 && i < w
    ensures LaneXor(LaneXor(LaneAnd(High(x), Mask(w, 1)), ShiftLeft(LaneAnd(High(y), Mask(w, 1)), w)),
                    ShiftRight(LaneAnd(Low(y), Mask(w, 0)), 64 - w))[i] == Upper(x, y, w).bits[64 + i]
  {
    hide OddAt, LaneXor, LaneAnd, ShiftLeft, ShiftRight, Mask, Upper, IsWidth;
    Parity(w, i);
    Parity(w, i + (64 - w));
    assert i + (64 - w) + w == 64 + i;
  }

  lemma NarrowHighLower(x: Block, y: Block, w: nat, i: nat)
    requires IsWidth(w) && w < 64 && i < 64
    ensures LaneXor(LaneAnd(High(y), LaneNot(Mask(w, 1))), ShiftRight(LaneAnd(High(x), LaneNot(Mask(w, 1))), w))[i] ==
      Lower(x, y, w).bits[64 + i]
  {
    hide OddAt, LaneXor, LaneAnd, LaneNot, ShiftRight, Mask, Lower, IsWidth;
    Parity(w, i);
    Parity(w, 64 + i);
    if !OddAt(w, i) { EvenHasPartner(w, i, 64); }
    assert 64 * 1 + (i + w) == 64 + i + w;
  }

  /** The pair's lanes for width 64. */
  method SwapWide(x: Block, y: Block, w: nat, mask1: Lane, mask2: Lane) returns (x': Block, y': Block)
    requires w == 64 && mask1 == Mask(w, 0) && mask2 == Mask(w, 1)
    ensures x' == Upper(x, y, w) && y' == Lower(x, y, w)
  {
    var t2, dd1 := High(x), Low(y);
    var d1 := LaneAnd(Low(x), mask1);
    var d2 := LaneXor(LaneAnd(t2, mask2), ShiftRight(LaneAnd(dd1, mask1), 0));
    dd1 := LaneXor(LaneAnd(dd1, LaneNot(mask1)), ShiftLeft(LaneAnd(t2, LaneNot(mask2)), 0));
    var dd2 := LaneAnd(High(y), LaneNot(mask2));
    x', y' := Joined(d1, d2), Joined(dd1, dd2);
    hide OddAt, LaneXor, LaneAnd, LaneNot, ShiftLeft, ShiftRight, Mask, Upper, Lower;
    forall p: nat | p < 128
      ensures OddAt(64, p) == (p >= 64)
    {
      OddAt64(p);
    }
    assert x'.bits == Upper(x, y, 64).bits;
    assert y'.bits == Lower(x, y, 64).bits;
  }

  lemma OddAt64(p: nat)
    requires p < 128
    ensures OddAt(64, p) == (p >= 64)
  {
  }

  type Matrix = m: seq<Block> | |m| == 128 witness seq(128, _ => ZERO_BLOCK)

  /** One pass: in every row pair, the off-diagonal quarters change places. */
  function SwappedRow(m: Matrix, w: nat, r: nat): Block
    requires IsWidth(w) && r < 128
  {
    if OddAt(w, r) && r >= w then Lower(m[r - w], m[r], w)
    else if r + w < 128 then Upper(m[r], m[r + w], w)
    else m[r]
  }

  function Swapped(m: Matrix, w: nat): (s: Matrix)
    requires IsWidth(w)
    ensures forall r :: 0 <= r < 128 ==> s[r] == SwappedRow(m, w, r)
  {
    seq(128, r requires 0 <= r < 128 => SwappedRow(m, w, r))
  }

  /** The pair of rows i1 = 2wj + k and i2 = i1 + w. */
  lemma PairRows(w: nat, j: nat, k: nat)
    requires IsWidth(w) && k < w
    ensures !OddAt(w, 2 * w * j + k) && OddAt(w, 2 * w * j + k + w)
  {
    WidthPositive(w);
    hide IsWidth;
    DivAdd(k, w, 2 * j);
    QuotientUnique(k, w, 0, k);
    assert (2 * j) * w + k == 2 * w * j + k;
    Parity(w, 2 * w * j + k);
  }

  /** The rows of the first j groups, and of the first k pairs of the next, have been swapped. */
  ghost predicate PartlySwapped(m: Matrix, s: Matrix, w: nat, base: nat, k: nat)
    requires IsWidth(w)
  {
    && (forall r :: 0 <= r < base && r < 128 ==> s[r] == SwappedRow(m, w, r))
    && (forall r :: base <= r < base + k && r < 128 ==> s[r] == SwappedRow(m, w, r))
    && (forall r :: base + w <= r < base + w + k && r < 128 ==> s[r] == SwappedRow(m, w, r))
    && (forall r :: base + k <= r < base + w && r < 128 ==> s[r] == m[r])
    && (forall r :: base + w + k <= r < 128 ==> s[r] == m[r])
  }

  /** Rows i and i + w exchange quarters. */
  predicate RowPair(w: nat, i: nat)
    requires IsWidth(w)
  {
    !OddAt(w, i) && OddAt(w, i + w)
  }

  lemma PairSwapped(m: Matrix, s: Matrix, w: nat, base: nat, k: nat, upper: Block, lower: Block)
    requires IsWidth(w) && base + 2 * w <= 128 && k < w && PartlySwapped(m, s, w, base, k)
    requires upper == SwappedRow(m, w, base + k) && lower == SwappedRow(m, w, base + w + k)
    ensures PartlySwapped(m, s[base + k := upper][base + w + k := lower], w, base, k + 1)
  {
    hide SwappedRow, IsWidth;
  }

  lemma NextPair(m: Matrix, s: Matrix, w: nat, base: nat, k: nat)
    requires IsWidth(w) && base + 2 * w <= 128 && k < w && PartlySwapped(m, s, w, base, k)
    ensures s[base + k] == m[base + k] && s[base + w + k] == m[base + w + k]
  {
  }

  lemma GroupDone(m: Matrix, s: Matrix, w: nat, base: nat)
    requires IsWidth(w) && base + 2 * w <= 128 && PartlySwapped(m, s, w, base, w)
    ensures PartlySwapped(m, s, w, base + 2 * w, 0)
  {
    hide SwappedRow, IsWidth;
  }

  /** One group of w row pairs, from row base on. */
  method Group(inOut: array<Block>, w: nat, mask1: Lane, mask2: Lane, base: nat, ghost m: Matrix)
    requires inOut.Length == 128 && IsWidth(w) && base + 2 * w <= 128 && mask1 == Mask(w, 0) && mask2 == Mask(w, 1)
    requires forall i: nat :: base <= i < base + w ==> RowPair(w, i)
    requires PartlySwapped(m, inOut[..], w, base, 0)
    modifies inOut
    ensures PartlySwapped(m, inOut[..], w, base + 2 * w, 0)
  {
    hide OddAt, Upper, Lower, SwappedRow, IsWidth, PartlySwapped;
    WidthPositive(w);
    for k := 0 to w
      invariant PartlySwapped(m, inOut[..], w, base, k)
    {
      ghost var s := inOut[..];
      var i1, i2 := k + base, k + w + base;
      assert RowPair(w, i1);
      NextPair(m, s, w, base, k);
      PairIsSwapped(m, w, i1);
      assert i1 == base + k && i2 == i1 + w == base + w + k && inOut[i1] == m[i1] && inOut[i2] == m[i2];
      var upper, lower;
      if w < 64 {
        upper, lower := SwapNarrow(inOut[i1], inOut[i2], w, mask1, mask2);
      } else {
        upper, lower := SwapWide(inOut[i1], inOut[i2], w, mask1, mask2);
      }
      assert upper == SwappedRow(m, w, i1) && lower == SwappedRow(m, w, i2);
      inOut[i1], inOut[i2] := upper, lower;
      assert inOut[..] == s[i1 := upper][i2 := lower];
      PairSwapped(m, s, w, base, k, upper, lower);
    }
    GroupDone(m, inOut[..], w, base);
  }

  /** One pass over the array: nswaps groups of w row pairs. */
  method Pass(inOut: array<Block>, w: nat, nswaps: nat, mask1: Lane, mask2: Lane)
    requires inOut.Length == 128 && IsWidth(w) && 2 * w * nswaps == 128 && mask1 == Mask(w, 0) && mask2 == Mask(w, 1)
    modifies inOut
    ensures inOut[..] == Swapped(old(inOut[..]), w)
  {
    hide OddAt, Upper, Lower, SwappedRow, IsWidth, PartlySwapped;
    ghost var m := inOut[..];
    PartlyStart(m, w);
    for j := 0 to nswaps
      invariant PartlySwapped(m, inOut[..], w, 2 * w * j, 0)
    {
      GroupFits(w, j, nswaps);
      forall i: nat | 2 * w * j <= i < 2 * w * j + w
        ensures RowPair(w, i)
      {
        PairRows(w, j, i - 2 * w * j);
      }
      Group(inOut, w, mask1, mask2, 2 * w * j, m);
    }
    PartlyDone(m, inOut[..], w);
  }

  lemma PartlyStart(m: Matrix, w: nat)
    requires IsWidth(w)
    ensures PartlySwapped(m, m, w, 0, 0)
  {
  }

  lemma PartlyDone(m: Matrix, s: Matrix, w: nat)
    requires IsWidth(w) && PartlySwapped(m, s, w, 128, 0)
    ensures s == Swapped(m, w)
  {
  }

  lemma WidthPositive(w: nat)
    requires IsWidth(w)
    ensures 0 < w <= 64
  {
  }

  lemma GroupFits(w: nat, j: nat, n: nat)
    requires j < n && 2 * w * n == 128
    ensures 2 * w * j + 2 * w <= 128 && 2 * w * (j + 1) == 2 * w * j + 2 * w
  {
    assert 2 * w * (j + 1) <= 2 * w * n;
  }

  lemma PairIsSwapped(m: Matrix, w: nat, i: nat)
    requires IsWidth(w) && i + w < 128 && !OddAt(w, i) && OddAt(w, i + w)
    ensures SwappedRow(m, w, i) == Upper(m[i], m[i + w], w) && SwappedRow(m, w, i + w) == Lower(m[i], m[i + w], w)
  {
  }

  /** x with the index bit of this width set to the given value. */
  function Moved(w: nat, x: nat, to: bool): nat
    requires IsWidth(w) && (OddAt(w, x) ==> x >= w)
  {
    (if OddAt(w, x) then x - w else x) + if to then w else 0
  }

  /** A product, kept folded where only its laws below matter. */
  function Mul(q: nat, w: nat): nat {
    q * w
  }

  lemma SplitIndex(x: nat, w: nat)
    requires w > 0
    ensures x == Mul(x / w, w) + x % w && x % w < w
  {
  }

  lemma DigitOut(q: nat, w: nat)
    ensures Mul(q, w) == Mul(q / 2, 2 * w) + if q % 2 == 1 then w else 0
  {
    assert q * w == (2 * (q / 2) + q % 2) * w == q / 2 * (2 * w) + q % 2 * w;
  }

  lemma QuotientIs(x: nat, w: nat, q: nat, s: nat)
    requires s < w && x == Mul(q, w) + s
    ensures x / w == q && x % w == s
  {
    QuotientUnique(x, w, q, s);
  }

  lemma MovedParts(w: nat, x: nat, to: bool)
    requires IsWidth(w)
    ensures OddAt(w, x) ==> x >= w
    ensures Moved(w, x, to) / (2 * w) == x / (2 * w) && Moved(w, x, to) % (2 * w) == (if to then w else 0) + x % w
    ensures Mul(x / (2 * w), 2 * w) == Mul(x / w, w) - if OddAt(w, x) then w else 0
  {
    Parity(w, x);
    WidthPositive(w);
    OddDigit(w, x);
    hide IsWidth, Mul, OddAt;
    SplitIndex(x, w);
    DigitOut(x / w, w);
    QuotientIs(x, 2 * w, x / w / 2, (if OddAt(w, x) then w else 0) + x % w);
    QuotientIs(Moved(w, x, to), 2 * w, x / w / 2, (if to then w else 0) + x % w);
  }

  lemma OddDigit(w: nat, x: nat)
    requires IsWidth(w)
    ensures OddAt(w, x) == (x / w % 2 == 1)
  {
  }

  /** Where the passes down to width w have taken index x of a cell from, y being its other index. */
  function Source(w: nat, x: nat, y: nat): nat
    requires w > 0
  {
    Mul(y / w, w) + x % w
  }

  /** A cell of one pass comes from the cell whose two index bits are exchanged. */
  lemma SourceMoves(w: nat, r: nat, c: nat)
    requires IsWidth(w)
    ensures (OddAt(w, r) ==> r >= w) && (OddAt(w, c) ==> c >= w)
    ensures Source(2 * w, Moved(w, r, OddAt(w, c)), Moved(w, c, OddAt(w, r))) == Source(w, r, c)
  {
    WidthPositive(w);
    hide IsWidth, Moved, Mul, OddAt;
    MovedParts(w, r, OddAt(w, c));
    MovedParts(w, c, OddAt(w, r));
  }

  lemma SwappedBit(m: Matrix, w: nat, r: nat, c: nat)
    requires IsWidth(w) && r < 128 && c < 128
    ensures (OddAt(w, r) ==> r >= w) && (OddAt(w, c) ==> c >= w)
    ensures Moved(w, r, OddAt(w, c)) < 128 && Moved(w, c, OddAt(w, r)) < 128
    ensures Swapped(m, w)[r].bits[c] == m[Moved(w, r, OddAt(w, c))].bits[Moved(w, c, OddAt(w, r))]
  {
    Parity(w, r);
    Parity(w, c);
    hide OddAt, IsWidth, Upper, Lower, Moved, SwappedRow;
    if OddAt(w, r) { SwappedLower(m, w, r, c); } else { SwappedUpper(m, w, r, c); }
  }

  lemma SwappedLower(m: Matrix, w: nat, r: nat, c: nat)
    requires IsWidth(w) && w <= r < 128 && c < 128 && OddAt(w, r) && (OddAt(w, c) ==> c >= w)
    ensures Moved(w, r, OddAt(w, c)) < 128 && Moved(w, c, OddAt(w, r)) < 128
    ensures SwappedRow(m, w, r).bits[c] == m[Moved(w, r, OddAt(w, c))].bits[Moved(w, c, OddAt(w, r))]
  {
    hide OddAt, IsWidth, Upper, Lower;
    if !OddAt(w, c) { EvenHasPartner(w, c, 128); }
    assert SwappedRow(m, w, r) == Lower(m[r - w], m[r], w);
  }

  lemma SwappedUpper(m: Matrix, w: nat, r: nat, c: nat)
    requires IsWidth(w) && r < 128 && c < 128 && !OddAt(w, r) && (OddAt(w, c) ==> c >= w)
    ensures Moved(w, r, OddAt(w, c)) < 128 && Moved(w, c, OddAt(w, r)) < 128
    ensures SwappedRow(m, w, r).bits[c] == m[Moved(w, r, OddAt(w, c))].bits[Moved(w, c, OddAt(w, r))]
  {
    hide OddAt, IsWidth, Upper, Lower;
    EvenHasPartner(w, r, 128);
    assert SwappedRow(m, w, r) == Upper(m[r], m[r + w], w);
  }

  lemma SourceInRange(w: nat, x: nat, y: nat)
    requires (IsWidth(w) || w == 128) && x < 128 && y < 128
    ensures Source(w, x, y) < 128
  {
    var n := if w == 128 then 1 else 2 * Halves(w);
    var q := y / w;
    hide IsWidth, Halves;
    assert n * w == 128 && y == q * w + y % w;
    assert (n - q) * w == 128 - q * w;
    Multiples(n - q, w);
    assert (n - q - 1) * w == (n - q) * w - w;
    Multiples(n - q - 1, w);
  }

  /** The matrix once the passes down to width w are done; w = 128 before the first. */
  ghost predicate IsStage(m0: Matrix, m: Matrix, w: nat)
    requires IsWidth(w) || w == 128
  {
    forall r: nat, c: nat :: r < 128 && c < 128 ==> StageBit(m0, m, w, r, c)
  }

  ghost predicate StageBit(m0: Matrix, m: Matrix, w: nat, r: nat, c: nat)
    requires (IsWidth(w) || w == 128) && r < 128 && c < 128
  {
    SourceInRange(w, r, c);
    SourceInRange(w, c, r);
    m[r].bits[c] == m0[Source(w, r, c)].bits[Source(w, c, r)]
  }

  lemma PassAdvances(m0: Matrix, m: Matrix, w: nat)
    requires IsWidth(w) && IsStage(m0, m, 2 * w)
    ensures IsStage(m0, Swapped(m, w), w)
  {
    forall r: nat, c: nat | r < 128 && c < 128
      ensures StageBit(m0, Swapped(m, w), w, r, c)
    {
      hide OddAt, IsWidth, Swapped, Source, Moved;
      SwappedBit(m, w, r, c);
      SourceMoves(w, r, c);
      SourceMoves(w, c, r);
      assert StageBit(m0, m, 2 * w, Moved(w, r, OddAt(w, c)), Moved(w, c, OddAt(w, r)));
    }
  }

  lemma StageStart(m0: Matrix)
    ensures IsStage(m0, m0, 128)
  {
    forall r: nat, c: nat | r < 128 && c < 128
      ensures StageBit(m0, m0, 128, r, c)
    {
      QuotientUnique(r, 128, 0, r);
      QuotientUnique(c, 128, 0, c);
    }
  }

  /** The two matrices mirror each other: row r's bit c is row c's bit r. */
  ghost predicate IsTranspose(m: Matrix, t: Matrix) {
    forall r: nat, c: nat :: r < 128 && c < 128 ==> t[r].bits[c] == m[c].bits[r]
  }

  lemma StageDone(m0: Matrix, m: Matrix)
    requires IsStage(m0, m, 1)
    ensures IsTranspose(m0, m)
  {
    forall r: nat, c: nat | r < 128 && c < 128
      ensures m[r].bits[c] == m0[c].bits[r]
    {
      assert StageBit(m0, m, 1, r, c) && Source(1, r, c) == c && Source(1, c, r) == r;
    }
  }

  /** eklundh_transpose128: the exact transpose, in place. */
  method EklundhTranspose(inOut: array<Block>)
    requires inOut.Length == 128
    modifies inOut
    ensures IsTranspose(old(inOut[..]), inOut[..])
  {
    hide IsTranspose, IsStage, Swapped, NatBits, Mask;
    ghost var m0 := inOut[..];
    var width: nat, nswaps: nat := 64, 1;
    StageStart(m0);
    for i := 0 to 7
      invariant if i < 7 then IsWidth(width) && 2 * width * nswaps == 128 && width == Width(i) else width == 0
      invariant i < 7 ==> IsStage(m0, inOut[..], 2 * width)
      invariant i == 7 ==> IsStage(m0, inOut[..], 1)
    {
      ghost var m := inOut[..];
      var mask1, mask2 := NatBits(MASKS[i].1, 64), NatBits(MASKS[i].0, 64);
      PassMasks(i);
      Pass(inOut, width, nswaps, mask1, mask2);
      PassAdvances(m0, m, width);
      NextWidth(i, nswaps);
      nswaps := nswaps * 2;
      width := width / 2;
    }
    StageDone(m0, inOut[..]);
  }

  /** The width of pass i. */
  function Width(i: nat): nat
    requires i < 7
  {
    if i == 0 then 64 else if i == 1 then 32 else if i == 2 then 16 else if i == 3 then 8 else if i == 4 then 4
      else if i == 5 then 2 else 1
  }

  /** The table's words are the masks of the passes. */
  lemma PassMasks(i: nat)
    requires i < 7
    ensures IsWidth(Width(i)) && NatBits(MASKS[i].1, 64) == Mask(Width(i), 0)
    ensures NatBits(MASKS[i].0, 64) == Mask(Width(i), 1)
  {
    var w := Width(i);
    hide NatBits, Mask, Width;
    forall p: nat | p < 64
      ensures NatBits(MASKS[i].1, 64)[p] == Mask(w, 0)[p] && NatBits(MASKS[i].0, 64)[p] == Mask(w, 1)[p]
    {
      MaskBit(i, p);
    }
  }

  lemma MaskBit(i: nat, p: nat)
    requires i < 7 && p < 64
    ensures IsWidth(Width(i)) && NatBits(MASKS[i].1, 64)[p] == Mask(Width(i), 0)[p]
    ensures NatBits(MASKS[i].0, 64)[p] == Mask(Width(i), 1)[p]
  {
    var w := Width(i);
    hide NatBits, Mask;
    if i == 0 {
      WideMask(p);
      OddAt64(p);
      OddAt64(64 + p);
      assert 64 * 0 + p == p && 64 * 1 + p == 64 + p;
    } else {
      NarrowMask(i, w, 32 / w, p);
      Parity(w, p);
      assert 64 * 0 + p == p && 64 * 1 + p == 64 + p;
    }
  }

  lemma NextWidth(i: nat, nswaps: nat)
    requires i < 7 && 2 * Width(i) * nswaps == 128
    ensures if i < 6 then IsWidth(Width(i) / 2) && Width(i) / 2 == Width(i + 1)
      && 2 * (Width(i) / 2) * (nswaps * 2) == 128 && 2 * (Width(i) / 2) == Width(i)
            else Width(i) == 1
  {
  }

  /** Transposing twice gives the matrix back. */
  lemma TransposeTwice(m: Matrix, t: Matrix, u: Matrix)
    requires IsTranspose(m, t) && IsTranspose(t, u)
    ensures u == m
  {
    forall r: nat | r < 128
      ensures u[r] == m[r]
    {
      assert forall c: nat :: c < 128 ==> u[r].bits[c] == t[c].bits[r] == m[r].bits[c];
      assert u[r].bits == m[r].bits;
    }
  }
}
