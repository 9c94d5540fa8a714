/** The k-probe resistant code: a public 0/1 matrix that encodes inputs and labels so that decoding is linear. */
module KProbe {
  import opened Blocks
  import opened XorSums

  /** Row i has h entries; an encoding is h free positions followed by one position per row. */
  datatype KProbeMatrix = KProbeMatrix(mtx: seq<seq<bool>>, encodingSize: nat) {

    function Rows(): nat {
      |mtx|
    }

    predicate Valid() {
      Rows() <= encodingSize && forall i :: 0 <= i < Rows() ==> |mtx[i]| == Free()
    }

    function Free(): nat
      requires Rows() <= encodingSize
    {
      encodingSize - Rows()
    }
  }

  /** The inner product of the first n entries. */
  function BitDot(row: seq<bool>, bits: seq<bool>, n: nat): bool
    requires n <= |row| && n <= |bits|
  {
    if n == 0 then false else BitDot(row, bits, n - 1) != (row[n - 1] && bits[n - 1])
  }

  /** The xor of the blocks that the row selects among the first n. */
  function BlockDot(row: seq<bool>, blocks: seq<Block>, n: nat): Block
    requires n <= |row| && n <= |blocks|
  {
    if n == 0 then ZERO_BLOCK else BlockDot(row, blocks, n - 1).Xor(Times(row[n - 1], blocks[n - 1]))
  }

  /** The positions that a row selects, and their values. */
  function SelectedBits(row: seq<bool>, bits: seq<bool>, n: nat): (r: seq<bool>)
    requires n <= |row| && n <= |bits|
    ensures |r| == n && forall i :: 0 <= i < n ==> r[i] == (row[i] && bits[i])
  {
    seq(n, i requires 0 <= i < n => row[i] && bits[i])
  }

  function SelectedBlocks(row: seq<bool>, blocks: seq<Block>, n: nat): (r: seq<Block>)
    requires n <= |row| && n <= |blocks|
    ensures |r| == n && forall i :: 0 <= i < n ==> r[i] == Times(row[i], blocks[i])
  {
    seq(n, i requires 0 <= i < n => Times(row[i], blocks[i]))
  }

  /** The product of bits is the parity of the selected ones. */
  lemma {:induction false} BitDotIsParity(row: seq<bool>, bits: seq<bool>, n: nat)
    requires n <= |row| && n <= |bits|
    ensures BitDot(row, bits, n) <==> IsOdd(SelectedBits(row, bits, n))
  {
    hide IsOdd;
    if n == 0 {
      OddNone();
      assert SelectedBits(row, bits, n) == [];
    } else {
      BitDotIsParity(row, bits, n - 1);
      OddAppend(SelectedBits(row, bits, n - 1), row[n - 1] && bits[n - 1]);
      assert SelectedBits(row, bits, n) == SelectedBits(row, bits, n - 1) + [row[n - 1] && bits[n - 1]];
    }
  }

  /** The product of blocks is the sum of the selected ones. */
  lemma {:induction false} BlockDotIsSum(row: seq<bool>, blocks: seq<Block>, n: nat)
    requires n <= |row| && n <= |blocks|
    ensures BlockDot(row, blocks, n) == XorOver(SelectedBlocks(row, blocks, n))
  {
    hide Block.Xor, XorOver;
    if n == 0 {
      XorOverPrefix(SelectedBlocks(row, blocks, n), n);
      assert SelectedBlocks(row, blocks, n)[..n] == SelectedBlocks(row, blocks, n);
    } else {
      BlockDotIsSum(row, blocks, n - 1);
      XorOverAppend(SelectedBlocks(row, blocks, n - 1), Times(row[n - 1], blocks[n - 1]));
      assert SelectedBlocks(row, blocks, n) ==
        SelectedBlocks(row, blocks, n - 1) + [Times(row[n - 1], blocks[n - 1])];
    }
  }

  function DecodedBits(k: KProbeMatrix, e: seq<bool>): (r: seq<bool>)
    requires k.Valid() && |e| == k.encodingSize
    ensures |r| == k.Rows()
    ensures forall i :: 0 <= i < |r| ==> r[i] == (e[k.Free() + i] != BitDot(k.mtx[i], e, k.Free()))
  {
    seq(k.Rows(), i requires 0 <= i < k.Rows() => e[k.Free() + i] != BitDot(k.mtx[i], e, k.Free()))
  }

  function DecodedBlocks(k: KProbeMatrix, e: seq<Block>): (r: seq<Block>)
    requires k.Valid() && |e| == k.encodingSize
    ensures |r| == k.Rows()
    ensures forall i :: 0 <= i < |r| ==> r[i] == e[k.Free() + i].Xor(BlockDot(k.mtx[i], e, k.Free()))
  {
    seq(k.Rows(), i requires 0 <= i < k.Rows() => e[k.Free() + i].Xor(BlockDot(k.mtx[i], e, k.Free())))
  }

  lemma {:induction false} BitDotXor(row: seq<bool>, a: seq<bool>, b: seq<bool>, n: nat)
    requires n <= |row| && |a| == |b| && n <= |a|
    ensures BitDot(row, XorBits(a, b), n) == (BitDot(row, a, n) != BitDot(row, b, n))
  {
    if n > 0 { BitDotXor(row, a, b, n - 1); }
  }

  /** Decoding a sum of encodings gives the sum of what they decode to. */
  lemma DecodedBitsXor(k: KProbeMatrix, a: seq<bool>, b: seq<bool>)
    requires k.Valid() && |a| == |b| == k.encodingSize
    ensures DecodedBits(k, XorBits(a, b)) == XorBits(DecodedBits(k, a), DecodedBits(k, b))
  {
    forall i | 0 <= i < k.Rows()
      ensures DecodedBits(k, XorBits(a, b))[i] == XorBits(DecodedBits(k, a), DecodedBits(k, b))[i]
    {
      BitDotXor(k.mtx[i], a, b, k.Free());
    }
  }

  /** Labels for the encoded bits c: zero labels e and offset d. */
  function ActiveLabels(e: seq<Block>, c: seq<bool>, d: Block): (r: seq<Block>)
    requires |e| == |c|
    ensures |r| == |e| && forall t :: 0 <= t < |r| ==> r[t] == e[t].Xor(Times(c[t], d))
  {
    seq(|e|, t requires 0 <= t < |e| => e[t].Xor(Times(c[t], d)))
  }

  lemma TimesXor(x: Block, y: Block, d: Block, p: bool, q: bool)
    ensures x.Xor(Times(p, d)).Xor(y.Xor(Times(q, d))) == x.Xor(y).Xor(Times(p != q, d))
  {
    assert x.Xor(Times(p, d)).Xor(y.Xor(Times(q, d))).bits == x.Xor(y).Xor(Times(p != q, d)).bits;
  }

  lemma TimesOfSum(x: Block, d: Block, p: bool, q: bool)
    ensures Times(p, x.Xor(Times(q, d))) == Times(p, x).Xor(Times(p && q, d))
  {
    XorZero(ZERO_BLOCK);
  }

  lemma {:induction false} BlockDotActive(row: seq<bool>, e: seq<Block>, c: seq<bool>, d: Block, n: nat)
    requires n <= |row| && |e| == |c| && n <= |e|
    ensures BlockDot(row, ActiveLabels(e, c, d), n) == BlockDot(row, e, n).Xor(Times(BitDot(row, c, n), d))
  {
    if n == 0 {
      XorZero(ZERO_BLOCK);
    } else {
      BlockDotActive(row, e, c, d, n - 1);
      TimesOfSum(e[n - 1], d, row[n - 1], c[n - 1]);
      TimesXor(BlockDot(row, e, n - 1), Times(row[n - 1], e[n - 1]), d, BitDot(row, c, n - 1), row[n - 1] && c[n - 1]);
    }
  }

  /** Decoding labels for the encoding c gives labels for what c decodes to. */
  lemma DecodedActiveLabels(k: KProbeMatrix, e: seq<Block>, c: seq<bool>, d: Block)
    requires k.Valid() && |e| == |c| == k.encodingSize
    ensures DecodedBlocks(k, ActiveLabels(e, c, d)) == ActiveLabels(DecodedBlocks(k, e), DecodedBits(k, c), d)
  {
    hide Block.Xor, Times, BlockDot, BitDot;
    forall i | 0 <= i < k.Rows()
      ensures DecodedBlocks(k, ActiveLabels(e, c, d))[i] == ActiveLabels(DecodedBlocks(k, e), DecodedBits(k, c), d)[i]
    {
      var h := k.Free();
      BlockDotActive(k.mtx[i], e, c, d, h);
      TimesXor(e[h + i], BlockDot(k.mtx[i], e, h), d, c[h + i], BitDot(k.mtx[i], c, h));
    }
  }

  lemma {:induction false} BitDotPrefix(row: seq<bool>, a: seq<bool>, b: seq<bool>, n: nat)
    requires n <= |row| && n <= |a| && n <= |b| && a[..n] == b[..n]
    ensures BitDot(row, a, n) == BitDot(row, b, n)
  {
    if n > 0 {
      assert a[..n][..n - 1] == a[..n - 1] && b[..n][..n - 1] == b[..n - 1];
      assert a[..n][n - 1] == a[n - 1] && b[..n][n - 1] == b[n - 1];
      BitDotPrefix(row, a, b, n - 1);
    }
  }

  lemma {:induction false} BlockDotPrefix(row: seq<bool>, a: seq<Block>, b: seq<Block>, n: nat)
    requires n <= |row| && n <= |a| && n <= |b| && a[..n] == b[..n]
    ensures BlockDot(row, a, n) == BlockDot(row, b, n)
  {
    if n > 0 {
      assert a[..n][..n - 1] == a[..n - 1] && b[..n][..n - 1] == b[..n - 1];
      assert a[..n][n - 1] == a[n - 1] && b[..n][n - 1] == b[n - 1];
      BlockDotPrefix(row, a, b, n - 1);
    }
  }

  /** decode for labels, in place in the output array. */
  method DecodeBlocks(k: KProbeMatrix, encoding: seq<Block>, input: array<Block>) returns (ok: bool)
    requires k.Valid() && input.Length == k.Rows()
    modifies input
    ensures ok <==> |encoding| == k.encodingSize
    ensures ok ==> input[..] == DecodedBlocks(k, encoding)
  {
    hide Block.Xor, Times;
    ok := |encoding| == k.encodingSize;
    if !ok { return; }
    var h := k.Free();
    for i := 0 to k.Rows()
      invariant forall l :: 0 <= l < i ==> input[l] == DecodedBlocks(k, encoding)[l]
    {
      input[i] := encoding[h + i];
      XorZero(encoding[h + i]);
      for j := 0 to h
        invariant forall l :: 0 <= l < i ==> input[l] == DecodedBlocks(k, encoding)[l]
        invariant input[i] == encoding[h + i].Xor(BlockDot(k.mtx[i], encoding, j))
      {
        XorAssociates(encoding[h + i], BlockDot(k.mtx[i], encoding, j), Times(k.mtx[i][j], encoding[j]));
        input[i] := input[i].Xor(Times(k.mtx[i][j], encoding[j]));
      }
    }
  }

  lemma XorAssociates(x: Block, y: Block, z: Block)
    ensures x.Xor(y).Xor(z) == x.Xor(y.Xor(z))
  {
    assert x.Xor(y).Xor(z).bits == x.Xor(y.Xor(z)).bits;
  }

  /** encode for labels: the encoding decodes to the original labels. */
  method EncodeBlocks(k: KProbeMatrix, labels: seq<Block>, random: seq<Block>) returns (encoded: seq<Block>)
    requires k.Valid() && |labels| == k.Rows() && |random| == k.encodingSize
    ensures |encoded| == k.encodingSize && DecodedBlocks(k, encoded) == labels
    ensures encoded[..k.Free()] == random[..k.Free()]
  {
    hide Block.Xor, Times;
    encoded := random;
    var h := k.Free();
    for i := 0 to k.Rows()
      invariant |encoded| == k.encodingSize && encoded[..h] == random[..h]
      invariant forall l :: 0 <= l < i ==> encoded[h + l] == labels[l].Xor(BlockDot(k.mtx[l], random, h))
    {
      encoded := encoded[h + i := labels[i]];
      XorZero(labels[i]);
      for j := 0 to h
        invariant |encoded| == k.encodingSize && encoded[..h] == random[..h]
        invariant forall l :: 0 <= l < i ==> encoded[h + l] == labels[l].Xor(BlockDot(k.mtx[l], random, h))
        invariant encoded[h + i] == labels[i].Xor(BlockDot(k.mtx[i], random, j))
      {
        XorAssociates(labels[i], BlockDot(k.mtx[i], random, j), Times(k.mtx[i][j], random[j]));
        assert encoded[..h][j] == random[..h][j];
        encoded := encoded[h + i := encoded[h + i].Xor(Times(k.mtx[i][j], encoded[j]))];
      }
    }
    forall i | 0 <= i < k.Rows()
      ensures DecodedBlocks(k, encoded)[i] == labels[i]
    {
      BlockDotPrefix(k.mtx[i], encoded, random, h);
      XorCancels(labels[i], BlockDot(k.mtx[i], random, h));
    }
  }
}
