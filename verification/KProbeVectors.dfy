/** The k-probe code on bit vectors in their byte buffers. */
module KProbeVectors {
  import opened Blocks
  import opened BitVectors
  import opened KProbe

  /** The matrix's rows, each kept as a bit vector. */
  ghost predicate HoldsRows(k: KProbeMatrix, rows: seq<BitVector>)
    reads rows
  {
    k.Valid() && |rows| == k.Rows() && forall i :: 0 <= i < |rows| ==> rows[i].Valid() && rows[i].Bits() == k.mtx[i]
  }

  lemma {:induction false} SelectionParity(row: seq<bool>, bits: seq<bool>, h: nat, n: nat)
    requires n <= h <= |row| && h <= |bits|
    ensures Parity(AndBits(bits[..h], row[..h]), n) == BitDot(row, bits, n)
  {
    if n > 0 { SelectionParity(row, bits, h, n - 1); }
  }

  /** The parity of a row's selection from the free part of an encoding. */
  method ProjectedParity(row: BitVector, encoding: BitVector, h: nat) returns (parity: bool)
    requires row.Valid() && encoding.Valid() && h <= row.numBits && h <= encoding.numBits
    ensures parity == BitDot(row.Bits(), encoding.Bits(), h)
  {
    var projected := new BitVector.FromBytes(encoding.data, h);
    assert projected.Bits() == encoding.Bits()[..h];
    projected.AndWith(row);
    parity := projected.ParityOf();
    SelectionParity(row.Bits(), encoding.Bits(), h, h);
  }

  lemma RowAt(k: KProbeMatrix, rows: seq<BitVector>, i: nat)
    requires HoldsRows(k, rows) && i < k.Rows()
    ensures k.Valid() && |rows| == k.Rows() && rows[i].Valid() && rows[i].Bits() == k.mtx[i] && |k.mtx[i]| == k.Free()
  {
  }

  lemma RowsValid(k: KProbeMatrix, rows: seq<BitVector>)
    requires HoldsRows(k, rows)
    ensures k.Valid()
  {
  }

  /** One position of an encoding. */
  method EncodeBit(row: BitVector, encoding: BitVector, h: nat, i: nat, bit: bool)
    requires row.Valid() && encoding.Valid() && row != encoding && h <= row.numBits && h + i < encoding.numBits
    modifies encoding`data
    ensures encoding.Valid()
    ensures encoding.Bits() == old(encoding.Bits())[h + i := BitDot(row.Bits(), old(encoding.Bits()), h) != bit]
  {
    hide BufferBit;
    var parity := ProjectedParity(row, encoding, h);
    encoding.SetBit(h + i, parity != bit);
  }

  /**
    encode for bits: throws exactly on an input of the wrong size; otherwise the encoding has the random free
    positions and decodes to the input.
   */
  method EncodeBits(k: KProbeMatrix, rows: seq<BitVector>, input: BitVector, encoding: BitVector, random: seq<Byte>)
    returns (ok: bool)
    requires HoldsRows(k, rows) && input.Valid() && encoding.Valid() && encoding !in rows && encoding != input
    requires |random| == ByteCount(k.encodingSize)
    modifies encoding
    ensures ok <==> input.numBits == k.Rows()
    ensures !ok ==> unchanged(encoding)
    ensures ok ==>
      encoding.Valid() && encoding.numBits == k.encodingSize && DecodedBits(k, encoding.Bits()) == input.Bits()
    ensures ok ==> encoding.Bits()[..k.Free()] == (ByteCountBounds(k.encodingSize); BufferBits(random, 0, k.Free()))
  {
    hide BufferBit, HoldsRows, BitDot;
    RowsValid(k, rows);
    ByteCountBounds(k.encodingSize);
    if input.numBits != k.Rows() { return false; }
    var h := k.Free();
    encoding.Reset(k.encodingSize);
    encoding.Randomize(random);
    ghost var start := encoding.Bits();
    assert start[..h] == BufferBits(random, 0, h);
    for i := 0 to k.Rows()
      invariant encoding.Valid() && encoding.numBits == k.encodingSize && encoding.Bits()[..h] == start[..h]
      invariant EncodedSoFar(k, start, encoding.Bits(), input.Bits(), i)
    {
      RowAt(k, rows, i);
      BitDotPrefix(k.mtx[i], encoding.Bits(), start, h);
      var bit := input.GetBit(i);
      ghost var now := encoding.Bits();
      EncodeBit(rows[i], encoding, h, i, bit);
      EncodedOneMore(k, start, now, encoding.Bits(), input.Bits(), i);
    }
    EncodedDecodes(k, start, encoding.Bits(), input.Bits());
    ok := true;
  }

  /** The first n positions after the free ones are set so that the rows give the input's bits. */
  ghost predicate EncodedSoFar(k: KProbeMatrix, start: seq<bool>, encoding: seq<bool>, input: seq<bool>, n: nat)
    requires k.Valid() && |start| == |encoding| == k.encodingSize && |input| == k.Rows() && n <= k.Rows()
  {
    forall l :: 0 <= l < n ==> encoding[k.Free() + l] == (BitDot(k.mtx[l], start, k.Free()) != input[l])
  }

  lemma EncodedOneMore(k: KProbeMatrix, start: seq<bool>, before: seq<bool>, after: seq<bool>, input: seq<bool>, n: nat)
    requires k.Valid() && |start| == |before| == k.encodingSize && |input| == k.Rows() && n < k.Rows()
    requires EncodedSoFar(k, start, before, input, n)
    requires after == before[k.Free() + n := BitDot(k.mtx[n], start, k.Free()) != input[n]]
    ensures EncodedSoFar(k, start, after, input, n + 1) && after[..k.Free()] == before[..k.Free()]
  {
  }

  lemma EncodedDecodes(k: KProbeMatrix, start: seq<bool>, encoding: seq<bool>, input: seq<bool>)
    requires k.Valid() && |start| == |encoding| == k.encodingSize && |input| == k.Rows()
    requires EncodedSoFar(k, start, encoding, input, k.Rows()) && encoding[..k.Free()] == start[..k.Free()]
    ensures DecodedBits(k, encoding) == input
  {
    forall i | 0 <= i < k.Rows()
      ensures DecodedBits(k, encoding)[i] == input[i]
    {
      BitDotPrefix(k.mtx[i], encoding, start, k.Free());
    }
  }

  /** One position of a decoded input. */
  method DecodeBit(row: BitVector, encoding: BitVector, input: BitVector, h: nat, i: nat)
    requires row.Valid() && encoding.Valid() && input.Valid() && row != input && encoding != input
    requires h <= row.numBits && h + i < encoding.numBits && i < input.numBits
    modifies input`data
    ensures input.Valid()
    ensures input.Bits() == old(input.Bits())[i := encoding.Bits()[h + i] != BitDot(row.Bits(), encoding.Bits(), h)]
  {
    hide BufferBit, BitDot;
    ghost var before, r, e := input.Bits(), row.Bits(), encoding.Bits();
    var bit := encoding.GetBit(h + i);
    input.SetBit(i, bit);
    DotStarts(r, e);
    for j := 0 to h
      invariant input.Valid() && input.numBits == |before| && input.Bits() == before[i := e[h + i] != BitDot(r, e, j)]
    {
      var current := input.GetBit(i);
      var inRow := row.GetBit(j);
      var selected := encoding.GetBit(j);
      DotContinues(r, e, j);
      input.SetBit(i, current != (inRow && selected));
    }
  }

  lemma DotStarts(row: seq<bool>, bits: seq<bool>)
    ensures !BitDot(row, bits, 0)
  {
  }

  lemma DotContinues(row: seq<bool>, bits: seq<bool>, j: nat)
    requires j < |row| && j < |bits|
    ensures BitDot(row, bits, j + 1) == (BitDot(row, bits, j) != (row[j] && bits[j]))
  {
  }

  /** decode for bits, in place: throws exactly on an encoding of the wrong size. */
  method DecodeInto(k: KProbeMatrix, rows: seq<BitVector>, encoding: BitVector, input: BitVector) returns (ok: bool)
    requires HoldsRows(k, rows) && input.Valid() && encoding.Valid() && input !in rows && encoding != input
    modifies input
    ensures ok <==> encoding.numBits == k.encodingSize
    ensures !ok ==> unchanged(input)
    ensures ok ==> input.Valid() && input.Bits() == DecodedBits(k, encoding.Bits())
  {
    hide BufferBit, HoldsRows, BitDot;
    RowsValid(k, rows);
    if encoding.numBits != k.encodingSize { return false; }
    var h := k.Free();
    input.Reset(k.Rows());
    ghost var decoded := DecodedBits(k, encoding.Bits());
    for i := 0 to k.Rows()
      invariant input.Valid() && input.numBits == k.Rows() && input.Bits()[..i] == decoded[..i]
    {
      RowAt(k, rows, i);
      ghost var now := input.Bits();
      DecodeBit(rows[i], encoding, input, h, i);
      assert input.Bits()[..i + 1] == now[..i] + [decoded[i]] == decoded[..i + 1];
    }
    assert input.Bits() == input.Bits()[..k.Rows()] && decoded == decoded[..k.Rows()];
    ok := true;
  }

  /** The matrix's rows, each in a vector of its own. */
  method RowVectors(k: KProbeMatrix) returns (rows: seq<BitVector>)
    requires k.Valid()
    ensures HoldsRows(k, rows) && forall i :: 0 <= i < |rows| ==> fresh(rows[i])
  {
    rows := [];
    for i := 0 to k.Rows()
      invariant |rows| == i
      invariant forall l :: 0 <= l < i ==> fresh(rows[l]) && rows[l].Valid() && rows[l].Bits() == k.mtx[l]
    {
      var row := new BitVector.FromBits(k.mtx[i]);
      rows := rows + [row];
    }
  }

  /** decode for bits, on values: no result where the original throws, on an encoding of the wrong size. */
  method DecodeBits(k: KProbeMatrix, encoding: seq<bool>) returns (ok: bool, input: seq<bool>)
    requires k.Valid()
    ensures ok <==> |encoding| == k.encodingSize
    ensures ok ==> input == DecodedBits(k, encoding)
  {
    var rows := RowVectors(k);
    var encoded := new BitVector.FromBits(encoding);
    var decoded := new BitVector(0);
    ok := DecodeInto(k, rows, encoded, decoded);
    input := decoded.Bits();
  }

  /** Encoding and then decoding gives the input back, through the byte buffers. */
  method RoundTrip(k: KProbeMatrix, rows: seq<BitVector>, input: BitVector, encoding: BitVector, output: BitVector,
                   random: seq<Byte>)
    returns (ok: bool)
    requires HoldsRows(k, rows) && input.Valid() && encoding.Valid() && output.Valid()
    requires encoding !in rows && output !in rows && encoding != input && encoding != output && output != input
    requires |random| == ByteCount(k.encodingSize)
    modifies encoding, output
    ensures ok <==> input.numBits == k.Rows()
    ensures ok ==> output.Valid() && output.Bits() == input.Bits()
  {
    ok := EncodeBits(k, rows, input, encoding, random);
    if ok { ok := DecodeInto(k, rows, encoding, output); }
  }
}
