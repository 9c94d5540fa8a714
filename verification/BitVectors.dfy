/** Bit vectors kept in a byte buffer that grows, as the bit sequences that they stand for. */
module BitVectors {
  import opened Blocks
  import opened Wrappers
  import opened XorSums

  /** The eight bits of a byte, lowest first. */
  type Byte = b: seq<bool> | |b| == 8 witness Zeros(8)

  function AndBits(x: seq<bool>, y: seq<bool>): (z: seq<bool>)
    requires |x| == |y|
    ensures |z| == |x| && forall i :: 0 <= i < |x| ==> z[i] == (x[i] && y[i])
  {
    seq(|x|, i requires 0 <= i < |x| => x[i] && y[i])
  }

  const MAX_UINT64 := 0xFFFF_FFFF_FFFF_FFFF

  function ByteCount(bits: nat): nat {
    (bits + 7) / 8
  }

  lemma ByteCountBounds(bits: nat)
    ensures 8 * ByteCount(bits) - 8 < bits <= 8 * ByteCount(bits)
    ensures forall i :: 0 <= i < bits ==> i / 8 < ByteCount(bits)
  {
  }

  /** Bit i of a buffer. */
  function BufferBit(buffer: seq<Byte>, i: nat): bool
    requires i < 8 * |buffer|
  {
    buffer[i / 8][i % 8]
  }

  /** Bits offset up to offset + length of a buffer. */
  function BufferBits(buffer: seq<Byte>, offset: nat, length: nat): (bits: seq<bool>)
    requires offset + length <= 8 * |buffer|
    ensures |bits| == length && forall i :: 0 <= i < length ==> bits[i] == BufferBit(buffer, offset + i)
  {
    seq(length, i requires 0 <= i < length => BufferBit(buffer, offset + i))
  }

  function Parity(bits: seq<bool>, n: nat): bool
    requires n <= |bits|
  {
    if n == 0 then false else Parity(bits, n - 1) != bits[n - 1]
  }

  lemma {:induction false} ParityIsOdd(bits: seq<bool>, n: nat)
    requires n <= |bits|
    ensures Parity(bits, n) <==> IsOdd(bits[..n])
  {
    hide IsOdd;
    if n == 0 {
      OddNone();
      assert bits[..n] == [];
    } else {
      ParityIsOdd(bits, n - 1);
      OddAppend(bits[..n - 1], bits[n - 1]);
      assert bits[..n] == bits[..n - 1] + [bits[n - 1]];
    }
  }

  lemma AllBitsParity(bits: seq<bool>)
    ensures Parity(bits, |bits|) <==> IsOdd(bits)
  {
    ParityIsOdd(bits, |bits|);
    assert bits[..|bits|] == bits;
  }

  /** How many leading bits equals looks at: all of them, except that it skips a last byte that is full. */
  function Compared(numBits: nat): (n: nat)
    requires numBits > 0
    ensures n <= numBits && (n == numBits <==> numBits % 8 != 0)
  {
    if numBits % 8 == 0 then numBits - 8 else numBits
  }

  lemma BitOfByte(buffer: seq<Byte>, i: nat, j: nat)
    requires i < |buffer| && j < 8
    ensures BufferBit(buffer, 8 * i + j) == buffer[i][j]
  {
  }

  lemma BitSet(buffer: seq<Byte>, i: nat, bit: bool, k: nat)
    requires i < 8 * |buffer| && k < 8 * |buffer|
    ensures BufferBit(buffer[i / 8 := buffer[i / 8][i % 8 := bit]], k) == if k == i then bit else BufferBit(buffer, k)
  {
    if k / 8 == i / 8 && k % 8 == i % 8 { assert k == i; }
  }

  /** The bits depend on the bytes that hold them only. */
  lemma SameBytes(a: seq<Byte>, b: seq<Byte>, n: nat)
    requires n <= |a| && n <= |b| && a[..n] == b[..n]
    ensures forall k :: 0 <= k < 8 * n ==> BufferBit(a, k) == BufferBit(b, k)
  {
    forall k | 0 <= k < 8 * n
      ensures BufferBit(a, k) == BufferBit(b, k)
    {
      assert a[..n][k / 8] == b[..n][k / 8];
    }
  }

  lemma ShiftedBytes(a: seq<Byte>, b: seq<Byte>, d: nat, s: nat, n: nat, k: nat)
    requires d + n <= |a| && s + n <= |b| && a[d..d + n] == b[s..s + n] && k < 8 * n
    ensures BufferBit(a, 8 * d + k) == BufferBit(b, 8 * s + k)
  {
    assert a[d..d + n][k / 8] == b[s..s + n][k / 8];
  }

  lemma CombinedBit(a: seq<Byte>, b: seq<Byte>, c: seq<Byte>, n: nat, k: nat)
    requires n <= |a| && n <= |b| && n <= |c| && k < 8 * n
    ensures (forall i :: 0 <= i < n ==> c[i] == XorBits(a[i], b[i])) ==>
      BufferBit(c, k) == (BufferBit(a, k) != BufferBit(b, k))
    ensures (forall i :: 0 <= i < n ==> c[i] == AndBits(a[i], b[i])) ==>
      BufferBit(c, k) == (BufferBit(a, k) && BufferBit(b, k))
  {
  }

  class BitVector {
    var data: seq<Byte>
    var numBits: nat

    /** The buffer has room for the bits; its length is mAllocBytes. */
    ghost predicate Valid()
      reads this
    {
      ByteCount(numBits) <= |data|
    }

    function Bits(): (bits: seq<bool>)
      requires Valid()
      reads this
      ensures |bits| == numBits && forall i :: 0 <= i < numBits ==> i < 8 * |data| && bits[i] == BufferBit(data, i)
    {
      ByteCountBounds(numBits);
      BufferBits(data, 0, numBits)
    }

    constructor (n: nat)
      ensures Valid() && Bits() == Zeros(n)
    {
      data, numBits := seq(ByteCount(n), _ => Zeros(8)), n;
      new;
      assert Bits() == Zeros(n);
    }

    /** The first length bits of a buffer. */
    constructor FromBytes(source: seq<Byte>, length: nat)
      requires length <= 8 * |source|
      ensures Valid() && Bits() == BufferBits(source, 0, length)
    {
      data, numBits := [], 0;
      new;
      Append(source, length, 0);
    }

    /** The given bits, one after the other. */
    constructor FromBits(bits: seq<bool>)
      ensures Valid() && Bits() == bits
    {
      data, numBits := seq(ByteCount(|bits|), _ => Zeros(8)), |bits|;
      new;
      for i := 0 to |bits|
        invariant Valid() && numBits == |bits| && Bits()[..i] == bits[..i]
      {
        ghost var before := Bits();
        SetBit(i, bits[i]);
        assert Bits()[..i + 1] == before[..i] + [bits[i]] == bits[..i + 1];
      }
      assert Bits() == Bits()[..|bits|] && bits == bits[..|bits|];
    }

    /** Fills the bytes in use. */
    method Randomize(bytes: seq<Byte>)
      requires Valid() && |bytes| == ByteCount(numBits)
      modifies `data
      ensures Valid() && |Bits()| == numBits && (ByteCountBounds(numBits); Bits() == BufferBits(bytes, 0, numBits))
    {
      ByteCountBounds(numBits);
      data := bytes + data[|bytes|..];
      SameBytes(data, bytes, |bytes|);
      assert Bits() == BufferBits(bytes, 0, numBits);
    }

    /** All bits zero, in the old buffer if it is large enough. */
    method Reset(n: nat)
      requires Valid()
      modifies this
      ensures Valid() && Bits() == Zeros(n)
    {
      var newSize := ByteCount(n);
      if newSize > |data| {
        data := seq(newSize, _ => Zeros(8));
      } else {
        for i := 0 to newSize
          modifies `data
          invariant |data| == old(|data|) && forall k :: 0 <= k < i ==> data[k] == Zeros(8)
        {
          data := data[i := Zeros(8)];
        }
      }
      numBits := n;
      forall k | 0 <= k < n
        ensures !Bits()[k]
      {
        ByteCountBounds(n);
      }
      assert Bits() == Zeros(n);
    }

    /** Keeps the bits that fit; what a longer vector holds beyond them is left open. */
    method Resize(newSize: nat)
      requires Valid()
      modifies this
      ensures Valid() && numBits == newSize
      ensures forall i :: 0 <= i < newSize && i < old(numBits) ==> Bits()[i] == old(Bits())[i]
    {
      var newBytes := ByteCount(newSize);
      ByteCountBounds(numBits);
      if |data| < newBytes {
        var tmp: seq<Byte> := seq(newBytes, _ => Zeros(8));
        var used := ByteCount(numBits);
        for i := 0 to used
          invariant |tmp| == newBytes && tmp[..i] == data[..i]
        {
          tmp := tmp[i := data[i]];
        }
        SameBytes(tmp, data, used);
        data := tmp;
      }
      numBits := newSize;
    }

    /** Room for more bits, and the same vector. */
    method Reserve(bits: nat)
      requires Valid() && bits >= numBits
      modifies this
      ensures Valid() && Bits() == old(Bits()) && ByteCount(bits) <= |data|
    {
      var curBits := numBits;
      ghost var before := Bits();
      Resize(bits);
      SmallerCount(curBits, bits);
      ghost var grown := Bits();
      numBits := curBits;
      forall k | 0 <= k < curBits
        ensures Bits()[k] == before[k]
      {
        assert Bits()[k] == grown[k];
      }
      assert Bits() == before;
    }

    /** operator[] with assignment: one bit changes. */
    method SetBit(i: nat, bit: bool)
      requires Valid() && i < numBits
      modifies `data
      ensures |data| == old(|data|) && Bits() == old(Bits())[i := bit]
    {
      ghost var before := Bits();
      ghost var buffer := data;
      data := data[i / 8 := data[i / 8][i % 8 := bit]];
      hide BufferBit;
      forall k | 0 <= k < numBits
        ensures Bits()[k] == before[i := bit][k]
      {
        assert before[k] == BufferBit(buffer, k);
        BitSet(buffer, i, bit, k);
      }
    }

    method GetBit(i: nat) returns (bit: bool)
      requires Valid() && i < numBits
      ensures bit == Bits()[i]
    {
      assert Bits()[i] == BufferBit(data, i);
      bit := data[i / 8][i % 8];
    }

    /** Appends length bits of a buffer from a bit offset: byte by byte if both ends are aligned, else bit by bit. */
    method Append(source: seq<Byte>, length: nat, offset: nat)
      requires Valid() && offset + length <= 8 * |source|
      modifies this
      ensures Valid() && Bits() == old(Bits()) + BufferBits(source, offset, length)
    {
      hide BufferBit;
      var bitIdx := numBits;
      ghost var before := Bits();
      Resize(numBits + length);
      assert Bits()[..bitIdx] == before;
      if offset % 8 != 0 || bitIdx % 8 != 0 {
        AppendBits(source, length, offset, bitIdx);
      } else {
        CopyBytes(source, bitIdx / 8, offset / 8, length);
      }
      assert Bits() == Bits()[..bitIdx] + Bits()[bitIdx..];
    }

    /** The shifting case. */
    method AppendBits(source: seq<Byte>, length: nat, offset: nat, bitIdx: nat)
      requires Valid() && offset + length <= 8 * |source| && numBits == bitIdx + length
      modifies `data
      ensures Valid() && Bits()[..bitIdx] == old(Bits())[..bitIdx]
      ensures Bits()[bitIdx..] == BufferBits(source, offset, length)
    {
      ghost var wanted := BufferBits(source, offset, length);
      for i := 0 to length
        invariant Valid() && Bits()[..bitIdx] == old(Bits())[..bitIdx] && Bits()[bitIdx..bitIdx + i] == wanted[..i]
      {
        var bit := source[(offset + i) / 8][(offset + i) % 8];
        assert bit == wanted[i];
        ghost var now := Bits();
        SetBit(bitIdx + i, bit);
        assert Bits()[bitIdx..bitIdx + i + 1] == now[bitIdx..bitIdx + i] + [bit];
        assert Bits()[..bitIdx] == now[..bitIdx];
        assert wanted[..i + 1] == wanted[..i] + [bit];
      }
      assert Bits()[bitIdx..] == Bits()[bitIdx..bitIdx + length];
    }

    /** The aligned case, as memcpy. */
    method CopyBytes(source: seq<Byte>, destIdx: nat, srcIdx: nat, length: nat)
      requires Valid() && numBits == 8 * destIdx + length && 8 * srcIdx + length <= 8 * |source|
      modifies `data
      ensures Valid()
      ensures Bits()[..8 * destIdx] == old(Bits())[..8 * destIdx]
      ensures Bits()[8 * destIdx..] == BufferBits(source, 8 * srcIdx, length)
    {
      hide BufferBit;
      ghost var buffer, before := data, Bits();
      var byteLength := ByteCount(length);
      ByteCountBounds(length);
      for i := 0 to byteLength
        invariant |data| == |buffer| && data[..destIdx] == buffer[..destIdx]
        invariant data[destIdx..destIdx + i] == source[srcIdx..srcIdx + i]
      {
        ghost var now := data;
        data := data[destIdx + i := source[srcIdx + i]];
        assert data[destIdx..destIdx + i + 1] == now[destIdx..destIdx + i] + [source[srcIdx + i]];
        assert source[srcIdx..srcIdx + i + 1] == source[srcIdx..srcIdx + i] + [source[srcIdx + i]];
      }
      SameBytes(data, buffer, destIdx);
      forall k | 0 <= k < 8 * destIdx
        ensures Bits()[k] == before[k]
      {
        assert Bits()[k] == BufferBit(data, k) && before[k] == BufferBit(buffer, k);
      }
      forall k | 0 <= k < length
        ensures Bits()[8 * destIdx..][k] == BufferBits(source, 8 * srcIdx, length)[k]
      {
        ShiftedBytes(data, source, destIdx, srcIdx, byteLength, k);
      }
    }

    /** Bits idx up to idx + length of another vector. */
    method Copy(src: BitVector, idx: nat, length: nat)
      requires Valid() && src.Valid() && src != this && idx + length <= src.numBits
      modifies this
      ensures Valid() && Bits() == src.Bits()[idx..idx + length]
    {
      ByteCountBounds(src.numBits);
      Resize(0);
      Append(src.data, length, idx);
      assert Bits() == src.Bits()[idx..idx + length];
    }

    /** Combines bytes of the buffer with those of a vector that is at least as long. */
    method AndWith(a: BitVector)
      requires Valid() && a.Valid() && a != this && a.numBits >= numBits
      modifies `data
      ensures Valid() && Bits() == AndBits(old(Bits()), a.Bits()[..numBits])
    {
      hide BufferBit;
      ghost var buffer, before := data, Bits();
      var n := ByteCount(numBits);
      SmallerCount(numBits, a.numBits);
      for i := 0 to n
        invariant |data| == |buffer| && (forall k :: i <= k < |data| ==> data[k] == buffer[k])
        invariant forall k :: 0 <= k < i ==> data[k] == AndBits(buffer[k], a.data[k])
      {
        data := data[i := AndBits(data[i], a.data[i])];
      }
      ByteCountBounds(numBits);
      forall k | 0 <= k < numBits
        ensures Bits()[k] == AndBits(before, a.Bits()[..numBits])[k]
      {
        CombinedBit(buffer, a.data, data, n, k);
        assert Bits()[k] == BufferBit(data, k) && before[k] == BufferBit(buffer, k)
          && a.Bits()[k] == BufferBit(a.data, k);
      }
    }

    method XorWith(a: BitVector)
      requires Valid() && a.Valid() && a != this && a.numBits == numBits
      modifies `data
      ensures Valid() && Bits() == XorBits(old(Bits()), a.Bits())
    {
      hide BufferBit;
      ghost var buffer, before := data, Bits();
      var n := ByteCount(numBits);
      for i := 0 to n
        invariant |data| == |buffer| && (forall k :: i <= k < |data| ==> data[k] == buffer[k])
        invariant forall k :: 0 <= k < i ==> data[k] == XorBits(buffer[k], a.data[k])
      {
        data := data[i := XorBits(data[i], a.data[i])];
      }
      ByteCountBounds(numBits);
      forall k | 0 <= k < numBits
        ensures Bits()[k] == XorBits(before, a.Bits())[k]
      {
        CombinedBit(buffer, a.data, data, n, k);
        assert Bits()[k] == BufferBit(data, k) && before[k] == BufferBit(buffer, k)
          && a.Bits()[k] == BufferBit(a.data, k);
      }
    }

    /**
      Full bytes first, then the last byte under a mask of numBits % 8 bits, which is empty when the byte is full. The
      last byte of an empty vector is the largest 64-bit number: None where the comparison leaves a buffer.
     */
    method Equals(rhs: BitVector) returns (same: Option<bool>)
      requires Valid() && rhs.Valid() && rhs.numBits == numBits && |data| <= MAX_UINT64 && |rhs.data| <= MAX_UINT64
      ensures same == None <==> numBits == 0 && forall i :: 0 <= i < |data| && i < |rhs.data| ==> data[i] == rhs.data[i]
      ensures same.Some? ==>
        (same.value <==> numBits > 0 && Bits()[..Compared(numBits)] == rhs.Bits()[..Compared(numBits)])
    {
      hide BufferBit;
      ByteCountBounds(numBits);
      var lastByte: nat := if numBits == 0 then MAX_UINT64 else ByteCount(numBits) - 1;
      for i := 0 to lastByte
        invariant i <= |data| && i <= |rhs.data| && data[..i] == rhs.data[..i]
      {
        if i == |data| || i == |rhs.data| { return None; }
        if data[i] != rhs.data[i] {
          if numBits > 0 {
            LastByte(numBits, lastByte, numBits % 8);
            Differ(data, rhs.data, i, 8);
          }
          return Some(false);
        }
      }
      if lastByte >= |data| || lastByte >= |rhs.data| { return None; }
      var equal := EqualLast(rhs, lastByte);
      same := Some(equal);
    }

    /** The last byte of a vector that has one. */
    method EqualLast(rhs: BitVector, lastByte: nat) returns (same: bool)
      requires Valid() && rhs.Valid() && rhs.numBits == numBits > 0 && lastByte == ByteCount(numBits) - 1
      requires data[..lastByte] == rhs.data[..lastByte]
      ensures same <==> Bits()[..Compared(numBits)] == rhs.Bits()[..Compared(numBits)]
    {
      hide BufferBit;
      ByteCountBounds(numBits);
      var rem := numBits % 8;
      LastByte(numBits, lastByte, rem);
      if data[lastByte][..rem] != rhs.data[lastByte][..rem] {
        Differ(data, rhs.data, lastByte, rem);
        return false;
      }
      SameBytes(data, rhs.data, lastByte);
      forall k | 0 <= k < Compared(numBits)
        ensures Bits()[k] == rhs.Bits()[k]
      {
        if k >= 8 * lastByte {
          var j := k - 8 * lastByte;
          BitOfByte(data, lastByte, j);
          BitOfByte(rhs.data, lastByte, j);
          assert data[lastByte][..rem][j] == rhs.data[lastByte][..rem][j];
        }
      }
      same := true;
    }

    /** The parity of the bits, full bytes eight at a time and then the rest. */
    method ParityOf() returns (parity: bool)
      requires Valid()
      ensures parity == Parity(Bits(), numBits) && (parity <==> IsOdd(Bits()))
    {
      hide BufferBit, IsOdd;
      ByteCountBounds(numBits);
      parity := false;
      var lastByte := numBits / 8;
      for i := 0 to lastByte
        invariant parity == Parity(Bits(), 8 * i)
      {
        parity := AddByte(i, 8, parity);
      }
      parity := AddByte(lastByte, numBits - lastByte * 8, parity);
      AllBitsParity(Bits());
    }

    method AddByte(i: nat, n: nat, start: bool) returns (parity: bool)
      requires Valid() && n <= 8 && 8 * i + n <= numBits && start == Parity(Bits(), 8 * i)
      ensures parity == Parity(Bits(), 8 * i + n)
    {
      hide BufferBit;
      parity := start;
      for j := 0 to n
        invariant parity == Parity(Bits(), 8 * i + j)
      {
        BitOfByte(data, i, j);
        assert Bits()[8 * i + j] == data[i][j];
        parity := parity != data[i][j];
      }
    }
  }

  lemma Differ(a: seq<Byte>, b: seq<Byte>, i: nat, n: nat)
    requires i < |a| && i < |b| && n <= 8 && a[i][..n] != b[i][..n]
    ensures exists k :: 8 * i <= k < 8 * i + n && BufferBit(a, k) != BufferBit(b, k)
  {
    var j :| 0 <= j < n && a[i][j] != b[i][j];
    BitOfByte(a, i, j);
    BitOfByte(b, i, j);
  }

  lemma SmallerCount(a: nat, b: nat)
    requires a <= b
    ensures ByteCount(a) <= ByteCount(b)
  {
  }

  lemma LastByte(numBits: nat, lastByte: nat, rem: nat)
    requires numBits > 0 && lastByte == ByteCount(numBits) - 1 && rem == numBits % 8
    ensures Compared(numBits) == 8 * lastByte + rem
  {
  }

  /** equals decides equality of vectors of this size if and only if the last byte is not full. */
  lemma EqualsIsEqualityIff(numBits: nat)
    requires numBits > 0
    ensures (forall a: seq<bool>, b: seq<bool> ::
             |a| == |b| == numBits && a[..Compared(numBits)] == b[..Compared(numBits)] ==> a == b)
            <==> numBits % 8 != 0
  {
    if numBits % 8 == 0 {
      var a := Zeros(numBits);
      var b := a[numBits - 1 := true];
      assert a[..Compared(numBits)] == b[..Compared(numBits)] && a[numBits - 1] != b[numBits - 1];
    } else {
      forall a: seq<bool>, b: seq<bool> | |a| == |b| == numBits && a[..Compared(numBits)] == b[..Compared(numBits)]
        ensures a == b
      {
        assert a[..numBits] == a && b[..numBits] == b;
      }
    }
  }
}
