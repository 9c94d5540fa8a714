/**
  Bit sequences, and 128-bit blocks among them. Bit 0 is the lowest bit of byte 0, so the two
  64-bit lanes of a block are its bits 0..63 and 64..127.
 */
module Blocks {

  function Zeros(n: nat): (z: seq<bool>)
    ensures |z| == n && forall i :: 0 <= i < n ==> !z[i]
  {
    seq(n, i => false)
  }

  type Bits128 = b: seq<bool> | |b| == 128 witness Zeros(128)

  function XorBits(x: seq<bool>, y: seq<bool>): (z: seq<bool>)
    requires |x| == |y|
    ensures |z| == |x| && forall i :: 0 <= i < |x| ==> z[i] == (x[i] != y[i])
  {
    seq(|x|, i requires 0 <= i < |x| => x[i] != y[i])
  }

  datatype Block = Block(bits: Bits128) {

    function Xor(y: Block): Block {
      Block(XorBits(bits, y.bits))
    }

    /** The point-and-permute bit of a wire label. */
    predicate PermuteBit() {
      bits[0]
    }

    /** Shifts each 64-bit lane left by one. */
    function ShiftLanes(): Block {
      Block(seq(128, i requires 0 <= i < 128 => i % 64 != 0 && bits[i - 1]))
    }
  }

  const ZERO_BLOCK: Block := Block(Zeros(128))

  /** A block cipher: key, then plaintext. Only its being a function is used. */
  type Cipher = (Block, Block) -> Block

  /** A block cipher under a fixed key. */
  type Permutation = Block -> Block

  /** `zeroAndGlobalOffset[bit]`: zero, or the given block. */
  function Times(bit: bool, d: Block): Block {
    if bit then d else ZERO_BLOCK
  }

  function Pow2(k: nat): (p: nat)
    ensures p > 0
  {
    if k == 0 then 1 else 2 * Pow2(k - 1)
  }

  /** The low k bits of n. */
  function NatBits(n: nat, k: nat): (z: seq<bool>)
    ensures |z| == k
  {
    seq(k, i requires 0 <= i < k => (n / Pow2(i)) % 2 == 1)
  }

  /** The block with the given unsigned 64-bit lanes; each wraps at 2^64. */
  function FromLanes(low: nat, high: nat): Block {
    Block(NatBits(low, 64) + NatBits(high, 64))
  }

  lemma XorCancels(x: Block, y: Block)
    ensures x.Xor(y).Xor(y) == x && y.Xor(y.Xor(x)) == x && x.Xor(y) == y.Xor(x)
  {
    assert x.Xor(y).Xor(y).bits == x.bits;
    assert y.Xor(y.Xor(x)).bits == x.bits;
    assert x.Xor(y).bits == y.Xor(x).bits;
  }

  lemma XorZero(x: Block)
    ensures x.Xor(ZERO_BLOCK) == x && ZERO_BLOCK.Xor(x) == x && x.Xor(x) == ZERO_BLOCK
  {
    assert x.Xor(ZERO_BLOCK).bits == x.bits;
    assert ZERO_BLOCK.Xor(x).bits == x.bits;
    assert x.Xor(x).bits == ZERO_BLOCK.bits;
  }
}
