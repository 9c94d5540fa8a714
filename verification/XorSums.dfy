/** Exclusive-or over a list: every running sum in the code is one, and its bits are parities of counts. */
module XorSums {
  import opened Blocks

  /** The positions of the ones. */
  ghost function Ones(bits: seq<bool>): (r: set<nat>)
    ensures forall i: nat :: i in r <==> i < |bits| && bits[i]
  {
    set i: nat | i < |bits| && bits[i]
  }

  /** An odd number of the bits are ones. */
  ghost predicate IsOdd(bits: seq<bool>) {
    |Ones(bits)| % 2 == 1
  }

  lemma OddAppend(bits: seq<bool>, bit: bool)
    ensures IsOdd(bits + [bit]) == (IsOdd(bits) != bit)
  {
    assert Ones(bits + [bit]) == if bit then Ones(bits) + {|bits|} else Ones(bits);
  }

  lemma OddNone()
    ensures !IsOdd([])
  {
    assert Ones([]) == {};
  }

  /** Bit k of every term. */
  function Column(terms: seq<Block>, k: nat): (r: seq<bool>)
    requires k < 128
    ensures |r| == |terms| && forall i :: 0 <= i < |r| ==> r[i] == terms[i].bits[k]
  {
    seq(|terms|, i requires 0 <= i < |terms| => terms[i].bits[k])
  }

  /** The exclusive-or of all terms, added up from the first. */
  function XorOver(terms: seq<Block>): Block {
    if terms == [] then ZERO_BLOCK else XorOver(terms[..|terms| - 1]).Xor(terms[|terms| - 1])
  }

  /** Bit k of the sum is set exactly if an odd number of the terms have it. */
  lemma {:induction false} XorOverBit(terms: seq<Block>, k: nat)
    requires k < 128
    ensures XorOver(terms).bits[k] <==> IsOdd(Column(terms, k))
  {
    hide IsOdd;
    if terms == [] {
      OddNone();
      assert Column(terms, k) == [];
    } else {
      var n := |terms| - 1;
      XorOverBit(terms[..n], k);
      OddAppend(Column(terms[..n], k), terms[n].bits[k]);
      assert Column(terms, k) == Column(terms[..n], k) + [terms[n].bits[k]];
    }
  }

  lemma XorOverOne(term: Block)
    ensures XorOver([term]) == term
  {
    assert [term][..0] == [];
    XorZero(term);
  }

  lemma XorOverAppend(terms: seq<Block>, term: Block)
    ensures XorOver(terms + [term]) == XorOver(terms).Xor(term)
  {
    assert (terms + [term])[..|terms|] == terms;
  }

  /** The sum over the first n terms, for running sums. */
  lemma XorOverPrefix(terms: seq<Block>, n: nat)
    requires n <= |terms|
    ensures XorOver(terms[..n]) == if n == 0 then ZERO_BLOCK else XorOver(terms[..n - 1]).Xor(terms[n - 1])
  {
    if n > 0 { assert terms[..n][..n - 1] == terms[..n - 1]; }
  }

  /** The sum over a list in two parts is the sum of the two sums. */
  lemma {:induction false} XorOverConcat(a: seq<Block>, b: seq<Block>)
    ensures XorOver(a + b) == XorOver(a).Xor(XorOver(b))
  {
    if b == [] {
      assert a + b == a;
      XorZero(XorOver(a));
    } else {
      var n := |b| - 1;
      XorOverConcat(a, b[..n]);
      assert a + b == a + b[..n] + [b[n]];
      XorOverAppend(a + b[..n], b[n]);
      XorGroups(XorOver(a), XorOver(b[..n]), b[n]);
    }
  }

  lemma XorGroups(x: Block, y: Block, z: Block)
    ensures x.Xor(y).Xor(z) == x.Xor(y.Xor(z)) && x.Xor(y).Xor(z) == x.Xor(z).Xor(y)
  {
    assert x.Xor(y).Xor(z).bits == x.Xor(y.Xor(z)).bits;
    assert x.Xor(y).Xor(z).bits == x.Xor(z).Xor(y).bits;
  }

  /** Replacing one term changes the sum by the difference of the two. */
  lemma {:induction false} XorOverReplace(terms: seq<Block>, i: nat, term: Block)
    requires i < |terms|
    ensures XorOver(terms[i := term]) == XorOver(terms).Xor(terms[i].Xor(term))
  {
    var n := |terms| - 1;
    if i == n {
      assert terms[i := term][..n] == terms[..n];
      ReplaceLast(XorOver(terms[..n]), terms[n], term);
    } else {
      XorOverReplace(terms[..n], i, term);
      assert terms[i := term][..n] == terms[..n][i := term];
      XorGroups(XorOver(terms[..n]), terms[i].Xor(term), terms[n]);
    }
  }

  lemma ReplaceLast(x: Block, y: Block, z: Block)
    ensures x.Xor(z) == x.Xor(y).Xor(y.Xor(z))
  {
    assert x.Xor(z).bits == x.Xor(y).Xor(y.Xor(z)).bits;
  }

  /** Sums of lists of one length add up term by term. */
  lemma {:induction false} XorOverSum(a: seq<Block>, b: seq<Block>)
    requires |a| == |b|
    ensures XorOver(a).Xor(XorOver(b)) == XorOver(seq(|a|, i requires 0 <= i < |a| => a[i].Xor(b[i])))
  {
    var sum := seq(|a|, i requires 0 <= i < |a| => a[i].Xor(b[i]));
    if a == [] {
      XorZero(ZERO_BLOCK);
    } else {
      var n := |a| - 1;
      XorOverSum(a[..n], b[..n]);
      assert sum[..n] == seq(n, i requires 0 <= i < n => a[..n][i].Xor(b[..n][i]));
      var x, y, z, w := XorOver(a[..n]), XorOver(b[..n]), a[n], b[n];
      assert x.Xor(z).Xor(y.Xor(w)).bits == x.Xor(y).Xor(z.Xor(w)).bits;
    }
  }

  lemma {:induction false} XorOverZeros(terms: seq<Block>)
    requires forall i :: 0 <= i < |terms| ==> terms[i] == ZERO_BLOCK
    ensures XorOver(terms) == ZERO_BLOCK
  {
    if terms != [] {
      XorOverZeros(terms[..|terms| - 1]);
      XorZero(ZERO_BLOCK);
    }
  }

  /** Two blocks are equal exactly if their sum is zero. */
  lemma XorIsZeroIff(x: Block, y: Block)
    ensures x.Xor(y) == ZERO_BLOCK <==> x == y
  {
    XorZero(x);
    if x.Xor(y) == ZERO_BLOCK {
      forall k | 0 <= k < 128
        ensures x.bits[k] == y.bits[k]
      {
        assert x.Xor(y).bits[k] == ZERO_BLOCK.bits[k];
      }
      assert x.bits == y.bits;
    }
  }
}
