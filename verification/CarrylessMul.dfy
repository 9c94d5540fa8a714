/** The 256-bit carry-less product of two blocks, from four 64-bit products. */
module CarrylessMul {
  import opened Blocks
  import opened Transpose
  import opened XorSums

  predicate BitAt(b: seq<bool>, j: int) {
    0 <= j < |b| && b[j]
  }

  /** Coefficient k of the product of the polynomials with coefficients a[..n] and b. */
  function Coef(a: seq<bool>, b: seq<bool>, k: int, n: nat): bool
    requires n <= |a|
  {
    if n == 0 then false else Coef(a, b, k, n - 1) != (a[n - 1] && BitAt(b, k - (n - 1)))
  }

  lemma {:induction false} CoefXor(x: seq<bool>, y: seq<bool>, b: seq<bool>, k: int, n: nat)
    requires |x| == |y| && n <= |x|
    ensures Coef(XorBits(x, y), b, k, n) == (Coef(x, b, k, n) != Coef(y, b, k, n))
  {
    if n > 0 { CoefXor(x, y, b, k, n - 1); }
  }

  lemma {:induction false} CoefPrefix(a: seq<bool>, c: seq<bool>, b: seq<bool>, k: int, n: nat)
    requires n <= |a|
    ensures Coef(a + c, b, k, n) == Coef(a, b, k, n)
  {
    if n > 0 { CoefPrefix(a, c, b, k, n - 1); }
  }

  lemma {:induction false} CoefJoinLeft(a: seq<bool>, c: seq<bool>, b: seq<bool>, k: int, n: nat)
    requires n <= |c|
    ensures Coef(a + c, b, k, |a| + n) == (Coef(a, b, k, |a|) != Coef(c, b, k - |a|, n))
  {
    if n == 0 {
      CoefPrefix(a, c, b, k, |a|);
    } else {
      CoefJoinLeft(a, c, b, k, n - 1);
    }
  }

  lemma {:induction false} CoefJoinRight(a: seq<bool>, b: seq<bool>, c: seq<bool>, k: int, n: nat)
    requires n <= |a|
    ensures Coef(a, b + c, k, n) == (Coef(a, b, k, n) != Coef(a, c, k - |b|, n))
  {
    if n > 0 { CoefJoinRight(a, b, c, k, n - 1); }
  }

  /** Coefficients outside the product's degree are zero. */
  lemma {:induction false} CoefOutside(a: seq<bool>, b: seq<bool>, k: int, n: nat)
    requires n <= |a| && (k < 0 || k >= n + |b| - 1)
    ensures !Coef(a, b, k, n)
  {
    if n > 0 && (k < 0 || k >= n - 1 + |b| - 1) { CoefOutside(a, b, k, n - 1); }
  }

  lemma {:induction false} CoefUnit(b: seq<bool>, x: bool, k: int, n: nat)
    requires n <= |b|
    ensures Coef(b, [x], k, n) == (x && 0 <= k < n && b[k])
  {
    if n > 0 { CoefUnit(b, x, k, n - 1); }
  }

  lemma {:induction false} CoefCommutes(a: seq<bool>, b: seq<bool>, k: int, n: nat)
    requires n <= |a|
    ensures Coef(a, b, k, n) == Coef(b, a[..n], k, |b|)
  {
    if n == 0 {
      NothingRight(b, k, |b|);
    } else {
      CoefCommutes(a, b, k, n - 1);
      assert a[..n] == a[..n - 1] + [a[n - 1]];
      CoefJoinRight(b, a[..n - 1], [a[n - 1]], k, |b|);
      CoefUnit(b, a[n - 1], k - (n - 1), |b|);
    }
  }

  lemma {:induction false} NothingRight(b: seq<bool>, k: int, n: nat)
    requires n <= |b|
    ensures !Coef(b, [], k, n)
  {
    if n > 0 { NothingRight(b, k, n - 1); }
  }

  /** The product's coefficients from position `from` on. */
  function ProductBits(a: Block, b: Block, from: nat): (r: Block)
    ensures forall k :: 0 <= k < 128 ==> r.bits[k] == Coef(a.bits, b.bits, from + k, 128)
  {
    Block(seq(128, k requires 0 <= k < 128 => Coef(a.bits, b.bits, from + k, 128)))
  }

  /** The carry-less product, low half first. */
  function Product(a: Block, b: Block): (Block, Block) {
    (ProductBits(a, b, 0), ProductBits(a, b, 128))
  }

  /** The processor's 64-bit carry-less multiplication. */
  function LaneProduct(x: Lane, y: Lane): (r: Block)
    ensures forall k :: 0 <= k < 128 ==> r.bits[k] == Coef(x, y, k, 64)
  {
    Block(seq(128, k requires 0 <= k < 128 => Coef(x, y, k, 64)))
  }

  /** Shifts a block up by eight bytes. */
  function UpLane(b: Block): (r: Block)
    ensures forall k :: 0 <= k < 128 ==> r.bits[k] == (k >= 64 && b.bits[k - 64])
  {
    Block(seq(128, k requires 0 <= k < 128 => k >= 64 && b.bits[k - 64]))
  }

  function DownLane(b: Block): (r: Block)
    ensures forall k :: 0 <= k < 128 ==> r.bits[k] == (k < 64 && b.bits[k + 64])
  {
    Block(seq(128, k requires 0 <= k < 128 => k < 64 && b.bits[k + 64]))
  }

  /** A coefficient of the product of two blocks, from their halves. */
  lemma CoefOfHalves(a: Block, b: Block, k: int)
    ensures Coef(a.bits, b.bits, k, 128) ==
            ((Coef(Low(a), Low(b), k, 64) != Coef(Low(a), High(b), k - 64, 64)) !=
             (Coef(High(a), Low(b), k - 64, 64) != Coef(High(a), High(b), k - 128, 64)))
  {
    var al: seq<bool>, ah: seq<bool>, bl: seq<bool>, bh: seq<bool> := Low(a), High(a), Low(b), High(b);
    assert a.bits == al + ah && b.bits == bl + bh;
    CoefJoinLeft(al, ah, bl + bh, k, 64);
    CoefJoinRight(al, bl, bh, k, 64);
    CoefJoinRight(ah, bl, bh, k - 64, 64);
  }

  /** mul128: four lane products, the middle two split over both halves. */
  method Mul128(a: Block, b: Block) returns (res1: Block, res2: Block)
    ensures (res1, res2) == Product(a, b)
  {
    var tmp3 := LaneProduct(Low(a), Low(b));
    var tmp4 := LaneProduct(Low(a), High(b));
    var tmp5 := LaneProduct(High(a), Low(b));
    var tmp6 := LaneProduct(High(a), High(b));
    tmp4 := tmp4.Xor(tmp5);
    tmp5 := UpLane(tmp4);
    tmp4 := DownLane(tmp4);
    res1 := tmp3.Xor(tmp5);
    res2 := tmp6.Xor(tmp4);
    hide Coef, LaneProduct, UpLane, DownLane, ProductBits;
    forall k | 0 <= k < 128
      ensures res1.bits[k] == Coef(a.bits, b.bits, k, 128) && res2.bits[k] == Coef(a.bits, b.bits, 128 + k, 128)
    {
      HalvesMeet(a, b, k);
    }
    assert res1.bits == ProductBits(a, b, 0).bits;
    assert res2.bits == ProductBits(a, b, 128).bits;
  }

  lemma HalvesMeet(a: Block, b: Block, k: nat)
    requires k < 128
    ensures Coef(a.bits, b.bits, k, 128) == (Coef(Low(a), Low(b), k, 64) !=
              (k >= 64 && (Coef(Low(a), High(b), k - 64, 64) != Coef(High(a), Low(b), k - 64, 64))))
    ensures Coef(a.bits, b.bits, 128 + k, 128) == (Coef(High(a), High(b), k, 64) !=
              (k < 64 && (Coef(Low(a), High(b), k + 64, 64) != Coef(High(a), Low(b), k + 64, 64))))
  {
    hide Coef;
    CoefOfHalves(a, b, k);
    CoefOfHalves(a, b, 128 + k);
    CoefOutside(High(a), High(b), k - 128, 64);
    CoefOutside(Low(a), Low(b), 128 + k, 64);
    if k < 64 {
      CoefOutside(Low(a), High(b), k - 64, 64);
      CoefOutside(High(a), Low(b), k - 64, 64);
    } else {
      CoefOutside(Low(a), High(b), k + 64, 64);
      CoefOutside(High(a), Low(b), k + 64, 64);
    }
  }

  function XorBoth(p: (Block, Block), q: (Block, Block)): (Block, Block) {
    (p.0.Xor(q.0), p.1.Xor(q.1))
  }

  lemma ProductXor(x: Block, y: Block, b: Block)
    ensures Product(x.Xor(y), b) == XorBoth(Product(x, b), Product(y, b))
  {
    hide Coef;
    forall k: int
      ensures Coef(x.Xor(y).bits, b.bits, k, 128) == (Coef(x.bits, b.bits, k, 128) != Coef(y.bits, b.bits, k, 128))
    {
      CoefXor(x.bits, y.bits, b.bits, k, 128);
    }
    assert ProductBits(x.Xor(y), b, 0).bits == ProductBits(x, b, 0).Xor(ProductBits(y, b, 0)).bits;
    assert ProductBits(x.Xor(y), b, 128).bits == ProductBits(x, b, 128).Xor(ProductBits(y, b, 128)).bits;
  }

  lemma ProductCommutes(a: Block, b: Block)
    ensures Product(a, b) == Product(b, a)
  {
    hide Coef;
    forall k: int
      ensures Coef(a.bits, b.bits, k, 128) == Coef(b.bits, a.bits, k, 128)
    {
      CoefCommutes(a.bits, b.bits, k, 128);
      assert a.bits[..128] == a.bits;
    }
    assert ProductBits(a, b, 0).bits == ProductBits(b, a, 0).bits;
    assert ProductBits(a, b, 128).bits == ProductBits(b, a, 128).bits;
  }

  lemma ProductZero(b: Block)
    ensures Product(ZERO_BLOCK, b) == (ZERO_BLOCK, ZERO_BLOCK)
  {
    XorZero(ZERO_BLOCK);
    ProductXor(ZERO_BLOCK, ZERO_BLOCK, b);
    var p := Product(ZERO_BLOCK, b);
    XorZero(p.0);
    XorZero(p.1);
  }

  // ---------------------------------------------------------------- what the product is

  /** The terms of coefficient k: pairs of coefficients whose degrees add up to it. */
  function CoefTerms(a: seq<bool>, b: seq<bool>, k: int, n: nat): (r: seq<bool>)
    requires n <= |a|
    ensures |r| == n && forall i :: 0 <= i < n ==> r[i] == (a[i] && BitAt(b, k - i))
  {
    seq(n, i requires 0 <= i < n => a[i] && BitAt(b, k - i))
  }

  /** A coefficient is set exactly if an odd number of its terms are. */
  lemma {:induction false} CoefIsParity(a: seq<bool>, b: seq<bool>, k: int, n: nat)
    requires n <= |a|
    ensures Coef(a, b, k, n) <==> IsOdd(CoefTerms(a, b, k, n))
  {
    hide IsOdd, BitAt;
    if n == 0 {
      OddNone();
      assert CoefTerms(a, b, k, n) == [];
    } else {
      CoefIsParity(a, b, k, n - 1);
      OddAppend(CoefTerms(a, b, k, n - 1), a[n - 1] && BitAt(b, k - (n - 1)));
      assert CoefTerms(a, b, k, n) == CoefTerms(a, b, k, n - 1) + [a[n - 1] && BitAt(b, k - (n - 1))];
    }
  }

  /** Bit k of the 256-bit result: the parity of the pairs of set bits at distance k. */
  lemma ProductBit(a: Block, b: Block, k: nat)
    requires k < 256
    ensures (Product(a, b).0.bits + Product(a, b).1.bits)[k] <==> IsOdd(CoefTerms(a.bits, b.bits, k, 128))
  {
    CoefIsParity(a.bits, b.bits, k, 128);
    hide Coef, IsOdd;
  }

  /** The monomial of degree i. */
  function Unit(i: nat): (r: Block)
    requires i < 128
    ensures forall k :: 0 <= k < 128 ==> r.bits[k] == (k == i)
  {
    Block(seq(128, k => k == i))
  }

  lemma {:induction false} CoefOfUnit(i: nat, b: seq<bool>, k: int, n: nat)
    requires i < 128 && n <= 128
    ensures Coef(Unit(i).bits, b, k, n) == (i < n && BitAt(b, k - i))
  {
    if n > 0 { CoefOfUnit(i, b, k, n - 1); }
  }

  /** Degrees add up, over both halves. */
  lemma ProductOfUnits(i: nat, j: nat)
    requires i < 128 && j < 128
    ensures Product(Unit(i), Unit(j)) ==
            if i + j < 128 then (Unit(i + j), ZERO_BLOCK) else (ZERO_BLOCK, Unit(i + j - 128))
  {
    hide Coef;
    var low, high := ProductBits(Unit(i), Unit(j), 0), ProductBits(Unit(i), Unit(j), 128);
    forall k | 0 <= k < 128
      ensures low.bits[k] == (k == i + j) && high.bits[k] == (k + 128 == i + j)
    {
      CoefOfUnit(i, Unit(j).bits, k, 128);
      CoefOfUnit(i, Unit(j).bits, 128 + k, 128);
    }
    if i + j < 128 {
      assert low.bits == Unit(i + j).bits && high.bits == ZERO_BLOCK.bits;
    } else {
      assert low.bits == ZERO_BLOCK.bits && high.bits == Unit(i + j - 128).bits;
    }
  }

  /** The degree of a block that is not zero. */
  ghost predicate IsDegree(b: Block, i: nat) {
    i < 128 && b.bits[i] && forall k :: i < k < 128 ==> !b.bits[k]
  }

  lemma ZeroIff(b: Block)
    ensures b == ZERO_BLOCK <==> forall k :: 0 <= k < 128 ==> !b.bits[k]
  {
    if forall k :: 0 <= k < 128 ==> !b.bits[k] { assert b.bits == ZERO_BLOCK.bits; }
  }

  lemma DegreeOf(b: Block) returns (i: nat)
    requires b != ZERO_BLOCK
    ensures IsDegree(b, i)
  {
    ZeroIff(b);
    var some :| 0 <= some < 128 && b.bits[some];
    i := 127;
    while !b.bits[i]
      decreases i
      invariant some <= i < 128 && forall k :: i < k < 128 ==> !b.bits[k]
    {
      i := i - 1;
    }
  }

  /** The coefficient at the sum of the degrees has one term. */
  lemma {:induction false} TopCoef(a: Block, b: Block, i: nat, j: nat, n: nat)
    requires IsDegree(a, i) && IsDegree(b, j) && n <= 128
    ensures Coef(a.bits, b.bits, i + j, n) == (i < n)
  {
    if n > 0 { TopCoef(a, b, i, j, n - 1); }
  }

  /** A product is zero exactly if a factor is. */
  lemma NoZeroDivisors(a: Block, b: Block)
    ensures Product(a, b) == (ZERO_BLOCK, ZERO_BLOCK) <==> a == ZERO_BLOCK || b == ZERO_BLOCK
  {
    hide Coef;
    if a == ZERO_BLOCK {
      ProductZero(b);
    } else if b == ZERO_BLOCK {
      ProductZero(a);
      ProductCommutes(a, b);
    } else {
      var i := DegreeOf(a);
      var j := DegreeOf(b);
      TopCoef(a, b, i, j, 128);
      if i + j < 128 {
        assert ProductBits(a, b, 0).bits[i + j] != ZERO_BLOCK.bits[i + j];
      } else {
        assert ProductBits(a, b, 128).bits[i + j - 128] != ZERO_BLOCK.bits[i + j - 128];
      }
    }
  }
}
