/** Extending 128 base transfers to any number: both parties' block loops, and the correlation check. */
module OTExtension {
  import opened Blocks
  import opened Transpose
  import opened CarrylessMul
  import opened XorSums

  /** The generators' output blocks, the message hash and the seed commitment, as functions. */
  datatype Primitives = Primitives(stream: (Block, nat) -> Block, hash: Block -> Block, commit: Block -> seq<bool>)

  type BaseKeys = k: seq<(Block, Block)> | |k| == 128 witness seq(128, _ => (ZERO_BLOCK, ZERO_BLOCK))

  function Min(a: nat, b: nat): nat {
    if a < b then a else b
  }

  /** Rounded up to whole blocks, plus one block for the check. */
  function Extended(otCount: nat): (n: nat)
    ensures n % 128 == 0 && otCount + 128 <= n < otCount + 256
  {
    (otCount + 127) / 128 * 128 + 128
  }

  function ChoiceBlock(choices: seq<bool>, blk: nat): Block
    requires 128 * blk + 128 <= |choices|
  {
    Block(choices[128 * blk..128 * blk + 128])
  }

  /** Column c of the receiver's masking matrix, within a block. */
  function MaskColumns(p: Primitives, base: BaseKeys, blk: nat): (m: Matrix)
    ensures forall c :: 0 <= c < 128 ==> m[c] == p.stream(base[c].0, blk)
  {
    var m: seq<Block> := seq(128, c requires 0 <= c < 128 => p.stream(base[c].0, blk));
    m
  }

  /** What the receiver sends for a block. */
  function Corrections(p: Primitives, base: BaseKeys, choice: Block, blk: nat): (m: Matrix)
    ensures forall c :: 0 <= c < 128 ==> m[c] == p.stream(base[c].1, blk).Xor(p.stream(base[c].0, blk).Xor(choice))
  {
    var m: seq<Block> :=
      seq(128, c requires 0 <= c < 128 => p.stream(base[c].1, blk).Xor(p.stream(base[c].0, blk).Xor(choice)));
    m
  }

  /** The sender's columns for a block: its base keys' output, corrected where its base choice is 1. */
  function SenderColumns(p: Primitives, keys: Matrix, delta: Block, u: Matrix, blk: nat): (m: Matrix)
    ensures forall c :: 0 <= c < 128 ==>
      m[c] == if delta.bits[c] then p.stream(keys[c], blk).Xor(u[c]) else p.stream(keys[c], blk)
  {
    var m: seq<Block> := seq(128, c requires 0 <= c < 128 =>
      if delta.bits[c] then p.stream(keys[c], blk).Xor(u[c]) else p.stream(keys[c], blk));
    m
  }

  /** Row r of the transposed matrix. */
  function Row(m: Matrix, r: nat): (b: Block)
    requires r < 128
    ensures forall c :: 0 <= c < 128 ==> b.bits[c] == m[c].bits[r]
  {
    Block(seq(128, c requires 0 <= c < 128 => m[c].bits[r]))
  }

  lemma TransposedRow(m: Matrix, t: Matrix, r: nat)
    requires IsTranspose(m, t) && r < 128
    ensures t[r] == Row(m, r)
  {
    assert t[r].bits == Row(m, r).bits;
  }

  /** The sender holds one key of each base transfer, chosen by its offset's bits. */
  ghost predicate BaseTransferred(base: BaseKeys, keys: Matrix, delta: Block) {
    forall c :: 0 <= c < 128 ==> keys[c] == if delta.bits[c] then base[c].1 else base[c].0
  }

  /** With the receiver's corrections, the sender's row is the receiver's, plus the offset where the choice is 1. */
  lemma RowsCorrelate(p: Primitives, base: BaseKeys, keys: Matrix, delta: Block, choice: Block, blk: nat, r: nat)
    requires BaseTransferred(base, keys, delta) && r < 128
    ensures Row(SenderColumns(p, keys, delta, Corrections(p, base, choice, blk), blk), r) ==
            Row(MaskColumns(p, base, blk), r).Xor(Times(choice.bits[r], delta))
  {
    var q := SenderColumns(p, keys, delta, Corrections(p, base, choice, blk), blk);
    forall c | 0 <= c < 128
      ensures Row(q, r).bits[c] == Row(MaskColumns(p, base, blk), r).Xor(Times(choice.bits[r], delta)).bits[c]
    {
      XorCancels(p.stream(base[c].0, blk).Xor(choice), p.stream(base[c].1, blk));
    }
    assert Row(q, r).bits == Row(MaskColumns(p, base, blk), r).Xor(Times(choice.bits[r], delta)).bits;
  }

  /** The xor of the products of the first n rows with the challenge blocks. */
  function ProductSum(p: Primitives, rows: seq<Block>, seed: Block, n: nat): (Block, Block)
    requires n <= |rows|
  {
    if n == 0 then (ZERO_BLOCK, ZERO_BLOCK)
    else XorBoth(ProductSum(p, rows, seed, n - 1), Product(rows[n - 1], p.stream(seed, n - 1)))
  }

  /** The xor of the challenge blocks that the choices select. */
  function ChoiceSum(p: Primitives, choices: seq<bool>, seed: Block, n: nat): Block
    requires n <= |choices|
  {
    if n == 0 then ZERO_BLOCK
    else if choices[n - 1] then ChoiceSum(p, choices, seed, n - 1).Xor(p.stream(seed, n - 1))
    else ChoiceSum(p, choices, seed, n - 1)
  }

  /** Every sender row is the receiver's row plus choice times offset. */
  ghost predicate Correlated(t: seq<Block>, q: seq<Block>, choices: seq<bool>, delta: Block, n: nat) {
    n <= |t| && n <= |q| && n <= |choices| && forall i :: 0 <= i < n ==> q[i] == t[i].Xor(Times(choices[i], delta))
  }

  lemma XorBothLaws(a: (Block, Block), b: (Block, Block), c: (Block, Block), d: (Block, Block))
    ensures XorBoth(XorBoth(a, b), XorBoth(c, d)) == XorBoth(XorBoth(a, c), XorBoth(b, d))
    ensures XorBoth(b, b) == (ZERO_BLOCK, ZERO_BLOCK) && XorBoth(a, (ZERO_BLOCK, ZERO_BLOCK)) == a
    ensures XorBoth(XorBoth(a, b), b) == a
  {
    FourXor(a.0, b.0, c.0, d.0);
    FourXor(a.1, b.1, c.1, d.1);
    XorZero(a.0);
    XorZero(a.1);
    XorZero(b.0);
    XorZero(b.1);
    XorCancels(a.0, b.0);
    XorCancels(a.1, b.1);
  }

  lemma FourXor(a: Block, b: Block, c: Block, d: Block)
    ensures a.Xor(b).Xor(c.Xor(d)) == a.Xor(c).Xor(b.Xor(d))
  {
    assert a.Xor(b).Xor(c.Xor(d)).bits == a.Xor(c).Xor(b.Xor(d)).bits;
  }

  /**
    The correlation check holds: sum of q products, plus (sum of chosen challenges) times the offset, is the sum of t
    products.
   */
  lemma {:induction false} CheckHolds(p: Primitives, t: seq<Block>, q: seq<Block>, choices: seq<bool>, delta: Block,
                                      seed: Block, n: nat)
    requires Correlated(t, q, choices, delta, n)
    ensures XorBoth(ProductSum(p, q, seed, n), Product(ChoiceSum(p, choices, seed, n), delta)) ==
      ProductSum(p, t, seed, n)
  {
    hide Product, XorBoth, Block.Xor;
    if n == 0 {
      ProductZero(delta);
      XorBothLaws((ZERO_BLOCK, ZERO_BLOCK), (ZERO_BLOCK, ZERO_BLOCK), (ZERO_BLOCK, ZERO_BLOCK),
                  (ZERO_BLOCK, ZERO_BLOCK));
    } else {
      CheckHolds(p, t, q, choices, delta, seed, n - 1);
      var chi, sumT, sumQ, sumX := p.stream(seed, n - 1), ProductSum(p, t, seed, n - 1), ProductSum(p, q, seed, n - 1),
        ChoiceSum(p, choices, seed, n - 1);
      assert q[n - 1] == t[n - 1].Xor(Times(choices[n - 1], delta));
      XorZero(t[n - 1]);
      if choices[n - 1] {
        ProductXor(t[n - 1], delta, chi);
        ProductXor(sumX, chi, delta);
        ProductCommutes(delta, chi);
        var tp, dp := Product(t[n - 1], chi), Product(chi, delta);
        XorBothLaws(sumQ, XorBoth(tp, dp), Product(sumX, delta), dp);
        XorBothLaws(tp, dp, dp, dp);
      } else {
        XorBothSwap(sumQ, Product(t[n - 1], chi), Product(sumX, delta));
      }
    }
  }

  /** The check's sums as lists: every row and every chosen challenge counts, once. */
  lemma {:induction false} SumsAreSums(p: Primitives, rows: seq<Block>, choices: seq<bool>, seed: Block, n: nat)
    requires n <= |rows| && n <= |choices|
    ensures ProductSum(p, rows, seed, n) ==
            (XorOver(seq(n, i requires 0 <= i < n => Product(rows[i], p.stream(seed, i)).0)),
             XorOver(seq(n, i requires 0 <= i < n => Product(rows[i], p.stream(seed, i)).1)))
    ensures ChoiceSum(p, choices, seed, n) ==
            XorOver(seq(n, i requires 0 <= i < n => Times(choices[i], p.stream(seed, i))))
  {
    hide Product, Block.Xor;
    var low := seq(n, i requires 0 <= i < n => Product(rows[i], p.stream(seed, i)).0);
    var high := seq(n, i requires 0 <= i < n => Product(rows[i], p.stream(seed, i)).1);
    var chosen := seq(n, i requires 0 <= i < n => Times(choices[i], p.stream(seed, i)));
    if n > 0 {
      SumsAreSums(p, rows, choices, seed, n - 1);
      var m := n - 1;
      assert low[..m] == seq(m, i requires 0 <= i < m => Product(rows[i], p.stream(seed, i)).0);
      assert high[..m] == seq(m, i requires 0 <= i < m => Product(rows[i], p.stream(seed, i)).1);
      assert chosen[..m] == seq(m, i requires 0 <= i < m => Times(choices[i], p.stream(seed, i)));
      XorZero(ChoiceSum(p, choices, seed, m));
    }
  }

  /** The sums of two lists of rows add up. */
  lemma {:induction false} ProductSumXor(p: Primitives, rows: seq<Block>, errors: seq<Block>, sum: seq<Block>,
                                         seed: Block, n: nat)
    requires n <= |rows| && n <= |errors| && n <= |sum|
    requires forall i :: 0 <= i < n ==> sum[i] == rows[i].Xor(errors[i])
    ensures ProductSum(p, sum, seed, n) == XorBoth(ProductSum(p, rows, seed, n), ProductSum(p, errors, seed, n))
  {
    hide Product, XorBoth, Block.Xor;
    var zero := (ZERO_BLOCK, ZERO_BLOCK);
    if n == 0 {
      XorBothLaws(zero, zero, zero, zero);
    } else {
      ProductSumXor(p, rows, errors, sum, seed, n - 1);
      var chi := p.stream(seed, n - 1);
      ProductXor(rows[n - 1], errors[n - 1], chi);
      XorBothLaws(ProductSum(p, rows, seed, n - 1), ProductSum(p, errors, seed, n - 1),
                  Product(rows[n - 1], chi), Product(errors[n - 1], chi));
    }
  }

  /** The rows by which a sender's differ from the receiver's plus choice times offset. */
  ghost predicate Deviates(t: seq<Block>, q: seq<Block>, errors: seq<Block>, choices: seq<bool>, delta: Block, n: nat) {
    && n <= |t| && n <= |q| && n <= |errors| && n <= |choices|
    && forall i :: 0 <= i < n ==> q[i] == t[i].Xor(Times(choices[i], delta)).Xor(errors[i])
  }

  /** The check passes exactly if the products of the deviations with the challenges cancel out. */
  lemma CheckPassesIff(p: Primitives, t: seq<Block>, q: seq<Block>, errors: seq<Block>, choices: seq<bool>,
                       delta: Block, seed: Block, n: nat)
    requires Deviates(t, q, errors, choices, delta, n)
    ensures XorBoth(ProductSum(p, q, seed, n), Product(ChoiceSum(p, choices, seed, n), delta)) ==
              ProductSum(p, t, seed, n)
            <==> ProductSum(p, errors, seed, n) == (ZERO_BLOCK, ZERO_BLOCK)
  {
    hide Product, XorBoth, Block.Xor, Times;
    var straight := seq(n, i requires 0 <= i < n => t[i].Xor(Times(choices[i], delta)));
    assert Correlated(t, straight, choices, delta, n);
    CheckHolds(p, t, straight, choices, delta, seed, n);
    ProductSumXor(p, straight, errors, q, seed, n);
    BothCancelIff(ProductSum(p, straight, seed, n), ProductSum(p, errors, seed, n),
                  Product(ChoiceSum(p, choices, seed, n), delta), ProductSum(p, t, seed, n));
  }

  lemma BothCancelIff(a: (Block, Block), e: (Block, Block), c: (Block, Block), t: (Block, Block))
    requires XorBoth(a, c) == t
    ensures XorBoth(XorBoth(a, e), c) == t <==> e == (ZERO_BLOCK, ZERO_BLOCK)
  {
    XorBothSwap(a, e, c);
    XorIsZeroIff(t.0.Xor(e.0), t.0);
    XorIsZeroIff(t.1.Xor(e.1), t.1);
    XorGroups(t.0, e.0, t.0);
    XorGroups(t.1, e.1, t.1);
    XorZero(t.0);
    XorZero(t.1);
    XorZero(e.0);
    XorZero(e.1);
  }

  /** One row that deviates makes the check fail, unless its challenge is zero. */
  lemma OneAlteredRowFails(p: Primitives, t: seq<Block>, q: seq<Block>, errors: seq<Block>, choices: seq<bool>,
                           delta: Block, seed: Block, n: nat, i: nat)
    requires Deviates(t, q, errors, choices, delta, n) && i < n && errors[i] != ZERO_BLOCK
    requires forall k :: 0 <= k < n && k != i ==> errors[k] == ZERO_BLOCK
    ensures XorBoth(ProductSum(p, q, seed, n), Product(ChoiceSum(p, choices, seed, n), delta)) ==
              ProductSum(p, t, seed, n)
            <==> p.stream(seed, i) == ZERO_BLOCK
  {
    hide Product, XorBoth, Block.Xor;
    CheckPassesIff(p, t, q, errors, choices, delta, seed, n);
    OneProduct(p, errors, seed, n, i);
    NoZeroDivisors(errors[i], p.stream(seed, i));
  }

  lemma {:induction false} OneProduct(p: Primitives, errors: seq<Block>, seed: Block, n: nat, i: nat)
    requires n <= |errors| && i < |errors| && forall k :: 0 <= k < n && k != i ==> errors[k] == ZERO_BLOCK
    ensures ProductSum(p, errors, seed, n) ==
            if i < n then Product(errors[i], p.stream(seed, i)) else (ZERO_BLOCK, ZERO_BLOCK)
  {
    hide Product, Block.Xor;
    if n > 0 {
      OneProduct(p, errors, seed, n - 1, i);
      ProductZero(p.stream(seed, n - 1));
      XorZero(ZERO_BLOCK);
      XorZero(ProductSum(p, errors, seed, n).0);
      if i < n - 1 {
        XorZero(Product(errors[i], p.stream(seed, i)).0);
        XorZero(Product(errors[i], p.stream(seed, i)).1);
      } else if i == n - 1 {
        XorZero(Product(errors[i], p.stream(seed, i)).0);
        XorZero(Product(errors[i], p.stream(seed, i)).1);
      }
    }
  }

  lemma XorBothSwap(a: (Block, Block), b: (Block, Block), c: (Block, Block))
    ensures XorBoth(XorBoth(a, b), c) == XorBoth(XorBoth(a, c), b)
  {
    assert a.0.Xor(b.0).Xor(c.0).bits == a.0.Xor(c.0).Xor(b.0).bits;
    assert a.1.Xor(b.1).Xor(c.1).bits == a.1.Xor(c.1).Xor(b.1).bits;
  }

  /** The rows of all blocks so far: row i is row i % 128 of block i / 128. */
  ghost predicate RowsOf(rows: seq<Block>, columns: seq<Matrix>) {
    |rows| == 128 * |columns| && forall i :: 0 <= i < |rows| ==> rows[i] == Row(columns[i / 128], i % 128)
  }

  lemma RowsAppend(rows: seq<Block>, columns: seq<Matrix>, m: Matrix, t: Matrix)
    requires RowsOf(rows, columns) && IsTranspose(m, t)
    ensures RowsOf(rows + t, columns + [m])
  {
    hide Row, IsTranspose;
    forall r | 0 <= r < 128
      ensures t[r] == Row(m, r)
    {
      TransposedRow(m, t, r);
    }
    forall i | 0 <= i < |rows| + 128
      ensures (rows + t)[i] == Row((columns + [m])[i / 128], i % 128)
    {
      if i < |rows| {
        assert i / 128 < |columns|;
      } else {
        assert i / 128 == |columns| && i % 128 == i - |rows|;
      }
    }
  }

  class OTExtReceiver {
    var messages: seq<Block>
    var choiceBits: seq<bool>
    var correlatedMessages: seq<Block>
    var dIdx: nat
    var doneIdx: nat
    ghost var columns: seq<Matrix>

    constructor ()
      ensures messages == [] && choiceBits == [] && doneIdx == 0
    {
      messages, choiceBits, correlatedMessages, dIdx, doneIdx, columns := [], [], [], 0, 0, [];
    }

    /** What holds after blk blocks: every index below the published counter has its final message. */
    ghost predicate Valid(p: Primitives, otCount: nat, blk: nat)
      reads this
    {
      && |messages| == otCount && |choiceBits| == Extended(otCount) && |columns| == blk && dIdx == 128 * blk
      && doneIdx == Min(128 * blk, otCount) && RowsOf(correlatedMessages, columns)
      && forall i :: 0 <= i < doneIdx ==> messages[i] == p.hash(correlatedMessages[i])
    }

    /** Takes random choices and commits to a seed. */
    method Start(p: Primitives, otCount: nat, random: seq<bool>, seed: Block) returns (comm: seq<bool>)
      requires |random| == Extended(otCount) && doneIdx == 0
      modifies this
      ensures Valid(p, otCount, 0) && choiceBits == random && columns == [] && comm == p.commit(seed)
    {
      messages, choiceBits := seq(otCount, _ => ZERO_BLOCK), random;
      correlatedMessages, dIdx, columns := [], 0, [];
      comm := p.commit(seed);
    }

    /** One block: the corrections to send, then 128 rows, of which the first ones become messages. */
    method NextBlock(p: Primitives, base: BaseKeys, otCount: nat, blk: nat) returns (u: Matrix)
      requires Valid(p, otCount, blk) && 128 * blk + 128 <= Extended(otCount)
      modifies this
      ensures Valid(p, otCount, blk + 1) && choiceBits == old(choiceBits)
      ensures columns == old(columns) + [MaskColumns(p, base, blk)]
      ensures u == Corrections(p, base, ChoiceBlock(choiceBits, blk), blk)
      ensures forall i :: 0 <= i < old(doneIdx) ==> messages[i] == old(messages[i])
    {
      hide RowsOf, MaskColumns, Corrections, IsTranspose;
      var t0 := new Block[128](_ => ZERO_BLOCK);
      u := FillColumns(p, base, ChoiceBlock(choiceBits, blk), blk, t0);
      EklundhTranspose(t0);
      RowsLength(correlatedMessages, columns);
      RowsAppend(correlatedMessages, columns, MaskColumns(p, base, blk), t0[..]);
      columns := columns + [MaskColumns(p, base, blk)];
      TakeRows(p, t0[..], otCount, blk);
    }

    /** Stores a block's rows, hashing those that are still asked for, and publishes. */
    method TakeRows(p: Primitives, t0: seq<Block>, otCount: nat, blk: nat)
      requires |t0| == 128 && |messages| == otCount && |correlatedMessages| == dIdx == 128 * blk
      requires doneIdx == Min(dIdx, otCount)
      requires forall i :: 0 <= i < doneIdx ==> messages[i] == p.hash(correlatedMessages[i])
      modifies `correlatedMessages, `messages, `dIdx, `doneIdx
      ensures correlatedMessages == old(correlatedMessages) + t0 && dIdx == 128 * (blk + 1)
      ensures doneIdx == Min(dIdx, otCount) && |messages| == otCount
      ensures forall i :: 0 <= i < doneIdx ==> messages[i] == p.hash(correlatedMessages[i])
      ensures forall i :: 0 <= i < old(doneIdx) ==> messages[i] == old(messages)[i]
    {
      ghost var before, done := correlatedMessages, doneIdx;
      var stopIdx := Min(128, otCount - doneIdx);
      for row := 0 to stopIdx
        modifies `correlatedMessages, `messages, `dIdx
        invariant dIdx == 128 * blk + row && correlatedMessages == before + t0[..row] && |messages| == otCount
        invariant forall i :: 0 <= i < done ==> messages[i] == old(messages)[i]
        invariant forall i :: 0 <= i < row ==> messages[done + i] == p.hash(t0[i])
      {
        correlatedMessages := correlatedMessages + [t0[row]];
        assert t0[..row + 1] == t0[..row] + [t0[row]];
        messages := messages[dIdx := p.hash(correlatedMessages[dIdx])];
        dIdx := dIdx + 1;
      }
      for row := stopIdx to 128
        modifies `correlatedMessages, `dIdx
        invariant dIdx == 128 * blk + row && correlatedMessages == before + t0[..row]
      {
        correlatedMessages := correlatedMessages + [t0[row]];
        assert t0[..row + 1] == t0[..row] + [t0[row]];
        dIdx := dIdx + 1;
      }
      assert t0[..128] == t0;
      doneIdx := Min(dIdx, otCount);
      assert forall i :: done <= i < doneIdx ==> messages[i] == messages[done + (i - done)];
    }

    /** Fills the masking columns and computes the corrections. */
    method FillColumns(p: Primitives, base: BaseKeys, choice: Block, blk: nat, t0: array<Block>) returns (u: Matrix)
      requires t0.Length == 128
      modifies t0
      ensures t0[..] == MaskColumns(p, base, blk) && u == Corrections(p, base, choice, blk)
    {
      hide Block.Xor;
      u := seq(128, _ => ZERO_BLOCK);
      for c := 0 to 128
        invariant forall k :: 0 <= k < c ==> t0[k] == p.stream(base[k].0, blk)
        invariant forall k :: 0 <= k < c ==> u[k] == p.stream(base[k].1, blk).Xor(p.stream(base[k].0, blk).Xor(choice))
      {
        t0[c] := p.stream(base[c].0, blk);
        var t1 := p.stream(base[c].1, blk);
        u := u[c := t1.Xor(t0[c].Xor(choice))];
      }
    }

    /**
      Answers the challenge: the sum of the chosen challenge blocks and of the products. Keeps the asked-for choices.
     */
    method Finish(p: Primitives, otCount: nat, blks: nat, seed: Block, theirSeed: Block)
      returns (x: Block, t: Block, t2: Block)
      requires Valid(p, otCount, blks) && 128 * blks == Extended(otCount)
      modifies `choiceBits
      ensures x == ChoiceSum(p, old(choiceBits), seed.Xor(theirSeed), Extended(otCount))
      ensures |correlatedMessages| == Extended(otCount)
      ensures (t, t2) == ProductSum(p, correlatedMessages, seed.Xor(theirSeed), Extended(otCount))
      ensures choiceBits == old(choiceBits)[..otCount] && doneIdx == otCount
    {
      hide Product, Block.Xor;
      var common := seed.Xor(theirSeed);
      x, t, t2 := ZERO_BLOCK, ZERO_BLOCK, ZERO_BLOCK;
      for i := 0 to |correlatedMessages|
        modifies {}
        invariant x == ChoiceSum(p, choiceBits, common, i) && (t, t2) == ProductSum(p, correlatedMessages, common, i)
      {
        var chi := p.stream(common, i);
        if choiceBits[i] { x := x.Xor(chi); }
        var ti, ti2 := Mul128(correlatedMessages[i], chi);
        t, t2 := t.Xor(ti), t2.Xor(ti2);
      }
      choiceBits := choiceBits[..otCount];
    }
  }

  /** The first n message pairs are the hashes of the first n rows and of these rows offset by delta. */
  ghost predicate Hashed(p: Primitives, delta: Block, rows: seq<Block>, messages0: seq<Block>, messages1: seq<Block>,
                         n: nat) {
    n <= |rows| && n <= |messages0| && n <= |messages1| &&
    forall i :: 0 <= i < n ==> messages0[i] == p.hash(rows[i]) && messages1[i] == p.hash(rows[i].Xor(delta))
  }

  lemma HashedGrows(p: Primitives, delta: Block, rows: seq<Block>, messages0: seq<Block>, messages1: seq<Block>,
                    row: Block)
    requires |rows| < |messages0| && |rows| < |messages1| && Hashed(p, delta, rows, messages0, messages1, |rows|)
    ensures Hashed(p, delta, rows + [row], messages0[|rows| := p.hash(row)],
                   messages1[|rows| := p.hash(row.Xor(delta))], |rows| + 1)
  {
    hide Block.Xor;
  }

  lemma HashedStays(p: Primitives, delta: Block, rows: seq<Block>, more: seq<Block>, messages0: seq<Block>,
                    messages1: seq<Block>, n: nat)
    requires Hashed(p, delta, rows, messages0, messages1, n)
    ensures Hashed(p, delta, rows + more, messages0, messages1, n)
  {
    hide Block.Xor;
  }

  class OTExtSender {
    var messages0: seq<Block>
    var messages1: seq<Block>
    var correlatedMessages: seq<Block>
    var dIdx: nat
    var doneIdx: nat
    ghost var columns: seq<Matrix>

    constructor ()
      ensures doneIdx == 0
    {
      messages0, messages1, correlatedMessages, dIdx, doneIdx, columns := [], [], [], 0, 0, [];
    }

    ghost predicate Valid(p: Primitives, delta: Block, otCount: nat, blk: nat)
      reads this
    {
      && |messages0| == |messages1| == otCount && |columns| == blk && dIdx == doneIdx == Min(128 * blk, otCount)
      && RowsOf(correlatedMessages, columns) && Hashed(p, delta, correlatedMessages, messages0, messages1, doneIdx)
    }

    method Start(p: Primitives, delta: Block, otCount: nat)
      requires doneIdx == 0
      modifies this
      ensures Valid(p, delta, otCount, 0) && columns == []
    {
      messages0, messages1 := seq(otCount, _ => ZERO_BLOCK), seq(otCount, _ => ZERO_BLOCK);
      correlatedMessages, dIdx, columns := [], 0, [];
    }

    /** One block, from the receiver's corrections. */
    method NextBlock(p: Primitives, keys: Matrix, delta: Block, otCount: nat, blk: nat, u: Matrix)
      requires Valid(p, delta, otCount, blk)
      modifies this
      ensures Valid(p, delta, otCount, blk + 1)
      ensures columns == old(columns) + [SenderColumns(p, keys, delta, u, blk)]
      ensures forall i :: 0 <= i < old(doneIdx) ==>
        messages0[i] == old(messages0[i]) && messages1[i] == old(messages1[i])
    {
      hide RowsOf, SenderColumns, IsTranspose;
      var q := new Block[128](_ => ZERO_BLOCK);
      FillColumns(p, keys, delta, u, blk, q);
      EklundhTranspose(q);
      RowsLength(correlatedMessages, columns);
      RowsAppend(correlatedMessages, columns, SenderColumns(p, keys, delta, u, blk), q[..]);
      columns := columns + [SenderColumns(p, keys, delta, u, blk)];
      TakeRows(p, delta, q[..], otCount, blk);
    }

    /** Stores the rows of a block that give no messages. */
    method StoreRest(q: seq<Block>, start: nat)
      requires |q| == 128 && start <= 128
      modifies `correlatedMessages
      ensures correlatedMessages == old(correlatedMessages) + q[start..]
    {
      for row := start to 128
        invariant correlatedMessages == old(correlatedMessages) + q[start..row]
      {
        correlatedMessages := correlatedMessages + [q[row]];
        assert q[start..row + 1] == q[start..row] + [q[row]];
      }
    }

    /** Stores a block's rows, hashing both messages of those still asked for, and publishes. */
    method TakeRows(p: Primitives, delta: Block, q: seq<Block>, otCount: nat, blk: nat)
      requires |q| == 128 && |messages0| == |messages1| == otCount && |correlatedMessages| == 128 * blk
      requires dIdx == doneIdx == Min(128 * blk, otCount)
      requires Hashed(p, delta, correlatedMessages, messages0, messages1, doneIdx)
      modifies `correlatedMessages, `messages0, `messages1, `dIdx, `doneIdx
      ensures correlatedMessages == old(correlatedMessages) + q && dIdx == doneIdx == Min(128 * (blk + 1), otCount)
      ensures |messages0| == |messages1| == otCount
      ensures Hashed(p, delta, correlatedMessages, messages0, messages1, doneIdx)
      ensures forall i :: 0 <= i < old(doneIdx) ==>
        messages0[i] == old(messages0)[i] && messages1[i] == old(messages1)[i]
    {
      hide Block.Xor, Hashed;
      var stopIdx := Min(128, otCount - doneIdx);
      HashRows(p, delta, q, otCount, stopIdx);
      doneIdx := dIdx;
      HashedStays(p, delta, correlatedMessages, q[stopIdx..], messages0, messages1, doneIdx);
      StoreRest(q, stopIdx);
      assert q[..stopIdx] + q[stopIdx..] == q;
    }

    /** The hashing loop over the first rows of a block. */
    method HashRows(p: Primitives, delta: Block, q: seq<Block>, otCount: nat, stopIdx: nat)
      requires stopIdx <= |q| && dIdx + stopIdx <= otCount && |messages0| == |messages1| == otCount
      requires stopIdx > 0 ==> |correlatedMessages| == dIdx
      requires Hashed(p, delta, correlatedMessages, messages0, messages1, dIdx)
      modifies `correlatedMessages, `messages0, `messages1, `dIdx
      ensures dIdx == old(dIdx) + stopIdx && correlatedMessages == old(correlatedMessages) + q[..stopIdx]
      ensures |messages0| == |messages1| == otCount
      ensures Hashed(p, delta, correlatedMessages, messages0, messages1, dIdx)
      ensures forall i :: 0 <= i < old(dIdx) ==> messages0[i] == old(messages0)[i] && messages1[i] == old(messages1)[i]
    {
      hide *;
      for row := 0 to stopIdx
        invariant dIdx == old(dIdx) + row && correlatedMessages == old(correlatedMessages) + q[..row]
        invariant |messages0| == |messages1| == otCount
        invariant Hashed(p, delta, correlatedMessages, messages0, messages1, dIdx)
        invariant forall i :: 0 <= i < old(dIdx) ==>
          messages0[i] == old(messages0)[i] && messages1[i] == old(messages1)[i]
      {
        HashedGrows(p, delta, correlatedMessages, messages0, messages1, q[row]);
        correlatedMessages := correlatedMessages + [q[row]];
        assert q[..row + 1] == q[..row] + [q[row]];
        var msg0 := correlatedMessages[dIdx];
        messages0 := messages0[dIdx := p.hash(msg0)];
        messages1 := messages1[dIdx := p.hash(msg0.Xor(delta))];
        dIdx := dIdx + 1;
      }
    }

    method FillColumns(p: Primitives, keys: Matrix, delta: Block, u: Matrix, blk: nat, q: array<Block>)
      requires q.Length == 128
      modifies q
      ensures q[..] == SenderColumns(p, keys, delta, u, blk)
    {
      hide Block.Xor;
      for c := 0 to 128
        invariant forall k :: 0 <= k < c ==>
          q[k] == if delta.bits[k] then p.stream(keys[k], blk).Xor(u[k]) else p.stream(keys[k], blk)
      {
        q[c] := p.stream(keys[c], blk);
        if delta.bits[c] {
          q[c] := q[c].Xor(u[c]);
        }
      }
    }

    /** False where the original throws: the receiver's seed does not open its commitment, or the sums do not match. */
    method Finish(p: Primitives, delta: Block, otCount: nat, blks: nat, seed: Block, theirSeed: Block,
                  theirComm: seq<bool>, x: Block, t: Block, t2: Block)
      returns (ok: bool)
      requires Valid(p, delta, otCount, blks) && 128 * blks == Extended(otCount)
      ensures |correlatedMessages| == Extended(otCount)
      ensures ok <==> p.commit(theirSeed) == theirComm &&
                      XorBoth(ProductSum(p, correlatedMessages, seed.Xor(theirSeed), Extended(otCount)),
                              Product(x, delta)) == (t, t2)
    {
      hide Product, Block.Xor;
      if p.commit(theirSeed) != theirComm { return false; }
      var common := seed.Xor(theirSeed);
      var q1, q2 := ZERO_BLOCK, ZERO_BLOCK;
      for i := 0 to |correlatedMessages|
        invariant (q1, q2) == ProductSum(p, correlatedMessages, common, i)
      {
        var qi, qi2 := Mul128(correlatedMessages[i], p.stream(common, i));
        q1, q2 := q1.Xor(qi), q2.Xor(qi2);
      }
      var t1, t1b := Mul128(x, delta);
      XorCancels(t1, q1);
      XorCancels(t1b, q2);
      ok := t1.Xor(q1) == t && t1b.Xor(q2) == t2;
    }

    function GetMessage(i: nat, choice: bool): Block
      reads this
      requires i < |messages0| == |messages1|
    {
      if choice then messages1[i] else messages0[i]
    }
  }

  /** The rows that the receiver's and the sender's columns give, block for block. */
  ghost predicate ColumnsAgree(p: Primitives, base: BaseKeys, keys: Matrix, delta: Block, choices: seq<bool>,
                               ts: seq<Matrix>, qs: seq<Matrix>) {
    && |ts| == |qs| && 128 * |ts| <= |choices|
    && forall b :: 0 <= b < |ts| ==>
         ts[b] == MaskColumns(p, base, b)
           && qs[b] == SenderColumns(p, keys, delta, Corrections(p, base, ChoiceBlock(choices, b), b), b)
  }

  lemma RowsAreCorrelated(p: Primitives, base: BaseKeys, keys: Matrix, delta: Block, choices: seq<bool>,
                          ts: seq<Matrix>, qs: seq<Matrix>, t: seq<Block>, q: seq<Block>)
    requires BaseTransferred(base, keys, delta) && ColumnsAgree(p, base, keys, delta, choices, ts, qs)
    requires RowsOf(t, ts) && RowsOf(q, qs)
    ensures Correlated(t, q, choices, delta, |t|)
  {
    hide Row, MaskColumns, SenderColumns, Corrections, BaseTransferred, Block.Xor;
    forall i | 0 <= i < |t|
      ensures q[i] == t[i].Xor(Times(choices[i], delta))
    {
      var b, r := i / 128, i % 128;
      assert i == 128 * b + r && b < |ts|;
      RowsCorrelate(p, base, keys, delta, ChoiceBlock(choices, b), b, r);
      assert ChoiceBlock(choices, b).bits[r] == choices[i];
    }
  }

  /**
    A run of the extension between honest parties, for every count, every choice and all seeds: the
    check passes, every index is published, and message i of the receiver is the sender's message i
    for the receiver's choice.
   */
  method Extend(p: Primitives, base: BaseKeys, keys: Matrix, delta: Block, otCount: nat, random: seq<bool>,
                seedS: Block, seedR: Block, sender: OTExtSender, receiver: OTExtReceiver)
    returns (ok: bool)
    requires BaseTransferred(base, keys, delta) && |random| == Extended(otCount)
    requires sender.doneIdx == receiver.doneIdx == 0
    modifies sender, receiver
    ensures ok
    ensures otCount > 0 ==> sender.doneIdx == receiver.doneIdx == otCount
    ensures otCount > 0 ==>
      |sender.messages0| == |sender.messages1| == |receiver.messages| == |receiver.choiceBits| == otCount
    ensures otCount > 0 ==> receiver.choiceBits == random[..otCount]
    ensures otCount > 0 ==> forall i :: 0 <= i < otCount ==>
      receiver.messages[i] == sender.GetMessage(i, receiver.choiceBits[i])
  {
    hide BaseTransferred, Row, RowsOf, MaskColumns, SenderColumns, Corrections, Block.Xor, ProductSum, ChoiceSum,
         Product, XorBoth, Times, ChoiceBlock;
    if otCount == 0 { return true; }
    var comm := receiver.Start(p, otCount, random, seedR);
    sender.Start(p, delta, otCount);
    var numBlocks := Extended(otCount) / 128;
    for blk := 0 to numBlocks
      invariant receiver.Valid(p, otCount, blk) && sender.Valid(p, delta, otCount, blk) && receiver.choiceBits == random
      invariant ColumnsAgree(p, base, keys, delta, random, receiver.columns, sender.columns)
    {
      var u := receiver.NextBlock(p, base, otCount, blk);
      sender.NextBlock(p, keys, delta, otCount, blk, u);
    }
    ghost var t, q := receiver.correlatedMessages, sender.correlatedMessages;
    RowsAreCorrelated(p, base, keys, delta, random, receiver.columns, sender.columns, t, q);
    RowsLength(t, receiver.columns);
    var x, t1, t2 := receiver.Finish(p, otCount, numBlocks, seedR, seedS);
    XorCancels(seedR, seedS);
    CheckHolds(p, t, q, random, delta, seedS.Xor(seedR), |t|);
    ok := sender.Finish(p, delta, otCount, numBlocks, seedS, seedR, comm, x, t1, t2);
    forall i | 0 <= i < otCount
      ensures receiver.messages[i] == sender.GetMessage(i, receiver.choiceBits[i])
    {
      ChosenMessage(t[i], delta, random[i]);
    }
  }

  /** The sender's row, or its sum with the offset, is the receiver's row, by the choice. */
  lemma ChosenMessage(t: Block, delta: Block, choice: bool)
    ensures (if choice then t.Xor(Times(choice, delta)).Xor(delta) else t.Xor(Times(choice, delta))) == t
  {
    XorCancels(t, delta);
    XorZero(t);
  }

  lemma RowsLength(rows: seq<Block>, columns: seq<Matrix>)
    requires RowsOf(rows, columns)
    ensures |rows| == 128 * |columns|
  {
  }
}
