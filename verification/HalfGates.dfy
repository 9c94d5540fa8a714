/** Half-gate garbling with free XOR, point-and-permute and masked tables. */
module HalfGates {
  import opened Blocks
  import opened Gates
  import opened Circuits
  import opened Lanes
  import opened Schemes

  /** The two rows of a garbled gate. */
  datatype GarbledGate = GarbledGate(row0: Block, row1: Block) {
    function Masked(mask0: Block, mask1: Block): GarbledGate {
      GarbledGate(row0.Xor(mask0), row1.Xor(mask1))
    }
  }

  /** pi(x) xor x, with pi the fixed-key AES and x the label shifted left by one in each lane, xor the tweak. */
  function HashBlock(pi: Permutation, wire: Block, tweak: Block): Block {
    var x := wire.ShiftLanes().Xor(tweak);
    pi(x).Xor(x)
  }

  function Hash(pi: Permutation, wire: Block, tweak: nat): Block {
    HashBlock(pi, wire, FromLanes(tweak, 0))
  }

  /**
    The zero label of a gate's output wire. The circuit has n gates and j garbled gates precede
    this one, so the two tweaks are j and n + j.
   */
  function ZeroLabel(pi: Permutation, d: Block, gt: GateType, a: Block, b: Block, n: nat, j: nat): Block {
    if IsXorType(gt) then a.Xor(b).Xor(Times(gt.bit0, d))
    else
      var pa, pb := a.PermuteBit(), b.PermuteBit();
      Hash(pi, if pa then a.Xor(d) else a, j).Xor(Hash(pi, if pb then b.Xor(d) else b, n + j)).Xor(
        Times(((pa != AAlpha(gt)) && (pb != BAlpha(gt))) != CAlpha(gt), d))
  }

  /** The unmasked rows of a gate that is not free. */
  function Rows(pi: Permutation, d: Block, gt: GateType, a: Block, b: Block, n: nat, j: nat): GarbledGate {
    var h0, h1 := Hash(pi, a, j), Hash(pi, a.Xor(d), j);
    var h2, h3 := Hash(pi, b, n + j), Hash(pi, b.Xor(d), n + j);
    GarbledGate(h0.Xor(h1).Xor(Times(BAlpha(gt) != b.PermuteBit(), d)),
                h2.Xor(h3).Xor(a).Xor(Times(AAlpha(gt), d)))
  }

  /** The label the evaluator derives from the two active input labels. */
  function ActiveLabel(pi: Permutation, a: Block, b: Block, n: nat, j: nat, rows: GarbledGate): Block {
    var h := Hash(pi, a, j).Xor(Hash(pi, b, n + j));
    var c := if a.PermuteBit() then h.Xor(rows.row0) else h;
    if b.PermuteBit() then c.Xor(rows.row1).Xor(a) else c
  }

  /** One gate: encodings of two bits evaluate to the encoding of the realised table's output. */
  lemma GateSimulation(pi: Permutation, d: Block, gt: GateType, a: Block, b: Block, n: nat, j: nat, x: bool, y: bool)
    requires d.PermuteBit()
    ensures (if IsXorType(gt) then a.Xor(Times(x, d)).Xor(b.Xor(Times(y, d)))
             else ActiveLabel(pi, a.Xor(Times(x, d)), b.Xor(Times(y, d)), n, j, Rows(pi, d, gt, a, b, n, j))) ==
            ZeroLabel(pi, d, gt, a, b, n, j).Xor(Times(Eval(GarbledAs(gt), x, y), d))
  {
    hide Hash, AAlpha, BAlpha, CAlpha;
    if IsXorType(gt) {
      XorAlgebra(a, b, d, gt.bit0, x, y);
    } else {
      AlphasDescribeTable(gt, x, y);
      XorZero(a);
      XorZero(b);
      RowAlgebra(Hash(pi, a, j), Hash(pi, a.Xor(d), j), Hash(pi, b, n + j), Hash(pi, b.Xor(d), n + j),
                 a, d, a.PermuteBit(), b.PermuteBit(), AAlpha(gt), BAlpha(gt), CAlpha(gt), x, y);
    }
  }

  lemma XorAlgebra(a: Block, b: Block, d: Block, w: bool, x: bool, y: bool)
    ensures a.Xor(Times(x, d)).Xor(b.Xor(Times(y, d))) == a.Xor(b).Xor(Times(w, d)).Xor(Times((x != y) != w, d))
  {
    assert a.Xor(Times(x, d)).Xor(b.Xor(Times(y, d))).bits ==
      a.Xor(b).Xor(Times(w, d)).Xor(Times((x != y) != w, d)).bits;
  }

  /** The garbler's half: the row selected by the first input's active permute bit. */
  lemma GarblerHalf(a0: Block, a1: Block, d: Block, p: bool, x: bool, v: bool)
    ensures (if x then a1 else a0).Xor(if p != x then a0.Xor(a1).Xor(Times(v, d)) else ZERO_BLOCK) ==
            (if p then a1 else a0).Xor(Times((p != x) && v, d))
  {
    assert (if x then a1 else a0).Xor(if p != x then a0.Xor(a1).Xor(Times(v, d)) else ZERO_BLOCK).bits ==
           (if p then a1 else a0).Xor(Times((p != x) && v, d)).bits;
  }

  /** The evaluator's half: the row selected by the second input's, and the first input's label. */
  lemma EvaluatorHalf(b0: Block, b1: Block, a: Block, d: Block, p: bool, y: bool, u: bool, x: bool)
    ensures (if y then b1 else b0).Xor(
              if p != y then b0.Xor(b1).Xor(a).Xor(Times(u, d)).Xor(a.Xor(Times(x, d))) else ZERO_BLOCK) ==
            (if p then b1 else b0).Xor(Times((p != y) && (u != x), d))
  {
    assert (if y then b1 else b0).Xor(
             if p != y then b0.Xor(b1).Xor(a).Xor(Times(u, d)).Xor(a.Xor(Times(x, d))) else ZERO_BLOCK).bits ==
           (if p then b1 else b0).Xor(Times((p != y) && (u != x), d)).bits;
  }

  /** Regroups a label into its two halves; an absent row counts as zero. */
  lemma Regroup(s: Block, t: Block, m: bool, r0: Block, n: bool, r1: Block, a: Block)
    ensures var c := if m then s.Xor(t).Xor(r0) else s.Xor(t);
            (if n then c.Xor(r1).Xor(a) else c) ==
            s.Xor(if m then r0 else ZERO_BLOCK).Xor(t.Xor(if n then r1.Xor(a) else ZERO_BLOCK))
  {
    var c := if m then s.Xor(t).Xor(r0) else s.Xor(t);
    assert (if n then c.Xor(r1).Xor(a) else c).bits ==
           s.Xor(if m then r0 else ZERO_BLOCK).Xor(t.Xor(if n then r1.Xor(a) else ZERO_BLOCK)).bits;
  }

  lemma MergeOffsets(s: Block, t: Block, d: Block, m: bool, n: bool, k: bool, l: bool)
    requires (m != n) == (k != l)
    ensures s.Xor(Times(m, d)).Xor(t.Xor(Times(n, d))) == s.Xor(t).Xor(Times(k, d)).Xor(Times(l, d))
  {
    assert s.Xor(Times(m, d)).Xor(t.Xor(Times(n, d))).bits == s.Xor(t).Xor(Times(k, d)).Xor(Times(l, d)).bits;
  }

  /** The xor identity behind a half gate, with the four hashes as plain blocks. */
  lemma RowAlgebra(a0: Block, a1: Block, b0: Block, b1: Block, a: Block, d: Block,
                   pa: bool, pb: bool, u: bool, v: bool, w: bool, x: bool, y: bool)
    ensures
      var row0 := a0.Xor(a1).Xor(Times(v != pb, d));
      var row1 := b0.Xor(b1).Xor(a).Xor(Times(u, d));
      var h := (if x then a1 else a0).Xor(if y then b1 else b0);
      var c := if pa != x then h.Xor(row0) else h;
      (if pb != y then c.Xor(row1).Xor(a.Xor(Times(x, d))) else c) ==
      (if pa then a1 else a0).Xor(if pb then b1 else b0).Xor(Times(((pa != u) && (pb != v)) != w, d)).Xor(
        Times(((x != u) && (y != v)) != w, d))
  {
    Regroup(if x then a1 else a0, if y then b1 else b0, pa != x, a0.Xor(a1).Xor(Times(v != pb, d)),
            pb != y, b0.Xor(b1).Xor(a).Xor(Times(u, d)), a.Xor(Times(x, d)));
    GarblerHalf(a0, a1, d, pa, x, v != pb);
    EvaluatorHalf(b0, b1, a, d, pb, y, u, x);
    MergeOffsets(if pa then a1 else a0, if pb then b1 else b0, d, (pa != x) && (v != pb), (pb != y) && (u != x),
                 ((pa != u) && (pb != v)) != w, ((x != u) && (y != v)) != w);
  }

  function MaskAt(masks: seq<Block>, i: nat): Block {
    if i < |masks| then masks[i] else ZERO_BLOCK
  }

  lemma UnmaskRows(rows: GarbledGate, m0: Block, m1: Block)
    ensures rows.Masked(m0, m1).Masked(m0, m1) == rows
  {
    XorCancels(rows.row0, m0);
    XorCancels(rows.row1, m1);
  }

  /** The table that is sent. */
  function MaskedRows(pi: Permutation, d: Block, masks: seq<Block>, gt: GateType, a: Block, b: Block, n: nat,
                      j: nat): GarbledGate {
    Rows(pi, d, gt, a, b, n, j).Masked(MaskAt(masks, 2 * j), MaskAt(masks, 2 * j + 1))
  }

  /** Evaluation from a masked table. */
  function UnmaskedLabel(pi: Permutation, masks: seq<Block>, a: Block, b: Block, n: nat, j: nat,
                         table: GarbledGate): Block {
    ActiveLabel(pi, a, b, n, j, table.Masked(MaskAt(masks, 2 * j), MaskAt(masks, 2 * j + 1)))
  }

  lemma MaskedGateSimulation(pi: Permutation, d: Block, masks: seq<Block>, gt: GateType, a: Block, b: Block, n: nat,
                             j: nat, x: bool, y: bool)
    requires d.PermuteBit() && !IsXorType(gt)
    ensures UnmaskedLabel(pi, masks, a.Xor(Times(x, d)), b.Xor(Times(y, d)), n, j,
                          MaskedRows(pi, d, masks, gt, a, b, n, j)) ==
            ZeroLabel(pi, d, gt, a, b, n, j).Xor(Times(Eval(GarbledAs(gt), x, y), d))
  {
    UnmaskRows(Rows(pi, d, gt, a, b, n, j), MaskAt(masks, 2 * j), MaskAt(masks, 2 * j + 1));
    GateSimulation(pi, d, gt, a, b, n, j, x, y);
  }

  /** The half-gate scheme for a circuit of n gates, with offset d and table masks. */
  function HalfGateScheme(pi: Permutation, d: Block, masks: seq<Block>, n: nat): Scheme<GarbledGate> {
    Scheme(
      IsXorType,
      (gt, a, b, j: nat) => ZeroLabel(pi, d, gt, a, b, n, j),
      (gt, a, b, j: nat) => MaskedRows(pi, d, masks, gt, a, b, n, j),
      (a: Block, b: Block) => a.Xor(b),
      (a, b, j: nat, table: GarbledGate) => UnmaskedLabel(pi, masks, a, b, n, j, table),
      GarbledAs)
  }

  /** The scheme's functions are the half-gate formulas. */
  ghost predicate Implements(s: Scheme<GarbledGate>, pi: Permutation, d: Block, masks: seq<Block>, n: nat) {
    && s.free == IsXorType
    && (forall gt, a, b, j: nat {:trigger ZeroLabel(pi, d, gt, a, b, n, j)} ::
          s.zero(gt, a, b, j) == ZeroLabel(pi, d, gt, a, b, n, j))
    && (forall gt, a, b, j: nat {:trigger MaskedRows(pi, d, masks, gt, a, b, n, j)} ::
          s.table(gt, a, b, j) == MaskedRows(pi, d, masks, gt, a, b, n, j))
    && (forall a, b, j: nat, t {:trigger UnmaskedLabel(pi, masks, a, b, n, j, t)} ::
          s.active(a, b, j, t) == UnmaskedLabel(pi, masks, a, b, n, j, t))
    && (forall a, b {:trigger s.join(a, b)} :: s.join(a, b) == a.Xor(b))
  }

  lemma HalfGateSchemeImplements(pi: Permutation, d: Block, masks: seq<Block>, n: nat)
    ensures Implements(HalfGateScheme(pi, d, masks, n), pi, d, masks, n)
  {
  }

  /** The two running tweaks and the position in the masks, once j gates of n have been garbled or evaluated. */
  ghost predicate Counted(tweaks: (Block, Block), maskIter: nat, n: nat, j: nat) {
    tweaks == (FromLanes(j, 0), FromLanes(n + j, 0)) && maskIter == 2 * j
  }

  lemma CountsUp(tweaks: (Block, Block), maskIter: nat, n: nat, j: nat)
    requires Counted(tweaks, maskIter, n, j)
    ensures Counted((AddLanes(tweaks.0, ONE_BLOCK), AddLanes(tweaks.1, ONE_BLOCK)), maskIter + 2, n, j + 1)
  {
    hide FromLanes, AddLanes;
    CountUp(j, 0);
    CountUp(n + j, 0);
  }

  /** The hashes of both labels of both input wires, the four blocks encrypted at once. */
  method HashLabels(pi: Permutation, d: Block, a: Block, b: Block, tweaks: (Block, Block)) returns (hash: array<Block>)
    ensures fresh(hash) && hash.Length == 4
    ensures hash[0] == HashBlock(pi, a, tweaks.0) && hash[1] == HashBlock(pi, a.Xor(d), tweaks.0)
    ensures hash[2] == HashBlock(pi, b, tweaks.1) && hash[3] == HashBlock(pi, b.Xor(d), tweaks.1)
  {
    hide Block.Xor, Block.ShiftLanes;
    hash := new Block[4];
    hash[0] := a.ShiftLanes().Xor(tweaks.0);
    hash[1] := a.Xor(d).ShiftLanes().Xor(tweaks.0);
    hash[2] := b.ShiftLanes().Xor(tweaks.1);
    hash[3] := b.Xor(d).ShiftLanes().Xor(tweaks.1);
    var temp := new Block[4];
    temp[0], temp[1], temp[2], temp[3] := pi(hash[0]), pi(hash[1]), pi(hash[2]), pi(hash[3]);
    hash[0] := temp[0].Xor(hash[0]);
    hash[1] := temp[1].Xor(hash[1]);
    hash[2] := temp[2].Xor(hash[2]);
    hash[3] := temp[3].Xor(hash[3]);
  }

  /** Garbles one gate, counting the tweaks and the masks on unless the gate is free. */
  method GarbleGate(pi: Permutation, d: Block, masks: seq<Block>, gt: GateType, a: Block, b: Block,
                    tweaks: (Block, Block), maskIter: nat, ghost n: nat, ghost j: nat, ghost s: Scheme<GarbledGate>)
    returns (c: Block, table: GarbledGate, tweaks': (Block, Block), maskIter': nat)
    requires Implements(s, pi, d, masks, n) && Counted(tweaks, maskIter, n, j)
    requires (IsXorType(gt) || maskIter + 1 < |masks|)
    ensures c == s.zero(gt, a, b, j) && (!IsXorType(gt) ==> table == s.table(gt, a, b, j))
    ensures Counted(tweaks', maskIter', n, if IsXorType(gt) then j else j + 1)
  {
    hide AAlpha, BAlpha, CAlpha, Block.Xor, FromLanes, AddLanes;
    table, tweaks', maskIter' := GarbledGate(ZERO_BLOCK, ZERO_BLOCK), tweaks, maskIter;
    if IsXorType(gt) {
      c := a.Xor(b).Xor(Times(gt.bit0, d));
      assert c == ZeroLabel(pi, d, gt, a, b, n, j);
    } else {
      var pa, pb := a.PermuteBit(), b.PermuteBit();
      var hash := HashLabels(pi, d, a, b, tweaks);
      CountsUp(tweaks, maskIter, n, j);
      tweaks' := (AddLanes(tweaks.0, ONE_BLOCK), AddLanes(tweaks.1, ONE_BLOCK));
      var row0 := hash[0].Xor(hash[1]).Xor(Times(BAlpha(gt) != pb, d));
      var row1 := hash[2].Xor(hash[3]).Xor(a).Xor(Times(AAlpha(gt), d));
      c := hash[if pa then 1 else 0].Xor(hash[if pb then 3 else 2]).Xor(
        Times(((pa != AAlpha(gt)) && (pb != BAlpha(gt))) != CAlpha(gt), d));
      row0 := row0.Xor(masks[maskIter']);
      maskIter' := maskIter' + 1;
      row1 := row1.Xor(masks[maskIter']);
      maskIter' := maskIter' + 1;
      table := GarbledGate(row0, row1);
      assert c == ZeroLabel(pi, d, gt, a, b, n, j) && table == MaskedRows(pi, d, masks, gt, a, b, n, j);
    }
  }

  /** Evaluates one gate that is not free, unmasking its table in the caller's copy of the masks. */
  method EvaluateGate(pi: Permutation, masks: array<Block>, a: Block, b: Block, tweaks: (Block, Block), maskIter: nat,
                      table: GarbledGate, ghost given: seq<Block>, ghost n: nat, ghost j: nat, ghost d: Block,
                      ghost s: Scheme<GarbledGate>)
    returns (c: Block, tweaks': (Block, Block), maskIter': nat)
    requires Implements(s, pi, d, given, n) && Counted(tweaks, maskIter, n, j)
    requires maskIter + 1 < masks.Length == |given| && masks[maskIter..] == given[maskIter..]
    modifies masks
    ensures c == s.active(a, b, j, table)
    ensures Counted(tweaks', maskIter', n, j + 1) && masks[maskIter'..] == given[maskIter'..]
  {
    hide Block.Xor, FromLanes, AddLanes;
    var row := maskIter;
    maskIter' := maskIter + 2;
    assert masks[row] == given[row] && masks[row + 1] == given[row + 1];
    masks[row] := masks[row].Xor(table.row0);
    masks[row + 1] := masks[row + 1].Xor(table.row1);
    var hash0, hash1 := a.ShiftLanes().Xor(tweaks.0), b.ShiftLanes().Xor(tweaks.1);
    hash0, hash1 := pi(hash0).Xor(hash0), pi(hash1).Xor(hash1);
    CountsUp(tweaks, maskIter, n, j);
    tweaks' := (AddLanes(tweaks.0, ONE_BLOCK), AddLanes(tweaks.1, ONE_BLOCK));
    c := hash0.Xor(hash1);
    if a.PermuteBit() { c := c.Xor(masks[row]); }
    if b.PermuteBit() { c := c.Xor(masks[row + 1]).Xor(a); }
    XorCancels(table.row0, given[row]);
    XorCancels(table.row1, given[row + 1]);
    assert c == UnmaskedLabel(pi, given, a, b, n, j, table);
  }

  /** For every permutation, all masks and every offset with permute bit 1, each half gate is right. */
  lemma HalfGateSchemeCorrect(pi: Permutation, d: Block, masks: seq<Block>, n: nat)
    requires d.PermuteBit()
    ensures Correct(HalfGateScheme(pi, d, masks, n), d)
  {
    forall gt, a, b, j: nat, x, y
      ensures GateCorrect(HalfGateScheme(pi, d, masks, n), d, gt, a, b, j, x, y)
    {
      if IsXorType(gt) {
        XorAlgebra(a, b, d, gt.bit0, x, y);
      } else {
        MaskedGateSimulation(pi, d, masks, gt, a, b, n, j, x, y);
      }
    }
  }
}
