/** The half-gate garbled circuit object: garbling, streaming, evaluating, checking, translating. */
module GarbledCircuits {
  import opened Blocks
  import opened Gates
  import opened Circuits
  import opened Schemes
  import opened Lanes
  import opened HalfGates

  /** The free-XOR offset of a seed: zero encrypted twice, with its permute bit set. */
  function GlobalOffset(aes: Cipher, seed: Block): (d: Block)
    ensures d.PermuteBit()
  {
    Block(aes(seed, aes(seed, ZERO_BLOCK)).bits[0 := true])
  }

  function Expand(aes: Cipher, seed: Block, indexArray: seq<Block>, n: nat): (r: seq<Block>)
    requires n <= |indexArray|
    ensures |r| == n && forall i :: 0 <= i < n ==> r[i] == aes(seed, indexArray[i])
  {
    seq(n, i requires 0 <= i < n => aes(seed, indexArray[i]))
  }

  /** The offset is what the cipher makes of the seed, but for its permute bit. */
  lemma OffsetTakesAll(seed: Block, d: Block)
    requires d.PermuteBit()
    ensures GlobalOffset((_, _) => d, seed) == d
  {
    assert d.bits[0 := true] == d.bits;
  }

  /** Input labels of different indices differ under an injective cipher. */
  lemma LabelsDiffer(aes: Cipher, seed: Block, indexArray: seq<Block>, n: nat, i: nat, j: nat)
    requires i < n <= |indexArray| && j < n && forall x, y :: aes(seed, x) == aes(seed, y) ==> x == y
    ensures Expand(aes, seed, indexArray, n)[i] == Expand(aes, seed, indexArray, n)[j] <==>
            indexArray[i] == indexArray[j]
  {
  }

  /** A snapshot of the object's fields. */
  datatype GarbledView = GarbledView(offset: Block, inputWires: seq<Block>, outputWires: seq<Block>,
                                     tables: seq<GarbledGate>, translation: seq<bool>)

  /** What the circuit and masks must provide to every operation. */
  ghost predicate Suitable(c: Netlist, indexArray: seq<Block>, masks: seq<Block>) {
    c.WellFormed() && |indexArray| >= c.Inputs() && |masks| == 2 * c.nonXor
  }

  ghost function SchemeOf(pi: Permutation, d: Block, c: Netlist, masks: seq<Block>): Scheme<GarbledGate> {
    HalfGateScheme(pi, d, masks, |c.gates|)
  }

  /** The zero labels solve the garbling equations, starting from the seed's input labels. */
  ghost predicate GarbledFrom(pi: Permutation, aes: Cipher, c: Netlist, seed: Block, indexArray: seq<Block>,
                              masks: seq<Block>, wires: seq<Block>, tables: seq<GarbledGate>)
    requires Suitable(c, indexArray, masks)
  {
    && Garbled(SchemeOf(pi, GlobalOffset(aes, seed), c, masks), c, wires, tables, |c.gates|)
    && forall i :: 0 <= i < c.Inputs() ==> wires[i] == Expand(aes, seed, indexArray, c.Inputs())[i]
  }

  /** The outputs' zero labels, and their permute bits as translation table. */
  ghost predicate OutputsFrom(c: Netlist, wires: seq<Block>, outputWires: seq<Block>, translation: seq<bool>)
    requires c.WellFormed() && |wires| >= c.wireCount
  {
    && |outputWires| == |translation| == |c.outputs|
    && forall i :: 0 <= i < |c.outputs| ==>
         outputWires[i] == wires[c.outputs[i]] && translation[i] == wires[c.outputs[i]].PermuteBit()
  }

  ghost predicate HonestGarbling(pi: Permutation, aes: Cipher, c: Netlist, seed: Block, indexArray: seq<Block>,
                                 masks: seq<Block>, wires: seq<Block>, v: GarbledView)
    requires Suitable(c, indexArray, masks)
  {
    && v.offset == GlobalOffset(aes, seed)
    && v.inputWires == Expand(aes, seed, indexArray, c.Inputs())
    && GarbledFrom(pi, aes, c, seed, indexArray, masks, wires, v.tables)
    && |v.tables| == c.nonXor
    && OutputsFrom(c, wires, v.outputWires, v.translation)
  }

  lemma {:induction false} TableCountIsNonXor(s: Scheme<GarbledGate>, gates: seq<Gate>, n: nat)
    requires s.free == IsXorType && n <= |gates|
    ensures TableCount(s, gates, n) == NonXorCount(gates[..n])
  {
    if n > 0 {
      TableCountIsNonXor(s, gates, n - 1);
      assert gates[..n][..n - 1] == gates[..n - 1];
    }
  }

  lemma TableTotal(pi: Permutation, d: Block, c: Netlist, masks: seq<Block>)
    requires c.WellFormed()
    ensures TableCount(SchemeOf(pi, d, c, masks), c.gates, |c.gates|) == c.nonXor
  {
    TableCountIsNonXor(SchemeOf(pi, d, c, masks), c.gates, |c.gates|);
    assert c.gates[..|c.gates|] == c.gates;
  }

  /** Garbling is a function of the seed and the masks: the tables, labels and translation are determined. */
  lemma HonestGarblingIsUnique(pi: Permutation, aes: Cipher, c: Netlist, seed: Block, indexArray: seq<Block>,
                               masks: seq<Block>, wires: seq<Block>, v: GarbledView, wires': seq<Block>,
                               v': GarbledView)
    requires Suitable(c, indexArray, masks)
    requires HonestGarbling(pi, aes, c, seed, indexArray, masks, wires, v)
    requires HonestGarbling(pi, aes, c, seed, indexArray, masks, wires', v')
    ensures v == v'
  {
    var s := SchemeOf(pi, GlobalOffset(aes, seed), c, masks);
    GarblingIsUnique(s, c, wires, v.tables, wires', v'.tables, |c.gates|);
    TableTotal(pi, GlobalOffset(aes, seed), c, masks);
    assert v.tables == v'.tables;
    assert v.outputWires == v'.outputWires && v.translation == v'.translation;
  }

  /** The tables under other masks. */
  function Remasked(tables: seq<GarbledGate>, masks: seq<Block>, masks': seq<Block>): (r: seq<GarbledGate>)
    requires |masks| == |masks'| == 2 * |tables|
    ensures |r| == |tables| && forall j :: 0 <= j < |r| ==>
              r[j] == tables[j].Masked(masks[2 * j].Xor(masks'[2 * j]), masks[2 * j + 1].Xor(masks'[2 * j + 1]))
  {
    seq(|tables|, j requires 0 <= j < |tables| =>
      tables[j].Masked(masks[2 * j].Xor(masks'[2 * j]), masks[2 * j + 1].Xor(masks'[2 * j + 1])))
  }

  /**
    Each mask is in exactly one row and nothing else depends on the masks: under other masks the same seed has the same
    labels and translation, and its tables differ by the difference of the masks.
   */
  lemma RemaskedIsHonest(pi: Permutation, aes: Cipher, c: Netlist, seed: Block, indexArray: seq<Block>,
                         masks: seq<Block>, masks': seq<Block>, wires: seq<Block>, v: GarbledView)
    requires Suitable(c, indexArray, masks) && |masks'| == |masks|
    requires HonestGarbling(pi, aes, c, seed, indexArray, masks, wires, v)
    ensures |v.tables| == c.nonXor
    ensures HonestGarbling(pi, aes, c, seed, indexArray, masks', wires,
                           v.(tables := Remasked(v.tables, masks, masks')))
  {
    var d := GlobalOffset(aes, seed);
    var s, s' := SchemeOf(pi, d, c, masks), SchemeOf(pi, d, c, masks');
    TableTotal(pi, d, c, masks);
    TableTotal(pi, d, c, masks');
    hide HashBlock, ZeroLabel, Rows, NonXorCount, Block.Xor;
    var tables := Remasked(v.tables, masks, masks');
    SameTableCounts(s, s', c.gates, |c.gates|);
    forall k | 0 <= k < |c.gates|
      ensures GateGarbled(s', c, wires, tables, k)
    {
      assert GateGarbled(s, c, wires, v.tables, k);
      SameTableCounts(s, s', c.gates, k);
      var g, j := c.gates[k], TableCount(s, c.gates, k);
      if !IsXorType(g.gt) {
        TableSlot(s, c.gates, k, |c.gates|);
        RowsRemasked(Rows(pi, d, g.gt, wires[g.in0], wires[g.in1], |c.gates|, j), masks[2 * j], masks[2 * j + 1],
                     masks'[2 * j], masks'[2 * j + 1]);
      }
    }
  }

  lemma {:induction false} SameTableCounts(s: Scheme<GarbledGate>, s': Scheme<GarbledGate>, gates: seq<Gate>, n: nat)
    requires s.free == s'.free && n <= |gates|
    ensures TableCount(s, gates, n) == TableCount(s', gates, n)
  {
    if n > 0 { SameTableCounts(s, s', gates, n - 1); }
  }

  lemma RowsRemasked(rows: GarbledGate, m0: Block, m1: Block, n0: Block, n1: Block)
    ensures rows.Masked(m0, m1).Masked(m0.Xor(n0), m1.Xor(n1)) == rows.Masked(n0, n1)
  {
    assert rows.row0.Xor(m0).Xor(m0.Xor(n0)).bits == rows.row0.Xor(n0).bits;
    assert rows.row1.Xor(m1).Xor(m1.Xor(n1)).bits == rows.row1.Xor(n1).bits;
  }

  /** The labels encode the bits x under the circuit's input labels. */
  ghost predicate EncodesInput(v: GarbledView, labels: seq<Block>, x: seq<bool>) {
    |x| == |v.inputWires| <= |labels| &&
    forall i :: 0 <= i < |x| ==> labels[i] == v.inputWires[i].Xor(Times(x[i], v.offset))
  }

  /** Every label the evaluator derives encodes the bit that the realised circuit puts on that wire. */
  lemma EveryWireEncodesItsBit(pi: Permutation, aes: Cipher, c: Netlist, seed: Block, indexArray: seq<Block>,
                               masks: seq<Block>, wires: seq<Block>, v: GarbledView, labels: seq<Block>, x: seq<bool>,
                               w: nat)
    requires Suitable(c, indexArray, masks) && HonestGarbling(pi, aes, c, seed, indexArray, masks, wires, v)
    requires EncodesInput(v, labels, x) && w < c.wireCount
    requires Evaluated(SchemeOf(pi, v.offset, c, masks), c, labels, v.tables, |c.gates|)
    ensures labels[w] == wires[w].Xor(Times(WireValue(Realised(SchemeOf(pi, v.offset, c, masks), c), x, w), v.offset))
  {
    var s := SchemeOf(pi, v.offset, c, masks);
    HalfGateSchemeCorrect(pi, v.offset, masks, |c.gates|);
    Simulation(s, c, v.offset, wires, v.tables, labels, WireBits(Realised(s, c), x), w);
  }

  ghost predicate AllHalfGates(c: Netlist) {
    forall k :: 0 <= k < |c.gates| ==> HasHalfGate(c.gates[k].gt)
  }

  /** Gate k's garbled table and its own give the same bit on these operands. */
  ghost predicate GateAgrees(c: Netlist, k: nat, a: bool, b: bool)
    requires k < |c.gates|
  {
    Eval(GarbledAs(c.gates[k].gt), a, b) == Eval(c.gates[k].gt, a, b)
  }

  /**
    Every gate's garbled table agrees with its own on all operands exactly when all gates are of the ten half-gate
    types.
   */
  lemma GatesAgreeIff(c: Netlist)
    ensures (forall k: nat, a, b :: k < |c.gates| ==> GateAgrees(c, k, a, b)) <==> AllHalfGates(c)
  {
    forall k: nat | k < |c.gates|
      ensures (forall a, b :: GateAgrees(c, k, a, b)) <==> HasHalfGate(c.gates[k].gt)
    {
      GarbledFaithfullyIff(c.gates[k].gt);
      assert forall a, b :: GateAgrees(c, k, a, b) <==>
        Eval(GarbledAs(c.gates[k].gt), a, b) == Eval(c.gates[k].gt, a, b);
    }
  }

  /** Gate k's tables agree on the operands it meets on input x. */
  ghost predicate GateAgreesOn(c: Netlist, x: seq<bool>, k: nat)
    requires c.Ordered() && |x| == c.Inputs() && k < |c.gates|
  {
    GateAgrees(c, k, WireValue(c, x, c.gates[k].in0), WireValue(c, x, c.gates[k].in1))
  }

  ghost predicate WireAgrees(c: Netlist, r: Netlist, x: seq<bool>, w: nat)
    requires c.Ordered() && r.Ordered() && |x| == c.Inputs() == r.Inputs() && w < c.wireCount == r.wireCount
  {
    WireValue(r, x, w) == WireValue(c, x, w)
  }

  lemma {:induction false} WireAgreesHere(pi: Permutation, d: Block, c: Netlist, masks: seq<Block>, x: seq<bool>,
                                          w: nat)
    requires c.Ordered() && |x| == c.Inputs() && w < c.wireCount
    requires forall k: nat :: k < |c.gates| ==> GateAgreesOn(c, x, k)
    ensures WireAgrees(c, Realised(SchemeOf(pi, d, c, masks), c), x, w)
  {
    if w >= c.Inputs() {
      var k, r := w - c.Inputs(), Realised(SchemeOf(pi, d, c, masks), c);
      GateValue(c, x, k);
      GateValue(r, x, k);
      WireAgreesHere(pi, d, c, masks, x, c.gates[k].in0);
      WireAgreesHere(pi, d, c, masks, x, c.gates[k].in1);
      assert GateAgreesOn(c, x, k);
    }
  }

  /**
    On an input, all wires carry the same bits garbled and plain exactly when every gate agrees on the operands it
    meets.
   */
  lemma RealisedIsSameIff(pi: Permutation, d: Block, c: Netlist, masks: seq<Block>, x: seq<bool>)
    requires c.Ordered() && |x| == c.Inputs()
    ensures (forall w: nat :: w < c.wireCount ==> WireAgrees(c, Realised(SchemeOf(pi, d, c, masks), c), x, w)) <==>
            (forall k: nat :: k < |c.gates| ==> GateAgreesOn(c, x, k))
  {
    var r := Realised(SchemeOf(pi, d, c, masks), c);
    if forall w: nat :: w < c.wireCount ==> WireAgrees(c, r, x, w) {
      forall k: nat | k < |c.gates|
        ensures GateAgreesOn(c, x, k)
      {
        GateValue(c, x, k);
        GateValue(r, x, k);
        assert WireAgrees(c, r, x, c.Inputs() + k) && WireAgrees(c, r, x, c.gates[k].in0)
          && WireAgrees(c, r, x, c.gates[k].in1);
      }
    }
    if forall k: nat :: k < |c.gates| ==> GateAgreesOn(c, x, k) {
      forall w: nat | w < c.wireCount
        ensures WireAgrees(c, r, x, w)
      {
        WireAgreesHere(pi, d, c, masks, x, w);
      }
    }
  }

  /** Half-gate types suffice for a circuit. */
  lemma HalfGatesSuffice(pi: Permutation, d: Block, c: Netlist, masks: seq<Block>, x: seq<bool>, w: nat)
    requires c.Ordered() && AllHalfGates(c) && |x| == c.Inputs() && w < c.wireCount
    ensures WireValue(Realised(SchemeOf(pi, d, c, masks), c), x, w) == WireValue(c, x, w)
  {
    GatesAgreeIff(c);
    forall k: nat | k < |c.gates|
      ensures GateAgreesOn(c, x, k)
    {
      assert c.gates[k].in0 < c.wireCount;
    }
    WireAgreesHere(pi, d, c, masks, x, w);
  }

  /** They are not needed: an INV gate that AddGate accepts, whose wire nobody reads, changes no output. */
  lemma UnreadInvertGateIsHarmless(pi: Permutation, d: Block, masks: seq<Block>, x: seq<bool>)
    requires |x| == 2
    ensures var c := Netlist(1, 1, 4, 2, [Gate(0, 1, 2, NA), Gate(0, 1, 3, AND)], [3]);
            && c.WellFormed() && !AllHalfGates(c)
            && OutputBits(Realised(SchemeOf(pi, d, c, masks), c), x) == OutputBits(c, x)
  {
    var c := Netlist(1, 1, 4, 2, [Gate(0, 1, 2, NA), Gate(0, 1, 3, AND)], [3]);
    assert c.gates[..2][..1] == [c.gates[0]] && c.gates[..1][..0] == [];
    var r := Realised(SchemeOf(pi, d, c, masks), c);
    assert !HasHalfGate(c.gates[0].gt);
    GateValue(c, x, 1);
    GateValue(r, x, 1);
    assert OutputBits(r, x) == OutputBits(c, x);
  }

  function Translated(v: GarbledView, c: Netlist, labels: seq<Block>): (r: seq<bool>)
    requires |v.translation| >= |c.outputs| && forall i :: 0 <= i < |c.outputs| ==> c.outputs[i] < |labels|
    ensures |r| == |c.outputs|
    ensures forall i :: 0 <= i < |r| ==> r[i] == (v.translation[i] != labels[c.outputs[i]].PermuteBit())
  {
    seq(|c.outputs|, i requires 0 <= i < |c.outputs| => v.translation[i] != labels[c.outputs[i]].PermuteBit())
  }

  lemma {:induction false} SameNonXorCount(a: seq<Gate>, b: seq<Gate>)
    requires |a| == |b| && forall k :: 0 <= k < |a| ==> IsXorType(a[k].gt) == IsXorType(b[k].gt)
    ensures NonXorCount(a) == NonXorCount(b)
  {
    if a != [] { SameNonXorCount(a[..|a| - 1], b[..|b| - 1]); }
  }

  /** Garbling changes no gate's being free. */
  lemma RealisedIsWellFormed(pi: Permutation, d: Block, c: Netlist, masks: seq<Block>)
    requires c.WellFormed()
    ensures Realised(SchemeOf(pi, d, c, masks), c).WellFormed()
  {
    SameNonXorCount(c.gates, Realised(SchemeOf(pi, d, c, masks), c).gates);
  }

  /**
    Translating an honest evaluation gives the outputs of the realised circuit, for every circuit, seed, permutation and
    masks.
   */
  lemma EvaluationIsRealised(pi: Permutation, aes: Cipher, c: Netlist, seed: Block, indexArray: seq<Block>,
                             masks: seq<Block>, wires: seq<Block>, v: GarbledView, labels: seq<Block>, x: seq<bool>)
    requires Suitable(c, indexArray, masks) && HonestGarbling(pi, aes, c, seed, indexArray, masks, wires, v)
    requires EncodesInput(v, labels, x) && Evaluated(SchemeOf(pi, v.offset, c, masks), c, labels, v.tables, |c.gates|)
    ensures Realised(SchemeOf(pi, v.offset, c, masks), c).WellFormed()
    ensures Translated(v, c, labels) == OutputBits(Realised(SchemeOf(pi, v.offset, c, masks), c), x)
  {
    RealisedIsWellFormed(pi, v.offset, c, masks);
    forall i | 0 <= i < |c.outputs|
      ensures Translated(v, c, labels)[i] == WireValue(Realised(SchemeOf(pi, v.offset, c, masks), c), x, c.outputs[i])
    {
      EveryWireEncodesItsBit(pi, aes, c, seed, indexArray, masks, wires, v, labels, x, c.outputs[i]);
    }
  }

  /** With half gates only these are the plain outputs. */
  lemma EvaluationIsPlainEvaluation(pi: Permutation, aes: Cipher, c: Netlist, seed: Block, indexArray: seq<Block>,
                                    masks: seq<Block>, wires: seq<Block>, v: GarbledView, labels: seq<Block>,
                                    x: seq<bool>)
    requires Suitable(c, indexArray, masks) && HonestGarbling(pi, aes, c, seed, indexArray, masks, wires, v)
    requires EncodesInput(v, labels, x) && AllHalfGates(c)
    requires Evaluated(SchemeOf(pi, v.offset, c, masks), c, labels, v.tables, |c.gates|)
    ensures Translated(v, c, labels) == OutputBits(c, x)
  {
    EvaluationIsRealised(pi, aes, c, seed, indexArray, masks, wires, v, labels, x);
    forall i | 0 <= i < |c.outputs|
      ensures Translated(v, c, labels)[i] == WireValue(c, x, c.outputs[i])
    {
      HalfGatesSuffice(pi, v.offset, c, masks, x, c.outputs[i]);
    }
  }

  /** An INV gate, which AddGate admits, is garbled as a conjunction: on input (true, true) the output is wrong. */
  lemma InvertGateIsGarbledAsAnd(pi: Permutation, d: Block, masks: seq<Block>)
    ensures var c := Netlist(1, 1, 3, 1, [Gate(0, 1, 2, NA)], [2]);
            && !AddGateRefuses(Netlist(1, 1, 2, 0, [], []), 0, 1, NA) && c.WellFormed()
            && OutputBits(Realised(SchemeOf(pi, d, c, masks), c), [true, true]) != OutputBits(c, [true, true])
  {
    var c := Netlist(1, 1, 3, 1, [Gate(0, 1, 2, NA)], [2]);
    assert c.gates[..0] == [];
    var r := Realised(SchemeOf(pi, d, c, masks), c);
    GateValue(c, [true, true], 0);
    GateValue(r, [true, true], 0);
    assert OutputBits(c, [true, true])[0] != OutputBits(r, [true, true])[0];
  }

  /** No garbling from these input labels has these tables. */
  ghost predicate NotGarbled(s: Scheme<GarbledGate>, c: Netlist, inputs: seq<Block>, tables: seq<GarbledGate>)
    requires c.Ordered() && |inputs| == c.Inputs()
  {
    forall wires :: |wires| >= c.Inputs() && (forall i :: 0 <= i < c.Inputs() ==> wires[i] == inputs[i]) ==>
      !Garbled(s, c, wires, tables, |c.gates|)
  }

  /** The labels and tables of the first k gates, from the given input labels. */
  ghost predicate GarbledSoFar(s: Scheme<GarbledGate>, c: Netlist, inputs: seq<Block>, wires: seq<Block>,
                               tables: seq<GarbledGate>, k: nat)
    requires c.Ordered() && k <= |c.gates|
  {
    && |inputs| == c.Inputs() && |wires| == c.Inputs() + k && |tables| == TableCount(s, c.gates, k)
    && (forall i :: 0 <= i < c.Inputs() ==> wires[i] == inputs[i])
    && Garbled(s, c, wires, tables, k)
  }

  lemma SoFarStart(s: Scheme<GarbledGate>, c: Netlist, inputs: seq<Block>)
    requires c.Ordered() && |inputs| == c.Inputs()
    ensures GarbledSoFar(s, c, inputs, inputs, [], 0)
  {
  }

  lemma SoFarFacts(s: Scheme<GarbledGate>, c: Netlist, inputs: seq<Block>, wires: seq<Block>, tables: seq<GarbledGate>,
                   k: nat)
    requires c.Ordered() && k < |c.gates| && GarbledSoFar(s, c, inputs, wires, tables, k)
    ensures |wires| == c.Inputs() + k == c.gates[k].out && c.gates[k].in0 < |wires| && c.gates[k].in1 < |wires|
    ensures |tables| == TableCount(s, c.gates, k) <= TableCount(s, c.gates, |c.gates|)
    ensures !s.free(c.gates[k].gt) ==> |tables| < TableCount(s, c.gates, |c.gates|)
  {
    TableCountMonotone(s, c.gates, k, |c.gates|);
    TableCountMonotone(s, c.gates, k + 1, |c.gates|);
  }

  lemma SoFarStep(s: Scheme<GarbledGate>, c: Netlist, inputs: seq<Block>, wires: seq<Block>, tables: seq<GarbledGate>,
                  wire: Block, table: GarbledGate, k: nat)
    requires c.Ordered() && k < |c.gates| && GarbledSoFar(s, c, inputs, wires, tables, k)
    requires c.gates[k].in0 < |wires| && c.gates[k].in1 < |wires|
    requires wire == s.zero(c.gates[k].gt, wires[c.gates[k].in0], wires[c.gates[k].in1], |tables|)
    requires !s.free(c.gates[k].gt) ==>
               table == s.table(c.gates[k].gt, wires[c.gates[k].in0], wires[c.gates[k].in1], |tables|)
    ensures GarbledSoFar(s, c, inputs, wires + [wire],
                         if s.free(c.gates[k].gt) then tables else tables + [table], k + 1)
  {
    var wires', tables' := wires + [wire], if s.free(c.gates[k].gt) then tables else tables + [table];
    assert GateGarbled(s, c, wires', tables', k);
    forall i | 0 <= i < k
      ensures GateGarbled(s, c, wires', tables', i)
    {
      assert GateGarbled(s, c, wires, tables, i) && c.gates[i].out == c.Inputs() + i;
    }
  }

  lemma SoFarDone(s: Scheme<GarbledGate>, c: Netlist, inputs: seq<Block>, wires: seq<Block>, tables: seq<GarbledGate>)
    requires c.Ordered() && GarbledSoFar(s, c, inputs, wires, tables, |c.gates|)
    ensures |wires| == c.wireCount && |tables| == TableCount(s, c.gates, |c.gates|)
    ensures Garbled(s, c, wires, tables, |c.gates|)
    ensures |inputs| == c.Inputs() && forall i :: 0 <= i < c.Inputs() ==> wires[i] == inputs[i]
  {
  }

  /** A table that differs from the one just computed cannot come from these input labels. */
  lemma MismatchMeansNotGarbled(s: Scheme<GarbledGate>, c: Netlist, inputs: seq<Block>, wires: seq<Block>,
                                tables: seq<GarbledGate>, wire: Block, table: GarbledGate, k: nat)
    requires c.Ordered() && k < |c.gates| && !s.free(c.gates[k].gt) && TableCount(s, c.gates, k) < |tables|
    requires GarbledSoFar(s, c, inputs, wires, tables[..TableCount(s, c.gates, k)], k)
    requires c.gates[k].in0 < |wires| && c.gates[k].in1 < |wires|
    requires wire == s.zero(c.gates[k].gt, wires[c.gates[k].in0], wires[c.gates[k].in1], TableCount(s, c.gates, k))
    requires table == s.table(c.gates[k].gt, wires[c.gates[k].in0], wires[c.gates[k].in1], TableCount(s, c.gates, k))
    requires table != tables[TableCount(s, c.gates, k)]
    ensures |inputs| == c.Inputs() && NotGarbled(s, c, inputs, tables)
  {
    var j := TableCount(s, c.gates, k);
    SoFarStep(s, c, inputs, wires, tables[..j], wire, table, k);
    forall wires' | |wires'| >= c.Inputs() && forall i :: 0 <= i < c.Inputs() ==> wires'[i] == inputs[i]
      ensures !Garbled(s, c, wires', tables, |c.gates|)
    {
      if Garbled(s, c, wires', tables, |c.gates|) {
        TableCountMonotone(s, c.gates, k + 1, |c.gates|);
        assert Garbled(s, c, wires', tables, k + 1);
        GarblingIsUnique(s, c, wires + [wire], tables[..j] + [table], wires', tables, k + 1);
        assert false;
      }
    }
  }

  lemma GateStep(s: Scheme<GarbledGate>, c: Netlist, k: nat)
    requires c.Ordered() && k < |c.gates|
    ensures c.gates[k].out == c.Inputs() + k && c.gates[k].in0 < c.Inputs() + k && c.gates[k].in1 < c.Inputs() + k
    ensures TableCount(s, c.gates, k + 1) == TableCount(s, c.gates, k) + if s.free(c.gates[k].gt) then 0 else 1
    ensures TableCount(s, c.gates, k + 1) <= TableCount(s, c.gates, |c.gates|)
  {
    TableCountMonotone(s, c.gates, k + 1, |c.gates|);
  }

  /** The tweaks before the first of n gates. */
  function FirstTweaks(n: nat): (Block, Block) {
    (ZERO_BLOCK, FromLanes(n, 0))
  }

  lemma CountStarts(n: nat)
    ensures Counted(FirstTweaks(n), 0, n, 0)
  {
    assert ZERO_BLOCK.bits == FromLanes(0, 0).bits;
  }

  /** The gate loop of evaluation, on its own copy of the masks. */
  method EvaluateGates(pi: Permutation, cd: Netlist, tables: seq<GarbledGate>, labels: seq<Block>,
                       tableMasks: seq<Block>, ghost d: Block, ghost s: Scheme<GarbledGate>)
    returns (r: seq<Block>)
    requires cd.WellFormed() && |labels| == cd.wireCount && |tables| == TableCount(s, cd.gates, |cd.gates|)
    requires Implements(s, pi, d, tableMasks, |cd.gates|) && |tableMasks| == 2 * |tables|
    ensures |r| == cd.wireCount && forall i :: 0 <= i < cd.Inputs() ==> r[i] == labels[i]
    ensures Evaluated(s, cd, r, tables, |cd.gates|)
  {
    hide NonXorCount, Netlist.WellFormed, FromLanes, NatBits, Counted, IsXorType, TableCount;
    r := labels;
    var n := |cd.gates|;
    EvaluationStarts(s, cd, r, tables);
    assert s.free == IsXorType;
    var masks := new Block[|tableMasks|](i requires 0 <= i < |tableMasks| => tableMasks[i]);
    assert masks[..] == tableMasks;
    var tweaks := FirstTweaks(n);
    var j: nat, maskIter: nat := 0, 0;
    CountStarts(n);
    hide Evaluated, Netlist.Ordered, Implements, FirstTweaks;
    for k := 0 to n
      modifies masks
      invariant |r| == cd.wireCount && j == TableCount(s, cd.gates, k) && Counted(tweaks, maskIter, n, j)
      invariant maskIter == 2 * j && maskIter <= |tableMasks| && masks[maskIter..] == tableMasks[maskIter..]
      invariant forall i :: 0 <= i < cd.Inputs() ==> r[i] == labels[i]
      invariant Evaluated(s, cd, r, tables, k)
    {
      var gate := cd.gates[k];
      GateStep(s, cd, k);
      var a, b := r[gate.in0], r[gate.in1];
      ghost var before := r;
      if IsXorType(gate.gt) {
        r := r[gate.out := a.Xor(b)];
        JoinIsXor(s, pi, d, tableMasks, n, a, b);
      } else {
        TableSlot(s, cd.gates, k, n);
        var c;
        c, tweaks, maskIter := EvaluateGate(pi, masks, a, b, tweaks, maskIter, tables[j], tableMasks, n, j, d, s);
        r := r[gate.out := c];
        j := j + 1;
        CountedMasks(tweaks, maskIter, n, j);
      }
      EvaluatedExtends(s, cd, before, r, tables, k);
    }
  }

  lemma EvaluationStarts(s: Scheme<GarbledGate>, cd: Netlist, labels: seq<Block>, tables: seq<GarbledGate>)
    requires cd.WellFormed() && |labels| == cd.wireCount
    ensures TableCount(s, cd.gates, 0) == 0 && cd.wireCount == cd.Inputs() + |cd.gates| && cd.Ordered()
    ensures Evaluated(s, cd, labels, tables, 0)
  {
  }

  lemma JoinIsXor(s: Scheme<GarbledGate>, pi: Permutation, d: Block, masks: seq<Block>, n: nat, a: Block, b: Block)
    requires Implements(s, pi, d, masks, n)
    ensures s.join(a, b) == a.Xor(b)
  {
  }

  lemma CountedMasks(tweaks: (Block, Block), maskIter: nat, n: nat, j: nat)
    requires Counted(tweaks, maskIter, n, j)
    ensures maskIter == 2 * j
  {
  }

  /** Evaluation from received tables. */
  method EvaluateTables(pi: Permutation, cd: Netlist, tables: seq<GarbledGate>, labels: seq<Block>,
                        tableMasks: seq<Block>, ghost d: Block)
    returns (r: seq<Block>)
    requires cd.WellFormed() && |labels| == cd.wireCount && |tableMasks| == 2 * cd.nonXor && |tables| == cd.nonXor
    ensures |r| == cd.wireCount && forall i :: 0 <= i < cd.Inputs() ==> r[i] == labels[i]
    ensures Evaluated(SchemeOf(pi, d, cd, tableMasks), cd, r, tables, |cd.gates|)
  {
    HalfGateSchemeImplements(pi, d, tableMasks, |cd.gates|);
    TableTotal(pi, d, cd, tableMasks);
    r := EvaluateGates(pi, cd, tables, labels, tableMasks, d, SchemeOf(pi, d, cd, tableMasks));
  }

  lemma SizesOf(cd: Netlist)
    requires cd.WellFormed()
    ensures cd.wireCount == cd.Inputs() + |cd.gates| && cd.Ordered()
  {
  }

  class HalfGtGarbledCircuit {
    var globalOffset: Block
    var inputWires: seq<Block>
    var outputWires: seq<Block>
    var gates: seq<GarbledGate>
    var translationTable: seq<bool>

    constructor ()
      ensures inputWires == [] && outputWires == [] && gates == [] && translationTable == []
    {
      globalOffset := ZERO_BLOCK;
      inputWires, outputWires, gates, translationTable := [], [], [], [];
    }

    function View(): GarbledView
      reads this
    {
      GarbledView(globalOffset, inputWires, outputWires, gates, translationTable)
    }

    /** The output labels, and their permute bits as translation table. */
    method CollectOutputs(cd: Netlist, wires: seq<Block>)
      requires cd.WellFormed() && |wires| >= cd.wireCount
      modifies `outputWires, `translationTable
      ensures OutputsFrom(cd, wires, outputWires, translationTable)
    {
      outputWires, translationTable := [], Zeros(|cd.outputs|);
      for i := 0 to |cd.outputs|
        invariant |outputWires| == i && |translationTable| == |cd.outputs|
        invariant forall j :: 0 <= j < i ==>
          outputWires[j] == wires[cd.outputs[j]] && translationTable[j] == wires[cd.outputs[j]].PermuteBit()
      {
        outputWires := outputWires + [wires[cd.outputs[i]]];
        translationTable := translationTable[i := wires[cd.outputs[i]].PermuteBit()];
      }
    }

    /** The gate loop of Garble: appends a label per gate and a table per gate that is not free. */
    method GarbleGates(pi: Permutation, cd: Netlist, tableMasks: seq<Block>, ghost s: Scheme<GarbledGate>)
      requires cd.WellFormed() && |inputWires| == cd.Inputs() && gates == []
      requires Implements(s, pi, globalOffset, tableMasks, |cd.gates|)
      requires |tableMasks| == 2 * TableCount(s, cd.gates, |cd.gates|)
      modifies `inputWires, `gates
      ensures |inputWires| == cd.wireCount && |gates| == TableCount(s, cd.gates, |cd.gates|)
      ensures forall i :: 0 <= i < cd.Inputs() ==> inputWires[i] == old(inputWires)[i]
      ensures Garbled(s, cd, inputWires, gates, |cd.gates|)
    {
      assert s.free == IsXorType && cd.Ordered();
      hide GarbledSoFar, Garbled, Implements, NonXorCount, TableCount, Netlist.Ordered, Netlist.WellFormed, IsXorType,
           Counted, FirstTweaks;
      var n := |cd.gates|;
      var tweaks, maskIter := FirstTweaks(n), 0;
      CountStarts(n);
      SoFarStart(s, cd, inputWires);
      for k := 0 to n
        invariant GarbledSoFar(s, cd, old(inputWires), inputWires, gates, k) && Counted(tweaks, maskIter, n, |gates|)
      {
        var gate := cd.gates[k];
        SoFarFacts(s, cd, old(inputWires), inputWires, gates, k);
        CountedMasks(tweaks, maskIter, n, |gates|);
        ghost var before, tables := inputWires, gates;
        var c, table;
        c, table, tweaks, maskIter :=
          GarbleGate(pi, globalOffset, tableMasks, gate.gt, inputWires[gate.in0], inputWires[gate.in1],
                     tweaks, maskIter, n, |gates|, s);
        inputWires := inputWires + [c];
        if !IsXorType(gate.gt) {
          gates := gates + [table];
        }
        SoFarStep(s, cd, old(inputWires), before, tables, c, table, k);
      }
      SoFarDone(s, cd, old(inputWires), inputWires, gates);
    }

    method Garble(pi: Permutation, aes: Cipher, cd: Netlist, seed: Block, indexArray: seq<Block>,
                  tableMasks: seq<Block>)
      returns (ghost wires: seq<Block>)
      requires Suitable(cd, indexArray, tableMasks)
      modifies this
      ensures HonestGarbling(pi, aes, cd, seed, indexArray, tableMasks, wires, View())
    {
      gates, outputWires := [], [];
      globalOffset := GlobalOffset(aes, seed);
      inputWires := Expand(aes, seed, indexArray, cd.Inputs());
      HalfGateSchemeImplements(pi, globalOffset, tableMasks, |cd.gates|);
      TableTotal(pi, globalOffset, cd, tableMasks);
      GarbleGates(pi, cd, tableMasks, SchemeOf(pi, globalOffset, cd, tableMasks));
      wires := inputWires;
      CollectOutputs(cd, inputWires);
      inputWires := inputWires[..cd.Inputs()];
    }

    /**
      One turn of GarbleSend: writes the label at the gate's own output wire and the table, if any, into the send
      buffer.
     */
    method SendGate(pi: Permutation, cd: Netlist, k: nat, wires: array<Block>, buff: array<GarbledGate>,
                    tableMasks: seq<Block>, gateIter: nat, tweaks: (Block, Block), maskIter: nat,
                    ghost inputs: seq<Block>, ghost s: Scheme<GarbledGate>)
      returns (gateIter': nat, tweaks': (Block, Block), maskIter': nat)
      requires cd.Ordered() && k < |cd.gates| && wires.Length >= cd.Inputs() + |cd.gates| && s.free == IsXorType
      requires buff.Length == TableCount(s, cd.gates, |cd.gates|) && |tableMasks| == 2 * buff.Length
      requires Implements(s, pi, globalOffset, tableMasks, |cd.gates|)
      requires gateIter <= buff.Length && GarbledSoFar(s, cd, inputs, wires[..cd.Inputs() + k], buff[..gateIter], k)
      requires Counted(tweaks, maskIter, |cd.gates|, gateIter)
      modifies wires, buff
      ensures gateIter' <= buff.Length
      ensures GarbledSoFar(s, cd, inputs, wires[..cd.Inputs() + k + 1], buff[..gateIter'], k + 1)
      ensures Counted(tweaks', maskIter', |cd.gates|, gateIter')
    {
      hide GarbledSoFar, Implements, TableCount, Netlist.Ordered, IsXorType, Counted;
      var gate := cd.gates[k];
      ghost var before, tables := wires[..cd.Inputs() + k], buff[..gateIter];
      SoFarFacts(s, cd, inputs, before, tables, k);
      CountedMasks(tweaks, maskIter, |cd.gates|, gateIter);
      gateIter' := gateIter;
      var c, table;
      c, table, tweaks', maskIter' :=
        GarbleGate(pi, globalOffset, tableMasks, gate.gt, wires[gate.in0], wires[gate.in1],
                   tweaks, maskIter, |cd.gates|, gateIter, s);
      wires[gate.out] := c;
      assert wires[..cd.Inputs() + k + 1] == before + [c];
      if !IsXorType(gate.gt) {
        buff[gateIter] := table;
        gateIter' := gateIter + 1;
        assert buff[..gateIter'] == tables + [table];
      }
      SoFarStep(s, cd, inputs, before, tables, c, table, k);
    }

    /** The gate loop of GarbleSend. */
    method GarbleSendGates(pi: Permutation, cd: Netlist, wires: array<Block>, buff: array<GarbledGate>,
                           tableMasks: seq<Block>, ghost inputs: seq<Block>, ghost s: Scheme<GarbledGate>)
      returns (ghost gateIter: nat)
      requires cd.Ordered() && wires.Length >= cd.Inputs() + |cd.gates| && inputs == wires[..cd.Inputs()]
      requires s.free == IsXorType
      requires Implements(s, pi, globalOffset, tableMasks, |cd.gates|)
      requires buff.Length == TableCount(s, cd.gates, |cd.gates|) && |tableMasks| == 2 * buff.Length
      modifies wires, buff
      ensures gateIter <= buff.Length
      ensures GarbledSoFar(s, cd, inputs, wires[..cd.Inputs() + |cd.gates|], buff[..gateIter], |cd.gates|)
    {
      hide GarbledSoFar, Implements, TableCount, Netlist.Ordered, IsXorType, Counted, FirstTweaks;
      var next: nat, maskIter: nat := 0, 0;
      var tweaks := FirstTweaks(|cd.gates|);
      CountStarts(|cd.gates|);
      SoFarStart(s, cd, inputs);
      assert buff[..0] == [];
      for k := 0 to |cd.gates|
        modifies wires, buff
        invariant next <= buff.Length && GarbledSoFar(s, cd, inputs, wires[..cd.Inputs() + k], buff[..next], k)
        invariant Counted(tweaks, maskIter, |cd.gates|, next)
      {
        next, tweaks, maskIter := SendGate(pi, cd, k, wires, buff, tableMasks, next, tweaks, maskIter, inputs, s);
      }
      gateIter := next;
    }

    /** Garbles into a reused label buffer and streams the tables instead of keeping them. */
    method GarbleSend(pi: Permutation, aes: Cipher, cd: Netlist, seed: Block, wires: array<Block>,
                      indexArray: seq<Block>, tableMasks: seq<Block>)
      returns (sentTables: seq<GarbledGate>, sentTranslation: seq<bool>)
      requires Suitable(cd, indexArray, tableMasks) && wires.Length >= cd.wireCount
      modifies this, wires
      ensures gates == old(gates)
      ensures HonestGarbling(pi, aes, cd, seed, indexArray, tableMasks, wires[..], View().(tables := sentTables))
      ensures sentTranslation == translationTable
    {
      hide Netlist.WellFormed, NonXorCount, Implements, Garbled, GarbledSoFar, FromLanes, GlobalOffset, TableCount,
           OutputsFrom, Netlist.Ordered;
      outputWires := [];
      globalOffset := GlobalOffset(aes, seed);
      inputWires := Expand(aes, seed, indexArray, cd.Inputs());
      SizesOf(cd);
      for i := 0 to cd.Inputs()
        modifies wires
        invariant forall j :: 0 <= j < i ==> wires[j] == inputWires[j]
      {
        wires[i] := inputWires[i];
      }
      HalfGateSchemeImplements(pi, globalOffset, tableMasks, |cd.gates|);
      TableTotal(pi, globalOffset, cd, tableMasks);
      var buff := new GarbledGate[cd.nonXor];
      ghost var s, inputs := SchemeOf(pi, globalOffset, cd, tableMasks), wires[..cd.Inputs()];
      ghost var gateIter := GarbleSendGates(pi, cd, wires, buff, tableMasks, inputs, s);
      SoFarDone(s, cd, inputs, wires[..cd.wireCount], buff[..gateIter]);
      sentTables := buff[..];
      assert sentTables == buff[..gateIter];
      GarbledInBuffer(SchemeOf(pi, globalOffset, cd, tableMasks), cd, wires[..cd.wireCount], sentTables, wires[..]);
      CollectOutputs(cd, wires[..]);
      sentTranslation := translationTable;
    }

    /** Fills in the labels of the gates' output wires; d is any offset. */
    method Evaluate(pi: Permutation, cd: Netlist, labels: seq<Block>, tableMasks: seq<Block>, ghost d: Block)
      returns (r: seq<Block>)
      requires cd.WellFormed() && |labels| == cd.wireCount && |tableMasks| == 2 * cd.nonXor && |gates| == cd.nonXor
      ensures |r| == cd.wireCount && forall i :: 0 <= i < cd.Inputs() ==> r[i] == labels[i]
      ensures Evaluated(SchemeOf(pi, d, cd, tableMasks), cd, r, gates, |cd.gates|)
    {
      r := EvaluateTables(pi, cd, gates, labels, tableMasks, d);
    }

    /** One turn of Validate: garbles the gate anew and compares its table with the next received one. */
    method ValidateGate(pi: Permutation, cd: Netlist, k: nat, tableMasks: seq<Block>, next: nat, tweaks: (Block, Block),
                        maskIter: nat, ghost inputs: seq<Block>, ghost s: Scheme<GarbledGate>)
      returns (ok: bool, next': nat, tweaks': (Block, Block), maskIter': nat)
      requires cd.Ordered() && k < |cd.gates| && |gates| == TableCount(s, cd.gates, |cd.gates|) && s.free == IsXorType
      requires Implements(s, pi, globalOffset, tableMasks, |cd.gates|) && |tableMasks| == 2 * |gates|
      requires next <= |gates| && GarbledSoFar(s, cd, inputs, inputWires, gates[..next], k)
      requires Counted(tweaks, maskIter, |cd.gates|, next)
      modifies `inputWires
      ensures !ok ==> |inputs| == cd.Inputs() && NotGarbled(s, cd, inputs, gates)
      ensures ok ==> next' <= |gates| && GarbledSoFar(s, cd, inputs, inputWires, gates[..next'], k + 1)
      ensures ok ==> Counted(tweaks', maskIter', |cd.gates|, next')
    {
      hide GarbledSoFar, Implements, TableCount, NotGarbled, Netlist.Ordered, IsXorType, Counted;
      var gate := cd.gates[k];
      ghost var before, tables := inputWires, gates[..next];
      SoFarFacts(s, cd, inputs, before, tables, k);
      CountedMasks(tweaks, maskIter, |cd.gates|, next);
      ok, next' := true, next;
      var c, table;
      c, table, tweaks', maskIter' :=
        GarbleGate(pi, globalOffset, tableMasks, gate.gt, inputWires[gate.in0], inputWires[gate.in1],
                   tweaks, maskIter, |cd.gates|, next, s);
      inputWires := inputWires + [c];
      if !IsXorType(gate.gt) {
        if table != gates[next] {
          MismatchMeansNotGarbled(s, cd, inputs, before, gates, c, table, k);
          ok := false;
          return;
        }
        next' := next + 1;
        assert gates[..next'] == tables + [table];
      }
      SoFarStep(s, cd, inputs, before, tables, c, table, k);
    }

    /** The gate loop of Validate; false where the original throws. */
    method ValidateGates(pi: Permutation, cd: Netlist, tableMasks: seq<Block>, ghost s: Scheme<GarbledGate>)
      returns (ok: bool)
      requires cd.WellFormed() && |inputWires| == cd.Inputs() && |gates| == TableCount(s, cd.gates, |cd.gates|)
      requires Implements(s, pi, globalOffset, tableMasks, |cd.gates|) && |tableMasks| == 2 * |gates|
      modifies `inputWires
      ensures ok ==> |inputWires| == cd.wireCount && Garbled(s, cd, inputWires, gates, |cd.gates|)
      ensures ok ==> forall i :: 0 <= i < cd.Inputs() ==> inputWires[i] == old(inputWires)[i]
      ensures !ok ==> NotGarbled(s, cd, old(inputWires), gates)
    {
      assert s.free == IsXorType && cd.Ordered() && gates[..0] == [];
      hide GarbledSoFar, Garbled, Implements, TableCount, NotGarbled, Netlist.Ordered, Netlist.WellFormed, IsXorType,
           Counted, FirstTweaks;
      var next: nat, maskIter: nat := 0, 0;
      var tweaks := FirstTweaks(|cd.gates|);
      ghost var inputs := inputWires;
      CountStarts(|cd.gates|);
      SoFarStart(s, cd, inputs);
      for k := 0 to |cd.gates|
        invariant next <= |gates| && GarbledSoFar(s, cd, inputs, inputWires, gates[..next], k)
        invariant Counted(tweaks, maskIter, |cd.gates|, next)
      {
        ok, next, tweaks, maskIter := ValidateGate(pi, cd, k, tableMasks, next, tweaks, maskIter, inputs, s);
        if !ok { return; }
      }
      SoFarDone(s, cd, inputs, inputWires, gates[..next]);
      assert gates[..next] == gates;
      return true;
    }

    /**
      Re-garbles from the seed and compares every table, then every translation bit. Accepts exactly
      what honest garbling from this seed and these masks produces.
     */
    method Validate(pi: Permutation, aes: Cipher, cd: Netlist, seed: Block, indexArray: seq<Block>,
                    tableMasks: seq<Block>)
      returns (ok: bool, ghost wires: seq<Block>)
      requires Suitable(cd, indexArray, tableMasks) && |gates| == cd.nonXor && |translationTable| == |cd.outputs|
      modifies `globalOffset, `inputWires, `outputWires
      ensures ok ==> HonestGarbling(pi, aes, cd, seed, indexArray, tableMasks, wires, View())
      ensures !ok ==> forall w: seq<Block>, v: GarbledView ::
        HonestGarbling(pi, aes, cd, seed, indexArray, tableMasks, w, v) ==>
                        v.tables != gates || v.translation != translationTable
    {
      globalOffset := GlobalOffset(aes, seed);
      inputWires := Expand(aes, seed, indexArray, cd.Inputs());
      ghost var s := SchemeOf(pi, globalOffset, cd, tableMasks);
      HalfGateSchemeImplements(pi, globalOffset, tableMasks, |cd.gates|);
      TableTotal(pi, globalOffset, cd, tableMasks);
      ok := ValidateGates(pi, cd, tableMasks, s);
      wires := inputWires;
      if !ok { return; }
      outputWires := [];
      for i := 0 to |cd.outputs|
        invariant |outputWires| == i && inputWires == wires && globalOffset == GlobalOffset(aes, seed)
        invariant forall j :: 0 <= j < i ==>
          outputWires[j] == wires[cd.outputs[j]] && translationTable[j] == wires[cd.outputs[j]].PermuteBit()
      {
        outputWires := outputWires + [inputWires[cd.outputs[i]]];
        if translationTable[i] != inputWires[cd.outputs[i]].PermuteBit() {
          forall w: seq<Block>, v: GarbledView | HonestGarbling(pi, aes, cd, seed, indexArray, tableMasks, w, v)
            ensures v.translation != translationTable || v.tables != gates
          {
            GarblingIsUnique(s, cd, wires, gates, w, v.tables, |cd.gates|);
            assert v.translation[i] == w[cd.outputs[i]].PermuteBit();
          }
          return false, wires;
        }
      }
      inputWires := inputWires[..cd.Inputs()];
    }

    method Translate(cd: Netlist, labels: seq<Block>) returns (output: seq<bool>)
      requires |translationTable| == |cd.outputs| && forall i :: 0 <= i < |cd.outputs| ==> cd.outputs[i] < |labels|
      ensures output == Translated(View(), cd, labels)
    {
      output := Zeros(|translationTable|);
      for i := 0 to |cd.outputs|
        invariant |output| == |cd.outputs|
        invariant forall j :: 0 <= j < i ==> output[j] == (translationTable[j] != labels[cd.outputs[j]].PermuteBit())
      {
        output := output[i := translationTable[i] != labels[cd.outputs[i]].PermuteBit()];
      }
    }
  }

  lemma GarbledInBuffer(s: Scheme<GarbledGate>, c: Netlist, wires: seq<Block>, tables: seq<GarbledGate>,
                        buffer: seq<Block>)
    requires c.Ordered() && Garbled(s, c, wires, tables, |c.gates|)
    requires |wires| == c.wireCount <= |buffer| && forall w :: 0 <= w < |wires| ==> buffer[w] == wires[w]
    ensures Garbled(s, c, buffer, tables, |c.gates|)
  {
    forall i | 0 <= i < |c.gates|
      ensures GateGarbled(s, c, buffer, tables, i)
    {
      assert GateGarbled(s, c, wires, tables, i) && c.gates[i].out == c.Inputs() + i;
    }
  }

  lemma EvaluatedExtends(s: Scheme<GarbledGate>, c: Netlist, labels: seq<Block>, labels': seq<Block>,
                         tables: seq<GarbledGate>, k: nat)
    requires c.Ordered() && k < |c.gates| && Evaluated(s, c, labels, tables, k)
    requires |labels'| == |labels| > c.Inputs() + k
    requires forall w :: 0 <= w < c.Inputs() + k ==> labels'[w] == labels[w]
    requires GateEvaluated(s, c, labels', tables, k)
    ensures Evaluated(s, c, labels', tables, k + 1)
  {
    forall i | 0 <= i < k
      ensures GateEvaluated(s, c, labels', tables, i)
    {
      assert GateEvaluated(s, c, labels, tables, i) && c.gates[i].out == c.Inputs() + i;
    }
  }
}
