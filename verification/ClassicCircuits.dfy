/** The four-row garbling scheme: every gate has a table, and every truth table is garbled faithfully. */
module ClassicCircuits {
  import opened Blocks
  import opened Gates
  import opened Circuits
  import opened Lanes
  import opened Schemes

  type FourRows = t: seq<Block> | |t| == 4 witness [ZERO_BLOCK, ZERO_BLOCK, ZERO_BLOCK, ZERO_BLOCK]

  /** Deciphering undoes enciphering. */
  ghost predicate Inverse(enc: Cipher, dec: Cipher) {
    forall k, m :: dec(k, enc(k, m)) == m
  }

  /** The n-th block drawn from a seed. */
  function Drawn(enc: Cipher, seed: Block, n: nat): Block {
    enc(seed, FromLanes(n, 0))
  }

  /** With an injective cipher no block is drawn twice. */
  lemma DrawnDiffer(enc: Cipher, seed: Block, m: nat, n: nat)
    requires m < Pow2(64) && n < Pow2(64) && forall x, y :: enc(seed, x) == enc(seed, y) ==> x == y
    ensures Drawn(enc, seed, m) == Drawn(enc, seed, n) <==> m == n
  {
    hide Pow2, FromLanes;
    ZeroFits();
    LanesDiffer(m, 0, n, 0);
  }

  lemma ZeroFits()
    ensures 0 < Pow2(64)
  {
  }

  /** The first block drawn, with its lowest bit set. */
  function ClassicOffset(enc: Cipher, seed: Block): (d: Block)
    ensures d.PermuteBit()
  {
    Block(Drawn(enc, seed, 0).bits[0 := true])
  }

  lemma ClassicOffsetTakesAll(seed: Block, d: Block)
    requires d.PermuteBit()
    ensures ClassicOffset((_, _) => d, seed) == d
  {
    assert d.bits[0 := true] == d.bits;
  }

  /** The position of row i when the operands' zero labels have these permute bits. */
  function Position(pa: bool, pb: bool, i: nat): (t: nat)
    requires i < 4
    ensures t < 4
  {
    (if pa then 1 - i % 2 else i % 2) + (if pb then 2 - i / 2 * 2 else i / 2 * 2)
  }

  lemma PositionTwice(pa: bool, pb: bool, i: nat)
    requires i < 4
    ensures Position(pa, pb, Position(pa, pb, i)) == i
  {
  }

  /** Row i: the output label for operand bits i % 2 and i / 2, under the two operand labels. */
  function RowOf(enc: Cipher, d: Block, gt: GateType, a: Block, b: Block, c: Block, i: nat): Block
    requires i < 4
  {
    enc(b.Xor(Times(i / 2 == 1, d)),
        enc(a.Xor(Times(i % 2 == 1, d)), c.Xor(Times(Eval(gt, i % 2 == 1, i / 2 == 1), d))))
  }

  /** Both labels lock a row: under a cipher that adds a pad for the key, it carries the pads of both. */
  lemma RowIsLockedTwice(pad: Block -> Block, d: Block, gt: GateType, a: Block, b: Block, c: Block, x: bool, y: bool)
    ensures var i := (if x then 1 else 0) + (if y then 2 else 0);
            RowOf((k: Block, v: Block) => v.Xor(pad(k)), d, gt, a, b, c, i) ==
            c.Xor(Times(Eval(gt, x, y), d)).Xor(pad(a.Xor(Times(x, d))).Xor(pad(b.Xor(Times(y, d)))))
  {
    var v, p, q := c.Xor(Times(Eval(gt, x, y), d)), pad(a.Xor(Times(x, d))), pad(b.Xor(Times(y, d)));
    assert v.Xor(p).Xor(q).bits == v.Xor(p.Xor(q)).bits;
  }

  function TableOf(enc: Cipher, d: Block, gt: GateType, a: Block, b: Block, c: Block): (t: FourRows)
    ensures forall i :: 0 <= i < 4 ==> t[i] == RowOf(enc, d, gt, a, b, c, Position(a.PermuteBit(), b.PermuteBit(), i))
  {
    seq(4, i requires 0 <= i < 4 => RowOf(enc, d, gt, a, b, c, Position(a.PermuteBit(), b.PermuteBit(), i)))
  }

  function PointedRow(a: Block, b: Block): (t: nat)
    ensures t < 4
  {
    (if a.PermuteBit() then 1 else 0) + (if b.PermuteBit() then 2 else 0)
  }

  function Deciphered(dec: Cipher, a: Block, b: Block, t: FourRows): Block {
    dec(a, dec(b, t[PointedRow(a, b)]))
  }

  /** The operands' active labels point at the row for their bits. */
  lemma PointsAtRow(d: Block, a: Block, b: Block, x: bool, y: bool)
    requires d.PermuteBit()
    ensures Position(a.PermuteBit(), b.PermuteBit(), PointedRow(a.Xor(Times(x, d)), b.Xor(Times(y, d)))) ==
      (if x then 1 else 0) + (if y then 2 else 0)
  {
    XorBit(a, Times(x, d));
    XorBit(b, Times(y, d));
  }

  lemma XorBit(a: Block, b: Block)
    ensures a.Xor(b).PermuteBit() == (a.PermuteBit() != b.PermuteBit())
  {
  }

  /** One gate: the active labels decipher the active output label, whatever the truth table. */
  lemma ClassicGateSimulation(enc: Cipher, dec: Cipher, d: Block, gt: GateType, a: Block, b: Block, c: Block, x: bool,
                              y: bool)
    requires Inverse(enc, dec) && d.PermuteBit()
    ensures Deciphered(dec, a.Xor(Times(x, d)), b.Xor(Times(y, d)), TableOf(enc, d, gt, a, b, c)) ==
      c.Xor(Times(Eval(gt, x, y), d))
  {
    PointsAtRow(d, a, b, x, y);
    hide Block.Xor, Times, Eval, Position, PointedRow;
  }

  /** The scheme for a seed; a gate's output label is the next block drawn after the offset and the input labels. */
  function ClassicScheme(enc: Cipher, dec: Cipher, seed: Block, inputs: nat): Scheme<FourRows> {
    var d := ClassicOffset(enc, seed);
    Scheme(
      _ => false,
      (_, _, _, j: nat) => Drawn(enc, seed, 1 + inputs + j),
      (gt, a, b, j: nat) => TableOf(enc, d, gt, a, b, Drawn(enc, seed, 1 + inputs + j)),
      (a: Block, _) => a,
      (a, b, _, t: FourRows) => Deciphered(dec, a, b, t),
      gt => gt)
  }

  lemma ClassicSchemeCorrect(enc: Cipher, dec: Cipher, seed: Block, inputs: nat)
    requires Inverse(enc, dec)
    ensures Correct(ClassicScheme(enc, dec, seed, inputs), ClassicOffset(enc, seed))
  {
    var d := ClassicOffset(enc, seed);
    forall gt, a, b, j: nat, x, y
      ensures GateCorrect(ClassicScheme(enc, dec, seed, inputs), d, gt, a, b, j, x, y)
    {
      ClassicGateSimulation(enc, dec, d, gt, a, b, Drawn(enc, seed, 1 + inputs + j), x, y);
    }
  }

  lemma {:induction false} EveryGateHasATable(s: Scheme<FourRows>, gates: seq<Gate>, n: nat)
    requires n <= |gates| && forall gt :: !s.free(gt)
    ensures TableCount(s, gates, n) == n
  {
    if n > 0 { EveryGateHasATable(s, gates, n - 1); }
  }

  /** wires and tables are the garbling of c from this seed. */
  ghost predicate ClassicGarbling(enc: Cipher, dec: Cipher, c: Netlist, seed: Block, wires: seq<Block>,
                                  tables: seq<FourRows>)
    requires c.Ordered()
  {
    && |wires| == c.wireCount && |tables| == |c.gates|
    && (forall i :: 0 <= i < c.Inputs() ==> wires[i] == Drawn(enc, seed, 1 + i))
    && Garbled(ClassicScheme(enc, dec, seed, c.Inputs()), c, wires, tables, |c.gates|)
  }

  ghost predicate EncodesBits(wires: seq<Block>, d: Block, labels: seq<Block>, x: seq<bool>) {
    |x| <= |labels| && |x| <= |wires| && forall i :: 0 <= i < |x| ==> labels[i] == wires[i].Xor(Times(x[i], d))
  }

  /** Every label is its wire's zero label offset by the wire's plain bit, for gates of any type. */
  lemma ClassicWireEncodesItsBit(enc: Cipher, dec: Cipher, c: Netlist, seed: Block, wires: seq<Block>,
                                 tables: seq<FourRows>, labels: seq<Block>, x: seq<bool>, w: nat)
    requires c.Ordered() && Inverse(enc, dec) && ClassicGarbling(enc, dec, c, seed, wires, tables)
    requires |x| == c.Inputs() && EncodesBits(wires, ClassicOffset(enc, seed), labels, x) && w < c.wireCount
    requires |labels| == c.wireCount
    requires Evaluated(ClassicScheme(enc, dec, seed, c.Inputs()), c, labels, tables, |c.gates|)
    ensures labels[w] == wires[w].Xor(Times(WireValue(c, x, w), ClassicOffset(enc, seed)))
  {
    var s := ClassicScheme(enc, dec, seed, c.Inputs());
    ClassicSchemeCorrect(enc, dec, seed, c.Inputs());
    var bits := WireBits(c, x);
    assert Realised(s, c) == c by {
      assert Realised(s, c).gates == c.gates;
    }
    forall i | 0 <= i < c.Inputs()
      ensures bits[i] == x[i]
    {
      InputValue(c, x, i);
    }
    hide Correct, Block.Xor;
    Simulation(s, c, ClassicOffset(enc, seed), wires, tables, labels, bits, w);
  }

  /** Evaluating an honest garbling and translating its outputs gives the plain outputs, and the owner's checks pass. */
  lemma ClassicEvaluationIsPlain(enc: Cipher, dec: Cipher, c: Netlist, seed: Block, wires: seq<Block>,
                                 tables: seq<FourRows>, labels: seq<Block>, x: seq<bool>, i: nat)
    requires c.WellFormed() && Inverse(enc, dec) && ClassicGarbling(enc, dec, c, seed, wires, tables)
    requires |x| == c.Inputs() && EncodesBits(wires, ClassicOffset(enc, seed), labels, x) && i < |c.outputs|
    requires |labels| == c.wireCount
    requires Evaluated(ClassicScheme(enc, dec, seed, c.Inputs()), c, labels, tables, |c.gates|)
    ensures var w := c.outputs[i];
            && (wires[w].PermuteBit() != labels[w].PermuteBit()) == OutputBits(c, x)[i]
            && labels[w] == wires[w].Xor(Times(OutputBits(c, x)[i], ClassicOffset(enc, seed)))
  {
    var w := c.outputs[i];
    ClassicWireEncodesItsBit(enc, dec, c, seed, wires, tables, labels, x, w);
    XorBit(wires[w], Times(WireValue(c, x, w), ClassicOffset(enc, seed)));
  }

  class ClassicGarbledCircuit {
    var globalOffset: Block
    var nextRandIdx: nat
    var wires: seq<Block>
    var gates: seq<FourRows>
    var translationTable: seq<bool>

    constructor ()
      ensures wires == [] && gates == [] && translationTable == []
    {
      globalOffset, nextRandIdx, wires, gates, translationTable := ZERO_BLOCK, 0, [], [], [];
    }

    method GetNextRand(enc: Cipher, seed: Block) returns (r: Block)
      modifies `nextRandIdx
      ensures r == Drawn(enc, seed, old(nextRandIdx)) && nextRandIdx == old(nextRandIdx) + 1
    {
      r := enc(seed, FromLanes(nextRandIdx, 0));
      nextRandIdx := nextRandIdx + 1;
    }

    /** One gate's table, row by row, each stored where the permuted order says. */
    method GarbleRows(enc: Cipher, d: Block, gt: GateType, a: Block, b: Block, c: Block) returns (table: FourRows)
      ensures table == TableOf(enc, d, gt, a, b, c)
    {
      hide Block.Xor, Eval, Times;
      var permute: seq<nat> := [0, 1, 2, 3];
      if a.PermuteBit() {
        permute := permute[0 := permute[1]][1 := permute[0]];
        permute := permute[2 := permute[3]][3 := permute[2]];
      }
      if b.PermuteBit() {
        permute := permute[0 := permute[2]][2 := permute[0]];
        permute := permute[1 := permute[3]][3 := permute[1]];
      }
      ghost var pa, pb := a.PermuteBit(), b.PermuteBit();
      assert |permute| == 4 && forall i :: 0 <= i < 4 ==> permute[i] == Position(pa, pb, i);
      var aKeys, bKeys := [a, a.Xor(d)], [b, b.Xor(d)];
      KeysAre(a, d);
      KeysAre(b, d);
      KeysAre(c, d);
      table := [ZERO_BLOCK, ZERO_BLOCK, ZERO_BLOCK, ZERO_BLOCK];
      for i := 0 to 4
        invariant forall k :: 0 <= k < i ==> table[Position(pa, pb, k)] == RowOf(enc, d, gt, a, b, c, k)
      {
        var wireValue := if Eval(gt, i % 2 == 1, i / 2 == 1) then c.Xor(d) else c;
        var garbledRow := enc(aKeys[i % 2], wireValue);
        garbledRow := enc(bKeys[i / 2], garbledRow);
        forall k | 0 <= k < i
          ensures Position(pa, pb, k) != Position(pa, pb, i)
        {
          PositionTwice(pa, pb, k);
          PositionTwice(pa, pb, i);
        }
        table := table[permute[i] := garbledRow];
      }
      forall t | 0 <= t < 4
        ensures table[t] == TableOf(enc, d, gt, a, b, c)[t]
      {
        PositionTwice(pa, pb, t);
      }
    }

    /** Garbles the circuit from the seed. */
    method Garble(enc: Cipher, ghost dec: Cipher, cir: Netlist, seed: Block)
      requires cir.WellFormed()
      modifies this
      ensures globalOffset == ClassicOffset(enc, seed) && ClassicGarbling(enc, dec, cir, seed, wires, gates)
      ensures |translationTable| == |cir.outputs|
      ensures forall i :: 0 <= i < |cir.outputs| ==> translationTable[i] == wires[cir.outputs[i]].PermuteBit()
    {
      wires, gates, nextRandIdx := [], [], 0;
      globalOffset := GetNextRand(enc, seed);
      globalOffset := Block(globalOffset.bits[0 := true]);
      for i := 0 to cir.Inputs()
        invariant nextRandIdx == 1 + i == 1 + |wires| && globalOffset == ClassicOffset(enc, seed) && gates == []
        invariant forall k :: 0 <= k < i ==> wires[k] == Drawn(enc, seed, 1 + k)
      {
        var r := GetNextRand(enc, seed);
        wires := wires + [r];
      }
      GarbleGates(enc, dec, cir, seed);
      TranslateWires(cir);
    }

    method TranslateWires(cir: Netlist)
      requires cir.WellFormed() && |wires| == cir.wireCount
      modifies `translationTable
      ensures |translationTable| == |cir.outputs|
      ensures forall i :: 0 <= i < |cir.outputs| ==> translationTable[i] == wires[cir.outputs[i]].PermuteBit()
    {
      translationTable := Zeros(|cir.outputs|);
      for i := 0 to |cir.outputs|
        invariant |translationTable| == |cir.outputs|
        invariant forall k :: 0 <= k < i ==> translationTable[k] == wires[cir.outputs[k]].PermuteBit()
      {
        translationTable := translationTable[i := wires[cir.outputs[i]].PermuteBit()];
      }
    }

    /** The gate loop: a fresh output label and a table for every gate. */
    method GarbleGates(enc: Cipher, ghost dec: Cipher, cir: Netlist, seed: Block)
      requires cir.WellFormed() && |wires| == cir.Inputs() && gates == [] && nextRandIdx == 1 + cir.Inputs()
      requires globalOffset == ClassicOffset(enc, seed)
      requires forall k :: 0 <= k < |wires| ==> wires[k] == Drawn(enc, seed, 1 + k)
      modifies `wires, `gates, `nextRandIdx
      ensures ClassicGarbling(enc, dec, cir, seed, wires, gates)
    {
      ghost var s := ClassicScheme(enc, dec, seed, cir.Inputs());
      for k := 0 to |cir.gates|
        invariant |wires| == cir.Inputs() + k && |gates| == k && nextRandIdx == 1 + cir.Inputs() + k
        invariant forall i :: 0 <= i < cir.Inputs() ==> wires[i] == Drawn(enc, seed, 1 + i)
        invariant Garbled(s, cir, wires, gates, k)
      {
        var gate := cir.gates[k];
        assert gate.in0 < gate.out && gate.in1 < gate.out && gate.out == |wires|;
        var c := GetNextRand(enc, seed);
        var table := GarbleRows(enc, globalOffset, gate.gt, wires[gate.in0], wires[gate.in1], c);
        GarbledGrows(s, cir, wires, gates, c, table, k);
        wires := wires + [c];
        gates := gates + [table];
      }
    }

    /**
      Appends a label per gate. Throws exactly on the wrong number of input labels or, when the garbler evaluates,
      on a label that is not one of its wire's two.
     */
    method Evaluate(ghost enc: Cipher, dec: Cipher, ghost seed: Block, cir: Netlist, input: seq<Block>)
      returns (ok: bool, labels: seq<Block>)
      requires cir.WellFormed() && |gates| == |cir.gates| && (wires != [] ==> |wires| >= cir.Inputs())
      ensures ok <==>
        |input| == cir.Inputs() && (wires != [] ==> forall i :: 0 <= i < cir.Inputs() ==>
          input[i] == wires[i] || input[i] == wires[i].Xor(globalOffset))
      ensures ok ==> |labels| == cir.wireCount && labels[..cir.Inputs()] == input
      ensures ok ==> Evaluated(ClassicScheme(enc, dec, seed, cir.Inputs()), cir, labels, gates, |cir.gates|)
    {
      ghost var s := ClassicScheme(enc, dec, seed, cir.Inputs());
      labels := input;
      if |labels| != cir.Inputs() { return false, labels; }
      if wires != [] {
        for i := 0 to cir.Inputs()
          invariant forall k :: 0 <= k < i ==> input[k] == wires[k] || input[k] == wires[k].Xor(globalOffset)
        {
          if labels[i] != wires[i] && labels[i] != wires[i].Xor(globalOffset) { return false, labels; }
        }
      }
      ok := true;
      for k := 0 to |cir.gates|
        invariant |labels| == cir.Inputs() + k && labels[..cir.Inputs()] == input
        invariant Evaluated(s, cir, labels, gates, k)
      {
        var gate := cir.gates[k];
        assert gate.in0 < gate.out && gate.in1 < gate.out && gate.out == |labels|;
        var a, b := labels[gate.in0], labels[gate.in1];
        var tableIdx := (if a.PermuteBit() then 1 else 0) + (if b.PermuteBit() then 2 else 0);
        var newOutLabel := dec(b, gates[k][tableIdx]);
        newOutLabel := dec(a, newOutLabel);
        assert newOutLabel == Deciphered(dec, a, b, gates[k]) == s.active(a, b, k, gates[k]);
        LabelsGrow(s, cir, labels, gates, newOutLabel, k);
        labels := labels + [newOutLabel];
      }
    }

    /**
      Throws exactly when the garbler translates and an output label is not its wire's label for the translated bit.
     */
    method Translate(cir: Netlist, labels: seq<Block>) returns (ok: bool, output: seq<bool>)
      requires cir.WellFormed() && |labels| == cir.wireCount && |translationTable| == |cir.outputs|
      requires wires != [] ==> |wires| == cir.wireCount
      ensures |output| == |cir.outputs|
      ensures ok ==> forall i :: 0 <= i < |output| ==>
        output[i] == (translationTable[i] != labels[cir.outputs[i]].PermuteBit())
      ensures ok <==> wires == [] || forall i :: 0 <= i < |cir.outputs| ==>
        var w := cir.outputs[i];
        labels[w] == if translationTable[i] != labels[w].PermuteBit() then wires[w].Xor(globalOffset) else wires[w]
    {
      output := Zeros(|translationTable|);
      for i := 0 to |cir.outputs|
        invariant |output| == |cir.outputs|
        invariant forall k :: 0 <= k < i ==> output[k] == (translationTable[k] != labels[cir.outputs[k]].PermuteBit())
        invariant wires != [] ==> forall k :: 0 <= k < i ==>
          var w := cir.outputs[k];
          labels[w] == if translationTable[k] != labels[w].PermuteBit() then wires[w].Xor(globalOffset) else wires[w]
      {
        var w := cir.outputs[i];
        output := output[i := translationTable[i] != labels[w].PermuteBit()];
        if wires != [] {
          if !output[i] {
            if labels[w] != wires[w] { return false, output; }
          } else {
            if labels[w] != wires[w].Xor(globalOffset) { return false, output; }
          }
        }
      }
      ok := true;
    }
  }

  lemma LabelsGrow(s: Scheme<FourRows>, c: Netlist, labels: seq<Block>, tables: seq<FourRows>, next: Block, k: nat)
    requires c.Ordered() && k < |c.gates| == |tables| && |labels| == c.Inputs() + k
    requires Evaluated(s, c, labels, tables, k)
    requires (forall gt :: !s.free(gt)) && c.gates[k].in0 < |labels| && c.gates[k].in1 < |labels|
    requires next == s.active(labels[c.gates[k].in0], labels[c.gates[k].in1], k, tables[k])
    ensures Evaluated(s, c, labels + [next], tables, k + 1)
  {
    forall j | 0 <= j < k + 1
      ensures GateEvaluated(s, c, labels + [next], tables, j)
    {
      EveryGateHasATable(s, c.gates, j);
      assert c.gates[j].out == c.Inputs() + j;
      if j < k { assert GateEvaluated(s, c, labels, tables, j); }
    }
  }

  lemma KeysAre(a: Block, d: Block)
    ensures a.Xor(Times(false, d)) == a && a.Xor(Times(true, d)) == a.Xor(d)
  {
    XorZero(a);
  }

  lemma GarbledGrows(s: Scheme<FourRows>, c: Netlist, wires: seq<Block>, tables: seq<FourRows>, wire: Block,
                     table: FourRows, k: nat)
    requires c.Ordered() && k < |c.gates| && |wires| == c.Inputs() + k && |tables| == k
    requires Garbled(s, c, wires, tables, k)
    requires forall gt :: !s.free(gt)
    requires c.gates[k].in0 < |wires| && c.gates[k].in1 < |wires|
    requires wire == s.zero(c.gates[k].gt, wires[c.gates[k].in0], wires[c.gates[k].in1], k)
    requires table == s.table(c.gates[k].gt, wires[c.gates[k].in0], wires[c.gates[k].in1], k)
    ensures Garbled(s, c, wires + [wire], tables + [table], k + 1)
  {
    EveryGateHasATable(s, c.gates, k + 1);
    forall j | 0 <= j < k + 1
      ensures GateGarbled(s, c, wires + [wire], tables + [table], j)
    {
      EveryGateHasATable(s, c.gates, j);
      assert c.gates[j].out == c.Inputs() + j;
      if j < k { assert GateGarbled(s, c, wires, tables, j); }
    }
  }
}
