/**
  What a gate-by-gate garbling scheme with one global offset does, and the simulation theorem for
  every such scheme whose single gates are right.
 */
module Schemes {
  import opened Blocks
  import opened Gates
  import opened Circuits

  /**
    The per-gate functions of a scheme. `free` says which gates need no table. The natural number
    is how many tables precede the gate's own.
   */
  datatype Scheme<!T> = Scheme(
    free: GateType -> bool,
    zero: (GateType, Block, Block, nat) -> Block,
    table: (GateType, Block, Block, nat) -> T,
    join: (Block, Block) -> Block,
    active: (Block, Block, nat, T) -> Block,
    realises: GateType -> GateType)

  /** Encodings of two bits evaluate to the encoding of the realised table's output. */
  ghost predicate GateCorrect<T>(s: Scheme<T>, d: Block, gt: GateType, a: Block, b: Block, j: nat, x: bool, y: bool) {
    (if s.free(gt) then s.join(a.Xor(Times(x, d)), b.Xor(Times(y, d)))
     else s.active(a.Xor(Times(x, d)), b.Xor(Times(y, d)), j, s.table(gt, a, b, j))) ==
    s.zero(gt, a, b, j).Xor(Times(Eval(s.realises(gt), x, y), d))
  }

  ghost predicate Correct<T(!new)>(s: Scheme<T>, d: Block) {
    forall gt, a, b, j, x, y :: GateCorrect(s, d, gt, a, b, j, x, y)
  }

  /** How many of the first n gates need a table. */
  function TableCount<T>(s: Scheme<T>, gates: seq<Gate>, n: nat): (r: nat)
    requires n <= |gates|
    ensures r <= n
  {
    if n == 0 then 0 else TableCount(s, gates, n - 1) + if s.free(gates[n - 1].gt) then 0 else 1
  }

  lemma {:induction false} TableCountMonotone<T>(s: Scheme<T>, gates: seq<Gate>, m: nat, n: nat)
    requires m <= n <= |gates|
    ensures TableCount(s, gates, m) <= TableCount(s, gates, n)
  {
    if m < n {
      TableCountMonotone(s, gates, m, n - 1);
    }
  }

  lemma TableSlot<T>(s: Scheme<T>, gates: seq<Gate>, k: nat, n: nat)
    requires k < n <= |gates| && !s.free(gates[k].gt)
    ensures TableCount(s, gates, k) < TableCount(s, gates, n)
  {
    TableCountMonotone(s, gates, k + 1, n);
  }

  /** The zero labels and the tables satisfy gate k's garbling equations. */
  ghost predicate GateGarbled<T>(s: Scheme<T>, c: Netlist, wires: seq<Block>, tables: seq<T>, k: nat)
    requires c.Ordered() && k < |c.gates| && c.Inputs() + k < |wires|
  {
    var g, j := c.gates[k], TableCount(s, c.gates, k);
    assert g.out == c.Inputs() + k;
    && wires[c.Inputs() + k] == s.zero(g.gt, wires[g.in0], wires[g.in1], j)
    && (!s.free(g.gt) ==> j < |tables| && tables[j] == s.table(g.gt, wires[g.in0], wires[g.in1], j))
  }

  ghost predicate Garbled<T>(s: Scheme<T>, c: Netlist, wires: seq<Block>, tables: seq<T>, n: nat)
    requires c.Ordered() && n <= |c.gates|
  {
    |wires| >= c.Inputs() + n && |tables| >= TableCount(s, c.gates, n) &&
    forall k :: 0 <= k < n ==> GateGarbled(s, c, wires, tables, k)
  }

  /** The labels satisfy gate k's evaluation equation. */
  ghost predicate GateEvaluated<T>(s: Scheme<T>, c: Netlist, labels: seq<Block>, tables: seq<T>, k: nat)
    requires c.Ordered() && k < |c.gates| && c.Inputs() + k < |labels|
  {
    var g, j := c.gates[k], TableCount(s, c.gates, k);
    assert g.out == c.Inputs() + k;
    if s.free(g.gt) then labels[c.Inputs() + k] == s.join(labels[g.in0], labels[g.in1])
    else j < |tables| && labels[c.Inputs() + k] == s.active(labels[g.in0], labels[g.in1], j, tables[j])
  }

  ghost predicate Evaluated<T>(s: Scheme<T>, c: Netlist, labels: seq<Block>, tables: seq<T>, n: nat)
    requires c.Ordered() && n <= |c.gates|
  {
    |labels| >= c.Inputs() + n && forall k :: 0 <= k < n ==> GateEvaluated(s, c, labels, tables, k)
  }

  /** The garbling equations have one solution for given input labels. */
  lemma {:induction false} GarblingIsUnique<T>(s: Scheme<T>, c: Netlist, wires: seq<Block>, tables: seq<T>,
                                               wires': seq<Block>, tables': seq<T>, n: nat)
    requires c.Ordered() && n <= |c.gates| && Garbled(s, c, wires, tables, n) && Garbled(s, c, wires', tables', n)
    requires forall w :: 0 <= w < c.Inputs() ==> wires[w] == wires'[w]
    ensures forall w :: 0 <= w < c.Inputs() + n ==> wires[w] == wires'[w]
    ensures forall j :: 0 <= j < TableCount(s, c.gates, n) ==> tables[j] == tables'[j]
  {
    if n > 0 {
      TableCountMonotone(s, c.gates, n - 1, n);
      GarblingIsUnique(s, c, wires, tables, wires', tables', n - 1);
      assert GateGarbled(s, c, wires, tables, n - 1) && GateGarbled(s, c, wires', tables', n - 1);
      assert c.gates[n - 1].out == c.Inputs() + n - 1;
    }
  }

  /** The circuit that the garbled circuit really computes. */
  ghost function Realised<T>(s: Scheme<T>, c: Netlist): (r: Netlist)
    requires c.Ordered()
    ensures r.Ordered() && r.Inputs() == c.Inputs() && r.wireCount == c.wireCount && r.outputs == c.outputs
    ensures |r.gates| == |c.gates|
    ensures forall k :: 0 <= k < |c.gates| ==> r.gates[k] == c.gates[k].(gt := s.realises(c.gates[k].gt))
  {
    c.(gates := seq(|c.gates|, k requires 0 <= k < |c.gates| => c.gates[k].(gt := s.realises(c.gates[k].gt))))
  }

  /** A bit per wire that satisfies every gate's equation. */
  ghost predicate IsAssignment(c: Netlist, bits: seq<bool>)
    requires c.Ordered()
  {
    |bits| == c.wireCount &&
    forall k :: 0 <= k < |c.gates| ==>
      bits[c.Inputs() + k] == Eval(c.gates[k].gt, bits[c.gates[k].in0], bits[c.gates[k].in1])
  }

  /** Every active label equals its wire's zero label xor (the wire's bit times the offset). */
  lemma {:induction false} Simulation<T(!new)>(s: Scheme<T>, c: Netlist, d: Block, wires: seq<Block>, tables: seq<T>,
                                               labels: seq<Block>, bits: seq<bool>, w: nat)
    requires c.Ordered() && Correct(s, d) && w < c.wireCount
    requires Garbled(s, c, wires, tables, |c.gates|) && Evaluated(s, c, labels, tables, |c.gates|)
    requires IsAssignment(Realised(s, c), bits)
    requires forall i :: 0 <= i < c.Inputs() ==> labels[i] == wires[i].Xor(Times(bits[i], d))
    ensures labels[w] == wires[w].Xor(Times(bits[w], d))
    decreases w
  {
    if w >= c.Inputs() {
      var k := w - c.Inputs();
      var g, j := c.gates[k], TableCount(s, c.gates, k);
      assert g.out == w && Realised(s, c).gates[k] == g.(gt := s.realises(g.gt));
      Simulation(s, c, d, wires, tables, labels, bits, g.in0);
      Simulation(s, c, d, wires, tables, labels, bits, g.in1);
      assert GateGarbled(s, c, wires, tables, k) && GateEvaluated(s, c, labels, tables, k);
      assert GateCorrect(s, d, g.gt, wires[g.in0], wires[g.in1], j, bits[g.in0], bits[g.in1]);
    }
  }

  /** The bits that the wires carry on input x. */
  ghost function WireBits(c: Netlist, x: seq<bool>): (r: seq<bool>)
    requires c.Ordered() && |x| == c.Inputs()
    ensures |r| == c.wireCount && forall w :: 0 <= w < |r| ==> r[w] == WireValue(c, x, w)
    ensures IsAssignment(c, r)
  {
    var r := seq(c.wireCount, w requires 0 <= w < c.wireCount => WireValue(c, x, w));
    assert forall k :: 0 <= k < |c.gates| ==> c.gates[k].out == c.Inputs() + k;
    r
  }
}
