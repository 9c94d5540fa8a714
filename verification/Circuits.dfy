/** Boolean circuits: the plain semantics, and the operations that build and rewrite them. */
module Circuits {
  import opened Blocks
  import opened Gates

  /** A snapshot of a circuit's fields. */
  datatype Netlist = Netlist(in0: nat, in1: nat, wireCount: nat, nonXor: nat, gates: seq<Gate>, outputs: seq<nat>) {

    function Inputs(): nat {
      in0 + in1
    }

    /** Gate k writes wire Inputs() + k and reads earlier wires only. */
    ghost predicate InGateOrder() {
      forall k :: 0 <= k < |gates| ==>
        gates[k].out == Inputs() + k && gates[k].in0 < gates[k].out && gates[k].in1 < gates[k].out
    }

    ghost predicate Ordered() {
      wireCount == Inputs() + |gates| && InGateOrder()
    }

    ghost predicate WellFormed() {
      && Ordered()
      && nonXor == NonXorCount(gates)
      && forall i :: 0 <= i < |outputs| ==> outputs[i] < wireCount
    }
  }

  function NonXorCount(gates: seq<Gate>): (n: nat)
    ensures n <= |gates|
  {
    if gates == [] then 0
    else NonXorCount(gates[..|gates| - 1]) + if IsXorType(gates[|gates| - 1].gt) then 0 else 1
  }

  /** The gates that are not free. */
  ghost function NonXorGates(gates: seq<Gate>): (r: set<nat>)
    ensures forall k: nat :: k in r <==> k < |gates| && !IsXorType(gates[k].gt)
  {
    set k: nat | k < |gates| && !IsXorType(gates[k].gt)
  }

  lemma {:induction false} NonXorCountIsSize(gates: seq<Gate>)
    ensures NonXorCount(gates) == |NonXorGates(gates)|
  {
    if gates == [] {
      assert NonXorGates(gates) == {};
    } else {
      var n: nat := |gates| - 1;
      NonXorCountIsSize(gates[..n]);
      assert NonXorGates(gates) ==
        if IsXorType(gates[n].gt) then NonXorGates(gates[..n]) else NonXorGates(gates[..n]) + {n};
    }
  }

  lemma {:induction false} NonXorCountMonotone(gates: seq<Gate>, n: nat)
    requires n <= |gates|
    ensures NonXorCount(gates[..n]) <= NonXorCount(gates)
  {
    if n < |gates| {
      assert gates[..|gates| - 1][..n] == gates[..n];
      NonXorCountMonotone(gates[..|gates| - 1], n);
    } else {
      assert gates[..n] == gates;
    }
  }

  lemma {:induction false} NonXorCountAppend(xs: seq<Gate>, ys: seq<Gate>)
    ensures NonXorCount(xs + ys) == NonXorCount(xs) + NonXorCount(ys)
  {
    if ys == [] {
      assert xs + ys == xs;
    } else {
      var front := ys[..|ys| - 1];
      assert (xs + ys)[..|xs + ys| - 1] == xs + front;
      NonXorCountAppend(xs, front);
    }
  }

  lemma {:induction false} NonXorCountSameTypes(xs: seq<Gate>, ys: seq<Gate>)
    requires |xs| == |ys| && forall k :: 0 <= k < |xs| ==> xs[k].gt == ys[k].gt
    ensures NonXorCount(xs) == NonXorCount(ys)
  {
    if xs != [] {
      NonXorCountSameTypes(xs[..|xs| - 1], ys[..|ys| - 1]);
    }
  }

  /** The meaning of a circuit: the bit that wire w carries on the given input. */
  ghost function WireValue(c: Netlist, input: seq<bool>, w: nat): bool
    requires c.Ordered() && |input| == c.Inputs() && w < c.wireCount
    decreases w
  {
    if w < c.Inputs() then input[w]
    else
      var g := c.gates[w - c.Inputs()];
      assert g.out == w;
      Eval(g.gt, WireValue(c, input, g.in0), WireValue(c, input, g.in1))
  }

  lemma InputValue(c: Netlist, input: seq<bool>, w: nat)
    requires c.Ordered() && |input| == c.Inputs() && w < c.Inputs()
    ensures WireValue(c, input, w) == input[w]
  {
  }

  lemma GateValue(c: Netlist, input: seq<bool>, k: nat)
    requires c.Ordered() && |input| == c.Inputs() && k < |c.gates|
    ensures c.gates[k].in0 < c.Inputs() + k && c.gates[k].in1 < c.Inputs() + k
    ensures WireValue(c, input, c.Inputs() + k) ==
            Eval(c.gates[k].gt, WireValue(c, input, c.gates[k].in0), WireValue(c, input, c.gates[k].in1))
  {
  }

  ghost function OutputBits(c: Netlist, input: seq<bool>): (r: seq<bool>)
    requires c.WellFormed() && |input| == c.Inputs()
    ensures |r| == |c.outputs|
    ensures forall i :: 0 <= i < |r| ==> r[i] == WireValue(c, input, c.outputs[i])
  {
    seq(|c.outputs|, i requires 0 <= i < |c.outputs| => WireValue(c, input, c.outputs[i]))
  }

  /** Resizing a bit vector: truncates, or pads with zeros. */
  function Resized(bits: seq<bool>, n: nat): (r: seq<bool>)
    ensures |r| == n
  {
    if |bits| >= n then bits[..n] else bits + seq(n - |bits|, _ => false)
  }

  /** Gates that xor wire i with wire n + i, into wire 2n + i. */
  function ShareGates(n: nat): (gs: seq<Gate>)
    ensures |gs| == n
    ensures forall i :: 0 <= i < n ==> gs[i] == Gate(i, n + i, 2 * n + i, XOR)
  {
    seq(n, i requires 0 <= i < n => Gate(i, n + i, 2 * n + i, XOR))
  }

  function ShiftGate(g: Gate, offset: nat): Gate {
    Gate(g.in0 + offset, g.in1 + offset, g.out + offset, g.gt)
  }

  function ShiftGates(gates: seq<Gate>, offset: nat): (gs: seq<Gate>)
    ensures |gs| == |gates|
    ensures forall i :: 0 <= i < |gs| ==> gs[i] == ShiftGate(gates[i], offset)
  {
    seq(|gates|, i requires 0 <= i < |gates| => ShiftGate(gates[i], offset))
  }

  function ShiftWires(ws: seq<nat>, offset: nat): (r: seq<nat>)
    ensures |r| == |ws| && forall i :: 0 <= i < |r| ==> r[i] == ws[i] + offset
  {
    seq(|ws|, i requires 0 <= i < |ws| => ws[i] + offset)
  }

  /** The circuit over xor-shared inputs. */
  function Shared(c: Netlist): Netlist {
    var n := c.Inputs();
    Netlist(n, n, c.wireCount + 2 * n, c.nonXor, ShareGates(n) + ShiftGates(c.gates, 2 * n),
            ShiftWires(c.outputs, 2 * n))
  }

  ghost predicate IsShared(c: Netlist, d: Netlist) {
    && d.Ordered()
    && d.Inputs() == 2 * c.Inputs() && d.wireCount == c.wireCount + 2 * c.Inputs()
    && d.gates == ShareGates(c.Inputs()) + ShiftGates(c.gates, 2 * c.Inputs())
  }

  lemma {:induction false} ShareGatesAreFree(n: nat)
    ensures NonXorCount(ShareGates(n)) == 0
  {
    NonXorCountOfXors(ShareGates(n));
  }

  lemma {:induction false} NonXorCountOfXors(gates: seq<Gate>)
    requires forall i :: 0 <= i < |gates| ==> IsXorType(gates[i].gt)
    ensures NonXorCount(gates) == 0
  {
    if gates != [] {
      NonXorCountOfXors(gates[..|gates| - 1]);
    }
  }

  lemma SharedIsWellFormed(c: Netlist)
    requires c.WellFormed()
    ensures Shared(c).WellFormed()
  {
    var n := c.Inputs();
    NonXorCountAppend(ShareGates(n), ShiftGates(c.gates, 2 * n));
    ShareGatesAreFree(n);
    NonXorCountSameTypes(c.gates, ShiftGates(c.gates, 2 * n));
  }

  lemma SharedInputWire(c: Netlist, d: Netlist, s: seq<bool>, t: seq<bool>, w: nat)
    requires c.Ordered() && IsShared(c, d)
    requires |s| == |t| == c.Inputs() && w < c.Inputs()
    ensures WireValue(d, s + t, w + 2 * c.Inputs()) == (s[w] != t[w])
  {
    var n := c.Inputs();
    assert d.gates[w] == Gate(w, n + w, 2 * n + w, XOR);
    InputValue(d, s + t, w);
    InputValue(d, s + t, n + w);
    GateValue(d, s + t, w);
  }

  lemma SharedGate(c: Netlist, d: Netlist, k: nat)
    requires c.Ordered() && IsShared(c, d) && k < |c.gates|
    ensures c.Inputs() + k < |d.gates| && d.gates[c.Inputs() + k] == ShiftGate(c.gates[k], 2 * c.Inputs())
    ensures c.gates[k].in0 < c.Inputs() + k && c.gates[k].in1 < c.Inputs() + k
  {
    assert c.gates[k].out == c.Inputs() + k;
  }

  lemma {:induction false} SharedWire(c: Netlist, d: Netlist, s: seq<bool>, t: seq<bool>, w: nat)
    requires c.Ordered() && IsShared(c, d)
    requires |s| == |t| == c.Inputs() && w < c.wireCount
    ensures WireValue(d, s + t, w + 2 * c.Inputs()) == WireValue(c, XorBits(s, t), w)
    decreases w
  {
    if w < c.Inputs() {
      SharedInputWire(c, d, s, t, w);
    } else {
      var k := w - c.Inputs();
      SharedGate(c, d, k);
      SharedWire(c, d, s, t, c.gates[k].in0);
      SharedWire(c, d, s, t, c.gates[k].in1);
      GateValue(d, s + t, c.Inputs() + k);
      GateValue(c, XorBits(s, t), k);
    }
  }

  /** Running the shared circuit on two shares computes the original circuit on their xor. */
  lemma SharedComputesOnXor(c: Netlist, s: seq<bool>, t: seq<bool>)
    requires c.WellFormed() && |s| == |t| == c.Inputs()
    ensures Shared(c).WellFormed() && Shared(c).Inputs() == |s + t|
    ensures OutputBits(Shared(c), s + t) == OutputBits(c, XorBits(s, t))
  {
    SharedIsWellFormed(c);
    forall i | 0 <= i < |c.outputs|
      ensures OutputBits(Shared(c), s + t)[i] == OutputBits(c, XorBits(s, t))[i]
    {
      SharedWire(c, Shared(c), s, t, c.outputs[i]);
    }
  }

  /** The calls on which AddGate throws. */
  predicate AddGateRefuses(c: Netlist, in0: nat, in1: nat, gt: GateType) {
    in0 > c.wireCount || (in1 > c.wireCount && (gt != NA || in1 != 0xFFFF_FFFF_FFFF_FFFF)) || IsRefused(gt)
  }

  /**
    A gate is accepted exactly if neither input lies beyond its own wire and its table asks both, or it is a negation.
   */
  lemma AcceptedIff(c: Netlist, in0: nat, in1: nat, gt: GateType)
    ensures !AddGateRefuses(c, in0, in1, gt) <==>
            && in0 <= c.wireCount && (in1 <= c.wireCount || (gt == NA && in1 == 0xFFFF_FFFF_FFFF_FFFF))
            && (gt == NA || ((exists b :: Eval(gt, false, b) != Eval(gt, true, b)) &&
                             (exists a :: Eval(gt, a, false) != Eval(gt, a, true))))
  {
    RefusedIff(gt);
  }

  function WithGate(c: Netlist, in0: nat, in1: nat, gt: GateType): Netlist {
    c.(wireCount := c.wireCount + 1,
       nonXor := c.nonXor + (if IsXorType(gt) then 0 else 1),
       gates := c.gates + [Gate(in0, in1, c.wireCount, gt)])
  }

  /**
    AddGate's range check accepts an operand equal to the wire count, the wire the gate itself is
    about to define. So an accepted call keeps the circuit well formed exactly when both operands
    are existing wires.
   */
  lemma WithGateWellFormedIff(c: Netlist, in0: nat, in1: nat, gt: GateType)
    requires c.WellFormed() && !AddGateRefuses(c, in0, in1, gt)
    ensures WithGate(c, in0, in1, gt).WellFormed() <==> in0 < c.wireCount && in1 < c.wireCount
  {
    var d := WithGate(c, in0, in1, gt);
    assert d.gates[..|d.gates| - 1] == c.gates;
    assert d.gates[|c.gates|] == Gate(in0, in1, c.wireCount, gt);
    if in0 < c.wireCount && in1 < c.wireCount {
      forall k | 0 <= k < |d.gates|
        ensures d.gates[k].out == d.Inputs() + k && d.gates[k].in0 < d.gates[k].out && d.gates[k].in1 < d.gates[k].out
      {
        if k < |c.gates| { assert d.gates[k] == c.gates[k]; }
      }
    }
  }

  lemma AddGateAcceptsItsOwnWire(c: Netlist, gt: GateType)
    requires c.WellFormed() && !IsRefused(gt)
    ensures !AddGateRefuses(c, c.wireCount, c.wireCount, gt)
    ensures !WithGate(c, c.wireCount, c.wireCount, gt).WellFormed()
  {
    WithGateWellFormedIff(c, c.wireCount, c.wireCount, gt);
  }

  lemma {:induction false} WithGateKeepsValues(c: Netlist, in0: nat, in1: nat, gt: GateType, input: seq<bool>, w: nat)
    requires c.WellFormed() && WithGate(c, in0, in1, gt).WellFormed()
    requires |input| == c.Inputs() && w < c.wireCount
    ensures WireValue(WithGate(c, in0, in1, gt), input, w) == WireValue(c, input, w)
    decreases w
  {
    var d := WithGate(c, in0, in1, gt);
    if w >= c.Inputs() {
      var g := c.gates[w - c.Inputs()];
      assert g.out == w && d.gates[w - c.Inputs()] == g;
      WithGateKeepsValues(c, in0, in1, gt, input, g.in0);
      WithGateKeepsValues(c, in0, in1, gt, input, g.in1);
    }
  }

  class Circuit {
    var inputs: (nat, nat)
    var wireCount: nat
    var nonXorGateCount: nat
    var outputCount: nat
    var gates: seq<Gate>
    var outputs: seq<nat>

    function View(): Netlist
      reads this
    {
      Netlist(inputs.0, inputs.1, wireCount, nonXorGateCount, gates, outputs)
    }

    ghost predicate Valid()
      reads this
    {
      View().WellFormed() && outputCount == |outputs|
    }

    constructor (in0: nat, in1: nat)
      ensures Valid() && View() == Netlist(in0, in1, in0 + in1, 0, [], [])
    {
      inputs := (in0, in1);
      wireCount := in0 + in1;
      nonXorGateCount, outputCount := 0, 0;
      gates, outputs := [], [];
    }

    method AddGate(in0: nat, in1: nat, gt: GateType) returns (ok: bool, wire: nat)
      modifies `wireCount, `nonXorGateCount, `gates
      ensures ok <==> !AddGateRefuses(old(View()), in0, in1, gt)
      ensures ok ==> View() == WithGate(old(View()), in0, in1, gt) && wire == old(wireCount)
      ensures !ok ==> View() == old(View())
    {
      wire := 0;
      if in0 > wireCount { return false, wire; }
      if in1 > wireCount && (gt != NA || in1 != 0xFFFF_FFFF_FFFF_FFFF) { return false, wire; }
      if gt == A || gt == B || gt == NB || gt == GATE_ONE || gt == GATE_ZERO { return false, wire; }
      if gt != XOR && gt != NXOR { nonXorGateCount := nonXorGateCount + 1; }
      gates := gates + [Gate(in0, in1, wireCount, gt)];
      wire := wireCount;
      wireCount := wireCount + 1;
      ok := true;
    }

    method AddOutputWire(i: nat) returns (ok: bool)
      modifies `outputs, `outputCount
      ensures ok <==> i < wireCount
      ensures ok ==> outputs == old(outputs) + [i] && outputCount == old(outputCount) + 1
      ensures !ok ==> outputs == old(outputs) && outputCount == old(outputCount)
    {
      if i >= wireCount { return false; }
      outputs := outputs + [i];
      outputCount := outputCount + 1;
      return true;
    }

    /** Every wire ends up carrying the bit the circuit's meaning gives it. */
    method Evaluate(labels: seq<bool>) returns (r: seq<bool>)
      requires Valid() && |labels| >= View().Inputs()
      ensures |r| == wireCount
      ensures forall w :: 0 <= w < wireCount ==> r[w] == WireValue(View(), labels[..View().Inputs()], w)
    {
      ghost var c := View();
      ghost var input := labels[..c.Inputs()];
      r := Resized(labels, wireCount);
      for k := 0 to |gates|
        invariant |r| == wireCount
        invariant forall w :: 0 <= w < c.Inputs() + k ==> r[w] == WireValue(c, input, w)
      {
        var gate := gates[k];
        r := r[gate.out := Eval(gate.gt, r[gate.in0], r[gate.in1])];
      }
    }

    method Translate(labels: seq<bool>) returns (output: seq<bool>)
      requires Valid() && |labels| == wireCount
      ensures |output| == |outputs|
      ensures forall i :: 0 <= i < |outputs| ==> output[i] == labels[outputs[i]]
    {
      output := seq(outputCount, _ => false);
      for i := 0 to |outputs|
        invariant |output| == |outputs|
        invariant forall k :: 0 <= k < i ==> output[k] == labels[outputs[k]]
      {
        output := output[i := labels[outputs[i]]];
      }
    }

    /** Appends count gates that xor wire i with wire mid + i, into wire 2 mid + i, from i = start on. */
    method AddShareGates(start: nat, count: nat, mid: nat)
      requires start + count <= mid && gates == ShareGates(mid)[..start]
      modifies `gates
      ensures gates == ShareGates(mid)[..start + count]
    {
      var inIter0, inIter1, outIter := start, mid + start, 2 * mid + start;
      for i := 0 to count
        invariant inIter0 == start + i && inIter1 == mid + inIter0 && outIter == 2 * mid + inIter0
        invariant gates == ShareGates(mid)[..inIter0]
      {
        gates := gates + [Gate(inIter0, inIter1, outIter, XOR)];
        inIter0, inIter1, outIter := inIter0 + 1, inIter1 + 1, outIter + 1;
      }
    }

    /** Appends the old gates, all wires moved up. */
    method AddShiftedGates(oldGates: seq<Gate>, offset: nat)
      modifies `gates
      ensures gates == old(gates) + ShiftGates(oldGates, offset)
    {
      ghost var shifted := ShiftGates(oldGates, offset);
      for k := 0 to |oldGates|
        invariant gates == old(gates) + shifted[..k]
      {
        var gate := oldGates[k];
        gates := gates + [Gate(gate.in0 + offset, gate.in1 + offset, gate.out + offset, gate.gt)];
        assert shifted[..k + 1] == shifted[..k] + [shifted[k]];
      }
      assert shifted[..|oldGates|] == shifted;
    }

    method ShiftOutputs(offset: nat)
      modifies `outputs
      ensures outputs == ShiftWires(old(outputs), offset)
    {
      for i := 0 to |outputs|
        invariant |outputs| == |old(outputs)|
        invariant forall k :: 0 <= k < i ==> outputs[k] == old(outputs)[k] + offset
        invariant forall k :: i <= k < |outputs| ==> outputs[k] == old(outputs)[k]
      {
        outputs := outputs[i := outputs[i] + offset];
      }
    }

    method XorShareInputs()
      requires Valid()
      modifies this
      ensures View() == Shared(old(View()))
      ensures Valid()
    {
      ghost var c := View();
      var wiresAdded := inputs.0 + inputs.1;
      var oldInputs, oldGates := inputs, gates;
      inputs := (wiresAdded, wiresAdded);
      gates := [];
      AddShareGates(0, oldInputs.0, wiresAdded);
      AddShareGates(oldInputs.0, oldInputs.1, wiresAdded);
      assert gates == ShareGates(wiresAdded);
      var offset := 2 * wiresAdded;
      wireCount := wireCount + offset;
      AddShiftedGates(oldGates, offset);
      ShiftOutputs(offset);
      assert View() == Shared(c);
      assert c.WellFormed();
      SharedIsWellFormed(c);
    }
  }
}
