/** Gate types as four-bit truth tables, and the modifiers the half-gate scheme reads off them. */
module Gates {

  /** The four bits of a gate type's number: bit i is the output on inputs a = i mod 2, b = i div 2. */
  datatype GateType = Table(bit0: bool, bit1: bool, bit2: bool, bit3: bool)

  const GATE_ZERO := Table(false, false, false, false)
  const NOR := Table(true, false, false, false)
  const NB_AND := Table(false, true, false, false)
  const NB := Table(true, true, false, false)
  const NA_AND := Table(false, false, true, false)
  const NA := Table(true, false, true, false)
  const XOR := Table(false, true, true, false)
  const NAND := Table(true, true, true, false)
  const AND := Table(false, false, false, true)
  const NXOR := Table(true, false, false, true)
  const A := Table(false, true, false, true)
  const NB_OR := Table(true, true, false, true)
  const B := Table(false, false, true, true)
  const NA_OR := Table(true, false, true, true)
  const OR := Table(false, true, true, true)
  const GATE_ONE := Table(true, true, true, true)

  datatype Gate = Gate(in0: nat, in1: nat, out: nat, gt: GateType)

  predicate Eval(gt: GateType, a: bool, b: bool) {
    if b then (if a then gt.bit3 else gt.bit2) else (if a then gt.bit1 else gt.bit0)
  }

  /** Every name says what its table computes. */
  lemma NamedTables(a: bool, b: bool)
    ensures Eval(AND, a, b) == (a && b) && Eval(NAND, a, b) == !(a && b)
    ensures Eval(OR, a, b) == (a || b) && Eval(NOR, a, b) == !(a || b)
    ensures Eval(XOR, a, b) == (a != b) && Eval(NXOR, a, b) == (a == b)
    ensures Eval(NA_AND, a, b) == (!a && b) && Eval(NB_AND, a, b) == (a && !b)
    ensures Eval(NA_OR, a, b) == (!a || b) && Eval(NB_OR, a, b) == (a || !b)
    ensures Eval(A, a, b) == a && Eval(NA, a, b) == !a && Eval(B, a, b) == b && Eval(NB, a, b) == !b
    ensures !Eval(GATE_ZERO, a, b) && Eval(GATE_ONE, a, b)
  {
  }

  predicate AAlpha(gt: GateType) {
    gt == NOR || gt == NA_AND || gt == NB_OR || gt == OR
  }

  predicate BAlpha(gt: GateType) {
    gt == NOR || gt == NB_AND || gt == NA_OR || gt == OR
  }

  predicate CAlpha(gt: GateType) {
    gt == NAND || gt == NB_OR || gt == NA_OR || gt == OR
  }

  /** The gates garbled for free. */
  predicate IsXorType(gt: GateType) {
    gt == XOR || gt == NXOR
  }

  /** The conjunctions of two possibly negated inputs, possibly negated: an odd number of ones. */
  predicate IsAndType(gt: GateType) {
    gt in {NOR, NB_AND, NA_AND, NAND, AND, NB_OR, NA_OR, OR}
  }

  predicate HasHalfGate(gt: GateType) {
    IsXorType(gt) || IsAndType(gt)
  }

  /** The types that AddGate refuses. */
  predicate IsRefused(gt: GateType) {
    gt == A || gt == B || gt == NB || gt == GATE_ONE || gt == GATE_ZERO
  }

  /** Refused are the tables that ignore an operand, except the negation of the first. */
  lemma RefusedIff(gt: GateType)
    ensures IsRefused(gt) <==>
            && gt != NA
            && ((forall b :: Eval(gt, false, b) == Eval(gt, true, b)) ||
                (forall a :: Eval(gt, a, false) == Eval(gt, a, true)))
  {
    assert Eval(gt, false, false) == gt.bit0 && Eval(gt, true, false) == gt.bit1;
    assert Eval(gt, false, true) == gt.bit2 && Eval(gt, true, true) == gt.bit3;
  }

  /** The truth table that the half-gate code realises for a gate of the given type. */
  function GarbledAs(gt: GateType): GateType {
    if HasHalfGate(gt) then gt else AND
  }

  /** The three modifiers describe the table of the realised type. */
  lemma AlphasDescribeTable(gt: GateType, a: bool, b: bool)
    requires !IsXorType(gt)
    ensures Eval(GarbledAs(gt), a, b) == (((a != AAlpha(gt)) && (b != BAlpha(gt))) != CAlpha(gt))
  {
  }

  /** A gate type is garbled faithfully exactly when it is one of the ten half-gate types. */
  lemma GarbledFaithfullyIff(gt: GateType)
    ensures (forall a, b :: Eval(GarbledAs(gt), a, b) == Eval(gt, a, b)) <==> HasHalfGate(gt)
  {
    if !HasHalfGate(gt) {
      assert Eval(gt, false, false) || Eval(gt, true, false) || Eval(gt, false, true) || !Eval(gt, true, true);
    }
  }
}
