/** The gate graph read from a Bristol file: nodes are wire indices, with parent and child lists. */
module Dags {
  import opened Gates

  /**
    A snapshot of a graph. Wires below Inputs() are input nodes, the others gate nodes. `outputs`
    holds the node that feeds each output.
   */
  datatype Dag = Dag(in0: nat, in1: nat, types: seq<GateType>, parents: seq<seq<nat>>, children: seq<seq<nat>>,
                     outputs: seq<nat>) {

    function Inputs(): nat {
      in0 + in1
    }

    function Size(): nat {
      |types|
    }

    predicate IsGate(w: nat) {
      Inputs() <= w < Size()
    }

    predicate IsInvert(w: nat)
      requires |parents| == Size()
    {
      IsGate(w) && types[w] == NA && |parents[w]| == 1
    }

    /** Indices are in range, gates have one or two parents, and one-parent gates negate or copy. */
    predicate Shaped() {
      && |parents| == |children| == Size() >= Inputs()
      && (forall w :: 0 <= w < Inputs() ==> parents[w] == [])
      && (forall w :: Inputs() <= w < Size() ==> 1 <= |parents[w]| <= 2)
      && (forall w, i :: 0 <= w < Size() && 0 <= i < |parents[w]| ==> parents[w][i] < Size())
      && (forall w :: Inputs() <= w < Size() && |parents[w]| == 1 ==> types[w] == NA || types[w] == A)
      && (forall w, i :: 0 <= w < Size() && 0 <= i < |children[w]| ==> IsGate(children[w][i]))
      && (forall i :: 0 <= i < |outputs| ==> outputs[i] < Size())
    }

    /** Every parent has a smaller rank than its gate: the graph is acyclic. */
    ghost predicate Ranked(rank: seq<nat>)
      requires Shaped()
    {
      |rank| == Size() &&
      forall w, i :: 0 <= w < Size() && 0 <= i < |parents[w]| ==> rank[parents[w][i]] < rank[w]
    }
  }

  /** The output of gate w when the wires carry v. A one-parent gate's table ignores its second operand. */
  ghost function GateBit(d: Dag, v: seq<bool>, w: nat): bool
    requires d.Shaped() && |v| == d.Size() && d.IsGate(w)
  {
    Eval(d.types[w], v[d.parents[w][0]], |d.parents[w]| == 2 && v[d.parents[w][1]])
  }

  /** v gives every wire the bit it carries on input x. */
  ghost predicate IsValuation(d: Dag, x: seq<bool>, v: seq<bool>)
    requires d.Shaped()
  {
    && |x| == d.Inputs() && |v| == d.Size()
    && (forall w :: 0 <= w < d.Inputs() ==> v[w] == x[w])
    && (forall w :: d.Inputs() <= w < d.Size() ==> v[w] == GateBit(d, v, w))
  }

  /** The meaning of an acyclic graph. */
  ghost function NodeBit(d: Dag, rank: seq<nat>, x: seq<bool>, w: nat): bool
    requires d.Shaped() && d.Ranked(rank) && |x| == d.Inputs() && w < d.Size()
    decreases rank[w]
  {
    if w < d.Inputs() then x[w]
    else
        Eval(d.types[w], NodeBit(d, rank, x, d.parents[w][0]),
             |d.parents[w]| == 2 && NodeBit(d, rank, x, d.parents[w][1]))
  }

  ghost function Valuation(d: Dag, rank: seq<nat>, x: seq<bool>): (v: seq<bool>)
    requires d.Shaped() && d.Ranked(rank) && |x| == d.Inputs()
    ensures IsValuation(d, x, v)
    ensures forall w :: 0 <= w < |v| ==> v[w] == NodeBit(d, rank, x, w)
  {
    var v := seq(d.Size(), w requires 0 <= w < d.Size() => NodeBit(d, rank, x, w));
    assert forall w :: d.Inputs() <= w < d.Size() ==> v[w] == NodeBit(d, rank, x, w) == GateBit(d, v, w);
    v
  }

  /** An acyclic graph has one valuation per input. */
  lemma {:induction false} ValuationIsUnique(d: Dag, rank: seq<nat>, x: seq<bool>, v: seq<bool>, w: nat)
    requires d.Shaped() && d.Ranked(rank) && IsValuation(d, x, v) && w < d.Size()
    ensures v[w] == NodeBit(d, rank, x, w)
    decreases rank[w]
  {
    if w >= d.Inputs() {
      assert v[w] == GateBit(d, v, w);
      ValuationIsUnique(d, rank, x, v, d.parents[w][0]);
      if |d.parents[w]| == 2 {
        ValuationIsUnique(d, rank, x, v, d.parents[w][1]);
      }
    }
  }
}
