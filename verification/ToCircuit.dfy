/** The whole linearisation of a gate graph, and what the circuit it builds computes. */
module ToCircuit {
  import opened Gates
  import opened Circuits
  import opened Dags
  import opened Linearize
  import opened Reaches

  /**
    order lists every live gate exactly once, each after its gate parents, and the circuit's k-th
    gate has the type of the k-th listed node.
   */
  ghost predicate IsLinearisation(d: Dag, live: set<nat>, order: seq<nat>, gates: seq<Gate>)
    requires d.Shaped()
  {
    && |order| == |gates|
    && (forall k :: 0 <= k < |order| ==> order[k] in live && d.IsGate(order[k]) && gates[k].gt == d.types[order[k]])
    && (forall w :: w in live && d.IsGate(w) ==> w in order)
    && (forall k, l :: 0 <= k < l < |order| ==> order[k] != order[l])
    && (forall k, i :: 0 <= k < |order| && 0 <= i < |d.parents[order[k]]| && d.IsGate(d.parents[order[k]][i]) ==>
          d.parents[order[k]][i] in order[..k])
  }

  lemma EmittedGate(d: Dag, live: set<nat>, idx: seq<int>, added: seq<bool>, order: seq<nat>, gates: seq<Gate>, w: nat)
    requires d.Shaped() && Good(d, live, idx, added, order, gates) && d.IsGate(w) && idx[w] >= 0
    ensures d.Inputs() <= idx[w] < d.Inputs() + |gates|
    ensures EmittedAs(d, idx, w, gates[idx[w] - d.Inputs()], idx[w] - d.Inputs())
  {
    hide EmittedAs, Dag.Shaped;
    var k := idx[w] - d.Inputs();
    assert 0 <= k < |order| && order[k] == w;
    assert EmittedAs(d, idx, order[k], gates[k], k);
  }

  lemma GoodIsOrdered(d: Dag, live: set<nat>, idx: seq<int>, added: seq<bool>, order: seq<nat>, c: Netlist)
    requires d.Shaped() && Good(d, live, idx, added, order, c.gates)
    requires c.in0 == d.in0 && c.in1 == d.in1 && c.wireCount == d.Inputs() + |c.gates|
    ensures c.Ordered()
  {
    forall k | 0 <= k < |c.gates|
      ensures c.gates[k].out == c.Inputs() + k && c.gates[k].in0 < c.gates[k].out && c.gates[k].in1 < c.gates[k].out
    {
      assert EmittedAs(d, idx, order[k], c.gates[k], k);
    }
  }

  lemma ValuationAt(d: Dag, x: seq<bool>, v: seq<bool>, w: nat)
    requires d.Shaped() && IsValuation(d, x, v) && w < d.Size()
    ensures |x| == d.Inputs() && |v| == d.Size()
    ensures v[w] == if d.IsGate(w) then GateBit(d, v, w) else x[w]
  {
  }

  lemma InputIdx(d: Dag, live: set<nat>, idx: seq<int>, added: seq<bool>, order: seq<nat>, w: nat)
    requires Indexed(d, live, idx, added, order) && w < d.Inputs() <= d.Size()
    ensures idx[w] == w
  {
  }

  /** The new wire of an emitted node carries the node's bit. */
  lemma {:induction false} EmittedBit(d: Dag, live: set<nat>, idx: seq<int>, added: seq<bool>, order: seq<nat>,
                                      c: Netlist, x: seq<bool>, v: seq<bool>, w: nat)
    requires d.Shaped() && Good(d, live, idx, added, order, c.gates) && w < d.Size() && idx[w] >= 0
    requires c.Ordered() && c.in0 == d.in0 && c.in1 == d.in1 && IsValuation(d, x, v)
    ensures idx[w] < c.wireCount && WireValue(c, x, idx[w]) == v[w]
    decreases idx[w]
  {
    hide Indexed, AllEmitted, IsValuation;
    ValuationAt(d, x, v, w);
    GoodFacts(d, live, idx, added, order, c.gates);
    if d.IsGate(w) {
      EmittedGate(d, live, idx, added, order, c.gates, w);
      var k := idx[w] - d.Inputs();
      GateValue(c, x, k);
      EmittedBit(d, live, idx, added, order, c, x, v, d.parents[w][0]);
      if |d.parents[w]| == 2 {
        EmittedBit(d, live, idx, added, order, c, x, v, d.parents[w][1]);
      }
    } else {
      InputIdx(d, live, idx, added, order, w);
      InputValue(c, x, w);
    }
  }

  lemma LiveIsListed(d: Dag, live: set<nat>, idx: seq<int>, added: seq<bool>, order: seq<nat>)
    requires Indexed(d, live, idx, added, order)
    requires forall w :: w in live ==> w < d.Size() && idx[w] >= 0
    ensures forall w :: w in live && d.IsGate(w) ==> w in order
    ensures forall k :: 0 <= k < |order| ==> order[k] in live
    ensures forall k, l :: 0 <= k < l < |order| ==> order[k] != order[l]
  {
    forall w | w in live && d.IsGate(w)
      ensures w in order
    {
      assert order[idx[w] - d.Inputs()] == w;
    }
  }

  lemma ParentIdx(d: Dag, idx: seq<int>, order: seq<nat>, gates: seq<Gate>, k: nat, i: nat)
    requires d.Shaped() && |idx| == d.Size() && AllEmitted(d, idx, order, gates)
    requires k < |order| && i < |d.parents[order[k]]|
    ensures 0 <= idx[d.parents[order[k]][i]] < d.Inputs() + k
  {
    assert EmittedAs(d, idx, order[k], gates[k], k);
  }

  lemma ParentsAreListed(d: Dag, live: set<nat>, idx: seq<int>, added: seq<bool>, order: seq<nat>, gates: seq<Gate>,
                         k: nat, i: nat)
    requires d.Shaped() && Good(d, live, idx, added, order, gates)
    requires k < |order| && d.IsGate(order[k]) && i < |d.parents[order[k]]| && d.IsGate(d.parents[order[k]][i])
    ensures d.parents[order[k]][i] in order[..k]
  {
    var p := d.parents[order[k]][i];
    hide Indexed;
    ParentIdx(d, idx, order, gates, k, i);
    hide Dag.Shaped, AllEmitted;
    EmittedGate(d, live, idx, added, order, gates, p);
    OrderAt(d, live, idx, added, order, p);
    assert order[..k][idx[p] - d.Inputs()] == p;
  }

  lemma OrderAt(d: Dag, live: set<nat>, idx: seq<int>, added: seq<bool>, order: seq<nat>, w: nat)
    requires Indexed(d, live, idx, added, order) && d.IsGate(w) && idx[w] >= 0
    ensures 0 <= idx[w] - d.Inputs() < |order| && order[idx[w] - d.Inputs()] == w
  {
  }

  lemma GoodIsLinearisation(d: Dag, live: set<nat>, idx: seq<int>, added: seq<bool>, order: seq<nat>, gates: seq<Gate>)
    requires d.Shaped() && Good(d, live, idx, added, order, gates)
    requires forall w :: w in live ==> w < d.Size() && idx[w] >= 0
    ensures IsLinearisation(d, live, order, gates)
  {
    assert |d.parents| == d.Size();
    hide Indexed, Dag.Shaped;
    LiveIsListed(d, live, idx, added, order);
    forall k, i | 0 <= k < |order| && d.IsGate(order[k]) && 0 <= i < |d.parents[order[k]]|
      && d.IsGate(d.parents[order[k]][i])
      ensures d.parents[order[k]][i] in order[..k]
    {
      ParentsAreListed(d, live, idx, added, order, gates, k, i);
    }
  }

  lemma UnmarkedStrictly(added: seq<bool>, added': seq<bool>)
    requires Grows(added, added') && added != added'
    ensures |Unmarked(added')| < |Unmarked(added)|
  {
    var w :| 0 <= w < |added| && added[w] != added'[w];
    UnmarkedShrinks(added[w := true], added');
    MarkingShrinks(added, w);
  }

  /** Bits of the nodes that feed the outputs. */
  ghost function OutputNodeBits(d: Dag, v: seq<bool>): (r: seq<bool>)
    requires d.Shaped() && |v| == d.Size()
    ensures |r| == |d.outputs| && forall i :: 0 <= i < |r| ==> r[i] == v[d.outputs[i]]
  {
    seq(|d.outputs|, i requires 0 <= i < |d.outputs| => v[d.outputs[i]])
  }

  lemma MarkedParent(d: Dag, idx: seq<int>, added: seq<bool>, order: seq<nat>, gates: seq<Gate>, live: set<nat>, w: nat,
                     i: nat)
    requires d.Shaped() && Good(d, live, idx, added, order, gates) && OpenSet(idx, added) == {}
    requires w < d.Size() == |added| && added[w] && i < |d.parents[w]|
    ensures d.parents[w][i] < d.Size() && added[d.parents[w][i]]
  {
    hide Good, IsRefused;
    GoodFacts(d, live, idx, added, order, gates);
    assert w !in OpenSet(idx, added);
    GateOfParent(d, w, i);
    EmittedGate(d, live, idx, added, order, gates, w);
  }

  lemma GateOfParent(d: Dag, w: nat, i: nat)
    requires d.Shaped() && w < d.Size() && i < |d.parents[w]|
    ensures d.IsGate(w) && d.parents[w][i] < d.Size() && 1 <= |d.parents[w]| <= 2
  {
  }

  /** Once the stack is empty the marked nodes are live, so they are all that is reached. */
  lemma MarkedIsLive(d: Dag, idx: seq<int>, added: seq<bool>, order: seq<nat>, gates: seq<Gate>, live: set<nat>,
                     marked: set<nat>)
    requires d.Shaped() && Good(d, live, idx, added, order, gates) && OpenSet(idx, added) == {}
    requires Closed(d, added, [], {})
    requires |added| == d.Size() && forall w :: w in marked <==> 0 <= w < d.Size() && added[w]
    ensures Live(d, marked)
  {
    GoodFacts(d, live, idx, added, order, gates);
    hide Good, OpenSet;
    forall w, i | w in marked && 0 <= i < |d.parents[w]|
      ensures d.parents[w][i] in marked
    {
      MarkedParent(d, idx, added, order, gates, live, w, i);
    }
    forall w, i | w in marked && 0 <= i < |d.children[w]|
      ensures d.children[w][i] in marked
    {
      assert Covered(d, added, [], w, |d.children[w]|);
    }
  }

  lemma AllLiveEmitted(d: Dag, live: set<nat>, idx: seq<int>, added: seq<bool>, order: seq<nat>, gates: seq<Gate>)
    requires d.Shaped() && live == Reached(d) && Good(d, live, idx, added, order, gates)
    requires OpenSet(idx, added) == {} && Closed(d, added, [], {})
    ensures forall w :: w in live ==> w < d.Size() && idx[w] >= 0
    ensures forall w :: 0 <= w < d.Size() && idx[w] >= 0 ==> w in live
    ensures !Linearizer.HasRefused(d, live)
  {
    GoodFacts(d, live, idx, added, order, gates);
    var marked := set w: nat | w < d.Size() && added[w];
    MarkedIsLive(d, idx, added, order, gates, live, marked);
    LiveHoldsReached(d, marked);
    hide Live, IsReached;
    forall w | w in live
      ensures w < d.Size() && idx[w] >= 0 && !(d.IsGate(w) && IsRefused(d.types[w]))
    {
      assert w in marked && w !in OpenSet(idx, added);
      if d.IsGate(w) { EmittedGate(d, live, idx, added, order, gates, w); }
    }
  }

  /** Marks the input nodes, gives them their own wires, and pushes them all. */
  method Start(d: Dag, l: Linearizer, ghost live: set<nat>)
    requires d.Shaped() && Live(d, live)
    requires l.addStack == [] && l.order == [] && l.cir.gates == [] && l.cir.nonXorGateCount == 0
    requires l.cir.inputs == (d.in0, d.in1) && l.cir.wireCount == d.Inputs()
    requires l.newWireIdx == seq(d.Size(), _ => NOT_EMITTED) && l.added == seq(d.Size(), _ => false)
    modifies l`newWireIdx, l`added, l`addStack
    ensures l.Valid(d, live) && OpenSet(l.newWireIdx, l.added) == {} && Closed(d, l.added, l.addStack, {})
  {
    for i := 0 to d.Inputs()
      invariant |l.newWireIdx| == |l.added| == d.Size() && |l.addStack| == i
      invariant forall w :: 0 <= w < i ==> l.added[w] && l.newWireIdx[w] == w && l.addStack[w] == w
      invariant forall w :: i <= w < d.Size() ==> !l.added[w] && l.newWireIdx[w] == NOT_EMITTED
    {
      l.added := l.added[i := true];
      l.newWireIdx := l.newWireIdx[i := i];
      l.addStack := l.addStack + [i];
    }
    assert forall w :: 0 <= w < d.Inputs() ==> l.addStack[w] in l.addStack;
  }

  /** The circuit built from emitted gates computes the graph's outputs. */
  lemma ComputesOutputs(d: Dag, live: set<nat>, idx: seq<int>, added: seq<bool>, order: seq<nat>, c: Netlist)
    requires d.Shaped() && Good(d, live, idx, added, order, c.gates)
    requires c.in0 == d.in0 && c.in1 == d.in1 && c.wireCount == d.Inputs() + |c.gates| && |c.outputs| == |d.outputs|
    requires forall i :: 0 <= i < |d.outputs| ==> 0 <= idx[d.outputs[i]] == c.outputs[i]
    requires c.nonXor == NonXorCount(c.gates)
    ensures c.WellFormed()
    ensures forall x, v :: IsValuation(d, x, v) ==> OutputBits(c, x) == OutputNodeBits(d, v)
  {
    GoodIsOrdered(d, live, idx, added, order, c);
    forall i | 0 <= i < |c.outputs|
      ensures c.outputs[i] < c.wireCount
    {
      var w := d.outputs[i];
      if d.IsGate(w) { EmittedGate(d, live, idx, added, order, c.gates, w); }
    }
    forall x, v | IsValuation(d, x, v)
      ensures OutputBits(c, x) == OutputNodeBits(d, v)
    {
      forall i | 0 <= i < |c.outputs|
        ensures OutputBits(c, x)[i] == OutputNodeBits(d, v)[i]
      {
        EmittedBit(d, live, idx, added, order, c, x, v, d.outputs[i]);
      }
    }
  }

  /** What holds once the stack has run empty. */
  lemma Explored(d: Dag, live: set<nat>, idx: seq<int>, added: seq<bool>, order: seq<nat>, c: Netlist)
    requires d.Shaped() && live == Reached(d) && Good(d, live, idx, added, order, c.gates)
    requires OpenSet(idx, added) == {} && Closed(d, added, [], {})
    requires c.in0 == d.in0 && c.in1 == d.in1 && c.wireCount == d.Inputs() + |c.gates|
    ensures |idx| == d.Size() && forall w :: 0 <= w < d.Size() ==> idx[w] < c.wireCount && (idx[w] >= 0 <==> w in live)
    ensures forall i :: 0 <= i < |d.outputs| ==> d.outputs[i] < d.Size()
    ensures !Linearizer.HasRefused(d, live) && IsLinearisation(d, live, order, c.gates) && c.Ordered()
  {
    GoodFacts(d, live, idx, added, order, c.gates);
    assert forall i :: 0 <= i < |d.outputs| ==> d.outputs[i] < d.Size();
    hide Good, Dag.Shaped, Dag.Ranked, Live, OpenSet, Closed, IsLinearisation;
    AllLiveEmitted(d, live, idx, added, order, c.gates);
    GoodIsOrdered(d, live, idx, added, order, c);
    GoodIsLinearisation(d, live, idx, added, order, c.gates);
  }

  /**
    Fails exactly when some reached gate has a type that AddGate refuses or an output is fed by a node
    that is not reached. Otherwise the circuit has one gate per reached gate, in topological order, and
    computes the graph's outputs on every input.
   */
  method ToCircuit(d: Dag, cir: Circuit, ghost rank: seq<nat>) returns (ok: bool, ghost order: seq<nat>)
    requires d.Shaped() && d.Ranked(rank)
    requires cir.gates == [] && cir.outputs == [] && cir.nonXorGateCount == cir.outputCount == 0
    modifies cir
    ensures ok <==>
      !Linearizer.HasRefused(d, Reached(d)) && forall i :: 0 <= i < |d.outputs| ==> d.outputs[i] in Reached(d)
    ensures ok ==> cir.Valid() && cir.inputs == (d.in0, d.in1) && IsLinearisation(d, Reached(d), order, cir.gates)
    ensures ok ==> forall x, v :: IsValuation(d, x, v) ==> OutputBits(cir.View(), x) == OutputNodeBits(d, v)
  {
    hide Good, Dag.Shaped, Dag.Ranked, Live, OpenSet, Closed, NonXorCount, IsLinearisation, OutputBits;
    hide IsValuation, OutputNodeBits, Linearizer.HasRefused, Netlist.Ordered, Netlist.WellFormed, Reached;
    ghost var live := Reached(d);
    ReachedIsLive(d);
    var l := new Linearizer(d, cir);
    cir.inputs := (d.in0, d.in1);
    cir.wireCount := d.Inputs();
    Start(d, l, live);
    ok, order := Explore(d, l, live, rank);
    if !ok { return; }
    Explored(d, live, l.newWireIdx, l.added, order, cir.View());
    ok := AddOutputs(d, cir, l.newWireIdx);
    if ok {
      ComputesOutputs(d, live, l.newWireIdx, l.added, order, cir.View());
    }
  }

  /** Records each output's new wire; a node that was not emitted has none. */
  method AddOutputs(d: Dag, cir: Circuit, newWireIdx: seq<int>) returns (ok: bool)
    requires cir.outputs == [] && cir.outputCount == 0 && |newWireIdx| == d.Size()
    requires forall i :: 0 <= i < |d.outputs| ==> d.outputs[i] < d.Size()
    requires forall w :: 0 <= w < d.Size() ==> newWireIdx[w] < cir.wireCount
    modifies cir`outputs, cir`outputCount
    ensures ok <==> forall i :: 0 <= i < |d.outputs| ==> newWireIdx[d.outputs[i]] >= 0
    ensures ok ==> cir.outputCount == |cir.outputs| == |d.outputs|
    ensures ok ==> forall i :: 0 <= i < |d.outputs| ==> newWireIdx[d.outputs[i]] == cir.outputs[i]
  {
    for i := 0 to |d.outputs|
      invariant cir.outputCount == |cir.outputs| == i
      invariant forall k :: 0 <= k < i ==> 0 <= newWireIdx[d.outputs[k]] == cir.outputs[k]
    {
      var wire := newWireIdx[d.outputs[i]];
      if wire < 0 { return false; }
      ok := cir.AddOutputWire(wire);
      assert ok;
    }
    ok := true;
  }

  /** Runs depthFirstAdd until the stack is empty. */
  method Explore(d: Dag, l: Linearizer, ghost live: set<nat>, ghost rank: seq<nat>)
    returns (ok: bool, ghost order: seq<nat>)
    requires d.Shaped() && d.Ranked(rank) && Live(d, live)
    requires l.Valid(d, live) && OpenSet(l.newWireIdx, l.added) == {} && Closed(d, l.added, l.addStack, {})
    modifies l, l.cir`wireCount, l.cir`nonXorGateCount, l.cir`gates
    ensures !ok ==> Linearizer.HasRefused(d, live)
    ensures ok ==> l.Valid(d, live) && order == l.order
    ensures ok ==> OpenSet(l.newWireIdx, l.added) == {} && Closed(d, l.added, [], {})
  {
    hide Good, Dag.Shaped, Dag.Ranked, Live, OpenSet, Closed, NonXorCount;
    while l.addStack != []
      invariant l.Valid(d, live) && OpenSet(l.newWireIdx, l.added) == {} && Closed(d, l.added, l.addStack, {})
      decreases |Unmarked(l.added)|, |l.addStack|
    {
      ghost var added := l.added;
      ok := l.DepthFirstAdd(d, true, live, rank, {});
      if !ok { return false, l.order; }
      if l.added != added { UnmarkedStrictly(added, l.added); }
    }
    return true, l.order;
  }
}
