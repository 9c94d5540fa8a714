/** Emitting the gates of a graph into a circuit: depth-first, with an explicit stack and recursion. */
module Linearize {
  import opened Counting
  import opened Gates
  import opened Circuits
  import opened Dags
  import opened Reaches

  const NOT_EMITTED: int := -1

  /** gate is the k-th gate of the circuit, emitted for node w from its parents' new wires. */
  ghost predicate EmittedAs(d: Dag, idx: seq<int>, w: nat, gate: Gate, k: nat)
    requires d.Shaped() && |idx| == d.Size() && d.IsGate(w)
  {
    && gate.out == d.Inputs() + k && gate.gt == d.types[w] && !IsRefused(d.types[w])
    && 0 <= idx[d.parents[w][0]] == gate.in0 < d.Inputs() + k
    && (if |d.parents[w]| == 2 then 0 <= idx[d.parents[w][1]] == gate.in1 < d.Inputs() + k else gate.in1 == 0)
  }

  /** The marks, the new wire indices and the order of emission fit together. */
  ghost predicate Indexed(d: Dag, live: set<nat>, idx: seq<int>, added: seq<bool>, order: seq<nat>) {
    && |idx| == |added| == d.Size()
    && (forall w :: 0 <= w < d.Size() && added[w] ==> w in live)
    && (forall w :: 0 <= w < d.Size() && idx[w] >= 0 ==> added[w])
    && (forall w :: 0 <= w < d.Inputs() <= d.Size() ==> added[w] && idx[w] == w)
    && (forall w :: d.Inputs() <= w < d.Size() && idx[w] >= 0 ==>
          d.Inputs() <= idx[w] < d.Inputs() + |order| && order[idx[w] - d.Inputs()] == w)
    && (forall k :: 0 <= k < |order| ==> d.IsGate(order[k]) && idx[order[k]] == d.Inputs() + k)
  }

  /** The circuit holds one gate per emitted node, in order. */
  ghost predicate AllEmitted(d: Dag, idx: seq<int>, order: seq<nat>, gates: seq<Gate>)
    requires d.Shaped() && |idx| == d.Size()
  {
    && |order| == |gates|
    && (forall k :: 0 <= k < |order| ==> d.IsGate(order[k]) && EmittedAs(d, idx, order[k], gates[k], k))
  }

  ghost predicate Good(d: Dag, live: set<nat>, idx: seq<int>, added: seq<bool>, order: seq<nat>, gates: seq<Gate>)
    requires d.Shaped()
  {
    Indexed(d, live, idx, added, order) && AllEmitted(d, idx, order, gates)
  }

  lemma NodeFacts(d: Dag, live: set<nat>, rank: seq<nat>, w: nat)
    requires d.Shaped() && d.Ranked(rank) && Live(d, live) && w in live
    ensures w < d.Size() == |d.parents| == |d.children| == |rank|
    ensures d.IsGate(w) ==> 1 <= |d.parents[w]| <= 2
    ensures !d.IsGate(w) ==> d.parents[w] == []
    ensures forall i :: 0 <= i < |d.parents[w]| ==>
      d.parents[w][i] in live && d.parents[w][i] < d.Size() && rank[d.parents[w][i]] < rank[w]
    ensures forall i :: 0 <= i < |d.children[w]| ==> d.children[w][i] in live && d.IsGate(d.children[w][i])
  {
  }

  lemma GoodFacts(d: Dag, live: set<nat>, idx: seq<int>, added: seq<bool>, order: seq<nat>, gates: seq<Gate>)
    requires d.Shaped() && Good(d, live, idx, added, order, gates)
    ensures |idx| == |added| == d.Size() && |order| == |gates|
    ensures forall w :: 0 <= w < d.Size() && idx[w] >= 0 ==> added[w] && idx[w] < d.Inputs() + |gates|
    ensures forall w :: 0 <= w < d.Inputs() ==> added[w] && idx[w] >= 0
  {
  }

  lemma AddedIsLive(d: Dag, live: set<nat>, idx: seq<int>, added: seq<bool>, order: seq<nat>, gates: seq<Gate>, w: nat)
    requires d.Shaped() && Good(d, live, idx, added, order, gates) && w < |added| && added[w]
    ensures w in live
  {
  }

  lemma NonXorCountOne(g: Gate)
    ensures NonXorCount([g]) == if IsXorType(g.gt) then 0 else 1
  {
    assert NonXorCount([g][..0]) == 0;
  }

  lemma MarkKeepsGood(d: Dag, live: set<nat>, idx: seq<int>, added: seq<bool>, order: seq<nat>, gates: seq<Gate>,
                      w: nat)
    requires d.Shaped() && Good(d, live, idx, added, order, gates) && w in live && w < d.Size()
    ensures |idx| == |added| == d.Size() && Good(d, live, idx, added[w := true], order, gates)
  {
    hide AllEmitted;
  }

  lemma OpenFacts(idx: seq<int>, added: seq<bool>)
    requires |idx| == |added|
    ensures forall w :: w in OpenSet(idx, added) ==> w < |added| && added[w] && idx[w] < 0
  {
  }

  lemma MarkOpens(idx: seq<int>, added: seq<bool>, w: nat)
    requires |idx| == |added| && w < |added| && !added[w] && idx[w] < 0
    ensures OpenSet(idx, added[w := true]) == OpenSet(idx, added) + {w}
  {
  }

  lemma EmitCloses(idx: seq<int>, added: seq<bool>, w: nat, i: int, busy: set<nat>)
    requires |idx| == |added| && w < |added| && i >= 0 && w !in busy && OpenSet(idx, added) == busy + {w}
    ensures OpenSet(idx[w := i], added) == busy
  {
  }

  /** Marked but not yet emitted: the gates whose parents are being added. */
  ghost function OpenSet(idx: seq<int>, added: seq<bool>): set<nat>
    requires |idx| == |added|
  {
    set w: nat | w < |added| && added[w] && idx[w] < 0
  }

  /** Every marked node outside `exempt` waits on the stack, or each of its children is marked or waits there. */
  ghost predicate Closed(d: Dag, added: seq<bool>, stack: seq<nat>, exempt: set<nat>)
    requires d.Shaped() && |added| == d.Size()
  {
    forall x :: 0 <= x < d.Size() && added[x] && x !in exempt && x !in stack ==>
      Covered(d, added, stack, x, |d.children[x]|)
  }

  /** The first n children of x are marked or wait on the stack. */
  ghost predicate Covered(d: Dag, added: seq<bool>, stack: seq<nat>, x: nat, n: nat)
    requires d.Shaped() && |added| == d.Size() && x < d.Size() && n <= |d.children[x]|
  {
    forall i :: 0 <= i < n ==> added[d.children[x][i]] || d.children[x][i] in stack
  }

  lemma ClosedPush(d: Dag, added: seq<bool>, stack: seq<nat>, exempt: set<nat>, w: nat)
    requires d.Shaped() && |added| == d.Size() && Closed(d, added, stack, exempt)
    ensures Closed(d, added, stack + [w], exempt)
  {
    forall x | 0 <= x < d.Size() && added[x] && x !in exempt && x !in stack + [w]
      ensures Covered(d, added, stack + [w], x, |d.children[x]|)
    {
      assert Covered(d, added, stack, x, |d.children[x]|);
    }
  }

  /** Popping a node and marking it; the node itself is still to be handled. */
  lemma ClosedPop(d: Dag, added: seq<bool>, stack: seq<nat>, exempt: set<nat>)
    requires d.Shaped() && |added| == d.Size() && stack != [] && stack[|stack| - 1] < d.Size()
    requires Closed(d, added, stack, exempt)
    ensures var w := stack[|stack| - 1]; Closed(d, added[w := true], stack[..|stack| - 1], exempt + {w})
  {
    var w, rest := stack[|stack| - 1], stack[..|stack| - 1];
    assert stack == rest + [w];
    forall x | 0 <= x < d.Size() && added[w := true][x] && x !in exempt + {w} && x !in rest
      ensures Covered(d, added[w := true], rest, x, |d.children[x]|)
    {
      assert Covered(d, added, stack, x, |d.children[x]|);
    }
  }

  lemma ClosedDone(d: Dag, added: seq<bool>, stack: seq<nat>, exempt: set<nat>, w: nat)
    requires d.Shaped() && |added| == d.Size() && w < d.Size()
    requires Closed(d, added, stack, exempt + {w}) && Covered(d, added, stack, w, |d.children[w]|)
    ensures Closed(d, added, stack, exempt)
  {
  }

  lemma CoveredPersists(d: Dag, added: seq<bool>, stack: seq<nat>, added': seq<bool>, stack': seq<nat>, x: nat, n: nat)
    requires d.Shaped() && |added| == |added'| == d.Size() && x < d.Size() && n <= |d.children[x]|
    requires Covered(d, added, stack, x, n) && Grows(added, added') && |stack| <= |stack'| && stack'[..|stack|] == stack
    ensures Covered(d, added', stack', x, n)
  {
    forall i | 0 <= i < n
      ensures added'[d.children[x][i]] || d.children[x][i] in stack'
    {
      if d.children[x][i] in stack {
        var j :| 0 <= j < |stack| && stack[j] == d.children[x][i];
        assert stack'[..|stack|][j] == stack'[j];
      }
    }
  }

  ghost function Unmarked(added: seq<bool>): set<nat> {
    set w: nat | w < |added| && !added[w]
  }

  /** Marks only grow. */
  ghost predicate Grows(added: seq<bool>, added': seq<bool>) {
    |added| == |added'| && forall w :: 0 <= w < |added| && added[w] ==> added'[w]
  }

  lemma UnmarkedShrinks(added: seq<bool>, added': seq<bool>)
    requires Grows(added, added')
    ensures Unmarked(added') <= Unmarked(added) && |Unmarked(added')| <= |Unmarked(added)|
  {
    SubsetSize(Unmarked(added'), Unmarked(added));
  }

  lemma MarkingShrinks(added: seq<bool>, w: nat)
    requires w < |added| && !added[w]
    ensures |Unmarked(added[w := true])| < |Unmarked(added)|
  {
    assert Unmarked(added[w := true]) == Unmarked(added) - {w};
  }

  lemma EmitKeepsIndexed(d: Dag, live: set<nat>, idx: seq<int>, added: seq<bool>, order: seq<nat>, w: nat)
    requires Indexed(d, live, idx, added, order) && d.IsGate(w) && added[w] && idx[w] < 0
    ensures Indexed(d, live, idx[w := d.Inputs() + |order|], added, order + [w])
  {
  }

  lemma EmittedAsPersists(d: Dag, idx: seq<int>, w: nat, i: int, v: nat, gate: Gate, k: nat)
    requires d.Shaped() && |idx| == d.Size() && d.IsGate(w) && d.IsGate(v) && idx[w] < 0
    requires EmittedAs(d, idx, v, gate, k)
    ensures EmittedAs(d, idx[w := i], v, gate, k)
  {
  }

  lemma EmitKeepsEmitted(d: Dag, idx: seq<int>, order: seq<nat>, gates: seq<Gate>, w: nat, gate: Gate)
    requires d.Shaped() && |idx| == d.Size() && AllEmitted(d, idx, order, gates)
    requires d.IsGate(w) && idx[w] < 0 && EmittedAs(d, idx, w, gate, |gates|)
    ensures AllEmitted(d, idx[w := d.Inputs() + |gates|], order + [w], gates + [gate])
  {
    var i := d.Inputs() + |gates|;
    EmittedAsPersists(d, idx, w, i, w, gate, |gates|);
    forall k | 0 <= k < |order|
      ensures d.IsGate(order[k]) && EmittedAs(d, idx[w := i], order[k], gates[k], k)
    {
      EmittedAsPersists(d, idx, w, i, order[k], gates[k], k);
    }
  }

  /** Emitting node w as the next gate keeps everything together. */
  lemma EmitKeepsGood(d: Dag, live: set<nat>, idx: seq<int>, added: seq<bool>, order: seq<nat>, gates: seq<Gate>,
                      w: nat, gate: Gate)
    requires d.Shaped() && Good(d, live, idx, added, order, gates)
    requires d.IsGate(w) && added[w] && idx[w] < 0 && EmittedAs(d, idx, w, gate, |gates|)
    ensures Good(d, live, idx[w := d.Inputs() + |gates|], added, order + [w], gates + [gate])
  {
    hide Indexed, AllEmitted, EmittedAs, Dag.Shaped;
    GoodFacts(d, live, idx, added, order, gates);
    EmitKeepsIndexed(d, live, idx, added, order, w);
    EmitKeepsEmitted(d, idx, order, gates, w, gate);
  }

  /** The state threaded through depthFirstAdd. */
  class Linearizer {
    var newWireIdx: seq<int>
    var added: seq<bool>
    var addStack: seq<nat>
    const cir: Circuit
    ghost var order: seq<nat>

    constructor (d: Dag, cir: Circuit)
      ensures this.cir == cir && addStack == [] && order == []
      ensures newWireIdx == seq(d.Size(), _ => NOT_EMITTED) && added == seq(d.Size(), _ => false)
    {
      newWireIdx := seq(d.Size(), _ => NOT_EMITTED);
      added := seq(d.Size(), _ => false);
      addStack := [];
      this.cir := cir;
      order := [];
    }

    ghost predicate Valid(d: Dag, live: set<nat>)
      reads this, cir
      requires d.Shaped()
    {
      && cir.inputs == (d.in0, d.in1) && cir.wireCount == d.Inputs() + |cir.gates|
      && cir.nonXorGateCount == NonXorCount(cir.gates)
      && |newWireIdx| == |added| == d.Size()
      && Good(d, live, newWireIdx, added, order, cir.gates)
      && forall i :: 0 <= i < |addStack| ==> addStack[i] in live
    }

    /** Some node to be covered has a type that AddGate refuses. */
    static ghost predicate HasRefused(d: Dag, live: set<nat>) {
      exists w :: w in live && d.IsGate(w) && IsRefused(d.types[w])
    }

    /** Adds the gate of a node whose parents have all been emitted; false where AddGate throws. */
    method Emit(d: Dag, node: nat, ghost live: set<nat>) returns (ok: bool)
      requires d.Shaped() && Valid(d, live) && d.IsGate(node) && added[node] && newWireIdx[node] < 0
      requires forall i :: 0 <= i < |d.parents[node]| ==> newWireIdx[d.parents[node][i]] >= 0
      modifies `newWireIdx, `order, cir`wireCount, cir`nonXorGateCount, cir`gates
      ensures ok ==> Valid(d, live) && newWireIdx == old(newWireIdx)[node := newWireIdx[node]] && newWireIdx[node] >= 0
      ensures !ok ==> HasRefused(d, live)
    {
      hide Indexed, AllEmitted, NonXorCount;
      var wire;
      ghost var gates := cir.gates;
      GoodFacts(d, live, newWireIdx, added, order, gates);
      AddedIsLive(d, live, newWireIdx, added, order, gates, node);
      var in0, in1 := newWireIdx[d.parents[node][0]], 0;
      if |d.parents[node]| == 1 {
        ok, wire := cir.AddGate(in0, 0, d.types[node]);
      } else {
        in1 := newWireIdx[d.parents[node][1]];
        ok, wire := cir.AddGate(in0, in1, d.types[node]);
      }
      if !ok {
        assert node in live && IsRefused(d.types[node]);
        return;
      }
      NonXorCountAppend(gates, [Gate(in0, in1, d.Inputs() + |gates|, d.types[node])]);
      NonXorCountOne(Gate(in0, in1, d.Inputs() + |gates|, d.types[node]));
      EmitKeepsGood(d, live, newWireIdx, added, order, gates, node,
                    Gate(in0, in1, d.Inputs() + |gates|, d.types[node]));
      newWireIdx := newWireIdx[node := wire];
      order := order + [node];
    }

    method DepthFirstAdd(d: Dag, explore: bool, ghost live: set<nat>, ghost rank: seq<nat>, ghost exempt: set<nat>)
      returns (ok: bool)
      requires d.Shaped() && d.Ranked(rank) && Live(d, live) && Valid(d, live)
      requires addStack != []
      requires explore ==> OpenSet(newWireIdx, added) == {}
      requires !explore ==> !added[addStack[|addStack| - 1]]
      requires forall w :: w in OpenSet(newWireIdx, added) ==> rank[w] > rank[addStack[|addStack| - 1]]
      requires Closed(d, added, addStack, exempt)
      modifies this, cir`wireCount, cir`nonXorGateCount, cir`gates
      ensures ok ==> Valid(d, live) && Grows(old(added), added) && added[old(addStack)[|old(addStack)| - 1]]
      ensures ok ==> OpenSet(newWireIdx, added) == old(OpenSet(newWireIdx, added))
      ensures ok ==>
        |addStack| >= |old(addStack)| - 1 && addStack[..|old(addStack)| - 1] == old(addStack)[..|old(addStack)| - 1]
      ensures ok && added == old(added) ==> |addStack| == |old(addStack)| - 1
      ensures ok ==> Closed(d, added, addStack, exempt)
      ensures !ok ==> HasRefused(d, live)
      decreases |Unmarked(added)|, if added[addStack[|addStack| - 1]] then 2 else 0
    {
      hide Good, EmittedAs, Closed, NonXorCount, OpenSet, Unmarked, Live, Dag.Shaped, Dag.Ranked;
      GoodFacts(d, live, newWireIdx, added, order, cir.gates);
      var node := addStack[|addStack| - 1];
      NodeFacts(d, live, rank, node);
      OpenFacts(newWireIdx, added);
      ghost var before, busy := added, OpenSet(newWireIdx, added);
      ClosedPop(d, added, addStack, exempt);
      assert added[node] ==> added[node := true] == added;
      addStack := addStack[..|addStack| - 1];
      ghost var base := addStack;
      if !added[node] {
        MarkingShrinks(added, node);
        MarkOpens(newWireIdx, added, node);
        MarkKeepsGood(d, live, newWireIdx, added, order, cir.gates, node);
        added := added[node := true];
        ok := AddParents(d, node, live, rank, exempt, busy);
        if !ok { return; }
        GoodFacts(d, live, newWireIdx, added, order, cir.gates);
        ParentsEmitted(d, newWireIdx, added, rank, node, busy);
        ghost var idx := newWireIdx;
        ok := Emit(d, node, live);
        if !ok { return; }
        EmitCloses(idx, added, node, newWireIdx[node], busy);
        UnmarkedShrinks(before[node := true], added);
      }
      ok := AddChildren(d, node, explore, live, rank, exempt);
      if !ok { return; }
      assert addStack[..|base|] == base;
    }

    /** The loop over a node's children: pushes each that is not yet marked, and when exploring adds it at once. */
    method AddChildren(d: Dag, node: nat, explore: bool, ghost live: set<nat>, ghost rank: seq<nat>,
                       ghost exempt: set<nat>)
      returns (ok: bool)
      requires d.Shaped() && d.Ranked(rank) && Live(d, live) && Valid(d, live) && node in live && node < d.Size()
      requires added[node]
      requires explore ==> OpenSet(newWireIdx, added) == {}
      requires Closed(d, added, addStack, exempt + {node})
      modifies this, cir`wireCount, cir`nonXorGateCount, cir`gates
      ensures ok ==> Valid(d, live) && Grows(old(added), added)
      ensures ok ==> OpenSet(newWireIdx, added) == old(OpenSet(newWireIdx, added))
      ensures ok ==> |addStack| >= |old(addStack)| && addStack[..|old(addStack)|] == old(addStack)
      ensures ok && explore && added == old(added) ==> |addStack| == |old(addStack)|
      ensures ok ==> Closed(d, added, addStack, exempt)
      ensures !ok ==> HasRefused(d, live)
      decreases |Unmarked(added)|, 1
    {
      hide Good, EmittedAs, Closed, NonXorCount, OpenSet, Unmarked, Live, Dag.Shaped, Dag.Ranked;
      GoodFacts(d, live, newWireIdx, added, order, cir.gates);
      NodeFacts(d, live, rank, node);
      ghost var before, base, busy := added, addStack, OpenSet(newWireIdx, added);
      var i := 0;
      while i < |d.children[node]|
        invariant 0 <= i <= |d.children[node]|
        invariant Valid(d, live) && Grows(before, added)
        invariant OpenSet(newWireIdx, added) == busy
        invariant |addStack| >= |base| && addStack[..|base|] == base
        invariant explore && added == before ==> |addStack| == |base|
        invariant Closed(d, added, addStack, exempt + {node}) && Covered(d, added, addStack, node, i)
      {
        var child := d.children[node][i];
        if !added[child] {
          ghost var marks, stack := added, addStack;
          addStack := addStack + [child];
          ClosedPush(d, marks, stack, exempt + {node}, child);
          if explore {
            UnmarkedShrinks(before, added);
            ok := DepthFirstAdd(d, true, live, rank, exempt + {node});
            if !ok { return; }
            assert addStack[..|base|] == addStack[..|stack|][..|base|];
          }
          CoveredPersists(d, marks, stack, added, addStack, node, i);
        }
        i := i + 1;
      }
      ClosedDone(d, added, addStack, exempt, node);
      ok := true;
    }

    /** The loop over a node's parents: adds each that is not yet marked, without exploring its children. */
    method AddParents(d: Dag, node: nat, ghost live: set<nat>, ghost rank: seq<nat>, ghost exempt: set<nat>,
                      ghost busy: set<nat>)
      returns (ok: bool)
      requires d.Shaped() && d.Ranked(rank) && Live(d, live) && Valid(d, live)
      requires node in live && d.IsGate(node) && added[node] && newWireIdx[node] < 0
      requires OpenSet(newWireIdx, added) == busy + {node}
      requires forall w :: w in busy ==> w < d.Size() && rank[w] > rank[node]
      requires Closed(d, added, addStack, exempt + {node})
      modifies this, cir`wireCount, cir`nonXorGateCount, cir`gates
      ensures ok ==> Valid(d, live) && Grows(old(added), added)
      ensures ok ==> forall i :: 0 <= i < |d.parents[node]| ==> added[d.parents[node][i]]
      ensures ok ==> OpenSet(newWireIdx, added) == busy + {node}
      ensures ok ==> |addStack| >= |old(addStack)| && addStack[..|old(addStack)|] == old(addStack)
      ensures ok ==> Closed(d, added, addStack, exempt + {node})
      ensures !ok ==> HasRefused(d, live)
      decreases |Unmarked(added)|, 2
    {
      hide Good, EmittedAs, Closed, NonXorCount, OpenSet, Unmarked, Live, Dag.Shaped, Dag.Ranked;
      GoodFacts(d, live, newWireIdx, added, order, cir.gates);
      NodeFacts(d, live, rank, node);
      ghost var before, base := added, addStack;
      var i := 0;
      while i < |d.parents[node]|
        invariant 0 <= i <= |d.parents[node]|
        invariant Valid(d, live) && Grows(before, added)
        invariant forall j :: 0 <= j < i ==> added[d.parents[node][j]]
        invariant OpenSet(newWireIdx, added) == busy + {node}
        invariant |addStack| >= |base| && addStack[..|base|] == base
        invariant Closed(d, added, addStack, exempt + {node})
      {
        var input := d.parents[node][i];
        if !added[input] {
          ghost var stack := addStack;
          UnmarkedShrinks(before, added);
          ClosedPush(d, added, addStack, exempt + {node}, input);
          addStack := addStack + [input];
          ok := DepthFirstAdd(d, false, live, rank, exempt + {node});
          if !ok { return; }
          assert addStack[..|base|] == addStack[..|stack|][..|base|];
        }
        i := i + 1;
      }
      ok := true;
    }
  }

  /** The open nodes all rank at least as high as the node, so none of its parents is among them. */
  lemma ParentsEmitted(d: Dag, idx: seq<int>, added: seq<bool>, rank: seq<nat>, node: nat, busy: set<nat>)
    requires d.Shaped() && d.Ranked(rank) && |idx| == |added| == d.Size() && node < d.Size()
    requires OpenSet(idx, added) == busy + {node} && forall w :: w in busy ==> w < d.Size() && rank[w] > rank[node]
    requires forall i :: 0 <= i < |d.parents[node]| ==> added[d.parents[node][i]]
    ensures node !in busy && idx[node] < 0 && forall i :: 0 <= i < |d.parents[node]| ==> idx[d.parents[node][i]] >= 0
  {
    assert node in OpenSet(idx, added);
    forall i | 0 <= i < |d.parents[node]|
      ensures idx[d.parents[node][i]] >= 0
    {
      assert d.parents[node][i] !in busy + {node};
    }
  }
}
