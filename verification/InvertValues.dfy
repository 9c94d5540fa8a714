/** Removing INV gates does not change what the outputs compute. */
module InvertValues {
  import opened Gates
  import opened Dags
  import opened Inverts

  /** How many of at most two operands p feeds. */
  function Feeds(parents: seq<nat>, p: nat): nat {
    (if |parents| >= 1 && parents[0] == p then 1 else 0) + (if |parents| >= 2 && parents[1] == p then 1 else 0)
  }

  /** p's child list has an entry per operand that p feeds. */
  ghost predicate LinkedAt(d: Dag, p: nat)
    requires d.Shaped() && p < d.Size()
  {
    forall w: nat :: w < d.Size() ==> multiset(d.children[p])[w] == Feeds(d.parents[w], p)
  }

  /** No gate that reads p at both operands tells its two equal-operand rows apart. */
  ghost predicate DoubleSafeFor(d: Dag, p: nat)
    requires d.Shaped()
  {
    forall w :: 0 <= w < d.Size() && Feeds(d.parents[w], p) == 2 ==> d.types[w].bit0 == d.types[w].bit3
  }

  lemma ChildrenHaveParent(d: Dag, p: nat)
    requires d.Shaped() && p < d.Size() && LinkedAt(d, p)
    ensures forall i :: 0 <= i < |d.children[p]| ==> p in d.parents[d.children[p][i]]
  {
    forall i | 0 <= i < |d.children[p]|
      ensures p in d.parents[d.children[p][i]]
    {
      var c := d.children[p][i];
      assert c in multiset(d.children[p]);
      assert Feeds(d.parents[c], p) > 0;
    }
  }

  lemma CountIsFeeds(d: Dag, p: nat, w: nat)
    requires d.Shaped() && p < d.Size() && w < d.Size() && LinkedAt(d, p)
    ensures multiset(d.children[p])[w] == Feeds(d.parents[w], p) <= 2
  {
  }

  /** The tables after invertOutput at p. */
  lemma InvertedTypes(d: Dag, p: nat, w: nat)
    requires d.Shaped() && d.IsGate(p) && LinkedAt(d, p) && Feeds(d.parents[p], p) == 0 && w < d.Size()
    ensures InvertOutput(d, p).Done?
    ensures InvertOutput(d, p).d.types[w] ==
            if w == p then Complement(d.types[p])
            else if Feeds(d.parents[w], p) == 1 then InvertInputs(d.types[w], d.parents[w], p)
            else d.types[w]
  {
    ChildrenHaveParent(d, p);
    hide LinkedAt, InvertInputs, InvertChildren;
    assert multiset(d.children[p])[w] == Feeds(d.parents[w], p) by { CountIsFeeds(d, p, w); }
    InvertChildrenAt(d.types[p := Complement(d.types[p])], d.parents, d.children[p], p, w);
  }

  /** Gate w's equation survives flipping p's bit, given its new table, iff it is not hurt by p at both operands. */
  lemma FlippedGate(d: Dag, e: Dag, p: nat, v: seq<bool>, w: nat)
    requires d.Shaped() && e.Shaped() && e == d.(types := e.types) && e.Size() == d.Size() == |v|
    requires d.IsGate(p) && d.IsGate(w) && Feeds(d.parents[p], p) == 0
    requires v[w] == GateBit(d, v, w)
    requires e.types[w] == (if w == p then Complement(d.types[p])
                            else if Feeds(d.parents[w], p) == 1 then InvertInputs(d.types[w], d.parents[w], p)
                            else d.types[w])
    ensures v[p := !v[p]][w] == GateBit(e, v[p := !v[p]], w) <==>
            (Feeds(d.parents[w], p) == 2 ==> d.types[w].bit0 == d.types[w].bit3)
  {
  }

  /**
    invertOutput flips exactly its own node's bit and nothing else, on every valuation, if and only
    if every gate with the node at both operands has a table that cannot tell (0,0) from (1,1).
   */
  lemma InvertOutputFlipsIff(d: Dag, p: nat, x: seq<bool>, v: seq<bool>)
    requires d.Shaped() && d.IsGate(p) && LinkedAt(d, p) && Feeds(d.parents[p], p) == 0 && IsValuation(d, x, v)
    ensures InvertOutput(d, p).Done?
    ensures IsValuation(InvertOutput(d, p).d, x, v[p := !v[p]]) <==> DoubleSafeFor(d, p)
  {
    InvertedTypes(d, p, p);
    var e := InvertOutput(d, p).d;
    var v' := v[p := !v[p]];
    forall w | 0 <= w < d.Size() && d.IsGate(w)
      ensures v'[w] == GateBit(e, v', w) <==> (Feeds(d.parents[w], p) == 2 ==> d.types[w].bit0 == d.types[w].bit3)
    {
      InvertedTypes(d, p, w);
      FlippedGate(d, e, p, v, w);
    }
  }

  /**
    Node 2 = node 0 and node 1 is read twice by the conjunction node 3, and an output's INV gate, node 4, negates it.
   */
  const DOUBLED: Dag :=
    Dag(1, 1, [A, A, AND, AND, NA], [[], [], [0, 1], [2, 2], [2]], [[2], [2], [3, 3, 4], [], []], [3, 4])

  lemma DoubledIsShaped()
    ensures DOUBLED.Shaped() && DOUBLED.Ranked([0, 0, 1, 2, 2])
  {
  }

  lemma DoubledIsLinked()
    ensures DOUBLED.Shaped() && LinkedAt(DOUBLED, 2) && Feeds(DOUBLED.parents[2], 2) == 0 && !DoubleSafeFor(DOUBLED, 2)
  {
    DoubledIsShaped();
    hide Dag.Shaped;
    var cs := DOUBLED.children[2];
    assert cs == [3, 3, 4];
    forall w: nat | w < DOUBLED.Size()
      ensures multiset(cs)[w] == Feeds(DOUBLED.parents[w], 2)
    {
      assert w == 0 || w == 1 || w == 2 || w == 3 || w == 4;
    }
    assert Feeds(DOUBLED.parents[3], 2) == 2;
  }

  /** A conjunction of a node with itself, beside the INV gate of an output, is the failing shape. */
  lemma DoubledConjunctionBreaks()
    ensures DOUBLED.Shaped() && InvertOutput(DOUBLED, 2).Done?
    ensures IsValuation(DOUBLED, [true, false], [true, false, false, false, true])
    ensures !IsValuation(InvertOutput(DOUBLED, 2).d, [true, false], [true, false, true, false, true])
  {
    DoubledIsLinked();
    hide LinkedAt, InvertOutput, DoubleSafeFor, Feeds;
    InvertOutputFlipsIff(DOUBLED, 2, [true, false], [true, false, false, false, true]);
    assert [true, false, false, false, true][2 := true] == [true, false, true, false, true];
  }

  /** v with the bits of the given nodes flipped. */
  ghost function Flip(v: seq<bool>, nodes: set<nat>): (r: seq<bool>)
    ensures |r| == |v| && forall w: nat :: w < |v| ==> r[w] == (v[w] != (w in nodes))
  {
    seq(|v|, w requires 0 <= w < |v| => v[w] != (w in nodes))
  }

  /** No node that feeds an output's INV gate is itself recorded as feeding an output. */
  ghost predicate FeedersAreNotOutputs(d: Dag)
    requires d.Shaped()
  {
    forall i, j :: 0 <= i < |d.outputs| && 0 <= j < |d.outputs| && d.IsInvert(d.outputs[i]) ==>
      d.outputs[j] != d.parents[d.outputs[i]][0]
  }

  /** No output's INV gate is driven by another output's INV gate. */
  ghost predicate OutputsDoNotChain(d: Dag)
    requires d.Shaped()
  {
    forall i, j ::
      0 <= i < |d.outputs| && 0 <= j < |d.outputs| && d.IsInvert(d.outputs[i]) && d.IsInvert(d.outputs[j]) ==>
      d.outputs[j] != d.parents[d.outputs[i]][0]
  }

  /** What every acyclic graph read from a file has: one-operand gates negate, and child lists match parent lists. */
  ghost predicate Wired(d: Dag)
    requires d.Shaped()
  {
    && (forall w :: 0 <= w < d.Size() && |d.parents[w]| == 1 ==> d.types[w] == NA)
    && (forall p :: 0 <= p < d.Size() ==> LinkedAt(d, p) && Feeds(d.parents[p], p) == 0)
  }

  /** Node p feeds the INV gate of some output. */
  ghost predicate IsFeeder(d: Dag, p: nat)
    requires d.Shaped()
  {
    exists j :: 0 <= j < |d.outputs| && d.IsInvert(d.outputs[j]) && d.parents[d.outputs[j]][0] == p
  }

  /** All nodes that feed an output's INV gate. */
  ghost function Feeders(d: Dag): (r: set<nat>)
    requires d.Shaped()
    ensures forall p: nat :: p in r <==> p < d.Size() && IsFeeder(d, p)
  {
    set p: nat | p < d.Size() && IsFeeder(d, p)
  }

  /** No gate that tells its equal-operand rows apart reads such a node twice. */
  ghost predicate FeedersSafe(d: Dag)
    requires d.Shaped()
  {
    forall p: nat :: IsFeeder(d, p) ==> DoubleSafeFor(d, p)
  }

  /** One of the nodes is at both operands. */
  predicate ReadsTwice(parents: seq<nat>, nodes: set<nat>) {
    |parents| == 2 && parents[0] == parents[1] && parents[0] in nodes
  }

  /** d with both operands inverted in every gate that reads one of the nodes twice. */
  function Twisted(d: Dag, nodes: set<nat>): (r: Dag)
    requires d.Shaped()
    ensures Keeps(d, r) && r.parents == d.parents && r.children == d.children && r.outputs == d.outputs
  {
    d.(types := seq(d.Size(), w requires 0 <= w < d.Size() =>
      if ReadsTwice(d.parents[w], nodes) then Invert(0, Invert(1, d.types[w])) else d.types[w]))
  }

  /**
    The table with every operand negated that comes from the nodes, except that a node at both operands cancels out.
   */
  function InvertRead(gt: GateType, parents: seq<nat>, nodes: set<nat>): GateType {
    if |parents| == 2 && parents[0] == parents[1] then gt
    else
      var gt0 := if |parents| >= 1 && parents[0] in nodes then Invert(0, gt) else gt;
      if |parents| >= 2 && parents[1] in nodes then Invert(1, gt0) else gt0
  }

  /** The table of gate w once the nodes have been flipped, one call of invertOutput each. */
  function TypeAfter(d: Dag, nodes: set<nat>, w: nat): GateType
    requires |d.parents| == d.Size() && w < d.Size()
  {
    var gt := InvertRead(d.types[w], d.parents[w], nodes);
    if w in nodes then Complement(gt) else gt
  }

  ghost predicate TypesAfter(d0: Dag, d: Dag, nodes: set<nat>)
    requires d0.Shaped()
  {
    d.Size() == d0.Size() && forall w: nat :: w < d0.Size() ==> d.types[w] == TypeAfter(d0, nodes, w)
  }

  /** Output k of d now comes from the same node as in d0, or from the flipped feeder of its INV gate. */
  ghost predicate OutputMoved(d0: Dag, d: Dag, done: set<nat>, k: nat)
    requires d0.Shaped() && k < |d0.outputs| == |d.outputs|
  {
    var g := d0.outputs[k];
    || (d.outputs[k] == g && g !in done)
    || (d0.IsInvert(g) && d.outputs[k] == d0.parents[g][0] && d.outputs[k] in done)
  }

  /** Child lists still match the parent lists, except that the detached gates are gone from them. */
  ghost predicate LinkedBut(d: Dag, detached: set<nat>)
    requires d.Shaped()
  {
    forall q: nat, w: nat :: q < d.Size() && w < d.Size() ==>
      multiset(d.children[q])[w] == if w in detached then 0 else Feeds(d.parents[w], q)
  }

  /** An output's INV gate has become a copy gate exactly if its feeder has been flipped. */
  ghost predicate OutputInvType(d0: Dag, d: Dag, done: set<nat>, j: nat)
    requires d0.Shaped() && d.Shaped() && d.Size() == d0.Size() && j < |d0.outputs|
  {
    var g := d0.outputs[j];
    d0.IsInvert(g) ==> d.types[g] == if d0.parents[g][0] in done then A else NA
  }

  ghost predicate Transfers(d0: Dag, d: Dag, done: set<nat>)
    requires d0.Shaped() && d.Shaped()
  {
    forall x, v :: IsValuation(d0, x, v) ==> IsValuation(d, x, Flip(v, done))
  }

  /** The shape of the graph in the output loop after i outputs, with `done` the flipped feeders. */
  ghost predicate Placed(d0: Dag, d: Dag, done: set<nat>, detached: set<nat>, i: nat)
    requires d0.Shaped() && i <= |d0.outputs|
  {
    && Keeps(d0, d) && d.parents == d0.parents
    && (forall p :: p in done ==> IsFeeder(d0, p) && d0.IsGate(p))
    && (forall w :: w in detached ==> w in d0.outputs && d0.IsInvert(w) && d0.parents[w][0] in done)
    && (forall j :: 0 <= j < |d0.outputs| ==> OutputInvType(d0, d, done, j))
    && (forall k :: i <= k < |d0.outputs| ==> d.outputs[k] == d0.outputs[k])
    && LinkedBut(d, detached)
  }

  /** The feeder of output k's INV gate has been flipped. */
  ghost predicate FeederSeen(d0: Dag, done: set<nat>, k: nat)
    requires d0.Shaped() && k < |d0.outputs|
  {
    d0.IsInvert(d0.outputs[k]) ==> d0.parents[d0.outputs[k]][0] in done
  }

  /** The shape, and what has become of outputs and tables. */
  ghost predicate Progress(d0: Dag, d: Dag, done: set<nat>, detached: set<nat>, i: nat)
    requires d0.Shaped() && i <= |d0.outputs|
  {
    && Placed(d0, d, done, detached, i)
    && (forall k :: 0 <= k < i ==> OutputMoved(d0, d, done, k) && FeederSeen(d0, done, k))
    && TypesAfter(d0, d, done)
  }

  lemma FeederIsNoOutput(d: Dag, p: nat, j: nat)
    requires d.Shaped() && FeedersAreNotOutputs(d) && IsFeeder(d, p) && j < |d.outputs|
    ensures d.outputs[j] != p
  {
  }

  lemma DoesNotChain(d: Dag)
    requires d.Shaped() && FeedersAreNotOutputs(d)
    ensures OutputsDoNotChain(d)
  {
  }

  lemma StartPlaced(d: Dag)
    requires d.Shaped() && Wired(d)
    ensures Placed(d, d, {}, {}, 0)
  {
    forall q: nat, w: nat | q < d.Size() && w < d.Size()
      ensures multiset(d.children[q])[w] == Feeds(d.parents[w], q)
    {
      assert LinkedAt(d, q);
    }
  }

  lemma StartProgress(d: Dag)
    requires d.Shaped() && Wired(d)
    ensures Progress(d, d, {}, {}, 0)
  {
    StartPlaced(d);
  }

  /** A step that leaves the graph alone. */
  lemma KeepPlaced(d0: Dag, d: Dag, done: set<nat>, detached: set<nat>, i: nat)
    requires d0.Shaped() && i < |d0.outputs| && Placed(d0, d, done, detached, i)
    ensures Placed(d0, d, done, detached, i + 1)
  {
    hide LinkedBut, OutputInvType, IsFeeder;
  }

  lemma KeepProgress(d0: Dag, d: Dag, done: set<nat>, detached: set<nat>, i: nat)
    requires d0.Shaped() && FeedersAreNotOutputs(d0) && i < |d0.outputs| && Progress(d0, d, done, detached, i)
    requires !d.IsInvert(d0.outputs[i])
    ensures Progress(d0, d, done, detached, i + 1)
  {
    hide LinkedBut, TypesAfter;
    KeepPlaced(d0, d, done, detached, i);
    var g := d0.outputs[i];
    if g in done { FeederIsNoOutput(d0, g, i); }
    assert OutputInvType(d0, d, done, i);
  }

  lemma ValuationSizes(d: Dag, x: seq<bool>, v: seq<bool>)
    requires d.Shaped() && IsValuation(d, x, v)
    ensures |v| == d.Size()
  {
  }

  lemma SameGates(d: Dag, e: Dag, x: seq<bool>, v: seq<bool>)
    requires d.Shaped() && e.Shaped() && d.types == e.types && d.parents == e.parents && d.in0 == e.in0
    requires d.in1 == e.in1
    requires IsValuation(d, x, v)
    ensures IsValuation(e, x, v)
  {
    assert forall w :: d.Inputs() <= w < d.Size() ==> GateBit(e, v, w) == GateBit(d, v, w);
  }

  lemma LinkedWhereNotDone(d0: Dag, d: Dag, done: set<nat>, detached: set<nat>, i: nat, p: nat)
    requires d0.Shaped() && Wired(d0) && i <= |d0.outputs| && Placed(d0, d, done, detached, i)
    requires p < d.Size() && p !in done
    ensures d.Shaped() && LinkedAt(d, p) && Feeds(d.parents[p], p) == 0
  {
    hide OutputInvType;
    forall w: nat | w < d.Size()
      ensures multiset(d.children[p])[w] == Feeds(d.parents[w], p)
    {
      if w in detached { assert d.parents[w][0] in done && |d.parents[w]| == 1; }
    }
  }

  /** The tables of the other outputs' INV gates after flipping p. */
  lemma StepOutputTypes(d0: Dag, d: Dag, e: Dag, done: set<nat>, p: nat, j: nat)
    requires d0.Shaped() && OutputsDoNotChain(d0) && Keeps(d0, d) && e.Shaped() && e.Size() == d.Size()
    requires d.parents == d0.parents
    requires j < |d0.outputs| && OutputInvType(d0, d, done, j)
    requires p !in done && d.IsGate(p) && IsFeeder(d0, p) && LinkedAt(d, p) && Feeds(d.parents[p], p) == 0
    requires InvertOutput(d, p).Done? && e.types == InvertOutput(d, p).d.types
    ensures OutputInvType(d0, e, done + {p}, j)
  {
    hide LinkedAt, InvertOutput;
    var g := d0.outputs[j];
    if d0.IsInvert(g) {
      assert g != p;
      InvertedTypes(d, p, g);
    }
  }

  /** Flipping one more node. */
  lemma StepTypes(d0: Dag, d: Dag, e: Dag, done: set<nat>, p: nat)
    requires d0.Shaped() && d.Shaped() && d.parents == d0.parents && TypesAfter(d0, d, done) && e.Size() == d.Size()
    requires p !in done
    requires d.IsGate(p) && LinkedAt(d, p) && Feeds(d.parents[p], p) == 0
    requires InvertOutput(d, p).Done? && e.types == InvertOutput(d, p).d.types
    ensures TypesAfter(d0, e, done + {p})
  {
    hide LinkedAt, InvertOutput, Dag.Shaped, TypeAfter;
    ShapedSizes(d0, 0);
    forall w: nat | w < d0.Size()
      ensures e.types[w] == TypeAfter(d0, done + {p}, w)
    {
      InvertedTypes(d, p, w);
      StepType(d0, done, p, w);
    }
  }

  lemma StepType(d0: Dag, done: set<nat>, p: nat, w: nat)
    requires d0.Shaped() && w < d0.Size() && p !in done && (w == p ==> Feeds(d0.parents[w], p) == 0)
    ensures TypeAfter(d0, done + {p}, w) ==
            if w == p then Complement(TypeAfter(d0, done, w))
            else if Feeds(d0.parents[w], p) == 1 then InvertInputs(TypeAfter(d0, done, w), d0.parents[w], p)
            else TypeAfter(d0, done, w)
  {
    hide Dag.Shaped;
    ShapedSizes(d0, w);
    if w < d0.Inputs() {
      InputHasNoParents(d0, w);
    } else if |d0.parents[w]| == 1 {
      assert d0.parents[w] == [d0.parents[w][0]];
    }
  }

  lemma InputHasNoParents(d: Dag, w: nat)
    requires d.Shaped() && w < d.Inputs()
    ensures |d.parents[w]| == 0
  {
  }

  lemma StepLinked(d: Dag, e: Dag, detached: set<nat>, p: nat, g: nat)
    requires d.Shaped() && e.Shaped() && e.Size() == d.Size() && e.parents == d.parents && LinkedBut(d, detached)
    requires p < d.Size() && d.IsGate(g) && d.parents[g] == [p] && g in d.children[p]
    requires e.children == d.children[p := RemoveOne(d.children[p], g)]
    ensures LinkedBut(e, detached + {g})
  {
    RemoveOneContents(d.children[p], g);
    hide Dag.Shaped, RemoveOne, Feeds;
    assert Feeds([p], p) == 1 by { FeedsOne(p, p); }
    forall q: nat, w: nat | q < e.Size() && w < e.Size()
      ensures multiset(e.children[q])[w] == if w in detached + {g} then 0 else Feeds(e.parents[w], q)
    {
      assert multiset(d.children[q])[w] == if w in detached then 0 else Feeds(d.parents[w], q);
      FeedsOne(p, q);
      if q == p {
        assert multiset(e.children[q]) == multiset(d.children[q]) - multiset{g};
      }
    }
  }

  lemma FeedsOne(p: nat, q: nat)
    ensures Feeds([p], q) == if p == q then 1 else 0
  {
  }

  /** The output's INV gate g and its feeder p, when the loop flips p. */
  lemma FlipIsPossible(d0: Dag, d: Dag, done: set<nat>, detached: set<nat>, i: nat, g: nat, p: nat)
    requires d0.Shaped() && Wired(d0) && i < |d0.outputs| && Placed(d0, d, done, detached, i)
    requires g == d0.outputs[i] && d.Shaped() && d.IsInvert(g) && p == d.parents[g][0] && d.IsGate(p)
    ensures d0.IsInvert(g) && d.parents[g] == [p] && p !in done && IsFeeder(d0, p)
    ensures LinkedAt(d, p) && Feeds(d.parents[p], p) == 0
    ensures InvertOutput(d, p).Done? && InvertOutput(d, p).d.types[g] == A && g in d.children[p]
  {
    hide LinkedBut, LinkedAt, InvertOutput;
    assert OutputInvType(d0, d, done, i);
    LinkedWhereNotDone(d0, d, done, detached, i, p);
    InvertedTypes(d, p, g);
    ChildIsListed(d, p, g);
  }

  lemma ChildIsListed(d: Dag, p: nat, g: nat)
    requires d.Shaped() && p < d.Size() && g < d.Size() && LinkedAt(d, p) && Feeds(d.parents[g], p) > 0
    ensures g in d.children[p]
  {
    assert multiset(d.children[p])[g] > 0;
  }

  /** One turn of the output loop. It throws exactly when the INV gate's feeder is an input node. */
  lemma StepProgress(d0: Dag, d: Dag, done: set<nat>, detached: set<nat>, i: nat)
    returns (done': set<nat>, detached': set<nat>)
    requires d0.Shaped() && Wired(d0) && FeedersAreNotOutputs(d0) && i < |d0.outputs|
    requires Progress(d0, d, done, detached, i)
    ensures var o := DropOutputInvert(d, i);
            && !o.Undefined?
            && (o.Thrown? ==> d0.IsInvert(d0.outputs[i]) && !d0.IsGate(d0.parents[d0.outputs[i]][0]))
            && (o.Done? ==> Progress(d0, o.d, done', detached', i + 1))
  {
    DoesNotChain(d0);
    hide Wired, TypesAfter, LinkedBut, LinkedAt, InvertOutput, FeedersAreNotOutputs, OutputsDoNotChain;
    done', detached' := done, detached;
    var g := d0.outputs[i];
    assert d.outputs[i] == g;
    if !d.IsInvert(g) {
      KeepProgress(d0, d, done, detached, i);
    } else {
      var p := d.parents[g][0];
      assert OutputInvType(d0, d, done, i) && d0.IsInvert(g) by { InvertsWereInverts(d0, d, g); }
      if d.IsGate(p) {
        done', detached' := done + {p}, detached + {g};
        FlipProgress(d0, d, done, detached, i, g, p);
      } else {
        InputThrows(d, p);
      }
    }
  }

  lemma InvertsWereInverts(d0: Dag, d: Dag, g: nat)
    requires d0.Shaped() && d.Shaped() && Wired(d0) && d.parents == d0.parents && d.Inputs() == d0.Inputs()
    requires d.Size() == d0.Size() && d.IsInvert(g)
    ensures d0.IsInvert(g)
  {
    hide LinkedAt, Feeds;
  }

  lemma InputThrows(d: Dag, p: nat)
    requires d.Shaped() && p < d.Size() && !d.IsGate(p)
    ensures InvertOutput(d, p) == Thrown
  {
  }

  /** Flipping the feeder of an output's INV gate, as far as the shape goes. */
  lemma FlipPlaced(d0: Dag, d: Dag, done: set<nat>, detached: set<nat>, i: nat, g: nat, p: nat)
    requires d0.Shaped() && Wired(d0) && OutputsDoNotChain(d0) && i < |d0.outputs| && Placed(d0, d, done, detached, i)
    requires g == d0.outputs[i] && d.Shaped() && d.IsInvert(g) && p == d.parents[g][0] && d.IsGate(p)
    ensures DropOutputInvert(d, i).Done?
    ensures Placed(d0, DropOutputInvert(d, i).d, done + {p}, detached + {g}, i + 1)
  {
    hide Wired, LinkedBut, LinkedAt, InvertOutput, OutputsDoNotChain, IsFeeder, Dag.Shaped, OutputInvType;
    FlipIsPossible(d0, d, done, detached, i, g, p);
    var e := DropOutputInvert(d, i).d;
    StepLinked(d, e, detached, p, g);
    forall j | 0 <= j < |d0.outputs|
      ensures OutputInvType(d0, e, done + {p}, j)
    {
      assert OutputInvType(d0, d, done, j);
      StepOutputTypes(d0, d, e, done, p, j);
    }
  }

  lemma FlipProgress(d0: Dag, d: Dag, done: set<nat>, detached: set<nat>, i: nat, g: nat, p: nat)
    requires d0.Shaped() && Wired(d0) && OutputsDoNotChain(d0) && FeedersAreNotOutputs(d0)
    requires i < |d0.outputs| && Progress(d0, d, done, detached, i)
    requires g == d0.outputs[i] && d.Shaped() && d.IsInvert(g) && p == d.parents[g][0] && d.IsGate(p)
    ensures DropOutputInvert(d, i).Done?
    ensures Progress(d0, DropOutputInvert(d, i).d, done + {p}, detached + {g}, i + 1)
  {
    hide Wired, Placed, TypesAfter, OutputMoved, FeederSeen, DropOutputInvert, FeedersAreNotOutputs, OutputsDoNotChain,
         Dag.Shaped;
    PlacedFacts(d0, d, done, detached, i);
    FlipPlaced(d0, d, done, detached, i, g, p);
    FlipMeans(d0, d, done, detached, i, g, p);
    forall k | 0 <= k < i + 1
      ensures OutputMoved(d0, DropOutputInvert(d, i).d, done + {p}, k) && FeederSeen(d0, done + {p}, k)
    {
      FlipMoves(d0, d, done, detached, i, g, p, k);
      FlipSees(d0, done, i, g, p, k);
    }
  }

  lemma FlipSees(d0: Dag, done: set<nat>, i: nat, g: nat, p: nat, k: nat)
    requires d0.Shaped() && k <= i < |d0.outputs| && g == d0.outputs[i] && |d0.parents[g]| > 0 && p == d0.parents[g][0]
    requires k < i ==> FeederSeen(d0, done, k)
    ensures FeederSeen(d0, done + {p}, k)
  {
  }

  lemma FlipMeans(d0: Dag, d: Dag, done: set<nat>, detached: set<nat>, i: nat, g: nat, p: nat)
    requires d0.Shaped() && Wired(d0) && i < |d0.outputs| && Placed(d0, d, done, detached, i) && TypesAfter(d0, d, done)
    requires g == d0.outputs[i] && d.Shaped() && d.IsInvert(g) && p == d.parents[g][0] && d.IsGate(p)
    requires DropOutputInvert(d, i).Done?
    ensures TypesAfter(d0, DropOutputInvert(d, i).d, done + {p})
  {
    PlacedFacts(d0, d, done, detached, i);
    FlipIsPossible(d0, d, done, detached, i, g, p);
    FlipShape(d, i, g, p);
    hide Wired, Placed, TypesAfter, LinkedAt, InvertOutput, DropOutputInvert, IsFeeder, Dag.Shaped;
    StepTypes(d0, d, DropOutputInvert(d, i).d, done, p);
  }

  lemma FlipMoves(d0: Dag, d: Dag, done: set<nat>, detached: set<nat>, i: nat, g: nat, p: nat, k: nat)
    requires d0.Shaped() && Wired(d0) && FeedersAreNotOutputs(d0) && i < |d0.outputs|
    requires Placed(d0, d, done, detached, i)
    requires g == d0.outputs[i] && d.Shaped() && d.IsInvert(g) && p == d.parents[g][0] && d.IsGate(p)
    requires DropOutputInvert(d, i).Done?
    requires k <= i && (k < i ==> OutputMoved(d0, d, done, k))
    ensures |DropOutputInvert(d, i).d.outputs| == |d0.outputs|
    ensures OutputMoved(d0, DropOutputInvert(d, i).d, done + {p}, k)
  {
    PlacedFacts(d0, d, done, detached, i);
    FlipIsPossible(d0, d, done, detached, i, g, p);
    FlipShape(d, i, g, p);
    FeederIsNoOutput(d0, p, k);
    hide *;
    MovedStill(d0, d, DropOutputInvert(d, i).d, done, i, g, p, k);
  }

  lemma MovedStill(d0: Dag, d: Dag, e: Dag, done: set<nat>, i: nat, g: nat, p: nat, k: nat)
    requires d0.Shaped() && |d.outputs| == |d0.outputs| && k <= i < |d0.outputs| && e.outputs == d.outputs[i := p]
    requires g == d0.outputs[i] && d0.IsInvert(g) && p == d0.parents[g][0] && d0.outputs[k] != p
    requires k < i ==> OutputMoved(d0, d, done, k)
    ensures OutputMoved(d0, e, done + {p}, k)
  {
  }

  lemma PlacedFacts(d0: Dag, d: Dag, done: set<nat>, detached: set<nat>, i: nat)
    requires d0.Shaped() && i <= |d0.outputs| && Placed(d0, d, done, detached, i)
    ensures Keeps(d0, d) && d.Shaped() && d.parents == d0.parents && d.Inputs() == d0.Inputs()
    ensures |d.outputs| == |d0.outputs|
    ensures forall k :: i <= k < |d0.outputs| ==> d.outputs[k] == d0.outputs[k]
  {
  }

  /** What moving an output across its INV gate does to the graph. */
  lemma FlipShape(d: Dag, i: nat, g: nat, p: nat)
    requires d.Shaped() && i < |d.outputs| && g == d.outputs[i] && d.IsInvert(g) && p == d.parents[g][0]
    requires DropOutputInvert(d, i).Done?
    ensures var e := DropOutputInvert(d, i).d;
            && d.IsGate(p) && InvertOutput(d, p).Done? && e.types == InvertOutput(d, p).d.types
            && e.parents == d.parents
            && e.outputs == d.outputs[i := p] && e.Shaped() && e.in0 == d.in0 && e.in1 == d.in1 && e.Size() == d.Size()
            && InvertOutput(d, p).d.types[g] == A && g in d.children[p]
            && e.children == d.children[p := RemoveOne(d.children[p], g)]
  {
  }

  /** The whole output loop. */
  lemma {:induction false} OutputLoop(d0: Dag, n: nat) returns (done: set<nat>, detached: set<nat>)
    requires d0.Shaped() && Wired(d0) && FeedersAreNotOutputs(d0) && n <= |d0.outputs|
    ensures !DropOutputInverts(d0, n).Undefined?
    ensures DropOutputInverts(d0, n).Thrown? ==>
              exists j :: 0 <= j < n && d0.IsInvert(d0.outputs[j]) && !d0.IsGate(d0.parents[d0.outputs[j]][0])
    ensures DropOutputInverts(d0, n).Done? ==> Progress(d0, DropOutputInverts(d0, n).d, done, detached, n)
  {
    hide Progress, InvertOutput, DropOutputInvert, Dag.Shaped, Wired, FeedersAreNotOutputs;
    if n == 0 {
      StartProgress(d0);
      done, detached := {}, {};
    } else {
      done, detached := OutputLoop(d0, n - 1);
      if DropOutputInverts(d0, n - 1).Done? {
        done, detached := StepProgress(d0, DropOutputInverts(d0, n - 1).d, done, detached, n - 1);
      }
    }
  }

  /** The output loop's shape, whether or not it keeps what the outputs compute. */
  lemma {:induction false} PlacedLoop(d0: Dag, n: nat) returns (done: set<nat>, detached: set<nat>)
    requires d0.Shaped() && Wired(d0) && OutputsDoNotChain(d0) && n <= |d0.outputs|
    ensures !DropOutputInverts(d0, n).Undefined?
    ensures DropOutputInverts(d0, n).Done? ==> Placed(d0, DropOutputInverts(d0, n).d, done, detached, n)
  {
    hide Placed, Wired, InvertOutput, DropOutputInvert, Dag.Shaped, OutputsDoNotChain;
    if n == 0 {
      StartPlaced(d0);
      done, detached := {}, {};
    } else {
      done, detached := PlacedLoop(d0, n - 1);
      if DropOutputInverts(d0, n - 1).Done? {
        done, detached := StepPlaced(d0, DropOutputInverts(d0, n - 1).d, done, detached, n - 1);
      }
    }
  }

  lemma StepPlaced(d0: Dag, d: Dag, done: set<nat>, detached: set<nat>, i: nat)
    returns (done': set<nat>, detached': set<nat>)
    requires d0.Shaped() && Wired(d0) && OutputsDoNotChain(d0) && i < |d0.outputs| == |d.outputs| && d.Shaped()
    requires Placed(d0, d, done, detached, i)
    ensures !DropOutputInvert(d, i).Undefined?
    ensures DropOutputInvert(d, i).Done? ==> Placed(d0, DropOutputInvert(d, i).d, done', detached', i + 1)
  {
    PlacedFacts(d0, d, done, detached, i);
    hide Wired, Placed, InvertOutput, OutputsDoNotChain;
    done', detached' := done, detached;
    var g := d.outputs[i];
    if !d.IsInvert(g) {
      KeepPlaced(d0, d, done, detached, i);
    } else {
      var p := d.parents[g][0];
      if d.IsGate(p) {
        done', detached' := done + {p}, detached + {g};
        FlipPlaced(d0, d, done, detached, i, g, p);
      } else {
        InputThrows(d, p);
      }
    }
  }

  /** Unless an output's INV gate follows another's, neither loop runs off a child list. */
  lemma NeverRunsOff(d0: Dag, rank: seq<nat>)
    requires d0.Shaped() && d0.Ranked(rank) && Wired(d0) && OutputsDoNotChain(d0)
    ensures !RemoveInvertGates(d0).Undefined?
  {
    hide Wired, Placed, Dag.Shaped, Dag.Ranked, AllInvertsListed, DropOutputInverts, ReduceInverts, OutputsDoNotChain,
         Untouched, Carries;
    var done, detached := PlacedLoop(d0, |d0.outputs|);
    if DropOutputInverts(d0, |d0.outputs|).Done? {
      var e := DropOutputInverts(d0, |d0.outputs|).d;
      InvertsAreListed(d0, e, done, detached, |d0.outputs|);
      ShapedSizes(e, 0);
      SameParentsSameRank(d0, e, rank);
      GateLoop(e, e.Size() - e.Inputs(), rank);
    }
  }

  /** Absorbing an INV gate keeps every valuation and the ranking. */
  lemma AbsorbKeepsValues(d: Dag, w: nat, i: nat, x: seq<bool>, v: seq<bool>)
    requires d.Shaped() && d.IsGate(w) && i < |d.parents[w]| && IsValuation(d, x, v) && Absorb(d, w, i).Done?
    ensures IsValuation(Absorb(d, w, i).d, x, v)
  {
    var e := Absorb(d, w, i).d;
    var inv := d.parents[w][i];
    if d.IsInvert(inv) {
      assert v[inv] == GateBit(d, v, inv) && v[w] == GateBit(d, v, w);
      assert v[inv] == !v[d.parents[inv][0]];
      AbsorbedGate(d, w, i, v);
      forall u | d.Inputs() <= u < d.Size()
        ensures v[u] == GateBit(e, v, u)
      {
        assert v[u] == GateBit(d, v, u);
      }
    }
  }

  lemma AbsorbedGate(d: Dag, w: nat, i: nat, v: seq<bool>)
    requires d.Shaped() && d.IsGate(w) && i < |d.parents[w]| && |v| == d.Size() && Absorb(d, w, i).Done?
    requires d.IsInvert(d.parents[w][i]) && v[d.parents[w][i]] == !v[d.parents[d.parents[w][i]][0]]
    ensures GateBit(Absorb(d, w, i).d, v, w) == GateBit(d, v, w)
  {
  }

  lemma AbsorbKeepsRank(d: Dag, w: nat, i: nat, rank: seq<nat>)
    requires d.Shaped() && d.IsGate(w) && i < |d.parents[w]| && d.Ranked(rank) && Absorb(d, w, i).Done?
    ensures Absorb(d, w, i).d.Ranked(rank)
  {
    var e := Absorb(d, w, i).d;
    var inv := d.parents[w][i];
    if d.IsInvert(inv) {
      assert rank[d.parents[inv][0]] < rank[inv] < rank[w];
      forall u, k | 0 <= u < e.Size() && 0 <= k < |e.parents[u]|
        ensures rank[e.parents[u][k]] < rank[u]
      {
        if u != w || k != i { assert e.parents[u][k] == d.parents[u][k]; }
      }
    }
  }

  lemma ShapedSizes(d: Dag, w: nat)
    requires d.Shaped()
    ensures |d.parents| == |d.children| == d.Size() >= d.Inputs()
    ensures d.IsGate(w) ==> 1 <= |d.parents[w]| <= 2 && forall i :: 0 <= i < |d.parents[w]| ==>
      d.parents[w][i] < d.Size()
    ensures forall k :: 0 <= k < |d.outputs| ==> d.outputs[k] < d.Size()
  {
  }

  lemma ReduceKeepsValues(d: Dag, w: nat, x: seq<bool>, v: seq<bool>)
    requires d.Shaped() && d.IsGate(w) && IsValuation(d, x, v) && ReduceInvert(d, w).Done?
    ensures IsValuation(ReduceInvert(d, w).d, x, v)
  {
    ShapedSizes(d, w);
    hide IsValuation, Absorb, Dag.Shaped;
    if d.IsInvert(w) {
      SameGates(d, ReduceInvert(d, w).d, x, v);
    } else {
      AbsorbKeepsValues(d, w, 0, x, v);
      if |d.parents[w]| == 2 {
        AbsorbKeepsValues(Absorb(d, w, 0).d, w, 1, x, v);
      }
    }
  }

  /** Every valuation of d is one of e. */
  ghost predicate Carries(d: Dag, e: Dag)
    requires d.Shaped() && e.Shaped()
  {
    forall x, v :: IsValuation(d, x, v) ==> IsValuation(e, x, v)
  }

  lemma CarriesItself(d: Dag)
    requires d.Shaped()
    ensures Carries(d, d) && Untouched(d, d, 0)
  {
  }

  lemma ReduceKeepsAllValues(d: Dag, e: Dag, w: nat)
    requires d.Shaped() && e.Shaped() && e.IsGate(w) && ReduceInvert(e, w).Done?
    requires Carries(d, e)
    ensures Carries(d, ReduceInvert(e, w).d)
  {
    hide IsValuation, ReduceInvert, Dag.Shaped;
    forall x, v | IsValuation(d, x, v)
      ensures IsValuation(ReduceInvert(e, w).d, x, v)
    {
      ReduceKeepsValues(e, w, x, v);
    }
  }

  lemma ReduceKeepsRank(d: Dag, w: nat, rank: seq<nat>)
    requires d.Shaped() && d.IsGate(w) && d.Ranked(rank) && ReduceInvert(d, w).Done?
    ensures ReduceInvert(d, w).d.Ranked(rank)
  {
    if !d.IsInvert(w) {
      hide Absorb, Dag.Shaped, Dag.Ranked;
      AbsorbKeepsRank(d, w, 0, rank);
      if |d.parents[w]| == 2 {
        AbsorbKeepsRank(Absorb(d, w, 0).d, w, 1, rank);
      }
    }
  }

  /** The gate loop leaves the gates it has not reached alone, except for adding child entries. */
  ghost predicate Untouched(d: Dag, e: Dag, n: nat)
    requires d.Shaped() && e.Shaped() && d.Size() == e.Size()
  {
    && (forall w :: d.Inputs() + n <= w < d.Size() ==> e.types[w] == d.types[w] && e.parents[w] == d.parents[w])
    && (forall q: nat, w: nat :: q < d.Size() && d.Inputs() + n <= w < d.Size() && w in d.children[q] ==>
        w in e.children[q])
  }

  lemma RemoveOneKeepsOthers(s: seq<nat>, x: nat, y: nat)
    requires x in s && y in s && y != x
    ensures y in RemoveOne(s, x)
  {
    RemoveOneContents(s, x);
    assert y in multiset(s);
    assert y in multiset(RemoveOne(s, x));
  }

  lemma ReduceLeavesOthers(d: Dag, w: nat)
    requires d.Shaped() && d.IsGate(w) && ReduceInvert(d, w).Done?
    ensures Untouched(d, ReduceInvert(d, w).d, w + 1 - d.Inputs())
  {
    if d.IsInvert(w) { DetachLeavesOthers(d, w); } else { hide RemoveOne; }
  }

  lemma DetachLeavesOthers(d: Dag, w: nat)
    requires d.Shaped() && d.IsInvert(w) && ReduceInvert(d, w).Done?
    ensures Untouched(d, ReduceInvert(d, w).d, w + 1 - d.Inputs())
  {
    hide RemoveOne, Absorb;
    var e, p := ReduceInvert(d, w).d, d.parents[w][0];
    forall q: nat, u: nat | q < d.Size() && w + 1 <= u < d.Size() && u in d.children[q]
      ensures u in e.children[q]
    {
      if q == p { RemoveOneKeepsOthers(d.children[p], w, u); }
    }
  }

  lemma UntouchedChain(d: Dag, e: Dag, f: Dag, n: nat)
    requires d.Shaped() && e.Shaped() && f.Shaped() && d.Size() == e.Size() == f.Size() && d.Inputs() == e.Inputs()
    requires Untouched(d, e, n) && Untouched(e, f, n + 1)
    ensures Untouched(d, f, n + 1)
  {
  }

  /** Every INV gate is in its parent's child list. */
  ghost predicate AllInvertsListed(d: Dag)
    requires d.Shaped()
  {
    forall w: nat :: w < d.Size() && d.IsInvert(w) ==> w in d.children[d.parents[w][0]]
  }

  lemma InvertIsListedStill(d: Dag, e: Dag, n: nat)
    requires d.Shaped() && e.Shaped() && d.Size() == e.Size() && d.Inputs() == e.Inputs() && d.IsGate(d.Inputs() + n)
    requires AllInvertsListed(d) && Untouched(d, e, n)
    ensures !ReduceInvert(e, d.Inputs() + n).Undefined?
  {
  }

  /** Whenever the gate loop returns it has kept valuations, ranking and outputs. */
  lemma {:induction false} LoopCarries(d: Dag, n: nat, rank: seq<nat>)
    requires d.Shaped() && d.Ranked(rank) && d.Inputs() + n <= d.Size() && ReduceInverts(d, n).Done?
    ensures ReduceInverts(d, n).d.Ranked(rank) && Carries(d, ReduceInverts(d, n).d)
    ensures Untouched(d, ReduceInverts(d, n).d, n)
  {
    hide IsValuation, Dag.Ranked, Absorb, Dag.Shaped, ReduceInvert, Untouched, Dag.IsInvert, Carries;
    if n == 0 {
      CarriesItself(d);
    } else {
      ShapedSizes(d, d.Inputs() + n - 1);
      LoopCarries(d, n - 1, rank);
      var e := ReduceInverts(d, n - 1).d;
      var w := d.Inputs() + n - 1;
      ShapedSizes(e, w);
      ReduceKeepsRank(e, w, rank);
      ReduceLeavesOthers(e, w);
      UntouchedChain(d, e, ReduceInvert(e, w).d, n - 1);
      ReduceKeepsAllValues(d, e, w);
    }
  }

  /** The gate loop never looks for a missing child, if every INV gate is listed. */
  lemma {:induction false} GateLoop(d: Dag, n: nat, rank: seq<nat>)
    requires d.Shaped() && d.Ranked(rank) && d.Inputs() + n <= d.Size()
    requires AllInvertsListed(d)
    ensures !ReduceInverts(d, n).Undefined?
    ensures ReduceInverts(d, n).Done? ==>
              && ReduceInverts(d, n).d.Ranked(rank) && Untouched(d, ReduceInverts(d, n).d, n)
              && Carries(d, ReduceInverts(d, n).d)
  {
    hide IsValuation, Dag.Ranked, Absorb, Dag.Shaped, ReduceInvert, Untouched, AllInvertsListed, Dag.IsInvert, Carries;
    if n > 0 {
      GateLoop(d, n - 1, rank);
      ShapedSizes(d, d.Inputs() + n - 1);
      if ReduceInverts(d, n - 1).Done? { InvertIsListedStill(d, ReduceInverts(d, n - 1).d, n - 1); }
    }
    if ReduceInverts(d, n).Done? { LoopCarries(d, n, rank); }
  }

  lemma DetachedAreCopies(d0: Dag, d: Dag, done: set<nat>, detached: set<nat>, i: nat, w: nat)
    requires d0.Shaped() && i <= |d0.outputs| && Placed(d0, d, done, detached, i) && w in detached
    ensures w < d.Size() && d.types[w] == A
  {
    hide LinkedBut;
    var j :| 0 <= j < |d0.outputs| && d0.outputs[j] == w;
    assert OutputInvType(d0, d, done, j);
  }

  /** After the output loop every remaining INV gate is still listed by its parent. */
  lemma InvertsAreListed(d0: Dag, d: Dag, done: set<nat>, detached: set<nat>, i: nat)
    requires d0.Shaped() && i <= |d0.outputs| && Placed(d0, d, done, detached, i)
    ensures d.Shaped() && AllInvertsListed(d)
  {
    hide OutputInvType;
    forall w: nat | w < d.Size() && d.IsInvert(w)
      ensures w in d.children[d.parents[w][0]]
    {
      if w in detached { DetachedAreCopies(d0, d, done, detached, i, w); }
      assert multiset(d.children[d.parents[w][0]])[w] == Feeds(d.parents[w], d.parents[w][0]);
    }
  }

  lemma SameParentsSameRank(d: Dag, e: Dag, rank: seq<nat>)
    requires d.Shaped() && e.Shaped() && d.parents == e.parents && d.Size() == e.Size() && d.Ranked(rank)
    ensures e.Ranked(rank)
  {
  }

  lemma OutputBitsAgree(d0: Dag, d: Dag, done: set<nat>, v: seq<bool>, x: seq<bool>, k: nat)
    requires d0.Shaped() && |d.outputs| == |d0.outputs| && k < |d0.outputs| && OutputMoved(d0, d, done, k)
    requires IsValuation(d0, x, v)
    ensures d.outputs[k] < |v| && Flip(v, done)[d.outputs[k]] == v[d0.outputs[k]]
  {
    var g := d0.outputs[k];
    if d0.IsInvert(g) {
      assert v[g] == GateBit(d0, v, g);
    }
  }

  lemma FinalProgress(d0: Dag, d: Dag, done: set<nat>, detached: set<nat>)
    requires d0.Shaped() && Progress(d0, d, done, detached, |d0.outputs|)
    ensures Keeps(d0, d) && d.parents == d0.parents && TypesAfter(d0, d, done) && AllInvertsListed(d)
    ensures done == Feeders(d0)
    ensures forall k :: 0 <= k < |d0.outputs| ==> OutputMoved(d0, d, done, k)
    ensures forall p :: p in done ==> d0.IsGate(p)
  {
    hide OutputMoved, LinkedBut, TypesAfter, OutputInvType, AllInvertsListed;
    InvertsAreListed(d0, d, done, detached, |d0.outputs|);
    forall p: nat | IsFeeder(d0, p)
      ensures p in done
    {
      var j :| 0 <= j < |d0.outputs| && d0.IsInvert(d0.outputs[j]) && d0.parents[d0.outputs[j]][0] == p;
      assert FeederSeen(d0, done, j);
    }
  }

  /** A gate's equation, with its nodes flipped and its table as the flips leave it. */
  lemma FlippedEquation(d0: Dag, e: Dag, nodes: set<nat>, v: seq<bool>, w: nat)
    requires d0.Shaped() && e.Shaped() && e.parents == d0.parents && e.Inputs() == d0.Inputs()
    requires TypesAfter(d0, e, nodes)
    requires d0.IsGate(w) && |v| == d0.Size() && v[w] == GateBit(Twisted(d0, nodes), v, w)
    ensures |e.types| == |v| && Flip(v, nodes)[w] == GateBit(e, Flip(v, nodes), w)
  {
    ShapedSizes(d0, w);
    OneOperand(d0, w);
    assert e.types[w] == TypeAfter(d0, nodes, w);
    hide Dag.Shaped;
  }

  lemma OneOperand(d: Dag, w: nat)
    requires d.Shaped() && d.IsGate(w)
    ensures |d.parents[w]| == 1 ==> d.types[w] == NA || d.types[w] == A
  {
  }

  /** Flipping the nodes turns what the twisted graph computes into what the graph after the output loop computes. */
  lemma FlipsTransfer(d0: Dag, e: Dag, nodes: set<nat>)
    requires d0.Shaped() && Keeps(d0, e) && e.parents == d0.parents && TypesAfter(d0, e, nodes)
    requires forall p :: p in nodes ==> d0.IsGate(p)
    ensures Transfers(Twisted(d0, nodes), e, nodes)
  {
    hide Dag.Shaped, TypesAfter, GateBit, Twisted;
    ShapedSizes(e, 0);
    var t := Twisted(d0, nodes);
    forall x, v | IsValuation(t, x, v)
      ensures IsValuation(e, x, Flip(v, nodes))
    {
      var u := Flip(v, nodes);
      forall w | e.Inputs() <= w < e.Size()
        ensures u[w] == GateBit(e, u, w)
      {
        FlippedEquation(d0, e, nodes, v, w);
      }
    }
  }

  /** Twisting changes no table of a one-operand gate. */
  lemma TwistedMoves(d0: Dag, e: Dag, nodes: set<nat>, k: nat)
    requires d0.Shaped() && k < |d0.outputs| == |e.outputs| && OutputMoved(d0, e, nodes, k)
    ensures OutputMoved(Twisted(d0, nodes), e, nodes, k)
  {
  }

  lemma GateLoopAgrees(d0: Dag, e: Dag, done: set<nat>, rank: seq<nat>)
    requires d0.Shaped() && d0.Ranked(rank) && Keeps(d0, e) && e.parents == d0.parents && Transfers(d0, e, done)
    requires AllInvertsListed(e) && e.Inputs() <= e.Size()
    requires forall k :: 0 <= k < |d0.outputs| ==> OutputMoved(d0, e, done, k)
    ensures var o := ReduceInverts(e, e.Size() - e.Inputs());
            && !o.Undefined?
            && (o.Done? ==> o.d.Ranked(rank) && SameOutputs(d0, o.d, rank))
  {
    hide Dag.Shaped, Dag.Ranked, OutputMoved, IsValuation, AllInvertsListed, ReduceInverts, Untouched, NodeBit,
         Transfers, Flip, Carries;
    SameParentsSameRank(d0, e, rank);
    GateLoop(e, e.Size() - e.Inputs(), rank);
    if ReduceInverts(e, e.Size() - e.Inputs()).Done? {
      var d := ReduceInverts(e, e.Size() - e.Inputs()).d;
      TransfersOn(d0, e, d, done);
      forall x, k | |x| == d0.Inputs() && 0 <= k < |d0.outputs|
        ensures OutputSame(d0, d, rank, x, k)
      {
        OutputAgrees(d0, e, d, done, rank, x, k);
      }
    }
  }

  ghost predicate OutputSame(d0: Dag, d: Dag, rank: seq<nat>, x: seq<bool>, k: nat)
    requires d0.Shaped() && d.Shaped() && d0.Ranked(rank) && d.Ranked(rank)
    requires |x| == d0.Inputs() == d.Inputs() && k < |d0.outputs| == |d.outputs|
  {
    NodeBit(d, rank, x, d.outputs[k]) == NodeBit(d0, rank, x, d0.outputs[k])
  }

  /** The two graphs compute the same output bits on every input. */
  ghost predicate SameOutputs(d0: Dag, d: Dag, rank: seq<nat>)
    requires d0.Shaped() && d.Shaped() && d0.Ranked(rank) && d.Ranked(rank)
    requires d.Inputs() == d0.Inputs() && |d0.outputs| == |d.outputs|
  {
    forall x: seq<bool>, k: nat :: |x| == d0.Inputs() && k < |d0.outputs| ==> OutputSame(d0, d, rank, x, k)
  }

  /**
    If no feeder of an output's INV gate is an output, then whenever removeInvertGates returns, the new graph is acyclic
    and computes on every input what the old one does with the feeders twisted; and it never runs off a child list.
   */
  lemma RemoveInvertGatesComputes(d0: Dag, rank: seq<nat>)
    requires d0.Shaped() && d0.Ranked(rank) && Wired(d0) && FeedersAreNotOutputs(d0)
    ensures !RemoveInvertGates(d0).Undefined? && Twisted(d0, Feeders(d0)).Ranked(rank)
    ensures RemoveInvertGates(d0).Done? ==>
              RemoveInvertGates(d0).d.Ranked(rank)
                && SameOutputs(Twisted(d0, Feeders(d0)), RemoveInvertGates(d0).d, rank)
  {
    hide Wired, Progress, Dag.Shaped, Dag.Ranked, Transfers, OutputMoved, AllInvertsListed, DropOutputInverts,
         ReduceInverts, SameOutputs, FeedersAreNotOutputs, TypesAfter, Twisted, Feeders;
    var done, detached := OutputLoop(d0, |d0.outputs|);
    SameParentsSameRank(d0, Twisted(d0, Feeders(d0)), rank);
    if DropOutputInverts(d0, |d0.outputs|).Done? {
      var e := DropOutputInverts(d0, |d0.outputs|).d;
      FinalProgress(d0, e, done, detached);
      ShapedSizes(e, 0);
      FlipsTransfer(d0, e, done);
      forall k | 0 <= k < |d0.outputs|
        ensures OutputMoved(Twisted(d0, done), e, done, k)
      {
        TwistedMoves(d0, e, done, k);
      }
      GateLoopAgrees(Twisted(d0, done), e, done, rank);
    }
  }

  lemma OutputAgrees(d0: Dag, e: Dag, d: Dag, done: set<nat>, rank: seq<nat>, x: seq<bool>, k: nat)
    requires d0.Shaped() && e.Shaped() && Keeps(d0, d) && d0.Ranked(rank) && d.Ranked(rank)
    requires e.outputs == d.outputs && |x| == d0.Inputs() && k < |d0.outputs| && OutputMoved(d0, e, done, k)
    requires Transfers(d0, d, done)
    ensures d0.outputs[k] < d0.Size() && d.outputs[k] < d.Size()
    ensures OutputSame(d0, d, rank, x, k)
  {
    ShapedSizes(d0, 0);
    ShapedSizes(d, 0);
    hide IsValuation, Dag.Shaped, Dag.Ranked, OutputMoved, NodeBit;
    var v := Valuation(d0, rank, x);
    assert IsValuation(d, x, Flip(v, done));
    OutputBitsAgree(d0, e, done, v, x, k);
    ValuationIsUnique(d, rank, x, Flip(v, done), d.outputs[k]);
  }

  lemma TransfersOn(d0: Dag, e: Dag, d: Dag, done: set<nat>)
    requires d0.Shaped() && e.Shaped() && d.Shaped() && Transfers(d0, e, done)
    requires Carries(e, d)
    ensures Transfers(d0, d, done)
  {
  }
}
