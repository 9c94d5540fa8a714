/** Compiling a Bristol file into a circuit, with or without removing its INV gates. */
module Compiler {
  import opened Counting
  import opened Gates
  import opened Circuits
  import opened Dags
  import opened Linearize
  import opened Reaches
  import opened Inverts
  import opened InvertValues
  import opened WrongOutputs
  import opened Reduction
  import opened Irreducible
  import opened BristolFiles
  import opened DagCircuits
  import opened ToCircuit
  import opened GarbledCircuits

  /** The bit a gate line puts on its wire. */
  ghost predicate LineHolds(line: GateLine, v: seq<bool>)
    requires BrisFile.Arity(line) && line.out < |v| && forall j :: 0 <= j < |line.inputs| ==> line.inputs[j] < |v|
  {
    match line.op
    case XorOp => v[line.out] == (v[line.inputs[0]] != v[line.inputs[1]])
    case AndOp => v[line.out] == (v[line.inputs[0]] && v[line.inputs[1]])
    case InvOp => v[line.out] == !v[line.inputs[0]]
    case OtherOp => true
  }

  /** v gives every wire of the file the bit it carries on input x. */
  ghost predicate FileValuation(f: BrisFile, x: seq<bool>, v: seq<bool>)
    requires f.WellNumbered()
  {
    && |x| == f.Inputs() && |v| == f.wireCount
    && (forall i :: 0 <= i < f.Inputs() ==> v[i] == x[i])
    && (forall l :: 0 <= l < |f.lines| ==> LineHolds(f.lines[l], v))
  }

  /** Every line's inputs rank below its output. */
  ghost predicate FileRanked(f: BrisFile, rank: seq<nat>)
    requires f.WellNumbered()
  {
    |rank| == f.wireCount &&
    forall l, j :: 0 <= l < |f.lines| && 0 <= j < |f.lines[l].inputs| ==>
      rank[f.lines[l].inputs[j]] < rank[f.lines[l].out]
  }

  predicate IsOutputWire(f: BrisFile, w: nat) {
    f.wireCount - f.outputCount <= w < f.wireCount
  }

  /** Line l is an INV line that writes an output wire. */
  predicate NegatesToOutput(f: BrisFile, l: nat)
    requires l < |f.lines|
  {
    f.lines[l].op == InvOp && |f.lines[l].inputs| == 1 && IsOutputWire(f, f.lines[l].out)
  }

  /** No INV line that writes an output wire reads one. */
  ghost predicate OutputsApart(f: BrisFile) {
    forall l :: 0 <= l < |f.lines| && NegatesToOutput(f, l) ==> !IsOutputWire(f, f.lines[l].inputs[0])
  }

  /** Some INV line negates wire w to an output wire. */
  ghost predicate IsNegated(f: BrisFile, w: nat) {
    exists l :: 0 <= l < |f.lines| && NegatesToOutput(f, l) && f.lines[l].inputs[0] == w
  }

  /** An AND line that reads such a wire at both inputs becomes an INV line of it. */
  ghost function MisreadLine(f: BrisFile, line: GateLine): GateLine {
    if line.op == AndOp && |line.inputs| == 2 && line.inputs[0] == line.inputs[1] && IsNegated(f, line.inputs[0]) then
      line.(inputs := [line.inputs[0]], op := InvOp)
    else line
  }

  /** The file as reduction reads it. */
  ghost function Misread(f: BrisFile): (g: BrisFile)
    requires f.WellNumbered()
    ensures g.WellNumbered() && g.Inputs() == f.Inputs() && g.wireCount == f.wireCount && g.outputCount == f.outputCount
    ensures |g.lines| == |f.lines| && forall l :: 0 <= l < |f.lines| ==> g.lines[l] == MisreadLine(f, f.lines[l])
  {
    f.(lines := seq(|f.lines|, l requires 0 <= l < |f.lines| => MisreadLine(f, f.lines[l])))
  }

  /** The two files put the same bits on their output wires. */
  ghost predicate SameFile(f: BrisFile, g: BrisFile)
    requires f.WellNumbered() && g.WellNumbered() && g.wireCount == f.wireCount && g.outputCount == f.outputCount
  {
    var start := f.wireCount - f.outputCount;
    forall x, v, u :: FileValuation(f, x, v) && FileValuation(g, x, u) ==> v[start..] == u[start..]
  }

  /** The graph's valuations are the file's, and its outputs are the file's output wires. */
  ghost predicate Means(d: Dag, f: BrisFile)
    requires f.WellNumbered()
  {
    && d.Shaped() && d.Inputs() == f.Inputs() && d.Size() == f.wireCount && |d.outputs| == f.outputCount
    && (forall j :: 0 <= j < f.outputCount ==> d.outputs[j] == f.wireCount - f.outputCount + j)
    && forall x, v :: IsValuation(d, x, v) <==> FileValuation(f, x, v)
  }

  /** Removing INV gates rids the file's graph of them. */
  ghost predicate FileReducible(f: BrisFile)
    requires f.WellNumbered()
  {
    forall d :: ReadAs(f, d) ==> Reducible(d)
  }

  lemma GraphIsRanked(f: BrisFile, d: Dag, rank: seq<nat>)
    requires f.WellNumbered() && ReadAs(f, d) && FileRanked(f, rank)
    ensures d.Ranked(rank)
  {
    forall w, i | 0 <= w < d.Size() && 0 <= i < |d.parents[w]|
      ensures rank[d.parents[w][i]] < rank[w]
    {
      EveryGateHasItsLine(f, w);
      var l :| 0 <= l < |f.lines| && f.lines[l].out == w;
      assert d.parents[f.lines[l].out] == f.lines[l].inputs;
    }
  }

  lemma GraphMeansFile(f: BrisFile, d: Dag, x: seq<bool>, v: seq<bool>)
    requires f.WellNumbered() && !f.IsRejected() && ReadAs(f, d) && FileValuation(f, x, v)
    ensures IsValuation(d, x, v)
  {
    forall w | d.Inputs() <= w < d.Size()
      ensures v[w] == GateBit(d, v, w)
    {
      EveryGateHasItsLine(f, w);
      var l :| 0 <= l < |f.lines| && f.lines[l].out == w;
      assert LineHolds(f.lines[l], v) && !BrisFile.Rejects(f.lines[l]) && BrisFile.Arity(f.lines[l]);
    }
  }

  lemma FileMeansGraph(f: BrisFile, d: Dag, x: seq<bool>, v: seq<bool>)
    requires f.WellNumbered() && !f.IsRejected() && ReadAs(f, d) && IsValuation(d, x, v)
    ensures FileValuation(f, x, v)
  {
    forall l | 0 <= l < |f.lines|
      ensures LineHolds(f.lines[l], v)
    {
      var w := f.lines[l].out;
      assert v[w] == GateBit(d, v, w);
    }
  }

  lemma ReadMeans(f: BrisFile, d: Dag)
    requires f.WellNumbered() && !f.IsRejected() && ReadAs(f, d)
    ensures Means(d, f)
  {
    ReadAsLinked(f, d);
    hide BrisFile.WellNumbered, BrisFile.IsRejected, ReadAs, Dag.Shaped, LinkedAt, IsValuation, FileValuation;
    forall x, v
      ensures IsValuation(d, x, v) <==> FileValuation(f, x, v)
    {
      if IsValuation(d, x, v) { FileMeansGraph(f, d, x, v); }
      if FileValuation(f, x, v) { GraphMeansFile(f, d, x, v); }
    }
  }

  /** What the twisted graph and the misread file say of one gate. */
  lemma TwistedLine(f: BrisFile, d: Dag, l: nat, v: seq<bool>)
    requires f.WellNumbered() && !f.IsRejected() && ReadAs(f, d) && l < |f.lines| && |v| == d.Size()
    requires forall p: nat :: p in Feeders(d) <==> IsNegated(f, p)
    ensures var w := f.lines[l].out;
            && d.IsGate(w) && BrisFile.Arity(MisreadLine(f, f.lines[l]))
            && (v[w] == GateBit(Twisted(d, Feeders(d)), v, w) <==> LineHolds(MisreadLine(f, f.lines[l]), v))
  {
    ReadAsLinked(f, d);
    var line := f.lines[l];
    assert BrisFile.Arity(line) && !BrisFile.Rejects(line);
    assert d.types[line.out] == TypeOf(line.op) && d.parents[line.out] == line.inputs;
    hide BrisFile.IsRejected, BrisFile.WellNumbered, ReadAs, LinkedAt, IsNegated, IsFeeder, Feeders;
    var twice := ReadsTwice(line.inputs, Feeders(d));
    assert line.op == AndOp ==>
      (twice <==> |line.inputs| == 2 && line.inputs[0] == line.inputs[1] && IsNegated(f, line.inputs[0]));
    hide Dag.Shaped;
  }

  lemma FeedersAreNegated(f: BrisFile, d: Dag, p: nat)
    requires f.WellNumbered() && !f.IsRejected() && ReadAs(f, d)
    ensures d.Shaped() && (p in Feeders(d) <==> IsNegated(f, p))
  {
    ReadAsLinked(f, d);
    ShapedSizes(d, 0);
    hide BrisFile.WellNumbered, BrisFile.IsRejected, ReadAs, Dag.Shaped, LinkedAt;
    if p in Feeders(d) {
      var j :| 0 <= j < |d.outputs| && d.IsInvert(d.outputs[j]) && d.parents[d.outputs[j]][0] == p;
      var l := InvertIsInvLine(f, d, d.outputs[j]);
    }
    if IsNegated(f, p) {
      var l :| 0 <= l < |f.lines| && NegatesToOutput(f, l) && f.lines[l].inputs[0] == p;
      InvLineIsInvert(f, d, l);
      var j := f.lines[l].out - (f.wireCount - f.outputCount);
      ShapedSizes(d, d.outputs[j]);
      assert IsFeeder(d, p);
    }
  }

  lemma TwistedMeansMisread(f: BrisFile, d: Dag)
    requires f.WellNumbered() && !f.IsRejected() && ReadAs(f, d)
    ensures d.Shaped() && Means(Twisted(d, Feeders(d)), Misread(f))
  {
    ReadAsLinked(f, d);
    forall p: nat
      ensures p in Feeders(d) <==> IsNegated(f, p)
    {
      FeedersAreNegated(f, d, p);
    }
    hide BrisFile.IsRejected, ReadAs, LinkedAt, IsNegated, IsFeeder, Feeders, Twisted, Dag.Shaped,
         BrisFile.WellNumbered, Misread;
    forall x, v
      ensures IsValuation(Twisted(d, Feeders(d)), x, v) <==> FileValuation(Misread(f), x, v)
    {
      TwistedValuation(f, d, x, v);
    }
  }

  lemma TwistedValuation(f: BrisFile, d: Dag, x: seq<bool>, v: seq<bool>)
    requires f.WellNumbered() && !f.IsRejected() && ReadAs(f, d)
    requires forall p: nat :: p in Feeders(d) <==> IsNegated(f, p)
    ensures IsValuation(Twisted(d, Feeders(d)), x, v) <==> FileValuation(Misread(f), x, v)
  {
    ReadAsLinked(f, d);
    hide BrisFile.IsRejected, ReadAs, LinkedAt, IsNegated, IsFeeder, Feeders, Twisted, Dag.Shaped, LineHolds, GateBit,
         BrisFile.WellNumbered, Misread, MisreadLine;
    var t, g := Twisted(d, Feeders(d)), Misread(f);
    if |v| == d.Size() && |x| == d.Inputs() {
      forall l: nat | l < |f.lines|
        ensures d.IsGate(f.lines[l].out) && BrisFile.Arity(g.lines[l])
        ensures v[f.lines[l].out] == GateBit(t, v, f.lines[l].out) <==> LineHolds(g.lines[l], v)
      {
        TwistedLine(f, d, l, v);
      }
      if IsValuation(t, x, v) {
        assert FileValuation(g, x, v);
      }
      if FileValuation(g, x, v) {
        forall w: nat | d.IsGate(w)
          ensures v[w] == GateBit(t, v, w)
        {
          var l := GateHasLine(f, d, w);
          assert LineHolds(g.lines[l], v);
        }
      }
    }
  }

  /** Gate w of the graph is the line that writes w. */
  lemma GateHasLine(f: BrisFile, d: Dag, w: nat) returns (l: nat)
    requires f.WellNumbered() && !f.IsRejected() && ReadAs(f, d) && d.IsGate(w)
    ensures l < |f.lines| && f.lines[l].out == w && !BrisFile.Rejects(f.lines[l]) && BrisFile.Arity(f.lines[l])
    ensures d.types[w] == TypeOf(f.lines[l].op) && d.parents[w] == f.lines[l].inputs
  {
    EveryGateHasItsLine(f, w);
    l :| 0 <= l < |f.lines| && f.lines[l].out == w;
  }

  lemma NoSelfFeed(d: Dag, rank: seq<nat>, p: nat)
    requires d.Shaped() && d.Ranked(rank) && p < d.Size()
    ensures Feeds(d.parents[p], p) == 0
  {
  }

  lemma OperationTypes(op: Operation)
    ensures TypeOf(op) == NA <==> op == InvOp
    ensures op == XorOp || op == AndOp ==> HasHalfGate(TypeOf(op))
    ensures op == XorOp || op == AndOp ==> (TypeOf(op).bit0 != TypeOf(op).bit3 <==> op == AndOp)
  {
  }

  lemma ReadAsLinked(f: BrisFile, d: Dag)
    requires f.WellNumbered() && ReadAs(f, d)
    ensures d.Shaped() && forall p :: 0 <= p < d.Size() ==> LinkedAt(d, p)
    ensures |d.outputs| == f.outputCount && d.Size() == f.wireCount && d.Inputs() == f.Inputs()
    ensures forall j :: 0 <= j < f.outputCount ==>
      d.outputs[j] == f.wireCount - f.outputCount + j && d.IsGate(d.outputs[j])
  {
  }

  /** Every accepted acyclic file reads as a graph with what removeInvertGates relies on. */
  lemma FileIsRegular(f: BrisFile, d: Dag, rank: seq<nat>)
    requires f.WellNumbered() && !f.IsRejected() && ReadAs(f, d) && d.Ranked(rank)
    ensures Regular(d)
  {
    hide HasHalfGate, BrisFile.WellNumbered, BrisFile.IsRejected, LinkedAt, ReadAs, Feeds, Dag.Ranked;
    ReadAsLinked(f, d);
    forall w: nat | d.IsGate(w)
      ensures |d.parents[w]| == 1 ==> d.types[w] == NA
      ensures IsBinary(d, w) ==> HasHalfGate(d.types[w])
    {
      var l := GateHasLine(f, d, w);
      OperationTypes(f.lines[l].op);
    }
    forall p: nat | p < d.Size()
      ensures Feeds(d.parents[p], p) == 0
    {
      NoSelfFeed(d, rank, p);
    }
  }

  /** Output wire w, if an INV gate drives it, is an INV line's. */
  lemma InvertIsInvLine(f: BrisFile, d: Dag, w: nat) returns (l: nat)
    requires f.WellNumbered() && !f.IsRejected() && ReadAs(f, d) && d.IsInvert(w) && IsOutputWire(f, w)
    ensures l < |f.lines| && f.lines[l].out == w && NegatesToOutput(f, l) && d.parents[w] == f.lines[l].inputs
  {
    hide BrisFile.WellNumbered, BrisFile.IsRejected, ReadAs;
    l := GateHasLine(f, d, w);
    OperationTypes(f.lines[l].op);
  }

  lemma InvLineIsInvert(f: BrisFile, d: Dag, l: nat)
    requires f.WellNumbered() && ReadAs(f, d) && l < |f.lines| && NegatesToOutput(f, l)
    ensures var w, start := f.lines[l].out, f.wireCount - f.outputCount;
            d.IsInvert(w) && d.parents[w] == f.lines[l].inputs && start <= w < start + |d.outputs|
              && d.outputs[w - start] == w
  {
  }

  lemma ApartIsFeedersAreNotOutputs(f: BrisFile, d: Dag)
    requires f.WellNumbered() && !f.IsRejected() && ReadAs(f, d)
    ensures d.Shaped() && (OutputsApart(f) <==> FeedersAreNotOutputs(d))
  {
    ReadAsLinked(f, d);
    hide BrisFile.WellNumbered, BrisFile.IsRejected, ReadAs, Dag.Shaped, LinkedAt;
    var start := f.wireCount - f.outputCount;
    if OutputsApart(f) {
      forall i: nat, j: nat | i < |d.outputs| && j < |d.outputs| && d.IsInvert(d.outputs[i])
        ensures d.outputs[j] != d.parents[d.outputs[i]][0]
      {
        var l := InvertIsInvLine(f, d, d.outputs[i]);
      }
    } else {
      var l :| 0 <= l < |f.lines| && NegatesToOutput(f, l) && IsOutputWire(f, f.lines[l].inputs[0]);
      InvLineIsInvert(f, d, l);
      var p := f.lines[l].inputs[0];
      assert d.outputs[p - start] == p == d.parents[d.outputs[f.lines[l].out - start]][0];
    }
  }

  ghost function AllNodes(d: Dag): set<nat> {
    Range(0, d.Size())
  }

  /** Every gate of a file's graph is reached, and none has a refused type. */
  lemma UnreducedIsReached(f: BrisFile, d: Dag, rank: seq<nat>)
    requires f.WellNumbered() && !f.IsRejected() && ReadAs(f, d) && d.Ranked(rank)
    ensures Reached(d) == AllNodes(d) && !Linearizer.HasRefused(d, AllNodes(d))
    ensures forall i :: 0 <= i < |d.outputs| ==> d.outputs[i] in AllNodes(d)
  {
    hide Reached, Dag.Ranked;
    forall w: nat | w < d.Size() && d.IsGate(w)
      ensures ChildLinked(d, w) && !IsRefused(d.types[w])
    {
      GateIsLive(f, d, w);
    }
    LinkedIsAllReached(d, AllNodes(d), rank);
  }

  lemma GateIsLive(f: BrisFile, d: Dag, w: nat)
    requires f.WellNumbered() && !f.IsRejected() && ReadAs(f, d) && d.IsGate(w)
    ensures ChildLinked(d, w) && !IsRefused(d.types[w])
  {
    assert LinkedAt(d, d.parents[w][0]) && Feeds(d.parents[w], d.parents[w][0]) > 0;
    ChildIsListed(d, d.parents[w][0], w);
    hide LinkedAt, Dag.Shaped;
    EveryGateHasItsLine(f, w);
    var l :| 0 <= l < |f.lines| && f.lines[l].out == w;
    assert !BrisFile.Rejects(f.lines[l]) && d.types[f.lines[l].out] == TypeOf(f.lines[l].op);
  }

  /** A linearisation has one gate per live gate. */
  lemma LinearisationSize(d: Dag, live: set<nat>, order: seq<nat>, gates: seq<Gate>, kept: set<nat>)
    requires d.Shaped() && IsLinearisation(d, live, order, gates)
    requires kept <= live && forall w :: w in live ==> (d.IsGate(w) <==> w in kept)
    ensures |gates| == |kept|
    ensures forall k :: 0 <= k < |gates| ==> order[k] in kept && gates[k].gt == d.types[order[k]]
  {
    DistinctSize(order);
    assert Elements(order) == kept;
  }

  lemma GateWires(f: BrisFile, d: Dag)
    requires f.WellNumbered() && ReadAs(f, d)
    ensures |Range(f.Inputs(), |f.lines|)| == |f.lines|
    ensures Range(f.Inputs(), |f.lines|) <= AllNodes(d)
    ensures forall w :: w in AllNodes(d) ==> (d.IsGate(w) <==> w in Range(f.Inputs(), |f.lines|))
  {
  }

  lemma ReducedIsReached(d: Dag, order: seq<nat>, gates: seq<Gate>)
    requires d.Shaped() && Emittable(d)
    ensures !Linearizer.HasRefused(d, Reached(d))
    ensures forall i :: 0 <= i < |d.outputs| ==> d.outputs[i] in Reached(d)
    ensures IsLinearisation(d, Reached(d), order, gates) ==>
              |gates| == |NonInvertGates(d)| && forall k :: 0 <= k < |gates| ==> HasHalfGate(gates[k].gt)
  {
    hide Reached;
    if IsLinearisation(d, Reached(d), order, gates) {
      hide HasHalfGate;
      LinearisationSize(d, Kept(d), order, gates, NonInvertGates(d));
    }
  }

  lemma SameOutputsAt(d0: Dag, d: Dag, rank: seq<nat>, x: seq<bool>, k: nat)
    requires d0.Shaped() && d.Shaped() && d0.Ranked(rank) && d.Ranked(rank)
    requires d.Inputs() == d0.Inputs() == |x| && |d0.outputs| == |d.outputs| && k < |d.outputs|
    requires SameOutputs(d0, d, rank)
    ensures OutputSame(d0, d, rank, x, k)
  {
  }

  /** The circuit computes the file's outputs on every input. */
  ghost predicate Computes(f: BrisFile, c: Netlist)
    requires f.WellNumbered() && c.WellFormed() && c.Inputs() == f.Inputs()
  {
    forall x, v :: FileValuation(f, x, v) ==> OutputBits(c, x) == v[f.wireCount - f.outputCount..]
  }

  /** The circuit emitted from graph d. */
  ghost predicate EmittedFrom(c: Netlist, d: Dag)
    requires d.Shaped() && c.WellFormed() && c.Inputs() == d.Inputs()
  {
    forall y, u :: IsValuation(d, y, u) ==> OutputBits(c, y) == OutputNodeBits(d, u)
  }

  /** On one input, two graphs' outputs and what they mean. */
  lemma OutputsMeet(a: Dag, b: Dag, rank: seq<nat>, x: seq<bool>, u: seq<bool>, v: seq<bool>, k: nat)
    requires a.Shaped() && b.Shaped() && a.Ranked(rank) && b.Ranked(rank) && a.Inputs() == b.Inputs()
    requires |a.outputs| == |b.outputs|
    requires IsValuation(a, x, u) && IsValuation(b, x, v) && k < |a.outputs|
    ensures |x| == a.Inputs() && a.outputs[k] < |u| && b.outputs[k] < |v|
    ensures OutputSame(a, b, rank, x, k) <==> u[a.outputs[k]] == v[b.outputs[k]]
  {
    ShapedSizes(a, 0);
    ShapedSizes(b, 0);
    ValuationSizes(a, x, u);
    ValuationSizes(b, x, v);
    InputSize(a, x, u);
    hide NodeBit, Dag.Shaped, Dag.Ranked, IsValuation;
    ValuationIsUnique(a, rank, x, u, a.outputs[k]);
    ValuationIsUnique(b, rank, x, v, b.outputs[k]);
  }

  lemma InputSize(d: Dag, x: seq<bool>, v: seq<bool>)
    requires d.Shaped() && IsValuation(d, x, v)
    ensures |x| == d.Inputs()
  {
  }

  lemma SameOutputBits(a: Dag, b: Dag, rank: seq<nat>, x: seq<bool>, u: seq<bool>, v: seq<bool>)
    requires a.Shaped() && b.Shaped() && a.Ranked(rank) && b.Ranked(rank) && a.Inputs() == b.Inputs()
    requires |a.outputs| == |b.outputs|
    requires IsValuation(a, x, u) && IsValuation(b, x, v) && SameOutputs(a, b, rank)
    ensures OutputNodeBits(a, u) == OutputNodeBits(b, v)
  {
    ShapedSizes(a, 0);
    ShapedSizes(b, 0);
    ValuationSizes(a, x, u);
    ValuationSizes(b, x, v);
    InputSize(a, x, u);
    hide NodeBit, Dag.Shaped, Dag.Ranked, IsValuation, SameOutputs, OutputSame;
    forall k: nat | k < |a.outputs|
      ensures u[a.outputs[k]] == v[b.outputs[k]]
    {
      SameOutputsAt(a, b, rank, x, k);
      OutputsMeet(a, b, rank, x, u, v, k);
    }
  }

  /** The outputs of a graph that means the file are the bits of the file's output wires. */
  lemma OutputsOfFile(f: BrisFile, d: Dag, v: seq<bool>)
    requires f.WellNumbered() && Means(d, f) && |v| == f.wireCount
    ensures OutputNodeBits(d, v) == v[f.wireCount - f.outputCount..]
  {
    var start := f.wireCount - f.outputCount;
    assert |v[start..]| == |d.outputs|;
    forall k | 0 <= k < |d.outputs|
      ensures OutputNodeBits(d, v)[k] == v[start..][k]
    {
      assert d.outputs[k] == start + k;
    }
  }

  /** The circuit built from a graph with the outputs of one that means the file computes what the file says. */
  lemma CompiledComputes(f: BrisFile, d0: Dag, d: Dag, rank: seq<nat>, c: Netlist)
    requires f.WellNumbered() && Means(d0, f) && d0.Ranked(rank)
    requires d.Shaped() && d.Ranked(rank) && d.Inputs() == d0.Inputs() && |d.outputs| == |d0.outputs|
    requires SameOutputs(d0, d, rank)
    requires c.WellFormed() && c.Inputs() == d.Inputs() && EmittedFrom(c, d)
    ensures c.Inputs() == f.Inputs() && Computes(f, c)
  {
    hide Netlist.WellFormed, Dag.Shaped, Dag.Ranked, SameOutputs, IsValuation, OutputNodeBits, OutputBits, LineHolds,
         NodeBit;
    forall x, v | FileValuation(f, x, v)
      ensures OutputBits(c, x) == v[f.wireCount - f.outputCount..]
    {
      assert IsValuation(d0, x, v);
      ValuationSizes(d0, x, v);
      InputSize(d0, x, v);
      var u := Valuation(d, rank, x);
      SameOutputBits(d0, d, rank, x, v, u);
      OutputsOfFile(f, d0, v);
    }
  }

  lemma SameOutputsItself(d: Dag, rank: seq<nat>)
    requires d.Shaped() && d.Ranked(rank)
    ensures SameOutputs(d, d, rank)
  {
  }

  lemma ReadFacts(f: BrisFile, d: Dag)
    requires f.WellNumbered() && ReadAs(f, d)
    ensures d.Shaped() && d.in0 == f.in0 && d.in1 == f.in1 && |d.outputs| == f.outputCount && d.Size() == f.wireCount
  {
  }

  /** The converse: a circuit that computes the file's outputs was built from a graph with the original's outputs. */
  lemma ComputesMeansSame(f: BrisFile, d0: Dag, d: Dag, rank: seq<nat>, c: Netlist)
    requires f.WellNumbered() && Means(d0, f) && d0.Ranked(rank)
    requires d.Shaped() && d.Ranked(rank) && d.Inputs() == d0.Inputs() && |d.outputs| == |d0.outputs|
    requires c.WellFormed() && c.Inputs() == d.Inputs() == f.Inputs() && Computes(f, c) && EmittedFrom(c, d)
    ensures SameOutputs(d0, d, rank)
  {
    hide Netlist.WellFormed, NodeBit, Dag.Ranked, Dag.Shaped, IsValuation, FileValuation, BrisFile.WellNumbered,
         OutputBits, OutputSame;
    forall x: seq<bool>, k: nat | |x| == d0.Inputs() && k < |d0.outputs|
      ensures OutputSame(d0, d, rank, x, k)
    {
      var v, u := Valuation(d0, rank, x), Valuation(d, rank, x);
      ValuationSizes(d0, x, v);
      ValuationSizes(d, x, u);
      ShapedSizes(d, 0);
      OutputsOfFile(f, d0, v);
      OutputsMeet(d0, d, rank, x, v, u, k);
      assert OutputNodeBits(d0, v) == OutputNodeBits(d, u);
      assert OutputNodeBits(d0, v)[k] == OutputNodeBits(d, u)[k];
    }
  }

  /** Two files say the same exactly if graphs that mean them have the same outputs. */
  lemma SameFileIff(f: BrisFile, g: BrisFile, a: Dag, b: Dag, rank: seq<nat>)
    requires f.WellNumbered() && g.WellNumbered() && g.wireCount == f.wireCount && g.outputCount == f.outputCount
    requires g.Inputs() == f.Inputs()
    requires Means(a, f) && Means(b, g) && a.Ranked(rank) && b.Ranked(rank)
    ensures SameFile(f, g) <==> SameOutputs(a, b, rank)
  {
    hide NodeBit, Dag.Ranked, Dag.Shaped, IsValuation, LineHolds, OutputSame;
    var start := f.wireCount - f.outputCount;
    if SameFile(f, g) {
      forall x: seq<bool>, k: nat | |x| == a.Inputs() && k < |a.outputs|
        ensures OutputSame(a, b, rank, x, k)
      {
        var v, u := Valuation(a, rank, x), Valuation(b, rank, x);
        ValuationSizes(a, x, v);
        ValuationSizes(b, x, u);
        OutputsMeet(a, b, rank, x, v, u, k);
        assert v[start..][k] == u[start..][k];
      }
    }
    if SameOutputs(a, b, rank) {
      forall x, v, u | FileValuation(f, x, v) && FileValuation(g, x, u)
        ensures v[start..] == u[start..]
      {
        assert IsValuation(a, x, v) && IsValuation(b, x, u);
        ValuationSizes(a, x, v);
        ValuationSizes(b, x, u);
        SameOutputBits(a, b, rank, x, v, u);
        OutputsOfFile(f, a, v);
        OutputsOfFile(g, b, u);
      }
    }
  }

  /**
    The circuit computes the file if and only if no INV line joins two output wires and misreading changes no output.
   */
  lemma ReducedComputesIff(f: BrisFile, d0: Dag, d: Dag, rank: seq<nat>, c: Netlist)
    requires f.WellNumbered() && !f.IsRejected() && ReadAs(f, d0) && d0.Ranked(rank)
    requires Inverts.RemoveInvertGates(d0) == Done(d) && d.Ranked(rank)
    requires c.WellFormed() && c.Inputs() == d.Inputs() == d0.Inputs() == f.Inputs() && EmittedFrom(c, d)
    ensures OutputsApart(f) ==> Computes(Misread(f), c)
    ensures Computes(f, c) <==> OutputsApart(f) && SameFile(f, Misread(f))
  {
    hide Netlist.WellFormed, Dag.Shaped, Dag.Ranked, SameOutputs, EmittedFrom, Inverts.RemoveInvertGates, SameFile,
         Means, Misread, Twisted, Feeders, Computes, OutputsApart, ReadAs, BrisFile.WellNumbered, BrisFile.IsRejected,
         FeedersAreNotOutputs, Wired, Regular;
    ReadFacts(f, d0);
    FileIsRegular(f, d0, rank);
    RegularIsWired(d0);
    ApartIsFeedersAreNotOutputs(f, d0);
    SameOutputsIff(d0, rank);
    ReadMeans(f, d0);
    TwistedMeansMisread(f, d0);
    var t := Twisted(d0, Feeders(d0));
    SameFileIff(f, Misread(f), d0, t, rank);
    if OutputsApart(f) {
      RemoveInvertGatesComputes(d0, rank);
      CompiledComputes(Misread(f), t, d, rank, c);
    }
    if OutputsApart(f) && SameFile(f, Misread(f)) {
      CompiledComputes(f, d0, d, rank, c);
    }
    if Computes(f, c) {
      ComputesMeansSame(f, d0, d, rank, c);
    }
  }

  lemma ApartNeverRunsOff(f: BrisFile, d: Dag, rank: seq<nat>)
    requires f.WellNumbered() && !f.IsRejected() && ReadAs(f, d) && d.Ranked(rank) && OutputsApart(f)
    ensures !Inverts.RemoveInvertGates(d).Undefined?
  {
    ApartIsFeedersAreNotOutputs(f, d);
    FileIsRegular(f, d, rank);
    RegularIsWired(d);
    hide Inverts.RemoveInvertGates, Wired;
    NeverRunsOff(d, rank);
  }

  /** Whether removal rids the graph of INV gates depends on the file alone, not on the order of child lists. */
  lemma SameReducible(f: BrisFile, a: Dag, b: Dag)
    requires f.WellNumbered() && ReadAs(f, a) && ReadAs(f, b)
    ensures Reducible(a) ==> Reducible(b)
  {
    forall w: nat | w < f.wireCount
      ensures a.parents[w] == b.parents[w]
    {
      if w >= f.Inputs() {
        EveryGateHasItsLine(f, w);
      }
    }
    assert a.parents == b.parents && a.outputs == b.outputs;
    hide ReadAs, Dag.Shaped, BrisFile.WellNumbered;
    if Reducible(a) {
      forall j | 0 <= j < |b.outputs|
        ensures StandsAlone(b, j)
      {
        assert StandsAlone(a, j);
      }
      forall w: nat, i: nat | IsBinary(b, w) && i < 2
        ensures PlainOperand(b, w, i)
      {
        assert PlainOperand(a, w, i);
      }
    }
  }

  /** A circuit of half gates only, with as many gates as there are two-operand gates, has exactly those. */
  lemma HalfGatesAreKept(d: Dag, order: seq<nat>, gates: seq<Gate>)
    requires d.Shaped() && IsLinearisation(d, Reached(d), order, gates) && |gates| == |NonInvertGates(d)|
    requires forall k :: 0 <= k < |gates| ==> HasHalfGate(gates[k].gt)
    requires forall i :: 0 <= i < |d.outputs| ==> d.outputs[i] in Reached(d)
    ensures Emittable(d)
  {
    var live := Reached(d);
    ReachedRange(d);
    hide Reached;
    ghost var kept := set w | w in live && d.IsGate(w);
    LinearisationSize(d, live, order, gates, kept);
    forall w: nat | w in kept
      ensures w in NonInvertGates(d) && HasHalfGate(d.types[w])
    {
      var k :| 0 <= k < |order| && order[k] == w;
      assert HasHalfGate(gates[k].gt);
    }
    EqualWhenSameSize(kept, NonInvertGates(d));
  }

  lemma ReachedRange(d: Dag)
    requires d.Shaped()
    ensures forall w: nat :: w in Reached(d) ==> w < d.Size()
    ensures forall w: nat :: w < d.Inputs() ==> w in Reached(d)
  {
    ShapedSizes(d, 0);
    hide Dag.Shaped;
    forall w: nat | w < d.Inputs()
      ensures w in Reached(d)
    {
      InputIsReached(d, w);
    }
  }

  /** Removal keeps every gate's number of operands. */
  lemma SameNonInvertGates(d0: Dag)
    requires d0.Shaped() && Inverts.RemoveInvertGates(d0).Done?
    ensures NonInvertGates(Inverts.RemoveInvertGates(d0).d) == NonInvertGates(d0)
  {
    hide Dag.Shaped, Inverts.RemoveInvertGates, DropOutputInverts, ReduceInverts;
    LoopsReturn(d0);
    ShapedSizes(d0, 0);
    var e, d := DropOutputInverts(d0, |d0.outputs|).d, Inverts.RemoveInvertGates(d0).d;
    ShapedSizes(d, 0);
    forall w: nat | w < d0.Size()
      ensures |d.parents[w]| == |d0.parents[w]|
    {
      AritiesStay(e, e.Size() - e.Inputs(), w);
    }
  }

  /** A returning run that leaves half gates only was given a reducible file. */
  lemma HalfGatesMeanReducible(f: BrisFile, d0: Dag, rank: seq<nat>, d: Dag, order: seq<nat>, gates: seq<Gate>)
    requires f.WellNumbered() && ReadAs(f, d0) && d0.Shaped() && Regular(d0) && d0.Ranked(rank)
    requires Inverts.RemoveInvertGates(d0) == Done(d)
    requires IsLinearisation(d, Reached(d), order, gates) && |gates| == |NonInvertGates(d0)|
    requires forall k :: 0 <= k < |gates| ==> HasHalfGate(gates[k].gt)
    requires forall i :: 0 <= i < |d.outputs| ==> d.outputs[i] in Reached(d)
    ensures FileReducible(f)
  {
    hide Dag.Shaped, Dag.Ranked, Inverts.RemoveInvertGates, IsLinearisation, Reached, NonInvertGates, HasHalfGate,
         Emittable, Reducible, Regular, LinkedAt, BrisFile.WellNumbered;
    SameNonInvertGates(d0);
    HalfGatesAreKept(d, order, gates);
    ReducibleIff(d0, rank);
    forall e | ReadAs(f, e)
      ensures Reducible(e)
    {
      SameReducible(f, d0, e);
    }
  }

  /**
    Circuit::readBris with reduce set. Whenever it returns, the circuit has one gate per XOR or AND line. It computes
    what the file says exactly if no INV line leads from one output wire to another and reading certain AND lines as INV
    lines changes no output; without such an INV line it computes the file so read, and never goes past a child list. It
    returns with half gates only exactly if no line is malformed and the file is reducible.
   */
  method ReadReduced(f: BrisFile, cir: Circuit, ghost rank: seq<nat>) returns (end: Ending)
    requires f.WellNumbered() && FileRanked(f, rank)
    requires cir.gates == [] && cir.outputs == [] && cir.nonXorGateCount == cir.outputCount == 0
    modifies cir
    ensures end == Returned ==> !f.IsRejected() && cir.Valid() && cir.inputs == (f.in0, f.in1)
    ensures end == Returned && OutputsApart(f) ==> Computes(Misread(f), cir.View())
    ensures end == Returned ==> (Computes(f, cir.View()) <==> OutputsApart(f) && SameFile(f, Misread(f)))
    ensures end == Returned ==> |cir.gates| == NonInvertCount(f.lines, |f.lines|)
    ensures f.IsRejected() ==> end == if f.Overruns() then RanOff else Threw
    ensures end == RanOff ==> f.Overruns() || !OutputsApart(f)
    ensures (end == Returned && AllHalfGates(cir.View())) <==> !f.IsRejected() && FileReducible(f)
  {
    hide BrisFile.IsRejected, BrisFile.Overruns, FileRanked, Dag.Shaped, Dag.Ranked, ReadAs, Regular, Reducible,
         Emittable, Inverts.RemoveInvertGates, Linearizer.HasRefused, IsLinearisation, OutputBits, OutputNodeBits,
         IsValuation, SameOutputs, Netlist.WellFormed, Computes, NonInvertGates, HasHalfGate, NonInvertCount,
         Netlist.Ordered, BrisFile.WellNumbered, Reached, OutputsApart, SameFile, Misread, FileReducible, AllHalfGates;
    var dag := new DagCircuit();
    end := dag.ReadBris(f);
    if end != Returned { return; }
    ghost var d0 := dag.View();
    ReadFacts(f, d0);
    GraphIsRanked(f, d0, rank);
    FileIsRegular(f, d0, rank);
    if FileReducible(f) { FileReduces(f, d0, rank); }
    if OutputsApart(f) { ApartNeverRunsOff(f, d0, rank); }
    end := dag.RemoveInvertGates();
    if end != Returned { return; }
    ghost var d := dag.View();
    RankSurvives(d0, rank);
    SizesInRange(d);
    if FileReducible(f) { ReducedIsReached(d, [], []); }
    var built, order := ToCircuit.ToCircuit(dag.View(), cir, rank);
    if !built { return Threw; }
    if FileReducible(f) { HalfGatesEmitted(d, order, cir.View()); }
    ReducedComputesIff(f, d0, d, rank, cir.View());
    if |cir.gates| != dag.nonInvertGateCount { return Threw; }
    if AllHalfGates(cir.View()) {
      AllHalf(cir.View());
      HalfGatesMeanReducible(f, d0, rank, d, order, cir.gates);
    }
    return Returned;
  }

  lemma AllHalf(c: Netlist)
    ensures AllHalfGates(c) <==> forall k :: 0 <= k < |c.gates| ==> HasHalfGate(c.gates[k].gt)
  {
  }

  lemma FileReduces(f: BrisFile, d0: Dag, rank: seq<nat>)
    requires f.WellNumbered() && ReadAs(f, d0) && d0.Shaped() && Regular(d0) && d0.Ranked(rank) && FileReducible(f)
    ensures Inverts.RemoveInvertGates(d0).Done? && Emittable(Inverts.RemoveInvertGates(d0).d)
    ensures NonInvertGates(Inverts.RemoveInvertGates(d0).d) == NonInvertGates(d0)
  {
    hide Reducible, Emittable, Inverts.RemoveInvertGates, ReadAs, Regular, Dag.Shaped, Dag.Ranked;
    ReducibleBecomesEmittable(d0, rank);
  }

  lemma HalfGatesEmitted(d: Dag, order: seq<nat>, c: Netlist)
    requires d.Shaped() && Emittable(d) && IsLinearisation(d, Reached(d), order, c.gates)
    ensures |c.gates| == |NonInvertGates(d)| && AllHalfGates(c)
  {
    hide Reached, Emittable, NonInvertGates, HasHalfGate, Dag.Shaped, IsLinearisation;
    ReducedIsReached(d, order, c.gates);
  }

  /** Circuit::readBris without reducing: one gate per line. */
  method ReadPlain(f: BrisFile, cir: Circuit, ghost rank: seq<nat>) returns (end: Ending)
    requires f.WellNumbered() && FileRanked(f, rank)
    requires cir.gates == [] && cir.outputs == [] && cir.nonXorGateCount == cir.outputCount == 0
    modifies cir
    ensures end == if !f.IsRejected() then Returned else if f.Overruns() then RanOff else Threw
    ensures end == Returned ==>
              cir.Valid() && cir.inputs == (f.in0, f.in1) && Computes(f, cir.View()) && |cir.gates| == |f.lines|
  {
    hide BrisFile.IsRejected, BrisFile.Overruns, FileRanked, Dag.Shaped, Dag.Ranked, ReadAs, Means, EmittedFrom,
         Reached, Linearizer.HasRefused, IsLinearisation, OutputBits, OutputNodeBits, IsValuation, SameOutputs,
         Netlist.WellFormed, Computes, NonInvertCount, Netlist.Ordered, BrisFile.WellNumbered, AllNodes, Range;
    var dag := new DagCircuit();
    end := dag.ReadBris(f);
    if end != Returned { return; }
    ghost var d := dag.View();
    ReadFacts(f, d);
    GraphIsRanked(f, d, rank);
    UnreducedIsReached(f, d, rank);
    var built, order := ToCircuit.ToCircuit(dag.View(), cir, rank);
    GateWires(f, d);
    LinearisationSize(d, AllNodes(d), order, cir.gates, Range(f.Inputs(), |f.lines|));
    SameOutputsItself(d, rank);
    ReadMeans(f, d);
    Emitted(cir.View(), d);
    CompiledComputes(f, d, d, rank, cir.View());
    end := if |cir.gates| == |f.lines| then Returned else Threw;
  }

  lemma Emitted(c: Netlist, d: Dag)
    requires d.Shaped() && c.WellFormed() && c.Inputs() == d.Inputs()
    requires forall y, u :: IsValuation(d, y, u) ==> OutputBits(c, y) == OutputNodeBits(d, u)
    ensures EmittedFrom(c, d)
  {
    hide IsValuation, OutputBits, OutputNodeBits;
  }
}
