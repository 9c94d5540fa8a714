/** Bristol circuit files, as header numbers and gate lines, and what the graph read from one is. */
module BristolFiles {
  import opened Counting
  import opened Gates
  import opened Dags
  import opened Linearize
  import opened InvertValues
  import opened Reduction

  datatype Operation = XorOp | AndOp | InvOp | OtherOp

  datatype GateLine = GateLine(inputs: seq<nat>, fanOut: nat, out: nat, op: Operation)

  datatype BrisFile = BrisFile(wireCount: nat, in0: nat, in1: nat, outputCount: nat, lines: seq<GateLine>) {

    function Inputs(): nat {
      in0 + in1
    }

    /** Each gate wire is defined by one line, wires are in range, and the known gates have their number of inputs. */
    ghost predicate WellNumbered() {
      && wireCount == Inputs() + |lines| && outputCount <= |lines|
      && (forall k :: 0 <= k < |lines| ==> Inputs() <= lines[k].out < wireCount)
      && (forall k, l :: 0 <= k < l < |lines| ==> lines[k].out != lines[l].out)
      && (forall k, j :: 0 <= k < |lines| && 0 <= j < |lines[k].inputs| ==> lines[k].inputs[j] < wireCount)
      && (forall k :: 0 <= k < |lines| ==> Arity(lines[k]))
    }

    static predicate Arity(line: GateLine) {
      (line.op.XorOp? || line.op.AndOp? ==> |line.inputs| == 2) && (line.op.InvOp? ==> |line.inputs| == 1)
    }

    /** The lines that make reading throw. */
    static predicate Rejects(line: GateLine) {
      |line.inputs| > 2 || line.fanOut != 1 || line.op.OtherOp?
    }

    ghost predicate AnyRejected(n: nat)
      requires n <= |lines|
    {
      exists k :: 0 <= k < n && Rejects(lines[k])
    }

    ghost predicate IsRejected() {
      AnyRejected(|lines|)
    }

    /** The first rejected line has more inputs than the array that its inputs are read into. */
    ghost predicate Overruns() {
      exists k :: 0 <= k < |lines| && TooWide(lines[k]) && !AnyRejected(k)
    }

    static predicate TooWide(line: GateLine) {
      |line.inputs| > 2
    }
  }

  /** Accepted are the files whose lines are XOR, AND and INV lines with one output wire and at most two input wires. */
  lemma AcceptedLines(f: BrisFile)
    ensures !f.IsRejected() <==>
            forall k :: 0 <= k < |f.lines| ==>
              |f.lines[k].inputs| <= 2 && f.lines[k].fanOut == 1 &&
              (f.lines[k].op == XorOp || f.lines[k].op == AndOp || f.lines[k].op == InvOp)
  {
    forall k | 0 <= k < |f.lines|
      ensures BrisFile.Rejects(f.lines[k]) <==>
              !(|f.lines[k].inputs| <= 2 && f.lines[k].fanOut == 1 &&
                (f.lines[k].op == XorOp || f.lines[k].op == AndOp || f.lines[k].op == InvOp))
    {
    }
  }

  /** The lines that are not INV lines, and how many of the first n they are. */
  ghost function NonInvertLines(lines: seq<GateLine>, n: nat): (r: set<nat>)
    requires n <= |lines|
    ensures forall l: nat :: l in r <==> l < n && lines[l].op != InvOp
  {
    set l: nat | l < n && lines[l].op != InvOp
  }

  lemma {:induction false} NonInvertCountIsSize(lines: seq<GateLine>, n: nat)
    requires n <= |lines|
    ensures NonInvertCount(lines, n) == |NonInvertLines(lines, n)|
  {
    if n == 0 {
      assert NonInvertLines(lines, n) == {};
    } else {
      NonInvertCountIsSize(lines, n - 1);
      assert NonInvertLines(lines, n) ==
        if lines[n - 1].op == InvOp then NonInvertLines(lines, n - 1) else NonInvertLines(lines, n - 1) + {n - 1};
    }
  }

  /** How many of the first n lines are not INV lines. */
  function NonInvertCount(lines: seq<GateLine>, n: nat): nat
    requires n <= |lines|
  {
    if n == 0 then 0 else NonInvertCount(lines, n - 1) + if lines[n - 1].op.InvOp? then 0 else 1
  }

  function TypeOf(op: Operation): GateType {
    match op
    case XorOp => XOR
    case AndOp => AND
    case InvOp => NA
    case OtherOp => A
  }

  /** Each child list has one entry per operand that the node feeds. */
  ghost predicate LinkedLists(parents: seq<seq<nat>>, children: seq<seq<nat>>)
    requires |parents| == |children|
  {
    && (forall q, i :: 0 <= q < |children| && 0 <= i < |children[q]| ==> children[q][i] < |parents|)
    && (forall q: nat, w: nat :: q < |children| && w < |parents| ==> multiset(children[q])[w] == Feeds(parents[w], q))
  }

  /** The nodes of the first k lines carry what the lines say, and the other gates are still blank. */
  ghost predicate LinesRead(f: BrisFile, k: nat, types: seq<GateType>, parents: seq<seq<nat>>, outputs: seq<nat>)
    requires f.WellNumbered() && k <= |f.lines| && |types| == |parents| == f.wireCount
  {
    && |outputs| == f.outputCount
    && (forall l :: 0 <= l < k ==> LineRead(f, l, types, parents, outputs))
    && (forall l :: k <= l < |f.lines| ==> parents[f.lines[l].out] == [])
    && (forall i :: 0 <= i < f.Inputs() ==> parents[i] == [])
  }

  ghost predicate LineRead(f: BrisFile, l: nat, types: seq<GateType>, parents: seq<seq<nat>>, outputs: seq<nat>)
    requires f.WellNumbered() && l < |f.lines| && |types| == |parents| == f.wireCount && |outputs| == f.outputCount
  {
    var line, start := f.lines[l], f.wireCount - f.outputCount;
    && types[line.out] == TypeOf(line.op) && parents[line.out] == line.inputs
    && (line.out >= start ==> outputs[line.out - start] == line.out)
  }

  /** d is the graph of the file, with its lists linked both ways. */
  ghost predicate ReadAs(f: BrisFile, d: Dag)
    requires f.WellNumbered()
  {
    && d.Shaped() && d.in0 == f.in0 && d.in1 == f.in1 && d.Size() == f.wireCount
    && (forall l :: 0 <= l < |f.lines| ==>
        d.types[f.lines[l].out] == TypeOf(f.lines[l].op) && d.parents[f.lines[l].out] == f.lines[l].inputs)
    && (forall p :: 0 <= p < d.Size() ==> LinkedAt(d, p))
    && |d.outputs| == f.outputCount && forall j :: 0 <= j < f.outputCount ==>
       d.outputs[j] == f.wireCount - f.outputCount + j
  }

  lemma StartLists(f: BrisFile)
    requires f.WellNumbered()
    ensures LinkedLists(seq(f.wireCount, _ => []), seq(f.wireCount, _ => []))
  {
  }

  lemma StartLines(f: BrisFile, types: seq<GateType>, outputs: seq<nat>)
    requires f.WellNumbered() && |types| == f.wireCount && |outputs| == f.outputCount
    ensures LinesRead(f, 0, types, seq(f.wireCount, _ => []), outputs) && !f.AnyRejected(0)
    ensures Binaries(seq(f.wireCount, _ => [])) == {}
  {
  }

  lemma RejectedSoFar(f: BrisFile, k: nat)
    requires k < |f.lines|
    ensures f.AnyRejected(k + 1) <==> f.AnyRejected(k) || BrisFile.Rejects(f.lines[k])
    ensures f.AnyRejected(k + 1) ==> f.IsRejected()
  {
  }

  lemma FirstRejected(f: BrisFile, k: nat)
    requires k < |f.lines| && !f.AnyRejected(k) && BrisFile.Rejects(f.lines[k])
    ensures f.IsRejected() && (f.Overruns() <==> BrisFile.TooWide(f.lines[k]))
  {
    RejectedSoFar(f, k);
    if j :| 0 <= j < |f.lines| && BrisFile.TooWide(f.lines[j]) && !f.AnyRejected(j) {
      assert BrisFile.Rejects(f.lines[j]);
    }
  }

  /** The nodes with two parents. */
  ghost function Binaries(parents: seq<seq<nat>>): set<nat> {
    set w: nat | w < |parents| && |parents[w]| == 2
  }

  /** Reading line k, when it is accepted. */
  lemma LineJoins(f: BrisFile, k: nat, types: seq<GateType>, parents: seq<seq<nat>>, outputs: seq<nat>,
                  outputs': seq<nat>)
    requires f.WellNumbered() && k < |f.lines| && |types| == |parents| == f.wireCount
    requires |outputs| == |outputs'| == f.outputCount
    requires LinesRead(f, k, types, parents, outputs)
    requires var line, start := f.lines[k], f.wireCount - f.outputCount;
             outputs' == if line.out >= start then outputs[line.out - start := line.out] else outputs
    ensures var line := f.lines[k];
            && LinesRead(f, k + 1, types[line.out := TypeOf(line.op)], parents[line.out := line.inputs], outputs')
            && Binaries(parents[line.out := line.inputs]) ==
               Binaries(parents) + (if |line.inputs| == 2 then {line.out} else {})
            && line.out !in Binaries(parents)
  {
    var line := f.lines[k];
    var types', parents' := types[line.out := TypeOf(line.op)], parents[line.out := line.inputs];
    forall l | 0 <= l < k + 1
      ensures LineRead(f, l, types', parents', outputs')
    {
      assert l < k ==> LineRead(f, l, types, parents, outputs) && f.lines[l].out != line.out;
    }
  }

  lemma EdgeKeepsLinks(parents: seq<seq<nat>>, children: seq<seq<nat>>, w: nat, p: nat)
    requires |parents| == |children| && w < |parents| && |parents[w]| < 2 && p < |children|
    requires LinkedLists(parents, children)
    ensures LinkedLists(parents[w := parents[w] + [p]], children[p := children[p] + [w]])
  {
  }

  lemma LineIsFresh(f: BrisFile, k: nat, types: seq<GateType>, parents: seq<seq<nat>>, outputs: seq<nat>)
    requires f.WellNumbered() && k < |f.lines| && |types| == |parents| == f.wireCount
    requires LinesRead(f, k, types, parents, outputs)
    ensures f.lines[k].out < f.wireCount && parents[f.lines[k].out] == [] && |outputs| == f.outputCount
  {
  }

  /** As many lines as gate wires, all different: every gate wire has its line. */
  lemma EveryGateHasItsLine(f: BrisFile, w: nat)
    requires f.WellNumbered() && f.Inputs() <= w < f.wireCount
    ensures exists l :: 0 <= l < |f.lines| && f.lines[l].out == w
  {
    var outs: seq<nat> := seq(|f.lines|, k requires 0 <= k < |f.lines| => f.lines[k].out);
    AllTaken(outs, f.Inputs(), |f.lines|);
    assert w in Range(f.Inputs(), |f.lines|);
    var l :| 0 <= l < |outs| && outs[l] == w;
  }

  lemma ChildrenAreGates(parents: seq<seq<nat>>, children: seq<seq<nat>>, q: nat, i: nat)
    requires |parents| == |children| && LinkedLists(parents, children) && q < |children| && i < |children[q]|
    requires children[q][i] < |parents|
    ensures parents[children[q][i]] != []
  {
    assert children[q][i] in multiset(children[q]);
  }

  lemma GateNode(f: BrisFile, types: seq<GateType>, parents: seq<seq<nat>>, outputs: seq<nat>, w: nat)
    requires f.WellNumbered() && !f.IsRejected() && |types| == |parents| == f.wireCount
    requires LinesRead(f, |f.lines|, types, parents, outputs) && f.Inputs() <= w < f.wireCount
    ensures 1 <= |parents[w]| <= 2 && (|parents[w]| == 1 ==> types[w] == NA)
    ensures forall i :: 0 <= i < |parents[w]| ==> parents[w][i] < f.wireCount
    ensures w >= f.wireCount - f.outputCount ==> outputs[w - (f.wireCount - f.outputCount)] == w
  {
    EveryGateHasItsLine(f, w);
    var l :| 0 <= l < |f.lines| && f.lines[l].out == w;
    assert LineRead(f, l, types, parents, outputs) && !BrisFile.Rejects(f.lines[l]) && BrisFile.Arity(f.lines[l]);
  }

  lemma AllLinesRead(f: BrisFile, d: Dag)
    requires f.WellNumbered() && !f.IsRejected() && d.in0 == f.in0 && d.in1 == f.in1
    requires |d.types| == |d.parents| == |d.children| == f.wireCount
    requires LinesRead(f, |f.lines|, d.types, d.parents, d.outputs) && LinkedLists(d.parents, d.children)
    ensures ReadAs(f, d) && NonInvertGates(d) == Binaries(d.parents)
  {
    forall w | f.Inputs() <= w < f.wireCount
      ensures 1 <= |d.parents[w]| <= 2 && (|d.parents[w]| == 1 ==> d.types[w] == NA)
      ensures forall i :: 0 <= i < |d.parents[w]| ==> d.parents[w][i] < f.wireCount
      ensures w >= f.wireCount - f.outputCount ==> d.outputs[w - (f.wireCount - f.outputCount)] == w
    {
      GateNode(f, d.types, d.parents, d.outputs, w);
    }
    forall q, i | 0 <= q < d.Size() && 0 <= i < |d.children[q]|
      ensures d.IsGate(d.children[q][i])
    {
      ChildrenAreGates(d.parents, d.children, q, i);
    }
    forall j | 0 <= j < f.outputCount
      ensures d.outputs[j] == f.wireCount - f.outputCount + j
    {
      GateNode(f, d.types, d.parents, d.outputs, f.wireCount - f.outputCount + j);
    }
    assert d.Shaped();
    forall l | 0 <= l < |f.lines|
      ensures d.types[f.lines[l].out] == TypeOf(f.lines[l].op) && d.parents[f.lines[l].out] == f.lines[l].inputs
    {
      assert LineRead(f, l, d.types, d.parents, d.outputs);
    }
  }
}
