/** The gate graph object: its INV-removing methods, each proved against the graph function it computes. */
module DagCircuits {
  import opened Gates
  import opened Dags
  import opened Inverts
  import opened InvertValues
  import opened Reduction
  import opened BristolFiles

  /** How a method ends: normally, by an exception, or by going past the end of a list or array. */
  datatype Ending = Returned | Threw | RanOff

  /** The method ended as the graph function says, with the object showing the new graph if it returned. */
  predicate EndsAs(end: Ending, view: Dag, o: Outcome) {
    match o
    case Done(d) => end == Returned && view == d
    case Thrown => end == Threw
    case Undefined => end == RanOff
  }

  class DagCircuit {
    var inputCounts: (nat, nat)
    var nonInvertGateCount: nat
    var types: seq<GateType>
    var parents: seq<seq<nat>>
    var children: seq<seq<nat>>
    var outputs: seq<nat>

    constructor ()
      ensures View() == Dag(0, 0, [], [], [], []) && nonInvertGateCount == 0
    {
      inputCounts, nonInvertGateCount := (0, 0), 0;
      types, parents, children, outputs := [], [], [], [];
    }

    function View(): Dag
      reads this
    {
      Dag(inputCounts.0, inputCounts.1, types, parents, children, outputs)
    }

    /** Reads the gate lines in order. */
    method ReadBris(f: BrisFile) returns (end: Ending)
      requires f.WellNumbered() && View() == Dag(0, 0, [], [], [], []) && nonInvertGateCount == 0
      modifies this
      ensures end == if !f.IsRejected() then Returned else if f.Overruns() then RanOff else Threw
      ensures end == Returned ==> ReadAs(f, View())
      ensures end == Returned ==> nonInvertGateCount == |NonInvertGates(View())| == NonInvertCount(f.lines, |f.lines|)
    {
      hide LinkedLists, LinesRead, Binaries, BrisFile.IsRejected, BrisFile.WellNumbered, BrisFile.Overruns, ReadAs,
           NonInvertGates;
      Clear(f);
      end := ReadLines(f);
      if end == Returned { AllLinesRead(f, View()); }
    }

    /** Sizes the node lists for the file, all nodes blank. */
    method Clear(f: BrisFile)
      requires f.WellNumbered() && nonInvertGateCount == 0
      modifies this
      ensures inputCounts == (f.in0, f.in1) && nonInvertGateCount == 0
      ensures |types| == |parents| == |children| == f.wireCount && LinkedLists(parents, children)
      ensures LinesRead(f, 0, types, parents, outputs) && |Binaries(parents)| == 0
    {
      inputCounts := (f.in0, f.in1);
      types, outputs := seq(f.wireCount, _ => A), seq(f.outputCount, _ => 0);
      parents, children := seq(f.wireCount, _ => []), seq(f.wireCount, _ => []);
      StartLists(f);
      StartLines(f, types, outputs);
    }

    /** The loop over the gate lines. */
    method ReadLines(f: BrisFile) returns (end: Ending)
      requires f.WellNumbered() && |types| == |parents| == |children| == f.wireCount && LinkedLists(parents, children)
      requires LinesRead(f, 0, types, parents, outputs) && |Binaries(parents)| == nonInvertGateCount == 0
      modifies `types, `parents, `children, `outputs, `nonInvertGateCount
      ensures end == if !f.IsRejected() then Returned else if f.Overruns() then RanOff else Threw
      ensures end == Returned ==> |types| == |parents| == |children| == f.wireCount && LinkedLists(parents, children)
      ensures end == Returned ==> LinesRead(f, |f.lines|, types, parents, outputs)
      ensures end == Returned ==> nonInvertGateCount == |Binaries(parents)| == NonInvertCount(f.lines, |f.lines|)
    {
      hide LinkedLists, LinesRead, Binaries, BrisFile.WellNumbered, BrisFile.Rejects, BrisFile.Overruns;
      for k := 0 to |f.lines|
        invariant !f.AnyRejected(k)
        invariant |types| == |parents| == |children| == f.wireCount && LinkedLists(parents, children)
        invariant LinesRead(f, k, types, parents, outputs)
        invariant nonInvertGateCount == |Binaries(parents)| == NonInvertCount(f.lines, k)
      {
        end := ReadLine(f, k);
        RejectedSoFar(f, k);
        if end != Returned {
          FirstRejected(f, k);
          return;
        }
      }
      end := Returned;
    }

    /** One gate line: its inputs, then the gate node's wire, output slot, edges and type. */
    method ReadLine(f: BrisFile, k: nat) returns (end: Ending)
      requires f.WellNumbered() && k < |f.lines|
      requires |types| == |parents| == |children| == f.wireCount && LinkedLists(parents, children)
      requires LinesRead(f, k, types, parents, outputs) && nonInvertGateCount == |Binaries(parents)|
      modifies `types, `parents, `children, `outputs, `nonInvertGateCount
      ensures end ==
        if !BrisFile.Rejects(f.lines[k]) then Returned else if BrisFile.TooWide(f.lines[k]) then RanOff else Threw
      ensures end == Returned ==> |types| == |parents| == |children| == f.wireCount && LinkedLists(parents, children)
      ensures end == Returned ==>
        LinesRead(f, k + 1, types, parents, outputs) && nonInvertGateCount == |Binaries(parents)|
      ensures end == Returned ==> nonInvertGateCount == old(nonInvertGateCount) + if f.lines[k].op.InvOp? then 0 else 1
    {
      hide LinkedLists, LinesRead, Binaries;
      ghost var ts, ps, outs := types, parents, outputs;
      var start, line := f.wireCount - f.outputCount, f.lines[k];
      var fits, inputs := ReadInputs(line);
      if !fits { return RanOff; }
      if line.fanOut != 1 { return Threw; }
      LineIsFresh(f, k, types, parents, outputs);
      if line.out >= start {
        outputs := outputs[line.out - start := line.out];
      }
      AddEdges(line.out, inputs);
      if line.op == XorOp {
        nonInvertGateCount := nonInvertGateCount + 1;
        types := types[line.out := XOR];
      } else if line.op == AndOp {
        nonInvertGateCount := nonInvertGateCount + 1;
        types := types[line.out := AND];
      } else if line.op == InvOp {
        types := types[line.out := NA];
      } else {
        return Threw;
      }
      LineJoins(f, k, ts, ps, outs, outputs);
      return Returned;
    }

    /** Reads a line's inputs into an array of two; false where that writes past its end. */
    static method ReadInputs(line: GateLine) returns (fits: bool, read: seq<nat>)
      ensures fits <==> !BrisFile.TooWide(line)
      ensures fits ==> read == line.inputs
    {
      var inputs := new nat[2];
      for j := 0 to |line.inputs|
        invariant j <= 2 && inputs[..j] == line.inputs[..j]
      {
        if j >= inputs.Length { return false, []; }
        inputs[j] := line.inputs[j];
        assert line.inputs[..j + 1] == line.inputs[..j] + [line.inputs[j]];
      }
      return true, inputs[..|line.inputs|];
    }

    /** The loop over a line's inputs: records each as a parent and the gate as its child. */
    method AddEdges(w: nat, inputs: seq<nat>)
      requires |parents| == |children| && w < |parents| && parents[w] == [] && |inputs| <= 2
      requires forall j :: 0 <= j < |inputs| ==> inputs[j] < |children|
      requires LinkedLists(parents, children)
      modifies `parents, `children
      ensures parents == old(parents)[w := inputs] && |children| == |old(children)|
      ensures LinkedLists(parents, children)
    {
      hide LinkedLists;
      for j := 0 to |inputs|
        invariant |children| == |parents| == |old(parents)| && parents == old(parents)[w := inputs[..j]]
        invariant LinkedLists(parents, children)
      {
        EdgeKeepsLinks(parents, children, w, inputs[j]);
        parents := parents[w := parents[w] + [inputs[j]]];
        children := children[inputs[j] := children[inputs[j]] + [w]];
        assert inputs[..j + 1] == inputs[..j] + [inputs[j]];
      }
      assert inputs[..|inputs|] == inputs;
    }

    /** False where the original throws: the given node is not a parent. */
    method InvertInput(w: nat, input: nat) returns (found: bool)
      requires w < |types| == |parents| && |parents[w]| <= 2
      modifies `types
      ensures found <==> input in parents[w]
      ensures types == old(types)[w := InvertInputs(old(types)[w], parents[w], input)]
    {
      found := false;
      hide Invert;
      for i := 0 to |parents[w]|
        invariant found <==> input in parents[w][..i]
        invariant |types| == |old(types)| && types == old(types)[w := types[w]]
        invariant types[w] == InvertInputs(old(types)[w], parents[w][..i], input)
      {
        if parents[w][i] == input {
          types := types[w := Invert(i, types[w])];
          found := true;
        }
        assert parents[w][..i + 1] == parents[w][..i] + [parents[w][i]];
      }
      assert parents[w][..|parents[w]|] == parents[w];
    }

    /** Inverts the children's tables; false where the original throws. */
    method InvertOutput(p: nat) returns (ok: bool)
      requires View().Shaped() && p < View().Size()
      modifies `types
      ensures EndsAs(if ok then Returned else Threw, View(), Inverts.InvertOutput(old(View()), p))
    {
      ghost var d := View();
      if p < inputCounts.0 + inputCounts.1 { return false; }
      types := types[p := Complement(types[p])];
      ghost var base := types;
      assert |parents| == |types| && forall k :: 0 <= k < |children[p]| ==>
        children[p][k] < |types| && |parents[children[p][k]]| <= 2;
      hide InvertInputs, Complement, Dag.Shaped;
      for i := 0 to |children[p]|
        invariant |types| == |base|
        invariant types == InvertChildren(base, parents, children[p][..i], p)
        invariant forall k :: 0 <= k < i ==> p in parents[children[p][k]]
      {
        ghost var t := types;
        ok := InvertInput(children[p][i], p);
        if !ok { return false; }
        assert children[p][..i + 1][..i] == children[p][..i];
      }
      assert children[p][..|children[p]|] == children[p];
      ok := true;
    }

    /** std::find over a child list: the first position, or the list's end. */
    method Find(s: seq<nat>, x: nat) returns (i: nat)
      ensures i <= |s| && (i < |s| <==> x in s)
      ensures x in s ==> i == FirstIndex(s, x)
    {
      i := 0;
      while i < |s| && s[i] != x
        invariant i <= |s| && x !in s[..i]
      {
        i := i + 1;
      }
      if x in s { FirstIndexIs(s, x, i); }
    }

    /** Moves output i across the INV gate that feeds it, if one does. */
    method DropOutputInvert(i: nat) returns (end: Ending)
      requires View().Shaped() && i < |outputs|
      modifies `types, `children, `outputs
      ensures EndsAs(end, View(), Inverts.DropOutputInvert(old(View()), i))
    {
      hide Dag.Shaped, Inverts.InvertOutput, FirstIndex, Complement;
      InRange(View(), i);
      var g := outputs[i];
      if !View().IsInvert(g) { return Returned; }
      var p := parents[g][0];
      var ok := InvertOutput(p);
      if !ok || types[g] != A { return Threw; }
      var k := Find(children[p], g);
      if k == |children[p]| { return RanOff; }
      var last := |children[p]| - 1;
      children := children[p := children[p][k := children[p][last]][..last]];
      outputs := outputs[i := p];
      return Returned;
    }

    /** reduceInvert for the gate of wire w. */
    method ReduceInvert(w: nat) returns (end: Ending)
      requires View().Shaped() && View().IsGate(w)
      modifies `types, `children, `parents
      ensures EndsAs(end, View(), Inverts.ReduceInvert(old(View()), w))
    {
      hide Dag.Shaped, FirstIndex, Invert;
      GateInRange(View(), w);
      if View().IsInvert(w) {
        var p := parents[w][0];
        var k := Find(children[p], w);
        if k == |children[p]| { return RanOff; }
        var last := |children[p]| - 1;
        children := children[p := children[p][k := children[p][last]][..last]];
        return Returned;
      }
      var threw := AbsorbAt(w, 0);
      if threw { return Threw; }
      if |parents[w]| == 2 {
        threw := AbsorbAt(w, 1);
        if threw { return Threw; }
      }
      return Returned;
    }

    /** The body of reduceInvert's loop over operands. */
    method AbsorbAt(w: nat, i: nat) returns (threw: bool)
      requires View().Shaped() && View().IsGate(w) && i < |parents[w]|
      modifies `types, `children, `parents
      ensures EndsAs(if threw then Threw else Returned, View(), Absorb(old(View()), w, i))
    {
      var inv := parents[w][i];
      if View().IsInvert(inv) {
        var newParent := parents[inv][0];
        types := types[w := Invert(i, types[w])];
        if View().IsInvert(newParent) { return true; }
        children := children[newParent := children[newParent] + [w]];
        parents := parents[w := parents[w][i := newParent]];
      }
      return false;
    }

    method RemoveInvertGates() returns (end: Ending)
      requires View().Shaped()
      modifies `types, `children, `parents, `outputs
      ensures EndsAs(end, View(), Inverts.RemoveInvertGates(old(View())))
    {
      hide Dag.Shaped, Inverts.DropOutputInvert, Inverts.ReduceInvert;
      ghost var d := View();
      SizesInRange(d);
      for i := 0 to |outputs|
        invariant DropOutputInverts(d, i) == Done(View())
      {
        end := DropOutputInvert(i);
        if end != Returned { LaterOutputsFail(d, i + 1, |d.outputs|); return; }
      }
      ghost var e := View();
      var n := inputCounts.0 + inputCounts.1;
      SizesInRange(e);
      for w := n to |types|
        invariant ReduceInverts(e, w - n) == Done(View())
      {
        end := ReduceInvert(w);
        if end != Returned { LaterGatesFail(e, w - n + 1, e.Size() - n); return; }
      }
      end := Returned;
    }
  }

  lemma FirstIndexIs(s: seq<nat>, x: nat, i: nat)
    requires i < |s| && s[i] == x && x !in s[..i]
    ensures FirstIndex(s, x) == i
  {
    assert s[FirstIndex(s, x)] == x;
  }

  lemma InRange(d: Dag, i: nat)
    requires d.Shaped() && i < |d.outputs|
    ensures |d.parents| == |d.children| == d.Size() && d.outputs[i] < d.Size()
    ensures d.IsInvert(d.outputs[i]) ==> d.parents[d.outputs[i]][0] < d.Size()
  {
  }

  lemma GateInRange(d: Dag, w: nat)
    requires d.Shaped() && d.IsGate(w)
    ensures |d.parents| == |d.children| == d.Size() && 1 <= |d.parents[w]| <= 2 && d.parents[w][0] < d.Size()
  {
  }

  lemma SizesInRange(d: Dag)
    requires d.Shaped()
    ensures |d.parents| == d.Size() >= d.Inputs()
  {
  }

  lemma {:induction false} LaterOutputsFail(d: Dag, m: nat, n: nat)
    requires d.Shaped() && m <= n <= |d.outputs| && !DropOutputInverts(d, m).Done?
    ensures DropOutputInverts(d, n) == DropOutputInverts(d, m)
  {
    if m < n { LaterOutputsFail(d, m, n - 1); }
  }

  lemma {:induction false} LaterGatesFail(d: Dag, m: nat, n: nat)
    requires d.Shaped() && m <= n && d.Inputs() + n <= d.Size() && !ReduceInverts(d, m).Done?
    ensures ReduceInverts(d, n) == ReduceInverts(d, m)
  {
    if m < n { LaterGatesFail(d, m, n - 1); }
  }
}
