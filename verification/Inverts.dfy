/** Removing INV gates from a gate graph by rewriting truth tables: what each step does to the graph. */
module Inverts {
  import opened Gates
  import opened Dags

  /** The table with its i-th operand negated. */
  function Invert(i: nat, gt: GateType): GateType
    requires i < 2
  {
    if i == 0 then Table(gt.bit1, gt.bit0, gt.bit3, gt.bit2) else Table(gt.bit2, gt.bit3, gt.bit0, gt.bit1)
  }

  function Complement(gt: GateType): GateType {
    Table(!gt.bit0, !gt.bit1, !gt.bit2, !gt.bit3)
  }

  /** invertInput: negates every operand position that the given node feeds. */
  function InvertInputs(gt: GateType, parents: seq<nat>, p: nat): GateType {
    var gt0 := if |parents| >= 1 && parents[0] == p then Invert(0, gt) else gt;
    if |parents| >= 2 && parents[1] == p then Invert(1, gt0) else gt0
  }

  /** invertInput called once per entry of a child list. */
  function InvertChildren(types: seq<GateType>, parents: seq<seq<nat>>, cs: seq<nat>, p: nat): (r: seq<GateType>)
    requires |parents| == |types| && forall i :: 0 <= i < |cs| ==> cs[i] < |types|
    ensures |r| == |types|
  {
    if cs == [] then types
    else
      var t := InvertChildren(types, parents, cs[..|cs| - 1], p);
      var c := cs[|cs| - 1];
      t[c := InvertInputs(t[c], parents[c], p)]
  }

  lemma InvertInputsTwice(gt: GateType, parents: seq<nat>, p: nat)
    ensures InvertInputs(InvertInputs(gt, parents, p), parents, p) == gt
  {
  }

  /** Each entry toggles the child's operands, so an even number of entries leaves its table alone. */
  lemma {:induction false} InvertChildrenAt(types: seq<GateType>, parents: seq<seq<nat>>, cs: seq<nat>, p: nat, w: nat)
    requires |parents| == |types| && w < |types| && forall i :: 0 <= i < |cs| ==> cs[i] < |types|
    ensures InvertChildren(types, parents, cs, p)[w] ==
            if multiset(cs)[w] % 2 == 1 then InvertInputs(types[w], parents[w], p) else types[w]
  {
    hide InvertInputs;
    if cs != [] {
      var front: seq<nat>, c := cs[..|cs| - 1], cs[|cs| - 1];
      assert cs == front + [c];
      assert multiset(front + [c])[w] == multiset(front)[w] + (if w == c then 1 else 0);
      InvertChildrenAt(types, parents, front, p, w);
      InvertInputsTwice(types[w], parents[w], p);
    }
  }

  function FirstIndex(s: seq<nat>, x: nat): (i: nat)
    requires x in s
    ensures i < |s| && s[i] == x && x !in s[..i]
  {
    if s[0] == x then 0
    else
      assert x in s[1..];
      var i := FirstIndex(s[1..], x);
      assert s[..i + 1] == [s[0]] + s[1..][..i];
      i + 1
  }

  /** Overwrites the first occurrence with the last element and shortens the list. */
  function RemoveOne(s: seq<nat>, x: nat): (r: seq<nat>)
    requires x in s
    ensures |r| == |s| - 1
  {
    s[FirstIndex(s, x) := s[|s| - 1]][..|s| - 1]
  }

  /** The last element takes the place of the first occurrence, and the others stay. */
  lemma RemoveOneAt(s: seq<nat>, x: nat, k: nat)
    requires x in s && k < |s| - 1
    ensures RemoveOne(s, x)[k] == if s[k] == x && x !in s[..k] then s[|s| - 1] else s[k]
  {
    var i := FirstIndex(s, x);
    if k < i {
      assert s[..i][k] != x;
    } else if k > i {
      assert s[..k][i] == x;
    }
  }

  lemma RemoveOneContents(s: seq<nat>, x: nat)
    requires x in s
    ensures multiset(RemoveOne(s, x)) == multiset(s) - multiset{x}
  {
    var i, n := FirstIndex(s, x), |s| - 1;
    hide FirstIndex;
    var t: seq<nat> := s[i := s[n]];
    assert t == t[..n] + [s[n]];
    RemoveOneCount(multiset(s), multiset(t), multiset(t[..n]), x, s[n]);
  }

  lemma RemoveOneCount(s: multiset<nat>, t: multiset<nat>, r: multiset<nat>, x: nat, y: nat)
    requires x in s && t == s - multiset{x} + multiset{y} && t == r + multiset{y}
    ensures r == s - multiset{x}
  {
    forall z: nat
      ensures r[z] == (s - multiset{x})[z]
    {
      assert t[z] == r[z] + multiset{y}[z];
    }
  }

  /** A step completes, throws, or dereferences a list end that holds no such child. */
  datatype Outcome = Done(d: Dag) | Thrown | Undefined

  /** Same inputs, same wires, and still the same kind of graph. */
  ghost predicate Keeps(d: Dag, e: Dag) {
    e.Shaped() && e.in0 == d.in0 && e.in1 == d.in1 && e.Size() == d.Size() && |e.outputs| == |d.outputs|
  }

  lemma InvertedUnary(types: seq<GateType>, parents: seq<seq<nat>>, cs: seq<nat>, p: nat)
    requires |parents| == |types| && forall i :: 0 <= i < |cs| ==> cs[i] < |types|
    ensures forall w :: 0 <= w < |types| && |parents[w]| == 1 && (types[w] == NA || types[w] == A) ==>
      InvertChildren(types, parents, cs, p)[w] == NA || InvertChildren(types, parents, cs, p)[w] == A
  {
    forall w | 0 <= w < |types| && |parents[w]| == 1 && (types[w] == NA || types[w] == A)
      ensures InvertChildren(types, parents, cs, p)[w] == NA || InvertChildren(types, parents, cs, p)[w] == A
    {
      InvertChildrenAt(types, parents, cs, p, w);
    }
  }

  /** invertOutput. An input node throws, and so does a child that does not have the node as a parent. */
  function InvertOutput(d: Dag, p: nat): (o: Outcome)
    requires d.Shaped() && p < d.Size()
    ensures o.Done? ==> Keeps(d, o.d) && o.d == d.(types := o.d.types)
  {
    if !d.IsGate(p) then Thrown
    else if exists i :: 0 <= i < |d.children[p]| && p !in d.parents[d.children[p][i]] then Thrown
    else
      var types := d.types[p := Complement(d.types[p])];
      InvertedUnary(types, d.parents, d.children[p], p);
      Done(d.(types := InvertChildren(types, d.parents, d.children[p], p)))
  }

  lemma RemoveOneInRange(d: Dag, p: nat, g: nat)
    requires d.Shaped() && p < d.Size() && g in d.children[p]
    ensures Keeps(d, d.(children := d.children[p := RemoveOne(d.children[p], g)]))
  {
    RemoveOneContents(d.children[p], g);
    var e := d.(children := d.children[p := RemoveOne(d.children[p], g)]);
    forall w, i | 0 <= w < e.Size() && 0 <= i < |e.children[w]|
      ensures e.IsGate(e.children[w][i])
    {
      if w == p {
        assert e.children[p][i] in multiset(e.children[p]);
        assert e.children[p][i] in multiset(d.children[p]);
      }
    }
  }

  /** Moves output i across the INV gate that feeds it, if one does. */
  function DropOutputInvert(d: Dag, i: nat): (o: Outcome)
    requires d.Shaped() && i < |d.outputs|
    ensures o.Done? ==> Keeps(d, o.d) && o.d.parents == d.parents
  {
    var g := d.outputs[i];
    if !d.IsInvert(g) then Done(d)
    else
      var p := d.parents[g][0];
      match InvertOutput(d, p)
      case Done(e) =>
        if e.types[g] != A then Thrown
        else if g !in e.children[p] then Undefined
        else
          RemoveOneInRange(e, p, g);
          Done(e.(children := e.children[p := RemoveOne(e.children[p], g)], outputs := e.outputs[i := p]))
      case o => o
  }

  /** The first loop of removeInvertGates, over the first n outputs. */
  function DropOutputInverts(d: Dag, n: nat): (o: Outcome)
    requires d.Shaped() && n <= |d.outputs|
    ensures o.Done? ==> Keeps(d, o.d) && o.d.parents == d.parents
  {
    if n == 0 then Done(d)
    else
      match DropOutputInverts(d, n - 1)
      case Done(e) => DropOutputInvert(e, n - 1)
      case o => o
  }

  /** Absorbs an INV gate at operand i of gate w into w's table. */
  function Absorb(d: Dag, w: nat, i: nat): (o: Outcome)
    requires d.Shaped() && d.IsGate(w) && i < |d.parents[w]|
    ensures o.Done? ==> Keeps(d, o.d) && o.d.outputs == d.outputs && |o.d.parents[w]| == |d.parents[w]|
  {
    var inv := d.parents[w][i];
    if !d.IsInvert(inv) then Done(d)
    else
      var p, types := d.parents[inv][0], d.types[w := Invert(i, d.types[w])];
      if d.(types := types).IsInvert(p) then Thrown
      else Done(d.(types := types,
                   children := d.children[p := d.children[p] + [w]],
                   parents := d.parents[w := d.parents[w][i := p]]))
  }

  /** reduceInvert for one gate. */
  function ReduceInvert(d: Dag, w: nat): (o: Outcome)
    requires d.Shaped() && d.IsGate(w)
    ensures o.Done? ==> Keeps(d, o.d) && o.d.outputs == d.outputs
  {
    if d.IsInvert(w) then
      var p := d.parents[w][0];
      if w !in d.children[p] then Undefined
      else
        RemoveOneInRange(d, p, w);
        Done(d.(children := d.children[p := RemoveOne(d.children[p], w)]))
    else
      match Absorb(d, w, 0)
      case Done(e) => if |d.parents[w]| == 2 then Absorb(e, w, 1) else Done(e)
      case o => o
  }

  /** The second loop of removeInvertGates, over the first n gates. */
  function ReduceInverts(d: Dag, n: nat): (o: Outcome)
    requires d.Shaped() && d.Inputs() + n <= d.Size()
    ensures o.Done? ==> Keeps(d, o.d) && o.d.outputs == d.outputs
  {
    if n == 0 then Done(d)
    else
      match ReduceInverts(d, n - 1)
      case Done(e) => ReduceInvert(e, d.Inputs() + n - 1)
      case o => o
  }

  /** removeInvertGates. */
  function RemoveInvertGates(d: Dag): (o: Outcome)
    requires d.Shaped()
    ensures o.Done? ==> Keeps(d, o.d)
  {
    match DropOutputInverts(d, |d.outputs|)
    case Done(e) => ReduceInverts(e, e.Size() - e.Inputs())
    case o => o
  }
}
