/** The exact condition under which removing INV gates leaves nothing that the circuit format refuses. */
module Irreducible {
  import opened Gates
  import opened Dags
  import opened Inverts
  import opened InvertValues
  import opened WrongOutputs
  import opened Reaches
  import opened Reduction

  /** No copy gate reads an INV gate. */
  ghost predicate CopiesReadNoInvert(e: Dag)
    requires e.Shaped()
  {
    forall w: nat :: IsCopy(e, w) ==> !e.IsInvert(e.parents[w][0])
  }

  ghost predicate BinariesAreHalfGates(e: Dag)
    requires e.Shaped()
  {
    forall w: nat :: IsBinary(e, w) ==> HasHalfGate(e.types[w])
  }

  /** Operand i of gate w once the gate loop has passed w, or not yet. */
  function Skipped(e: Dag, w: nat, i: nat, passed: bool): nat
    requires e.Shaped() && w < e.Size() && i < |e.parents[w]|
  {
    var u := e.parents[w][i];
    if passed && e.IsInvert(u) then e.parents[u][0] else u
  }

  /** What the gate loop has made of gate w of e; `first` and `second` say which operands it has been past. */
  ghost predicate PassedGate(e: Dag, f: Dag, w: nat, first: bool, second: bool)
    requires e.Shaped() && f.Shaped() && f.Size() == e.Size() && w < e.Size()
  {
    && |f.parents[w]| == |e.parents[w]|
    && (IsUnary(e, w) ==> f.types[w] == e.types[w] && f.parents[w] == e.parents[w])
    && (IsBinary(e, w) ==>
        HasHalfGate(f.types[w]) && f.parents[w] == [Skipped(e, w, 0, first), Skipped(e, w, 1, second)])
    && (IsCopy(e, w) && w in e.children[e.parents[w][0]] ==> w in f.children[e.parents[w][0]])
  }

  ghost predicate PassedBy(e: Dag, f: Dag, n: nat, w: nat)
    requires e.Shaped() && f.Shaped() && f.Size() == e.Size() && w < e.Size()
  {
    PassedGate(e, f, w, w < e.Inputs() + n, w < e.Inputs() + n)
  }

  /** f is what the gate loop has made of e after n gates. */
  ghost predicate Passed(e: Dag, f: Dag, n: nat)
    requires e.Shaped() && f.Shaped()
  {
    && f.Size() == e.Size() && f.Inputs() == e.Inputs()
    && forall w: nat :: w < e.Size() ==> PassedBy(e, f, n, w)
  }

  lemma PassedAt(e: Dag, f: Dag, n: nat, w: nat)
    requires e.Shaped() && f.Shaped() && Passed(e, f, n) && w < e.Size()
    ensures f.Size() == e.Size() && f.Inputs() == e.Inputs()
    ensures PassedGate(e, f, w, w < e.Inputs() + n, w < e.Inputs() + n)
    ensures f.IsInvert(w) == e.IsInvert(w)
  {
    hide HasHalfGate;
    assert PassedBy(e, f, n, w);
  }

  lemma StartPassed(e: Dag)
    requires e.Shaped() && BinariesAreHalfGates(e)
    ensures Passed(e, e, 0)
  {
    hide HasHalfGate;
    forall w: nat | w < e.Size()
      ensures PassedBy(e, e, 0, w)
    {
    }
  }

  /** Absorbing at operand i of a two-operand gate. */
  lemma AbsorbPasses(f: Dag, w: nat, i: nat)
    requires f.Shaped() && f.IsGate(w) && |f.parents[w]| == 2 && i < 2 && HasHalfGate(f.types[w])
    requires Absorb(f, w, i).Done?
    ensures var g, u := Absorb(f, w, i).d, f.parents[w][i];
            && g.Shaped() && g.Size() == f.Size() && g.Inputs() == f.Inputs()
            && HasHalfGate(g.types[w]) && g.types == f.types[w := g.types[w]]
            && g.parents == f.parents[w := f.parents[w][i := if f.IsInvert(u) then f.parents[u][0] else u]]
            && forall q, c :: 0 <= q < f.Size() && c in f.children[q] ==> c in g.children[q]
  {
    HalfGatesStay(f.types[w], f.parents[w], 0);
    hide HasHalfGate, Invert;
    if !f.IsInvert(f.parents[w][i]) {
      assert f.parents[w][i := f.parents[w][i]] == f.parents[w];
      assert f.parents[w := f.parents[w]] == f.parents && f.types[w := f.types[w]] == f.types;
    }
  }

  lemma OthersPassed(e: Dag, f: Dag, g: Dag, w: nat, u: nat, first: bool, second: bool)
    requires e.Shaped() && f.Shaped() && g.Shaped() && f.Size() == g.Size() == e.Size() && w < e.Size() && u < e.Size()
    requires u != w
    requires PassedGate(e, f, u, first, second) && |g.types| == |g.parents| == f.Size()
    requires g.types[u] == f.types[u] && g.parents[u] == f.parents[u]
    requires forall q :: 0 <= q < f.Size() && u in f.children[q] ==> u in g.children[q]
    ensures PassedGate(e, g, u, first, second)
  {
    hide HasHalfGate;
  }

  lemma OtherPasses(e: Dag, f: Dag, g: Dag, h: Dag, n: nat, w: nat, u: nat)
    requires e.Shaped() && f.Shaped() && Passed(e, f, n) && w == e.Inputs() + n && IsBinary(e, w) && u < e.Size()
    requires u != w
    requires f.IsGate(w) && |f.parents[w]| == 2 && HasHalfGate(f.types[w]) && Absorb(f, w, 0) == Done(g)
    requires g.Shaped() && g.IsGate(w) && |g.parents[w]| == 2 && HasHalfGate(g.types[w]) && Absorb(g, w, 1) == Done(h)
    ensures h.Shaped() && h.Size() == e.Size() && PassedBy(e, h, n + 1, u)
  {
    hide HasHalfGate, Absorb, Passed, PassedGate;
    PassedAt(e, f, n, u);
    AbsorbPasses(f, w, 0);
    AbsorbPasses(g, w, 1);
    OthersPassed(e, f, h, w, u, u < e.Inputs() + n, u < e.Inputs() + n);
  }

  /** Both absorptions of a two-operand gate. */
  lemma PassBinary(e: Dag, f: Dag, n: nat, w: nat)
    requires e.Shaped() && f.Shaped() && Passed(e, f, n) && w == e.Inputs() + n && IsBinary(e, w)
    requires f.IsGate(w) && ReduceInvert(f, w).Done?
    ensures Passed(e, ReduceInvert(f, w).d, n + 1)
  {
    PassedOwn(e, f, n, w);
    BinaryReduces(f, w);
    hide HasHalfGate, Absorb, ReduceInvert, PassedGate, Dag.Shaped;
    var g := Absorb(f, w, 0).d;
    AbsorbPasses(f, w, 0);
    var h := Absorb(g, w, 1).d;
    PassOwn(e, f, g, h, n, w);
    var m := n + 1;
    forall u: nat | u < e.Size()
      ensures PassedBy(e, h, m, u)
    {
      if u != w { OtherPasses(e, f, g, h, n, w, u); }
    }
  }

  lemma PassedOwn(e: Dag, f: Dag, n: nat, w: nat)
    requires e.Shaped() && f.Shaped() && Passed(e, f, n) && w == e.Inputs() + n && IsBinary(e, w)
    ensures f.Size() == e.Size() && f.Inputs() == e.Inputs() && |e.parents[w]| == |f.parents[w]| == 2
    ensures PassedGate(e, f, w, false, false) && HasHalfGate(f.types[w])
    ensures e.parents[w][0] < e.Size() && e.parents[w][1] < e.Size()
    ensures forall i :: 0 <= i < 2 ==> f.IsInvert(e.parents[w][i]) == e.IsInvert(e.parents[w][i])
    ensures forall i :: 0 <= i < 2 && e.IsInvert(e.parents[w][i]) ==>
      f.parents[e.parents[w][i]] == e.parents[e.parents[w][i]]
  {
    hide HasHalfGate, Passed;
    PassedAt(e, f, n, w);
    PassedAt(e, f, n, e.parents[w][0]);
    PassedAt(e, f, n, e.parents[w][1]);
  }

  lemma BinaryReduces(f: Dag, w: nat)
    requires f.Shaped() && f.IsGate(w) && |f.parents[w]| == 2 && HasHalfGate(f.types[w]) && ReduceInvert(f, w).Done?
    ensures Absorb(f, w, 0).Done? && HasHalfGate(Absorb(f, w, 0).d.types[w])
    ensures ReduceInvert(f, w) == Absorb(Absorb(f, w, 0).d, w, 1)
  {
    AbsorbPasses(f, w, 0);
  }

  lemma PassOwn(e: Dag, f: Dag, g: Dag, h: Dag, n: nat, w: nat)
    requires e.Shaped() && f.Shaped() && f.Size() == e.Size() && f.Inputs() == e.Inputs() && w == e.Inputs() + n
    requires IsBinary(e, w)
    requires PassedGate(e, f, w, false, false)
    requires forall i :: 0 <= i < 2 ==> f.IsInvert(e.parents[w][i]) == e.IsInvert(e.parents[w][i])
    requires forall i :: 0 <= i < 2 && e.IsInvert(e.parents[w][i]) ==>
      f.parents[e.parents[w][i]] == e.parents[e.parents[w][i]]
    requires Absorb(f, w, 0) == Done(g) && g.Shaped() && g.IsGate(w) && |g.parents[w]| == 2
    requires Absorb(g, w, 1) == Done(h)
    ensures h.Shaped() && h.Size() == e.Size() && h.Inputs() == e.Inputs() && PassedGate(e, h, w, true, true)
  {
    AbsorbPasses(f, w, 0);
    AbsorbPasses(g, w, 1);
    hide HasHalfGate, Absorb;
  }

  /** An INV gate leaves its parent's list, and no other entry does. */
  lemma PassInvert(e: Dag, f: Dag, n: nat, w: nat)
    requires e.Shaped() && f.Shaped() && Passed(e, f, n) && w == e.Inputs() + n && e.IsInvert(w)
    requires f.IsGate(w) && ReduceInvert(f, w).Done?
    ensures Passed(e, ReduceInvert(f, w).d, n + 1)
  {
    PassedAt(e, f, n, w);
    var g := ReduceInvert(f, w).d;
    var p := f.parents[w][0];
    var m := n + 1;
    forall u: nat | u < e.Size()
      ensures PassedBy(e, g, m, u)
    {
      PassedAt(e, f, n, u);
      hide HasHalfGate, Passed;
      if u != w {
        forall q | 0 <= q < f.Size() && u in f.children[q]
          ensures u in g.children[q]
        {
          if q == p { RemoveOneKeepsOthers(f.children[p], w, u); }
        }
        OthersPassed(e, f, g, w, u, u < e.Inputs() + n, u < e.Inputs() + n);
      }
    }
  }

  lemma PassCopy(e: Dag, f: Dag, n: nat, w: nat)
    requires e.Shaped() && f.Shaped() && Passed(e, f, n) && w == e.Inputs() + n && IsCopy(e, w) && CopiesReadNoInvert(e)
    ensures f.IsGate(w) && ReduceInvert(f, w) == Done(f) && Passed(e, f, n + 1)
  {
    PassedAt(e, f, n, w);
    PassedAt(e, f, n, e.parents[w][0]);
    var m := n + 1;
    forall u: nat | u < e.Size()
      ensures PassedBy(e, f, m, u)
    {
      PassedAt(e, f, n, u);
      hide HasHalfGate, Passed;
    }
  }

  lemma {:induction false} PassedAfter(e: Dag, n: nat)
    requires e.Shaped() && BinariesAreHalfGates(e) && CopiesReadNoInvert(e) && e.Inputs() + n <= e.Size()
    requires ReduceInverts(e, n).Done?
    ensures Passed(e, ReduceInverts(e, n).d, n)
  {
    hide Passed, ReduceInvert, BinariesAreHalfGates, CopiesReadNoInvert;
    if n == 0 {
      StartPassed(e);
    } else {
      PassedAfter(e, n - 1);
      var f, w := ReduceInverts(e, n - 1).d, e.Inputs() + n - 1;
      PassedAt(e, f, n - 1, w);
      if IsBinary(e, w) {
        PassBinary(e, f, n - 1, w);
      } else if e.types[w] == NA {
        PassInvert(e, f, n - 1, w);
      } else {
        PassCopy(e, f, n - 1, w);
      }
    }
  }

  // ---------------------------------------------------------------- what an emittable result says of the graph

  lemma EmittableCopies(e: Dag, f: Dag, w: nat)
    requires e.Shaped() && f.Shaped() && Passed(e, f, e.Size() - e.Inputs()) && Emittable(f)
    requires IsCopy(e, w) && w in e.children[e.parents[w][0]]
    ensures IsUnary(e, e.parents[w][0])
  {
    var n, p := e.Size() - e.Inputs(), e.parents[w][0];
    PassedAt(e, f, n, w);
    PassedAt(e, f, n, p);
    ReachedIsLive(f);
    hide HasHalfGate, Passed, Reached;
  }

  lemma EmittableOperands(e: Dag, f: Dag, w: nat, i: nat)
    requires e.Shaped() && f.Shaped() && Passed(e, f, e.Size() - e.Inputs()) && Emittable(f)
    requires IsBinary(e, w) && i < 2 && IsUnary(e, e.parents[w][i])
    ensures e.IsInvert(e.parents[w][i]) && !IsUnary(e, e.parents[e.parents[w][i]][0])
  {
    var n, u := e.Size() - e.Inputs(), e.parents[w][i];
    PassedAt(e, f, n, w);
    PassedAt(e, f, n, u);
    PassedAt(e, f, n, e.parents[u][0]);
    ReachedIsLive(f);
    hide HasHalfGate, Passed, Reached;
    assert w in Kept(f) && f.parents[w][i] == Skipped(e, w, i, true);
    assert f.parents[w][i] in Kept(f);
  }

  /** Absorbing changes no gate's number of operands. */
  lemma {:induction false} AritiesStay(e: Dag, n: nat, w: nat)
    requires e.Shaped() && e.Inputs() + n <= e.Size() && ReduceInverts(e, n).Done? && w < e.Size()
    ensures |ReduceInverts(e, n).d.parents| == e.Size() && |ReduceInverts(e, n).d.parents[w]| == |e.parents[w]|
  {
    hide ReduceInvert, Dag.Shaped;
    ShapedSizes(e, w);
    if n > 0 {
      AritiesStay(e, n - 1, w);
      ShapedSizes(ReduceInverts(e, n - 1).d, w);
      ReduceArity(ReduceInverts(e, n - 1).d, e.Inputs() + n - 1, w);
    }
  }

  lemma ReduceArity(e: Dag, u: nat, w: nat)
    requires e.Shaped() && e.IsGate(u) && ReduceInvert(e, u).Done? && w < e.Size()
    ensures |ReduceInvert(e, u).d.parents| == e.Size() && |ReduceInvert(e, u).d.parents[w]| == |e.parents[w]|
  {
    hide Invert;
  }

  lemma Loops(d0: Dag)
    requires d0.Shaped() && RemoveInvertGates(d0).Done?
    ensures DropOutputInverts(d0, |d0.outputs|).Done?
    ensures var e := DropOutputInverts(d0, |d0.outputs|).d;
            e.Shaped() && e.Inputs() <= e.Size() && RemoveInvertGates(d0) == ReduceInverts(e, e.Size() - e.Inputs())
  {
    hide DropOutputInverts, ReduceInverts;
    if DropOutputInverts(d0, |d0.outputs|).Done? {
      var e := DropOutputInverts(d0, |d0.outputs|).d;
      ShapedSizes(e, 0);
    }
  }

  /** The outputs of an emittable result are no unary gates, so every output's feeder is a two-operand gate. */
  lemma EmittableFeeders(d0: Dag)
    requires d0.Shaped() && Regular(d0) && RemoveInvertGates(d0).Done? && Emittable(RemoveInvertGates(d0).d)
    ensures FeedersAreBinary(d0)
  {
    hide Regular, Wired, Rough, DropOutputInverts, RemoveInvertGates, ReduceInverts, Emittable, Dag.Shaped, IsBinary;
    RegularIsWired(d0);
    ShapedSizes(d0, 0);
    Loops(d0);
    var e := DropOutputInverts(d0, |d0.outputs|).d;
    RoughLoop(d0, |d0.outputs|);
    forall j | 0 <= j < |d0.outputs| && IsUnary(d0, d0.outputs[j])
      ensures IsBinary(d0, d0.parents[d0.outputs[j]][0])
    {
      ShapedSizes(d0, d0.outputs[j]);
      FeederIsBinary(d0, e, j);
    }
  }

  lemma FeederIsBinary(d0: Dag, e: Dag, j: nat)
    requires d0.Shaped() && Rough(d0, e, |d0.outputs|)
    requires e.Shaped() && ReduceInverts(e, e.Size() - e.Inputs()).Done?
    requires Emittable(ReduceInverts(e, e.Size() - e.Inputs()).d)
    requires j < |d0.outputs| && IsUnary(d0, d0.outputs[j])
    ensures IsBinary(d0, d0.parents[d0.outputs[j]][0])
  {
    hide Touched, AtMostLinked, Emittable, ReduceInverts;
    assert PassedOutput(d0, e, |d0.outputs|, j);
    OutputsAreKept(d0, e);
    ShapedSizes(d0, e.outputs[j]);
  }

  lemma OutputsAreKept(d0: Dag, e: Dag)
    requires d0.Shaped() && e.Shaped() && e.parents == d0.parents && e.Inputs() == d0.Inputs()
    requires |e.outputs| == |d0.outputs|
    requires ReduceInverts(e, e.Size() - e.Inputs()).Done? && Emittable(ReduceInverts(e, e.Size() - e.Inputs()).d)
    ensures forall k :: 0 <= k < |e.outputs| ==> !IsUnary(d0, e.outputs[k])
  {
    hide ReduceInverts, Reached, HasHalfGate;
    var f := ReduceInverts(e, e.Size() - e.Inputs()).d;
    forall k | 0 <= k < |e.outputs|
      ensures !IsUnary(d0, e.outputs[k])
    {
      AritiesStay(e, e.Size() - e.Inputs(), e.outputs[k]);
      assert f.outputs[k] in Kept(f);
    }
  }

  lemma CopiesFollowBinaries(d0: Dag, e: Dag, done: set<nat>, detached: set<nat>)
    requires d0.Shaped() && e.Shaped() && FeedersAreBinary(d0)
    requires Placed(d0, e, done, detached, |d0.outputs|) && Tidy(d0, e, done, detached, |d0.outputs|)
    ensures CopiesReadNoInvert(e) && BinariesAreHalfGates(e)
    ensures forall w: nat :: IsUnary(d0, w) ==>
      (IsCopy(e, w) <==> d0.parents[w][0] in done) && (e.IsInvert(w) <==> d0.parents[w][0] !in done)
    ensures forall p :: p in done ==> IsBinary(d0, p)
  {
    hide LinkedBut, OutputInvType, TidyOutputs, Matched, HasHalfGate;
    forall p | p in done
      ensures IsBinary(d0, p)
    {
      assert IsFeeder(d0, p);
    }
    forall w: nat | IsUnary(d0, w) || IsBinary(d0, w)
      ensures IsUnary(d0, w) ==>
        (IsCopy(e, w) <==> d0.parents[w][0] in done) && (e.IsInvert(w) <==> d0.parents[w][0] !in done)
      ensures IsBinary(d0, w) ==> HasHalfGate(e.types[w])
    {
      assert TidyType(d0, e, done, w);
    }
  }

  /** An output's INV gate has been let go by its feeder. */
  lemma OutputDetached(d0: Dag, e: Dag, done: set<nat>, detached: set<nat>, j: nat)
    requires d0.Shaped() && e.Shaped() && Tidy(d0, e, done, detached, |d0.outputs|)
    requires j < |d0.outputs| && IsUnary(d0, d0.outputs[j]) && !IsUnary(d0, e.outputs[j])
    ensures d0.outputs[j] in detached && d0.parents[d0.outputs[j]][0] in done
  {
    hide TidyTypes;
    assert TidyOutput(d0, e, done, detached, j);
  }

  lemma MustStandAlone(d0: Dag, e: Dag, f: Dag, done: set<nat>, detached: set<nat>, j: nat)
    requires d0.Shaped() && e.Shaped() && f.Shaped() && FeedersAreBinary(d0)
    requires Placed(d0, e, done, detached, |d0.outputs|) && Tidy(d0, e, done, detached, |d0.outputs|)
    requires Passed(e, f, e.Size() - e.Inputs()) && Emittable(f)
    requires j < |d0.outputs| && !IsUnary(d0, e.outputs[j])
    ensures StandsAlone(d0, j)
  {
    var g := d0.outputs[j];
    CopiesFollowBinaries(d0, e, done, detached);
    PlacedLinks(d0, e, done, detached, |d0.outputs|);
    hide Placed, Passed, Emittable, TidyTypes, TidyOutputs, HasHalfGate;
    if IsUnary(d0, g) {
      OutputDetached(d0, e, done, detached, j);
      var p := d0.parents[g][0];
      forall u: nat | IsUnary(d0, u) && d0.parents[u][0] == p
        ensures u == g
      {
        if u !in detached {
          assert multiset(e.children[p])[u] == Feeds(e.parents[u], p) == 1;
          assert u in multiset(e.children[p]);
          EmittableCopies(e, f, u);
        }
      }
    }
  }

  lemma MustBePlain(d0: Dag, e: Dag, f: Dag, done: set<nat>, detached: set<nat>, w: nat, i: nat)
    requires d0.Shaped() && e.Shaped() && f.Shaped() && FeedersAreBinary(d0)
    requires Placed(d0, e, done, detached, |d0.outputs|) && Tidy(d0, e, done, detached, |d0.outputs|)
    requires Passed(e, f, e.Size() - e.Inputs()) && Emittable(f)
    requires |e.outputs| == |d0.outputs| && forall k :: 0 <= k < |e.outputs| ==> !IsUnary(d0, e.outputs[k])
    requires IsBinary(d0, w) && i < 2
    ensures PlainOperand(d0, w, i)
  {
    var u := d0.parents[w][i];
    CopiesFollowBinaries(d0, e, done, detached);
    PlacedLinks(d0, e, done, detached, |d0.outputs|);
    if IsUnary(d0, u) {
      EmittableOperands(e, f, w, i);
      hide Placed, Passed, Emittable, TidyTypes, TidyOutputs, HasHalfGate;
      if u in d0.outputs {
        var j :| 0 <= j < |d0.outputs| && d0.outputs[j] == u;
        OutputDetached(d0, e, done, detached, j);
      }
    }
  }

  /**
    The exact condition: removeInvertGates returns with everything that can be emitted of a half-gate type and free of
    INV operands if and only if no output's INV gate shares its feeder with another INV gate or follows an input or INV
    gate, and no two-operand gate reads an output's INV gate or a chain of INV gates.
   */
  lemma ReducibleIff(d0: Dag, rank: seq<nat>)
    requires d0.Shaped() && Regular(d0) && d0.Ranked(rank)
    ensures RemoveInvertGates(d0).Done? && Emittable(RemoveInvertGates(d0).d) <==> Reducible(d0)
  {
    hide Regular, Emittable, Reducible, RemoveInvertGates;
    if Reducible(d0) {
      ReducibleBecomesEmittable(d0, rank);
    } else if RemoveInvertGates(d0).Done? && Emittable(RemoveInvertGates(d0).d) {
      EmittableMeansReducible(d0);
    }
  }

  lemma EmittableMeansReducible(d0: Dag)
    requires d0.Shaped() && Regular(d0) && RemoveInvertGates(d0).Done? && Emittable(RemoveInvertGates(d0).d)
    ensures Reducible(d0)
  {
    hide Regular, Wired, Placed, Tidy, Emittable, Passed, Dag.Shaped, DropOutputInverts, RemoveInvertGates,
         ReduceInverts, LinkedBut, FeedersAreBinary, CopiesReadNoInvert, BinariesAreHalfGates, StandsAlone,
         PlainOperand, IsUnary, IsCopy;
    ShapedSizes(d0, 0);
    EmittableFeeders(d0);
    Loops(d0);
    var done, detached := TidyLoop(d0, |d0.outputs|);
    var e := DropOutputInverts(d0, |d0.outputs|).d;
    PlacedLinks(d0, e, done, detached, |d0.outputs|);
    ReduceAgain(d0, e, done, detached);
  }

  /** What follows once the output loop is done. */
  lemma ReduceAgain(d0: Dag, e: Dag, done: set<nat>, detached: set<nat>)
    requires d0.Shaped() && e.Shaped() && FeedersAreBinary(d0) && e.Inputs() <= e.Size()
    requires Placed(d0, e, done, detached, |d0.outputs|) && Tidy(d0, e, done, detached, |d0.outputs|)
    requires ReduceInverts(e, e.Size() - e.Inputs()).Done? && Emittable(ReduceInverts(e, e.Size() - e.Inputs()).d)
    ensures Reducible(d0)
  {
    hide Wired, Placed, Tidy, Emittable, Passed, Dag.Shaped, ReduceInverts, LinkedBut,
      FeedersAreBinary, CopiesReadNoInvert, BinariesAreHalfGates, StandsAlone, PlainOperand, IsUnary, IsCopy;
    ShapedSizes(d0, 0);
    PlacedLinks(d0, e, done, detached, |d0.outputs|);
    CopiesFollowBinaries(d0, e, done, detached);
    PassedAfter(e, e.Size() - e.Inputs());
    var f := ReduceInverts(e, e.Size() - e.Inputs()).d;
    OutputsCount(d0, e, done, detached);
    OutputsAreKept(d0, e);
    forall j | 0 <= j < |d0.outputs|
      ensures StandsAlone(d0, j)
    {
      MustStandAlone(d0, e, f, done, detached, j);
    }
    forall w: nat, i: nat | IsBinary(d0, w) && i < 2
      ensures PlainOperand(d0, w, i)
    {
      MustBePlain(d0, e, f, done, detached, w, i);
    }
  }

  lemma OutputsCount(d0: Dag, e: Dag, done: set<nat>, detached: set<nat>)
    requires d0.Shaped() && Placed(d0, e, done, detached, |d0.outputs|)
    ensures |e.outputs| == |d0.outputs|
  {
  }

  /** NOT (a AND b), asked for twice: a file that reads well and does not reduce. */
  const SHARED: Dag :=
    Dag(1, 1, [AND, AND, AND, NA, NA], [[], [], [0, 1], [2], [2]], [[2], [2], [3, 4], [], []], [3, 4])

  lemma SharedIsLinked(p: nat, cs: seq<nat>)
    requires SHARED.Shaped() && p < 5 && cs == SHARED.children[p]
    ensures LinkedAt(SHARED, p) && Feeds(SHARED.parents[p], p) == 0
  {
    hide Dag.Shaped;
    assert SHARED.Size() == 5;
    forall w: nat | w < SHARED.Size()
      ensures multiset(cs)[w] == Feeds(SHARED.parents[w], p)
    {
      if p < 2 {
        assert cs == [2];
      } else if p == 2 {
        assert cs == [3, 4];
      } else {
        assert cs == [];
      }
    }
  }

  lemma SharedIsShaped()
    ensures SHARED.Shaped() && SHARED.Ranked([0, 0, 1, 2, 2])
  {
  }

  lemma SharedIsRegular()
    ensures SHARED.Shaped() && Regular(SHARED)
  {
    SharedIsShaped();
    hide Dag.Shaped, LinkedAt, Feeds;
    forall p: nat | p < 5
      ensures LinkedAt(SHARED, p) && Feeds(SHARED.parents[p], p) == 0
    {
      SharedIsLinked(p, SHARED.children[p]);
    }
  }

  lemma SharedFeederStays()
    ensures SHARED.Shaped() && Regular(SHARED)
    ensures !(RemoveInvertGates(SHARED).Done? && Emittable(RemoveInvertGates(SHARED).d))
  {
    SharedIsRegular();
    SharedIsShaped();
    hide Regular, Emittable, RemoveInvertGates, Dag.Shaped, Dag.Ranked;
    assert IsUnary(SHARED, 4) && !StandsAlone(SHARED, 0);
    ReducibleIff(SHARED, [0, 0, 1, 2, 2]);
  }
}
