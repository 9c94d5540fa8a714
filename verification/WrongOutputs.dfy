/**
  When removing INV gates changes what an output computes. The output loop complements the node that
  feeds an output's INV gate. If that node is itself recorded as feeding an output, one of the two
  outputs comes out wrong, on every input.
 */
module WrongOutputs {
  import opened Gates
  import opened Dags
  import opened Inverts
  import opened InvertValues

  /** The output loop has moved output k across its INV gate. */
  ghost predicate Moved(d0: Dag, d: Dag, k: nat)
    requires d0.Shaped() && k < |d0.outputs| == |d.outputs|
  {
    d0.IsInvert(d0.outputs[k]) && d0.IsGate(d.outputs[k]) && d.outputs[k] == d0.parents[d0.outputs[k]][0]
  }

  /** The move of one of the first i outputs complemented node w. */
  ghost predicate Flipped(d0: Dag, d: Dag, i: nat, w: nat)
    requires d0.Shaped() && i <= |d0.outputs| == |d.outputs|
  {
    exists k :: 0 <= k < i && Moved(d0, d, k) && d.outputs[k] == w
  }

  /** One-operand gate w or its operand has been complemented. */
  ghost predicate Touched(d0: Dag, d: Dag, i: nat, w: nat)
    requires d0.Shaped() && i <= |d0.outputs| == |d.outputs| && w < d0.Size() && |d0.parents[w]| == 1
  {
    Flipped(d0, d, i, w) || Flipped(d0, d, i, d0.parents[w][0])
  }

  /** Output k once the loop has passed it: on its node still, or moved and its INV gate off the child list. */
  ghost predicate PassedOutput(d0: Dag, d: Dag, i: nat, k: nat)
    requires d0.Shaped() && k < i <= |d0.outputs| == |d.outputs| && d.Shaped() && d.Size() == d0.Size()
  {
    var g := d0.outputs[k];
    || (d.outputs[k] == g && (d0.IsInvert(g) ==> Touched(d0, d, i, g)))
    || (Moved(d0, d, k) && g !in d.children[d.outputs[k]])
  }

  ghost predicate PassedOutputs(d0: Dag, d: Dag, i: nat)
    requires d0.Shaped() && i <= |d0.outputs| == |d.outputs| && d.Shaped() && d.Size() == d0.Size()
  {
    forall k :: 0 <= k < i ==> PassedOutput(d0, d, i, k)
  }

  ghost predicate AtMostLinked(d: Dag)
    requires d.Shaped()
  {
    forall q: nat, w: nat :: q < d.Size() && w < d.Size() ==> multiset(d.children[q])[w] <= Feeds(d.parents[w], q)
  }

  /** What the output loop has done after i outputs, on any graph. */
  ghost predicate Rough(d0: Dag, d: Dag, i: nat)
    requires d0.Shaped() && i <= |d0.outputs|
  {
    && Keeps(d0, d) && d.parents == d0.parents && AtMostLinked(d)
    && (forall k :: i <= k < |d0.outputs| ==> d.outputs[k] == d0.outputs[k])
    && PassedOutputs(d0, d, i)
    && (forall w :: 0 <= w < d0.Size() && |d0.parents[w]| == 1 && d.types[w] != NA ==> Touched(d0, d, i, w))
  }

  lemma RoughStart(d: Dag)
    requires d.Shaped() && Wired(d)
    ensures Rough(d, d, 0)
  {
    forall q: nat, w: nat | q < d.Size() && w < d.Size()
      ensures multiset(d.children[q])[w] <= Feeds(d.parents[w], q)
    {
      assert LinkedAt(d, q);
    }
  }

  lemma FlippedStays(d0: Dag, d: Dag, e: Dag, i: nat, w: nat)
    requires d0.Shaped() && i < |d0.outputs| == |d.outputs| == |e.outputs| && Flipped(d0, d, i, w)
    requires forall k :: 0 <= k < i ==> e.outputs[k] == d.outputs[k]
    ensures Flipped(d0, e, i + 1, w)
  {
    hide Dag.Shaped;
    var k :| 0 <= k < i && Moved(d0, d, k) && d.outputs[k] == w;
    assert Moved(d0, e, k) && e.outputs[k] == w;
  }

  lemma TouchedStays(d0: Dag, d: Dag, e: Dag, i: nat, w: nat)
    requires d0.Shaped() && i < |d0.outputs| == |d.outputs| == |e.outputs| && w < d0.Size() && |d0.parents[w]| == 1
    requires Touched(d0, d, i, w) && forall k :: 0 <= k < i ==> e.outputs[k] == d.outputs[k]
    ensures Touched(d0, e, i + 1, w)
  {
    hide Flipped;
    if Flipped(d0, d, i, w) {
      FlippedStays(d0, d, e, i, w);
    } else {
      FlippedStays(d0, d, e, i, d0.parents[w][0]);
    }
  }

  /** An output that has been passed stays passed, as child lists only shrink. */
  lemma PassedStays(d0: Dag, d: Dag, e: Dag, i: nat, k: nat)
    requires d0.Shaped() && d.Shaped() && e.Shaped() && d.Size() == e.Size() == d0.Size()
    requires k < i < |d0.outputs| == |d.outputs| == |e.outputs| && PassedOutput(d0, d, i, k)
    requires forall j :: 0 <= j < i ==> e.outputs[j] == d.outputs[j]
    requires forall q: nat, w: nat :: q < d.Size() && w in e.children[q] ==> w in d.children[q]
    ensures PassedOutput(d0, e, i + 1, k)
  {
    hide Touched;
    var g := d0.outputs[k];
    if d.outputs[k] == g && d0.IsInvert(g) && Touched(d0, d, i, g) {
      TouchedStays(d0, d, e, i, g);
    }
  }

  /** A one-operand gate's table changes only if it or its operand is complemented. */
  lemma FlipTouches(d: Dag, p: nat, w: nat)
    requires d.Shaped() && AtMostLinked(d) && p < d.Size() && w < d.Size() && |d.parents[w]| == 1
    requires InvertOutput(d, p).Done?
    requires InvertOutput(d, p).d.types[w] != d.types[w]
    ensures w == p || d.parents[w][0] == p
  {
    InvertChildrenAt(d.types[p := Complement(d.types[p])], d.parents, d.children[p], p, w);
    if multiset(d.children[p])[w] > 0 {
      assert Feeds(d.parents[w], p) > 0;
    }
  }

  lemma RoughKeep(d0: Dag, d: Dag, i: nat)
    requires d0.Shaped() && Wired(d0) && i < |d0.outputs| && Rough(d0, d, i) && !d.IsInvert(d.outputs[i])
    ensures Rough(d0, d, i + 1)
  {
    hide PassedOutput, Touched, AtMostLinked, Wired;
    assert d0.IsInvert(d0.outputs[i]) ==> d.types[d0.outputs[i]] != NA;
    var m := i + 1;
    forall w | 0 <= w < d0.Size() && |d0.parents[w]| == 1 && d.types[w] != NA
      ensures Touched(d0, d, m, w)
    {
      TouchedStays(d0, d, d, i, w);
    }
    forall k | 0 <= k < m
      ensures PassedOutput(d0, d, m, k)
    {
      if k < i {
        PassedStays(d0, d, d, i, k);
      } else {
        StaysOnItsNode(d0, d, i);
      }
    }
  }

  lemma StaysOnItsNode(d0: Dag, d: Dag, i: nat)
    requires d0.Shaped() && i < |d0.outputs| == |d.outputs| && d.Shaped() && d.Size() == d0.Size()
    requires d.outputs[i] == d0.outputs[i]
    requires d0.IsInvert(d0.outputs[i]) ==> Touched(d0, d, i + 1, d0.outputs[i])
    ensures PassedOutput(d0, d, i + 1, i)
  {
    hide Touched;
  }

  lemma ListsShrink(d: Dag, p: nat, g: nat)
    requires d.Shaped() && p < d.Size() && g in d.children[p] && AtMostLinked(d) && |d.parents[g]| == 1
    ensures var cs := d.children[p := RemoveOne(d.children[p], g)];
            && (forall q: nat, w: nat :: q < d.Size() ==> multiset(cs[q])[w] <= multiset(d.children[q])[w])
            && g !in cs[p]
  {
    RemoveOneContents(d.children[p], g);
    hide RemoveOne;
    assert multiset(d.children[p])[g] <= Feeds(d.parents[g], p);
    var cs := d.children[p := RemoveOne(d.children[p], g)];
    assert g !in multiset(cs[p]);
  }

  lemma RoughMove(d0: Dag, d: Dag, i: nat)
    requires d0.Shaped() && Wired(d0) && i < |d0.outputs| && Rough(d0, d, i) && d.IsInvert(d.outputs[i])
    requires DropOutputInvert(d, i).Done?
    ensures Rough(d0, DropOutputInvert(d, i).d, i + 1)
  {
    hide PassedOutputs, Touched, AtMostLinked, Dag.Shaped, Wired, InvertOutput, DropOutputInvert, RemoveOne, Rough;
    RoughShape(d0, d, i);
    MoveFacts(d0, d, i);
    var e, p := DropOutputInvert(d, i).d, d.parents[d.outputs[i]][0];
    MovePasses(d0, d, e, i, p);
    MoveTouches(d0, d, e, i, p);
    MovedIsRough(d0, d, e, i);
  }

  lemma MoveFacts(d0: Dag, d: Dag, i: nat)
    requires d0.Shaped() && Wired(d0) && i < |d0.outputs| && Rough(d0, d, i) && d.IsInvert(d.outputs[i])
    requires DropOutputInvert(d, i).Done?
    ensures var e, p := DropOutputInvert(d, i).d, d.parents[d.outputs[i]][0];
            && d.Shaped() && Keeps(d, e) && Keeps(d0, e) && e.parents == d.parents == d0.parents && p < d.Size()
            && e.outputs == d.outputs[i := p] && d0.IsInvert(d0.outputs[i]) && p == d0.parents[d0.outputs[i]][0]
            && d0.IsGate(p)
            && InvertOutput(d, p).Done? && e.types == InvertOutput(d, p).d.types && d0.outputs[i] !in e.children[p]
            && forall q: nat, w: nat :: q < d.Size() ==> multiset(e.children[q])[w] <= multiset(d.children[q])[w]
  {
    hide PassedOutputs, Touched, Wired, InvertOutput, DropOutputInvert, RemoveOne;
    var g := d.outputs[i];
    InvertsWereInverts(d0, d, g);
    FlipShape(d, i, g, d.parents[g][0]);
    ListsShrink(d, d.parents[g][0], g);
  }

  lemma MovedIsRough(d0: Dag, d: Dag, e: Dag, i: nat)
    requires d0.Shaped() && d.Shaped() && i < |d0.outputs| && Rough(d0, d, i) && Keeps(d, e) && e.parents == d.parents
    requires forall k :: i < k < |d0.outputs| ==> e.outputs[k] == d.outputs[k]
    requires forall q: nat, w: nat :: q < d.Size() ==> multiset(e.children[q])[w] <= multiset(d.children[q])[w]
    requires PassedOutputs(d0, e, i + 1)
    requires forall w :: 0 <= w < d0.Size() && |d0.parents[w]| == 1 && e.types[w] != NA ==> Touched(d0, e, i + 1, w)
    ensures Rough(d0, e, i + 1)
  {
    hide PassedOutput, Touched, AtMostLinked;
    LinksShrink(d, e);
  }

  lemma MovePasses(d0: Dag, d: Dag, e: Dag, i: nat, p: nat)
    requires d0.Shaped() && d.Shaped() && i < |d0.outputs| && Rough(d0, d, i) && Keeps(d, e) && Keeps(d0, e)
    requires p < d.Size() && e.outputs == d.outputs[i := p] && d0.IsInvert(d0.outputs[i])
    requires p == d0.parents[d0.outputs[i]][0] && d0.IsGate(p)
    requires d0.outputs[i] !in e.children[p]
    requires forall q: nat, w: nat :: q < d.Size() ==> multiset(e.children[q])[w] <= multiset(d.children[q])[w]
    ensures PassedOutputs(d0, e, i + 1)
  {
    hide PassedOutput, Touched, AtMostLinked;
    ListedBefore(d, e);
    var m := i + 1;
    forall k | 0 <= k < m
      ensures PassedOutput(d0, e, m, k)
    {
      if k < i {
        PassedStays(d0, d, e, i, k);
      } else {
        MovedIsPassed(d0, e, i);
      }
    }
  }

  lemma MoveTouches(d0: Dag, d: Dag, e: Dag, i: nat, p: nat)
    requires d0.Shaped() && d.Shaped() && i < |d0.outputs| && Rough(d0, d, i) && Keeps(d, e) && Keeps(d0, e)
    requires p < d.Size() && e.outputs == d.outputs[i := p] && d0.IsInvert(d0.outputs[i])
    requires p == d0.parents[d0.outputs[i]][0] && d0.IsGate(p)
    requires InvertOutput(d, p).Done? && e.types == InvertOutput(d, p).d.types
    ensures forall w :: 0 <= w < d0.Size() && |d0.parents[w]| == 1 && e.types[w] != NA ==> Touched(d0, e, i + 1, w)
  {
    hide PassedOutput, Touched, AtMostLinked, InvertOutput;
    forall w | 0 <= w < d0.Size() && |d0.parents[w]| == 1 && e.types[w] != NA
      ensures Touched(d0, e, i + 1, w)
    {
      if d.types[w] != NA {
        TouchedStays(d0, d, e, i, w);
      } else {
        FlipTouches(d, p, w);
        JustTouched(d0, e, i, w);
      }
    }
  }

  lemma LinksShrink(d: Dag, e: Dag)
    requires d.Shaped() && e.Shaped() && AtMostLinked(d) && d.Size() == e.Size() && e.parents == d.parents
    requires forall q: nat, w: nat :: q < d.Size() ==> multiset(e.children[q])[w] <= multiset(d.children[q])[w]
    ensures AtMostLinked(e)
  {
    hide Feeds;
  }

  lemma ListedBefore(d: Dag, e: Dag)
    requires d.Shaped() && e.Shaped() && d.Size() == e.Size()
    requires forall q: nat, w: nat :: q < d.Size() ==> multiset(e.children[q])[w] <= multiset(d.children[q])[w]
    ensures forall q: nat, w: nat :: q < d.Size() && w in e.children[q] ==> w in d.children[q]
  {
    forall q: nat, w: nat | q < d.Size() && w in e.children[q]
      ensures w in d.children[q]
    {
      assert multiset(e.children[q])[w] > 0;
      assert w in multiset(d.children[q]);
    }
  }

  lemma MovedIsPassed(d0: Dag, e: Dag, i: nat)
    requires d0.Shaped() && i < |d0.outputs| == |e.outputs| && e.Shaped() && e.Size() == d0.Size()
    requires Moved(d0, e, i) && d0.outputs[i] !in e.children[e.outputs[i]]
    ensures PassedOutput(d0, e, i + 1, i)
  {
  }

  lemma JustTouched(d0: Dag, e: Dag, i: nat, w: nat)
    requires d0.Shaped() && i < |d0.outputs| == |e.outputs| && w < d0.Size() && |d0.parents[w]| == 1
    requires Moved(d0, e, i) && (e.outputs[i] == w || e.outputs[i] == d0.parents[w][0])
    ensures Touched(d0, e, i + 1, w)
  {
    hide Dag.Shaped;
    assert Flipped(d0, e, i + 1, e.outputs[i]);
  }

  /** The output loop, on any graph. */
  lemma {:induction false} RoughLoop(d0: Dag, n: nat)
    requires d0.Shaped() && Wired(d0) && n <= |d0.outputs| && DropOutputInverts(d0, n).Done?
    ensures Rough(d0, DropOutputInverts(d0, n).d, n)
  {
    hide Rough, Wired, DropOutputInvert, Dag.Shaped, Dag.IsInvert;
    if n == 0 {
      RoughStart(d0);
    } else {
      RoughLoop(d0, n - 1);
      var d := DropOutputInverts(d0, n - 1).d;
      RoughTurn(d0, d, n - 1);
    }
  }

  lemma RoughShape(d0: Dag, d: Dag, i: nat)
    requires d0.Shaped() && i < |d0.outputs| && Rough(d0, d, i)
    ensures d.Shaped() && |d.parents| == d.Size() && |d.outputs| == |d0.outputs| && d.outputs[i] < d.Size()
    ensures !d.IsInvert(d.outputs[i]) ==> DropOutputInvert(d, i) == Done(d)
  {
  }

  lemma RoughTurn(d0: Dag, d: Dag, i: nat)
    requires d0.Shaped() && Wired(d0) && i < |d0.outputs| == |d.outputs| && d.Shaped() && Rough(d0, d, i)
    requires DropOutputInvert(d, i).Done?
    ensures Rough(d0, DropOutputInvert(d, i).d, i + 1)
  {
    RoughShape(d0, d, i);
    hide Rough, Wired, InvertOutput, Dag.Shaped, RemoveOne;
    if d.IsInvert(d.outputs[i]) {
      RoughMove(d0, d, i);
    } else {
      RoughKeep(d0, d, i);
    }
  }

  // ---------------------------------------------------------------- the gate loop

  /** The gate loop lists a gate anew only while it handles that gate. */
  lemma {:induction false} NeverListedAgain(d: Dag, n: nat, q: nat, w: nat)
    requires d.Shaped() && d.Inputs() + n <= w < d.Size() && q < d.Size() && ReduceInverts(d, n).Done?
    requires w !in d.children[q]
    ensures w !in ReduceInverts(d, n).d.children[q]
  {
    hide ReduceInvert, Dag.Shaped;
    if n > 0 {
      NeverListedAgain(d, n - 1, q, w);
      NotListedNow(ReduceInverts(d, n - 1).d, d.Inputs() + n - 1, q, w);
    }
  }

  lemma NotListedNow(d: Dag, u: nat, q: nat, w: nat)
    requires d.Shaped() && d.IsGate(u) && q < d.Size() && u != w && ReduceInvert(d, u).Done? && w !in d.children[q]
    ensures w !in ReduceInvert(d, u).d.children[q]
  {
    if d.IsInvert(u) {
      var p := d.parents[u][0];
      RemoveOneContents(d.children[p], u);
      assert w !in multiset(d.children[q]);
      assert q == p ==> w !in multiset(ReduceInvert(d, u).d.children[p]);
    }
  }

  /** The gate loop runs off the child list at an INV gate that is not listed. */
  lemma MovedGateIsCopy(d: Dag, rank: seq<nat>, g: nat)
    requires d.Shaped() && d.Ranked(rank) && d.IsGate(g) && |d.parents[g]| == 1
    requires g !in d.children[d.parents[g][0]] && ReduceInverts(d, d.Size() - d.Inputs()).Done?
    ensures d.types[g] == A
  {
    hide Carries, Dag.Ranked, Dag.Shaped, ReduceInvert, Absorb;
    var n := g - d.Inputs();
    ShapedSizes(d, g);
    StopsAtPrefix(d, n + 1, d.Size() - d.Inputs());
    LoopCarries(d, n, rank);
    NeverListedAgain(d, n, d.parents[g][0], g);
    var e := ReduceInverts(d, n).d;
    UnlistedInvert(e, g);
    OneOperandTypes(d, g);
  }

  lemma UnlistedInvert(e: Dag, g: nat)
    requires e.Shaped() && e.IsGate(g) && |e.parents[g]| == 1 && g !in e.children[e.parents[g][0]]
    requires ReduceInvert(e, g).Done?
    ensures e.types[g] != NA
  {
  }

  lemma OneOperandTypes(d: Dag, g: nat)
    requires d.Shaped() && d.IsGate(g) && |d.parents[g]| == 1
    ensures d.types[g] == NA || d.types[g] == A
  {
  }

  lemma {:induction false} StopsAtPrefix(d: Dag, m: nat, n: nat)
    requires d.Shaped() && m <= n && d.Inputs() + n <= d.Size() && ReduceInverts(d, n).Done?
    ensures ReduceInverts(d, m).Done?
  {
    hide Dag.Shaped, ReduceInvert;
    if m < n {
      StopsAtPrefix(d, m, n - 1);
    }
  }

  // ---------------------------------------------------------------- what the outputs then compute

  /** The output loop left e, on which the bits u agree at the outputs with the bits v of d0. */
  ghost predicate Agrees(d0: Dag, e: Dag, v: seq<bool>, u: seq<bool>)
    requires d0.Shaped()
  {
    && |v| == |u| == d0.Size() == e.Size() && |e.outputs| == |d0.outputs| && e.Shaped()
    && forall k :: 0 <= k < |d0.outputs| ==> u[e.outputs[k]] == v[d0.outputs[k]]
  }

  lemma InvertBit(d: Dag, x: seq<bool>, v: seq<bool>, g: nat)
    requires d.Shaped() && IsValuation(d, x, v) && d.IsInvert(g)
    ensures v[g] == !v[d.parents[g][0]]
  {
    assert v[g] == GateBit(d, v, g);
  }

  lemma CopyBit(d: Dag, x: seq<bool>, v: seq<bool>, g: nat)
    requires d.Shaped() && IsValuation(d, x, v) && d.IsGate(g) && |d.parents[g]| == 1 && d.types[g] == A
    ensures v[g] == v[d.parents[g][0]]
  {
    assert v[g] == GateBit(d, v, g);
  }

  /** Output b's move complemented the node that output a was recorded on. */
  lemma MoveClashes(d0: Dag, e: Dag, rank: seq<nat>, x: seq<bool>, v: seq<bool>, u: seq<bool>, a: nat, b: nat)
    requires d0.Shaped() && Wired(d0) && Rough(d0, e, |d0.outputs|) && e.Shaped() && e.Ranked(rank)
    requires ReduceInverts(e, e.Size() - e.Inputs()).Done?
    requires IsValuation(d0, x, v) && IsValuation(e, x, u) && Agrees(d0, e, v, u)
    requires a < |d0.outputs| && b < |d0.outputs| && Moved(d0, e, b)
    ensures e.outputs[b] != d0.outputs[a]
  {
    var p := d0.outputs[a];
    assert PassedOutput(d0, e, |d0.outputs|, a);
    InvertBit(d0, x, v, d0.outputs[b]);
    hide IsValuation, Wired, Touched, AtMostLinked, ReduceInverts, Dag.Ranked, Flipped;
    if e.outputs[a] != p {
      MovedGateIsCopy(e, rank, p);
      CopyBit(e, x, u, p);
    }
  }

  /** If both compute the same outputs, no node that feeds an output's INV gate is itself recorded as an output. */
  lemma SameOutputsNeed(d0: Dag, rank: seq<nat>)
    requires d0.Shaped() && d0.Ranked(rank) && Wired(d0) && RemoveInvertGates(d0).Done?
    requires RemoveInvertGates(d0).d.Ranked(rank) && SameOutputs(d0, RemoveInvertGates(d0).d, rank)
    ensures FeedersAreNotOutputs(d0)
  {
    hide *;
    LoopsReturn(d0);
    var e, d := DropOutputInverts(d0, |d0.outputs|).d, RemoveInvertGates(d0).d;
    RoughLoop(d0, |d0.outputs|);
    GateLoopCarries(d0, e, rank);
    OneInputTells(d0, e, d, rank);
  }

  lemma GateLoopCarries(d0: Dag, e: Dag, rank: seq<nat>)
    requires d0.Shaped() && d0.Ranked(rank) && e.Shaped() && Keeps(d0, e) && e.parents == d0.parents
    requires e.Inputs() <= e.Size()
    requires ReduceInverts(e, e.Size() - e.Inputs()).Done?
    ensures e.Ranked(rank) && Carries(e, ReduceInverts(e, e.Size() - e.Inputs()).d)
  {
    hide Dag.Shaped, Dag.Ranked, ReduceInverts, Carries, Untouched;
    SameParentsSameRank(d0, e, rank);
    LoopCarries(e, e.Size() - e.Inputs(), rank);
  }

  lemma OneInputTells(d0: Dag, e: Dag, d: Dag, rank: seq<nat>)
    requires d0.Shaped() && d0.Ranked(rank) && Wired(d0) && Rough(d0, e, |d0.outputs|) && e.Shaped() && e.Ranked(rank)
    requires Keeps(d0, e) && Keeps(d0, d) && d.outputs == e.outputs && d.Ranked(rank) && Carries(e, d)
    requires e.Inputs() <= e.Size()
    requires ReduceInverts(e, e.Size() - e.Inputs()).Done? && SameOutputs(d0, d, rank)
    ensures FeedersAreNotOutputs(d0)
  {
    hide Dag.Shaped, Dag.Ranked, Wired, Rough, ReduceInverts, SameOutputs, IsValuation, NodeBit, Agrees, Carries,
         FeedersAreNotOutputs;
    var x := seq(d0.Inputs(), _ => false);
    var v, u := Valuation(d0, rank, x), Valuation(e, rank, x);
    OutputsAgree(d0, e, d, rank, x, v, u);
    NoClashes(d0, e, rank, x, v, u);
  }

  lemma LoopsReturn(d0: Dag)
    requires d0.Shaped() && RemoveInvertGates(d0).Done?
    ensures DropOutputInverts(d0, |d0.outputs|).Done?
    ensures var e, d := DropOutputInverts(d0, |d0.outputs|).d, RemoveInvertGates(d0).d;
            && Keeps(d0, e) && Keeps(d0, d) && d.Shaped() && e.Shaped()
            && d0.Inputs() == e.Inputs() <= e.Size() == d0.Size()
            && |d.outputs| == |e.outputs| == |d0.outputs| && d.outputs == e.outputs && e.parents == d0.parents
            && ReduceInverts(e, e.Size() - e.Inputs()) == RemoveInvertGates(d0)
  {
    hide DropOutputInvert, ReduceInvert;
    ShapedSizes(DropOutputInverts(d0, |d0.outputs|).d, 0);
  }

  lemma NoClashes(d0: Dag, e: Dag, rank: seq<nat>, x: seq<bool>, v: seq<bool>, u: seq<bool>)
    requires d0.Shaped() && Wired(d0) && Rough(d0, e, |d0.outputs|) && e.Shaped() && e.Ranked(rank)
    requires ReduceInverts(e, e.Size() - e.Inputs()).Done?
    requires IsValuation(d0, x, v) && IsValuation(e, x, u) && Agrees(d0, e, v, u)
    ensures FeedersAreNotOutputs(d0)
  {
    hide IsValuation, Wired, Dag.Ranked, ReduceInverts, Rough, Agrees;
    forall b: nat, a: nat | b < |d0.outputs| && a < |d0.outputs| && d0.IsInvert(d0.outputs[b])
      ensures d0.outputs[a] != d0.parents[d0.outputs[b]][0]
    {
      PairClashes(d0, e, rank, x, v, u, a, b);
    }
  }

  lemma OutputsAgree(d0: Dag, e: Dag, d: Dag, rank: seq<nat>, x: seq<bool>, v: seq<bool>, u: seq<bool>)
    requires d0.Shaped() && d0.Ranked(rank) && e.Shaped() && Keeps(d0, e) && Keeps(d0, d) && d.Ranked(rank)
    requires Carries(e, d) && d.outputs == e.outputs
    requires |x| == d0.Inputs() && v == Valuation(d0, rank, x) && IsValuation(e, x, u)
    requires SameOutputs(d0, d, rank)
    ensures Agrees(d0, e, v, u)
  {
    ShapedSizes(d, 0);
    ShapedSizes(d0, 0);
    ValuationSizes(e, x, u);
    hide Dag.Shaped, Dag.Ranked, IsValuation, NodeBit;
    forall k | 0 <= k < |d0.outputs|
      ensures u[e.outputs[k]] == v[d0.outputs[k]]
    {
      assert OutputSame(d0, d, rank, x, k);
      ValuationIsUnique(d, rank, x, u, d.outputs[k]);
    }
  }

  lemma PairClashes(d0: Dag, e: Dag, rank: seq<nat>, x: seq<bool>, v: seq<bool>, u: seq<bool>, a: nat, b: nat)
    requires d0.Shaped() && Wired(d0) && Rough(d0, e, |d0.outputs|) && e.Shaped() && e.Ranked(rank)
    requires ReduceInverts(e, e.Size() - e.Inputs()).Done?
    requires IsValuation(d0, x, v) && IsValuation(e, x, u) && Agrees(d0, e, v, u)
    requires a < |d0.outputs| && b < |d0.outputs| && d0.IsInvert(d0.outputs[b])
    ensures d0.outputs[a] != d0.parents[d0.outputs[b]][0]
  {
    assert PassedOutput(d0, e, |d0.outputs|, b);
    hide IsValuation, Wired, Dag.Ranked, ReduceInverts, Rough, Agrees;
    if Moved(d0, e, b) {
      MoveClashes(d0, e, rank, x, v, u, a, b);
    } else {
      var g := d0.outputs[b];
      if Flipped(d0, e, |d0.outputs|, g) {
        var k :| 0 <= k < |d0.outputs| && Moved(d0, e, k) && e.outputs[k] == g;
        MoveClashes(d0, e, rank, x, v, u, b, k);
      } else {
        var k :| 0 <= k < |d0.outputs| && Moved(d0, e, k) && e.outputs[k] == d0.parents[g][0];
        MoveClashes(d0, e, rank, x, v, u, a, k);
      }
    }
  }

  lemma SameAsSame(a: Dag, b: Dag, c: Dag, rank: seq<nat>)
    requires a.Shaped() && b.Shaped() && c.Shaped() && a.Ranked(rank) && b.Ranked(rank) && c.Ranked(rank)
    requires a.Inputs() == b.Inputs() == c.Inputs() && |a.outputs| == |b.outputs| == |c.outputs|
    requires SameOutputs(b, c, rank)
    ensures SameOutputs(a, c, rank) <==> SameOutputs(a, b, rank)
  {
    hide Dag.Shaped, Dag.Ranked, NodeBit;
    if SameOutputs(a, c, rank) {
      forall x: seq<bool>, k: nat | |x| == a.Inputs() && k < |a.outputs|
        ensures OutputSame(a, b, rank, x, k)
      {
        assert OutputSame(a, c, rank, x, k) && OutputSame(b, c, rank, x, k);
      }
    }
    if SameOutputs(a, b, rank) {
      forall x: seq<bool>, k: nat | |x| == a.Inputs() && k < |a.outputs|
        ensures OutputSame(a, c, rank, x, k)
      {
        assert OutputSame(a, b, rank, x, k) && OutputSame(b, c, rank, x, k);
      }
    }
  }

  /**
    removeInvertGates, when it returns, keeps what the outputs compute if and only if no node that feeds an output's INV
    gate is itself an output, and inverting both operands of every gate that reads such a node twice changes no output.
   */
  lemma SameOutputsIff(d0: Dag, rank: seq<nat>)
    requires d0.Shaped() && d0.Ranked(rank) && Wired(d0) && RemoveInvertGates(d0).Done?
    ensures RemoveInvertGates(d0).d.Ranked(rank) && Twisted(d0, Feeders(d0)).Ranked(rank)
    ensures SameOutputs(d0, RemoveInvertGates(d0).d, rank) <==>
            FeedersAreNotOutputs(d0) && SameOutputs(d0, Twisted(d0, Feeders(d0)), rank)
  {
    RankSurvives(d0, rank);
    hide Wired, Dag.Shaped, Dag.Ranked, SameOutputs, RemoveInvertGates, FeedersAreNotOutputs, Twisted, Feeders;
    SameParentsSameRank(d0, Twisted(d0, Feeders(d0)), rank);
    if FeedersAreNotOutputs(d0) {
      RemoveInvertGatesComputes(d0, rank);
      SameAsSame(d0, Twisted(d0, Feeders(d0)), RemoveInvertGates(d0).d, rank);
    } else if SameOutputs(d0, RemoveInvertGates(d0).d, rank) {
      SameOutputsNeed(d0, rank);
    }
  }

  /** A gate that does not tell equal operands apart keeps its bit. */
  lemma TwistedGate(d: Dag, nodes: set<nat>, v: seq<bool>, w: nat)
    requires d.Shaped() && d.IsGate(w) && |v| == d.Size()
    requires ReadsTwice(d.parents[w], nodes) ==> d.types[w].bit0 == d.types[w].bit3
    ensures GateBit(Twisted(d, nodes), v, w) == GateBit(d, v, w)
  {
  }

  /**
    In particular the outputs are kept if, besides, no gate that tells equal operands apart reads such a node twice.
   */
  lemma RemoveInvertGatesPreserves(d0: Dag, rank: seq<nat>)
    requires d0.Shaped() && d0.Ranked(rank) && Wired(d0) && FeedersSafe(d0) && FeedersAreNotOutputs(d0)
    requires RemoveInvertGates(d0).Done?
    ensures RemoveInvertGates(d0).d.Ranked(rank) && SameOutputs(d0, RemoveInvertGates(d0).d, rank)
  {
    SameOutputsIff(d0, rank);
    SafeTwist(d0, rank);
  }

  lemma SafeTwist(d0: Dag, rank: seq<nat>)
    requires d0.Shaped() && d0.Ranked(rank) && FeedersSafe(d0)
    ensures Twisted(d0, Feeders(d0)).Ranked(rank) && SameOutputs(d0, Twisted(d0, Feeders(d0)), rank)
  {
    var t := Twisted(d0, Feeders(d0));
    SameParentsSameRank(d0, t, rank);
    ShapedSizes(d0, 0);
    hide Twisted, Dag.Ranked, NodeBit, Dag.Shaped, IsValuation, IsFeeder;
    forall x: seq<bool>, k: nat | |x| == d0.Inputs() && k < |d0.outputs|
      ensures OutputSame(d0, t, rank, x, k)
    {
      var v := Valuation(d0, rank, x);
      SafeTwistMeans(d0, x, v);
      ShapedSizes(t, 0);
      ValuationSizes(d0, x, v);
      ValuationIsUnique(t, rank, x, v, t.outputs[k]);
    }
  }

  lemma SafeTwistMeans(d0: Dag, x: seq<bool>, v: seq<bool>)
    requires d0.Shaped() && FeedersSafe(d0) && IsValuation(d0, x, v)
    ensures IsValuation(Twisted(d0, Feeders(d0)), x, v)
  {
    hide Twisted, Dag.Shaped, GateBit, IsFeeder;
    var t := Twisted(d0, Feeders(d0));
    forall w: nat | d0.IsGate(w)
      ensures GateBit(t, v, w) == GateBit(d0, v, w)
    {
      ShapedSizes(d0, w);
      if ReadsTwice(d0.parents[w], Feeders(d0)) {
        assert DoubleSafeFor(d0, d0.parents[w][0]) && Feeds(d0.parents[w], d0.parents[w][0]) == 2;
      }
      TwistedGate(d0, Feeders(d0), v, w);
    }
  }

  lemma RankSurvives(d0: Dag, rank: seq<nat>)
    requires d0.Shaped() && d0.Ranked(rank) && RemoveInvertGates(d0).Done?
    ensures RemoveInvertGates(d0).d.Ranked(rank)
  {
    hide Dag.Ranked, DropOutputInverts, ReduceInverts, Dag.Shaped;
    var e := DropOutputInverts(d0, |d0.outputs|).d;
    ShapedSizes(e, 0);
    SameParentsSameRank(d0, e, rank);
    LoopCarries(e, e.Size() - e.Inputs(), rank);
  }

  /** Node 2 = node 0 and node 1, node 3 = not node 2, and both are outputs. */
  const BOTH: Dag := Dag(1, 1, [A, A, AND, NA], [[], [], [0, 1], [2]], [[2], [2], [3], []], [2, 3])

  /** What removeInvertGates makes of it. */
  const BOTHAFTER: Dag := Dag(1, 1, [A, A, NAND, A], [[], [], [0, 1], [2]], [[2], [2], [], []], [2, 2])

  lemma BothShaped()
    ensures BOTH.Shaped() && BOTH.Ranked([0, 0, 1, 2])
  {
  }

  lemma AfterShaped()
    ensures BOTHAFTER.Shaped() && BOTHAFTER.Ranked([0, 0, 1, 2])
  {
  }

  lemma BothFlips()
    ensures BOTH.Shaped() && InvertOutput(BOTH, 2) == Done(BOTH.(types := [A, A, NAND, A]))
  {
    BothShaped();
    AfterShaped();
    hide Dag.Shaped;
    var types := [A, A, NAND, NA];
    assert BOTH.types[2 := Complement(BOTH.types[2])] == types;
    assert BOTH.children[2] == [3] && BOTH.parents[3] == [2];
    assert InvertChildren(types, BOTH.parents, [], 2) == types;
    assert InvertChildren(types, BOTH.parents, [3], 2) == [A, A, NAND, A];
    assert forall i :: 0 <= i < |BOTH.children[2]| ==> 2 in BOTH.parents[BOTH.children[2][i]];
  }

  lemma BothMoves()
    ensures BOTH.Shaped() && DropOutputInvert(BOTH, 0) == Done(BOTH) && DropOutputInvert(BOTH, 1) == Done(BOTHAFTER)
  {
    BothShaped();
    AfterShaped();
    BothFlips();
    hide Dag.Shaped, InvertOutput;
    assert RemoveOne([3], 3) == [];
    assert BOTH.children[2 := []] == BOTHAFTER.children && BOTH.outputs[1 := 2] == BOTHAFTER.outputs;
  }

  lemma BothBecomes()
    ensures BOTH.Shaped() && RemoveInvertGates(BOTH) == Done(BOTHAFTER)
  {
    BothShaped();
    AfterShaped();
    BothMoves();
    BothGates();
    hide Dag.Shaped, DropOutputInvert, ReduceInvert;
    assert DropOutputInverts(BOTH, 1) == Done(BOTH);
    assert DropOutputInverts(BOTH, 2) == Done(BOTHAFTER);
    assert ReduceInverts(BOTHAFTER, 1) == Done(BOTHAFTER);
    assert ReduceInverts(BOTHAFTER, 2) == Done(BOTHAFTER);
  }

  lemma BothGates()
    ensures BOTHAFTER.Shaped() && ReduceInvert(BOTHAFTER, 2) == Done(BOTHAFTER)
    ensures ReduceInvert(BOTHAFTER, 3) == Done(BOTHAFTER)
  {
    BothShaped();
    AfterShaped();
    hide Dag.Shaped;
  }

  /** A file that asks for c and for NOT c gets NOT c twice: the first output is wrong on every input. */
  lemma BothPolaritiesGoWrong(x: seq<bool>)
    requires |x| == 2
    ensures BOTH.Shaped() && BOTH.Ranked([0, 0, 1, 2]) && RemoveInvertGates(BOTH) == Done(BOTHAFTER)
    ensures BOTHAFTER.Shaped()
    ensures BOTHAFTER.Ranked([0, 0, 1, 2])
    ensures NodeBit(BOTHAFTER, [0, 0, 1, 2], x, BOTHAFTER.outputs[0]) ==
      !NodeBit(BOTH, [0, 0, 1, 2], x, BOTH.outputs[0])
    ensures NodeBit(BOTHAFTER, [0, 0, 1, 2], x, BOTHAFTER.outputs[1]) == NodeBit(BOTH, [0, 0, 1, 2], x, BOTH.outputs[1])
  {
    BothShaped();
    AfterShaped();
    BothBecomes();
    hide RemoveInvertGates;
    var d0, d, rank := BOTH, BOTHAFTER, [0, 0, 1, 2];
    assert NodeBit(d0, rank, x, 0) == NodeBit(d, rank, x, 0) == x[0];
    assert NodeBit(d0, rank, x, 1) == NodeBit(d, rank, x, 1) == x[1];
    assert NodeBit(d0, rank, x, 2) == (x[0] && x[1]);
    assert NodeBit(d, rank, x, 2) == !(x[0] && x[1]);
    assert NodeBit(d0, rank, x, 3) == !(x[0] && x[1]);
  }

  /** What removeInvertGates makes of the graph whose output INV gate has a feeder that a conjunction reads twice. */
  const DOUBLEDAFTER: Dag :=
    Dag(1, 1, [A, A, NAND, AND, A], [[], [], [0, 1], [2, 2], [2]], [[2], [2], [3, 3], [], []], [3, 2])

  lemma DoubledAfterShaped()
    ensures DOUBLEDAFTER.Shaped() && DOUBLEDAFTER.Ranked([0, 0, 1, 2, 2])
  {
  }

  lemma DoubledFlips()
    ensures DOUBLED.Shaped() && InvertOutput(DOUBLED, 2) == Done(DOUBLED.(types := [A, A, NAND, AND, A]))
  {
    DoubledIsShaped();
    hide Dag.Shaped;
    var d, types := DOUBLED, [A, A, NAND, AND, NA];
    assert d.types[2 := Complement(d.types[2])] == types;
    assert d.children[2] == [3, 3, 4] && d.parents[3] == [2, 2] && d.parents[4] == [2];
    assert forall i :: 0 <= i < |d.children[2]| ==> 2 in d.parents[d.children[2][i]];
    DoubledChildren(types, d.parents);
  }

  lemma DoubledChildren(types: seq<GateType>, parents: seq<seq<nat>>)
    requires types == [A, A, NAND, AND, NA] && parents == [[], [], [0, 1], [2, 2], [2]]
    ensures InvertChildren(types, parents, [3, 3, 4], 2) == [A, A, NAND, AND, A]
  {
    var r := InvertChildren(types, parents, [3, 3, 4], 2);
    forall w: nat | w < 5
      ensures r[w] == [A, A, NAND, AND, A][w]
    {
      InvertChildrenAt(types, parents, [3, 3, 4], 2, w);
      assert w == 0 || w == 1 || w == 2 || w == 3 || w == 4;
    }
  }

  lemma DoubledMoves()
    ensures DOUBLED.Shaped() && DropOutputInvert(DOUBLED, 0) == Done(DOUBLED)
    ensures DropOutputInvert(DOUBLED, 1) == Done(DOUBLEDAFTER)
  {
    DoubledIsShaped();
    DoubledFlips();
    hide Dag.Shaped, InvertOutput;
    LastOfThree();
    assert DOUBLED.children[2 := [3, 3]] == DOUBLEDAFTER.children && DOUBLED.outputs[1 := 2] == DOUBLEDAFTER.outputs;
  }

  lemma LastOfThree()
    ensures RemoveOne([3, 3, 4], 4) == [3, 3]
  {
    var s: seq<nat> := [3, 3, 4];
    var i := FirstIndex(s, 4);
    assert i == 2;
  }

  lemma DoubledGates()
    ensures DOUBLEDAFTER.Shaped() && ReduceInvert(DOUBLEDAFTER, 2) == Done(DOUBLEDAFTER)
    ensures ReduceInvert(DOUBLEDAFTER, 3) == Done(DOUBLEDAFTER) && ReduceInvert(DOUBLEDAFTER, 4) == Done(DOUBLEDAFTER)
  {
    DoubledAfterShaped();
    hide Dag.Shaped;
  }

  lemma DoubledBecomes()
    ensures DOUBLED.Shaped() && RemoveInvertGates(DOUBLED) == Done(DOUBLEDAFTER)
  {
    DoubledIsShaped();
    DoubledMoves();
    DoubledGates();
    hide Dag.Shaped, DropOutputInvert, ReduceInvert;
    assert DropOutputInverts(DOUBLED, 1) == Done(DOUBLED);
    assert DropOutputInverts(DOUBLED, 2) == Done(DOUBLEDAFTER);
    assert ReduceInverts(DOUBLEDAFTER, 1) == Done(DOUBLEDAFTER);
    assert ReduceInverts(DOUBLEDAFTER, 2) == Done(DOUBLEDAFTER);
    assert ReduceInverts(DOUBLEDAFTER, 3) == Done(DOUBLEDAFTER);
  }

  /** With outputs c AND c and NOT c no feeder is an output, and still the first output is wrong on every input. */
  lemma DoubledFeederGoesWrong(x: seq<bool>)
    requires |x| == 2
    ensures DOUBLED.Shaped() && DOUBLED.Ranked([0, 0, 1, 2, 2]) && DOUBLEDAFTER.Shaped()
    ensures DOUBLEDAFTER.Ranked([0, 0, 1, 2, 2])
    ensures FeedersAreNotOutputs(DOUBLED) && RemoveInvertGates(DOUBLED) == Done(DOUBLEDAFTER)
    ensures NodeBit(DOUBLEDAFTER, [0, 0, 1, 2, 2], x, DOUBLEDAFTER.outputs[0]) ==
      !NodeBit(DOUBLED, [0, 0, 1, 2, 2], x, DOUBLED.outputs[0])
  {
    DoubledIsShaped();
    DoubledAfterShaped();
    DoubledBecomes();
    hide RemoveInvertGates;
    var d0, d, rank := DOUBLED, DOUBLEDAFTER, [0, 0, 1, 2, 2];
    assert NodeBit(d0, rank, x, 0) == NodeBit(d, rank, x, 0) == x[0];
    assert NodeBit(d0, rank, x, 1) == NodeBit(d, rank, x, 1) == x[1];
    assert NodeBit(d0, rank, x, 2) == (x[0] && x[1]) == !NodeBit(d, rank, x, 2);
    assert NodeBit(d0, rank, x, 3) == NodeBit(d0, rank, x, 2) && NodeBit(d, rank, x, 3) == NodeBit(d, rank, x, 2);
  }

  /** Node 3 = not node 2 and node 4 = not node 3, both outputs. */
  const CHAIN: Dag := Dag(1, 1, [A, A, AND, NA, NA], [[], [], [0, 1], [2], [3]], [[2], [2], [3], [4], []], [3, 4])

  /** What the output loop makes of it: node 3 negates again, but its parent has let go of it. */
  const CHAINAFTER: Dag := Dag(1, 1, [A, A, NAND, NA, A], [[], [], [0, 1], [2], [3]], [[2], [2], [], [], []], [2, 3])

  const CHAINBETWEEN: Dag := Dag(1, 1, [A, A, NAND, A, NA], [[], [], [0, 1], [2], [3]], [[2], [2], [], [4], []], [2, 4])

  lemma ChainShaped()
    ensures CHAIN.Shaped()
  {
  }

  lemma ChainBetweenShaped()
    ensures CHAINBETWEEN.Shaped()
  {
  }

  lemma ChainAfterShaped()
    ensures CHAINAFTER.Shaped()
  {
  }

  lemma ChainFlips()
    ensures CHAIN.Shaped() && DropOutputInvert(CHAIN, 0) == Done(CHAINBETWEEN)
  {
    ChainShaped();
    hide Dag.Shaped;
    var types := [A, A, NAND, NA, NA];
    assert CHAIN.types[2 := Complement(CHAIN.types[2])] == types;
    assert CHAIN.children[2] == [3] && CHAIN.parents[3] == [2];
    assert InvertChildren(types, CHAIN.parents, [], 2) == types;
    assert InvertChildren(types, CHAIN.parents, [3], 2) == [A, A, NAND, A, NA];
    assert InvertOutput(CHAIN, 2) == Done(CHAIN.(types := [A, A, NAND, A, NA]));
    hide InvertOutput;
    assert RemoveOne([3], 3) == [];
    assert CHAIN.children[2 := []] == CHAINBETWEEN.children && CHAIN.outputs[0 := 2] == CHAINBETWEEN.outputs;
  }

  lemma ChainFlipsAgain()
    ensures CHAINBETWEEN.Shaped() && DropOutputInvert(CHAINBETWEEN, 1) == Done(CHAINAFTER)
  {
    ChainBetweenShaped();
    hide Dag.Shaped;
    var d, types := CHAINBETWEEN, [A, A, NAND, NA, NA];
    assert d.types[3 := Complement(d.types[3])] == types;
    assert d.children[3] == [4] && d.parents[4] == [3];
    assert InvertChildren(types, d.parents, [], 3) == types;
    assert InvertChildren(types, d.parents, [4], 3) == [A, A, NAND, NA, A];
    assert InvertOutput(d, 3) == Done(d.(types := [A, A, NAND, NA, A]));
    hide InvertOutput;
    assert RemoveOne([4], 4) == [];
    assert d.children[3 := []] == CHAINAFTER.children && d.outputs[1 := 3] == CHAINAFTER.outputs;
  }

  /** With outputs c, NOT c chained behind each other, the gate loop looks for a child that is no longer listed. */
  lemma ChainRunsOff()
    ensures CHAIN.Shaped() && !OutputsDoNotChain(CHAIN) && RemoveInvertGates(CHAIN) == Undefined
  {
    ChainShaped();
    ChainFlips();
    ChainFlipsAgain();
    ChainAfterShaped();
    hide Dag.Shaped, DropOutputInvert;
    assert CHAIN.outputs[0] == CHAIN.parents[CHAIN.outputs[1]][0];
    assert DropOutputInverts(CHAIN, 1) == Done(CHAINBETWEEN);
    assert DropOutputInverts(CHAIN, 2) == Done(CHAINAFTER);
    assert ReduceInverts(CHAINAFTER, 1) == Done(CHAINAFTER);
    assert ReduceInverts(CHAINAFTER, 2) == Undefined;
  }
}
