/**
  On a graph whose output INV gates stand alone, removing INV gates succeeds and leaves no gate that
  the circuit format or the half-gate scheme refuses.
 */
module Reduction {
  import opened Gates
  import opened Dags
  import opened Inverts
  import opened InvertValues
  import opened WrongOutputs
  import opened Reaches

  predicate IsUnary(d: Dag, w: nat)
    requires |d.parents| == d.Size()
  {
    d.IsGate(w) && |d.parents[w]| == 1
  }

  predicate IsBinary(d: Dag, w: nat)
    requires |d.parents| == d.Size()
  {
    d.IsGate(w) && |d.parents[w]| == 2
  }

  /** Output j, if an INV gate drives it, comes from a two-operand gate that has no other INV gate. */
  ghost predicate StandsAlone(d: Dag, j: nat)
    requires d.Shaped() && j < |d.outputs|
  {
    var g := d.outputs[j];
    IsUnary(d, g) ==>
      && IsBinary(d, d.parents[g][0])
      && forall u: nat :: IsUnary(d, u) && d.parents[u][0] == d.parents[g][0] ==> u == g
  }

  /** Operand i of gate w, if it is an INV gate, drives no output and follows no INV gate. */
  ghost predicate PlainOperand(d: Dag, w: nat, i: nat)
    requires d.Shaped() && w < d.Size() && i < |d.parents[w]|
  {
    var u := d.parents[w][i];
    IsUnary(d, u) ==> u !in d.outputs && !IsUnary(d, d.parents[u][0])
  }

  /** What every graph read from a file has. */
  ghost predicate Regular(d: Dag)
    requires d.Shaped()
  {
    && Wired(d)
    && (forall w: nat :: IsBinary(d, w) ==> HasHalfGate(d.types[w]))
    && (forall j, k :: 0 <= j < k < |d.outputs| ==> d.outputs[j] != d.outputs[k])
  }

  /** What removeInvertGates needs of the graph it is given to rid it of INV gates altogether. */
  ghost predicate Reducible(d: Dag)
    requires d.Shaped()
  {
    && (forall j :: 0 <= j < |d.outputs| ==> StandsAlone(d, j))
    && (forall w: nat, i: nat :: IsBinary(d, w) && i < 2 ==> PlainOperand(d, w, i))
  }

  /** The output loop only ever flips two-operand gates. */
  ghost predicate FeedersAreBinary(d: Dag)
    requires d.Shaped()
  {
    forall j :: 0 <= j < |d.outputs| && IsUnary(d, d.outputs[j]) ==> IsBinary(d, d.parents[d.outputs[j]][0])
  }

  // ---------------------------------------------------------------- the output loop

  /** The type of gate w in the output loop, `done` being the flipped feeders. */
  ghost predicate TidyType(d0: Dag, d: Dag, done: set<nat>, w: nat)
    requires d0.Shaped() && d.Size() == d0.Size()
  {
    && (IsBinary(d0, w) ==> HasHalfGate(d.types[w]))
    && (IsUnary(d0, w) ==> d.types[w] == if d0.parents[w][0] in done then A else NA)
  }

  /** Output k once the loop has passed it: moved off its INV gate, or left because another output took the feeder. */
  ghost predicate TidyOutput(d0: Dag, d: Dag, done: set<nat>, detached: set<nat>, k: nat)
    requires d0.Shaped() && k < |d0.outputs| == |d.outputs|
  {
    var g := d0.outputs[k];
    if g in detached then IsUnary(d0, g) && d.outputs[k] == d0.parents[g][0]
    else d.outputs[k] == g && (IsUnary(d0, g) ==> d0.parents[g][0] in done)
  }

  ghost predicate TidyTypes(d0: Dag, d: Dag, done: set<nat>)
    requires d0.Shaped()
  {
    d.Size() == d0.Size() && forall w: nat :: w < d0.Size() ==> TidyType(d0, d, done, w)
  }

  ghost predicate TidyOutputs(d0: Dag, d: Dag, done: set<nat>, detached: set<nat>, i: nat)
    requires d0.Shaped() && i <= |d0.outputs|
  {
    |d.outputs| == |d0.outputs| && forall k: nat :: k < i ==> TidyOutput(d0, d, done, detached, k)
  }

  /** Each flipped feeder has let go of exactly one INV gate, one of the outputs seen. */
  ghost predicate Matched(d0: Dag, done: set<nat>, detached: set<nat>, seen: seq<nat>)
    requires d0.Shaped()
  {
    && (forall w :: w in detached ==> IsUnary(d0, w) && d0.parents[w][0] in done && w in seen)
    && (forall u, w :: u in detached && w in detached && d0.parents[u][0] == d0.parents[w][0] ==> u == w)
    && (forall p :: p in done ==> exists w :: w in detached && d0.parents[w][0] == p)
  }

  /** The state of the output loop after i outputs. */
  ghost predicate Tidy(d0: Dag, d: Dag, done: set<nat>, detached: set<nat>, i: nat)
    requires d0.Shaped() && i <= |d0.outputs|
  {
    TidyTypes(d0, d, done) && Matched(d0, done, detached, d0.outputs[..i]) && TidyOutputs(d0, d, done, detached, i)
  }

  lemma HalfGatesStay(gt: GateType, parents: seq<nat>, p: nat)
    requires HasHalfGate(gt)
    ensures HasHalfGate(Complement(gt)) && HasHalfGate(InvertInputs(gt, parents, p))
    ensures HasHalfGate(Invert(0, gt)) && HasHalfGate(Invert(1, gt))
  {
  }

  lemma TidyTypeStep(d0: Dag, d: Dag, e: Dag, done: set<nat>, p: nat, w: nat)
    requires d0.Shaped() && d.Shaped() && e.Size() == d.Size() == d0.Size() && w < d.Size() && d.parents == d0.parents
    requires d.Inputs() == d0.Inputs() && TidyType(d0, d, done, w) && p !in done && IsBinary(d0, p)
    requires d.IsGate(p) && LinkedAt(d, p) && Feeds(d.parents[p], p) == 0
    requires InvertOutput(d, p).Done? && e.types == InvertOutput(d, p).d.types
    ensures TidyType(d0, e, done + {p}, w)
  {
    ShapedSizes(d0, w);
    hide LinkedAt, InvertOutput, Complement, HasHalfGate, Dag.Shaped;
    InvertedTypes(d, p, w);
    if IsBinary(d0, w) {
      HalfGatesStay(d.types[w], d.parents[w], p);
    }
  }

  lemma RegularIsWired(d: Dag)
    requires d.Shaped() && Regular(d)
    ensures Wired(d)
  {
  }

  lemma PlacedShape(d0: Dag, d: Dag, done: set<nat>, detached: set<nat>, i: nat)
    requires d0.Shaped() && i < |d0.outputs| && Placed(d0, d, done, detached, i)
    ensures d.Shaped() && d.Size() == d0.Size() && d.Inputs() == d0.Inputs() && d.parents == d0.parents
    ensures |d.outputs| == |d0.outputs| && d.outputs[i] == d0.outputs[i]
  {
  }

  /** The output that the loop comes to is the node's first. */
  lemma OutputIsNew(d0: Dag, d: Dag, done: set<nat>, detached: set<nat>, i: nat)
    requires d0.Shaped() && Regular(d0) && i < |d0.outputs| && Tidy(d0, d, done, detached, i)
    ensures d0.outputs[i] !in detached && d0.outputs[i] !in d0.outputs[..i]
    ensures d0.outputs[..i + 1] == d0.outputs[..i] + [d0.outputs[i]]
  {
    hide Wired, HasHalfGate, TidyType, TidyOutput;
  }

  lemma MatchOneMore(d0: Dag, done: set<nat>, detached: set<nat>, seen: seq<nat>, g: nat)
    requires d0.Shaped() && Matched(d0, done, detached, seen) && IsUnary(d0, g) && d0.parents[g][0] !in done
    ensures Matched(d0, done + {d0.parents[g][0]}, detached + {g}, seen + [g])
  {
    forall p | p in done
      ensures exists w :: w in detached + {g} && IsUnary(d0, w) && d0.parents[w][0] == p
    {
      var w :| w in detached && IsUnary(d0, w) && d0.parents[w][0] == p;
      assert w in detached + {g};
    }
    assert g in detached + {g};
  }

  lemma MatchSame(d0: Dag, done: set<nat>, detached: set<nat>, seen: seq<nat>, g: nat)
    requires d0.Shaped() && Matched(d0, done, detached, seen)
    ensures Matched(d0, done, detached, seen + [g])
  {
    hide Dag.Shaped;
  }

  lemma FlipTypes(d0: Dag, d: Dag, e: Dag, done: set<nat>, p: nat)
    requires d0.Shaped() && d.Shaped() && d.parents == d0.parents && d.Inputs() == d0.Inputs() && TidyTypes(d0, d, done)
    requires p !in done && IsBinary(d0, p) && LinkedAt(d, p) && Feeds(d.parents[p], p) == 0
    requires InvertOutput(d, p).Done? && e.types == InvertOutput(d, p).d.types && e.Size() == d.Size()
    ensures TidyTypes(d0, e, done + {p})
  {
    hide LinkedAt, InvertOutput, Feeds, TidyType;
    forall w: nat | w < d0.Size()
      ensures TidyType(d0, e, done + {p}, w)
    {
      TidyTypeStep(d0, d, e, done, p, w);
    }
  }

  lemma FlipOutputs(d0: Dag, d: Dag, e: Dag, done: set<nat>, detached: set<nat>, i: nat, g: nat, p: nat)
    requires d0.Shaped() && i < |d0.outputs| && g == d0.outputs[i] && IsUnary(d0, g) && p == d0.parents[g][0]
    requires TidyOutputs(d0, d, done, detached, i) && g !in d0.outputs[..i] && e.outputs == d.outputs[i := p]
    ensures TidyOutputs(d0, e, done + {p}, detached + {g}, i + 1)
  {
    hide Dag.Shaped;
    forall k: nat | k < i + 1
      ensures TidyOutput(d0, e, done + {p}, detached + {g}, k)
    {
      if k < i {
        assert TidyOutput(d0, d, done, detached, k);
        assert d0.outputs[k] in d0.outputs[..i];
      }
    }
  }

  lemma TidyFlip(d0: Dag, d: Dag, e: Dag, done: set<nat>, detached: set<nat>, i: nat, g: nat, p: nat)
    requires d0.Shaped() && Regular(d0) && i < |d0.outputs| && g == d0.outputs[i] && IsUnary(d0, g)
    requires p == d0.parents[g][0]
    requires d.Shaped() && d.parents == d0.parents && d.Inputs() == d0.Inputs() && Tidy(d0, d, done, detached, i)
    requires p !in done && IsBinary(d0, p) && d.Size() == d0.Size() && LinkedAt(d, p) && Feeds(d.parents[p], p) == 0
    requires InvertOutput(d, p).Done? && e.types == InvertOutput(d, p).d.types && e.outputs == d.outputs[i := p]
    ensures Tidy(d0, e, done + {p}, detached + {g}, i + 1)
  {
    OutputIsNew(d0, d, done, detached, i);
    hide Matched, Regular, LinkedAt, InvertOutput, Feeds, TidyTypes, TidyOutputs, Dag.Shaped;
    MatchOneMore(d0, done, detached, d0.outputs[..i], g);
    FlipTypes(d0, d, e, done, p);
    FlipOutputs(d0, d, e, done, detached, i, g, p);
  }

  lemma InvertGone(d0: Dag, d: Dag, done: set<nat>, i: nat)
    requires d0.Shaped() && d.Shaped() && d.parents == d0.parents && TidyTypes(d0, d, done) && d.Inputs() == d0.Inputs()
    requires i < |d0.outputs| == |d.outputs| && d.outputs[i] == d0.outputs[i]
    requires IsUnary(d0, d0.outputs[i]) ==> d0.parents[d0.outputs[i]][0] in done
    ensures !d.IsInvert(d0.outputs[i]) && DropOutputInvert(d, i) == Done(d)
  {
    hide HasHalfGate, InvertOutput;
    assert TidyType(d0, d, done, d0.outputs[i]);
  }

  lemma KeepOutputs(d0: Dag, d: Dag, done: set<nat>, detached: set<nat>, i: nat)
    requires d0.Shaped() && i < |d0.outputs| && TidyOutputs(d0, d, done, detached, i)
    requires d.outputs[i] == d0.outputs[i] && d.outputs[i] !in detached
    requires (IsUnary(d0, d0.outputs[i]) ==> d0.parents[d0.outputs[i]][0] in done)
    ensures TidyOutputs(d0, d, done, detached, i + 1)
  {
  }

  lemma TidyKeep(d0: Dag, d: Dag, done: set<nat>, detached: set<nat>, i: nat)
    requires d0.Shaped() && Regular(d0) && Wired(d0) && i < |d0.outputs|
    requires IsUnary(d0, d0.outputs[i]) ==> d0.parents[d0.outputs[i]][0] in done
    requires Placed(d0, d, done, detached, i) && Tidy(d0, d, done, detached, i)
    ensures DropOutputInvert(d, i) == Done(d)
    ensures Placed(d0, d, done, detached, i + 1) && Tidy(d0, d, done, detached, i + 1)
  {
    OutputIsNew(d0, d, done, detached, i);
    PlacedShape(d0, d, done, detached, i);
    hide Matched, Regular, Wired, Placed, TidyTypes, TidyOutputs, Dag.Shaped, DropOutputInvert;
    InvertGone(d0, d, done, i);
    MatchSame(d0, done, detached, d0.outputs[..i], d0.outputs[i]);
    KeepOutputs(d0, d, done, detached, i);
    KeepPlaced(d0, d, done, detached, i);
  }

  lemma TidyTurn(d0: Dag, d: Dag, done: set<nat>, detached: set<nat>, i: nat)
    returns (done': set<nat>, detached': set<nat>)
    requires d0.Shaped() && Regular(d0) && Wired(d0) && FeedersAreBinary(d0) && OutputsDoNotChain(d0)
    requires i < |d0.outputs|
    requires Placed(d0, d, done, detached, i) && Tidy(d0, d, done, detached, i)
    ensures DropOutputInvert(d, i).Done?
    ensures Placed(d0, DropOutputInvert(d, i).d, done', detached', i + 1)
    ensures Tidy(d0, DropOutputInvert(d, i).d, done', detached', i + 1)
  {
    ShapedSizes(d0, d0.outputs[i]);
    PlacedShape(d0, d, done, detached, i);
    hide Placed, Tidy, Regular, Wired, LinkedAt, InvertOutput, HasHalfGate, Feeds, Dag.Shaped;
    var g := d0.outputs[i];
    done', detached' := done, detached;
    if IsUnary(d0, g) && d0.parents[g][0] !in done {
      var p := d0.parents[g][0];
      InvertStays(d0, d, done, detached, i);
      FlipIsPossible(d0, d, done, detached, i, g, p);
      FlipPlaced(d0, d, done, detached, i, g, p);
      TidyFlip(d0, d, DropOutputInvert(d, i).d, done, detached, i, g, p);
      done', detached' := done + {p}, detached + {g};
    } else {
      TidyKeep(d0, d, done, detached, i);
    }
  }

  lemma InvertStays(d0: Dag, d: Dag, done: set<nat>, detached: set<nat>, i: nat)
    requires d0.Shaped() && d.Shaped() && i < |d0.outputs| && Tidy(d0, d, done, detached, i)
    requires d.parents == d0.parents && d.Inputs() == d0.Inputs()
    requires IsUnary(d0, d0.outputs[i]) && d0.parents[d0.outputs[i]][0] !in done
    ensures d.Size() == d0.Size() && d.IsInvert(d0.outputs[i])
  {
    hide HasHalfGate, TidyOutput;
    assert TidyType(d0, d, done, d0.outputs[i]);
  }

  lemma TidyStart(d: Dag)
    requires d.Shaped() && Regular(d)
    ensures Tidy(d, d, {}, {}, 0)
  {
    hide HasHalfGate;
  }

  lemma BinaryFeedersDoNotChain(d: Dag)
    requires d.Shaped() && FeedersAreBinary(d)
    ensures OutputsDoNotChain(d)
  {
  }

  lemma {:induction false} TidyLoop(d0: Dag, n: nat) returns (done: set<nat>, detached: set<nat>)
    requires d0.Shaped() && Regular(d0) && FeedersAreBinary(d0) && n <= |d0.outputs|
    ensures DropOutputInverts(d0, n).Done?
    ensures Placed(d0, DropOutputInverts(d0, n).d, done, detached, n)
    ensures Tidy(d0, DropOutputInverts(d0, n).d, done, detached, n)
  {
    hide Placed, Tidy, Regular, Wired, DropOutputInvert, Dag.Shaped, FeedersAreBinary;
    RegularIsWired(d0);
    BinaryFeedersDoNotChain(d0);
    if n == 0 {
      StartPlaced(d0);
      TidyStart(d0);
      done, detached := {}, {};
    } else {
      done, detached := TidyLoop(d0, n - 1);
      done, detached := TidyTurn(d0, DropOutputInverts(d0, n - 1).d, done, detached, n - 1);
    }
  }

  /** On a reducible graph every copy gate has left the child lists, and no output is left on an INV gate. */
  lemma CopiesAreDetached(d0: Dag, e: Dag, done: set<nat>, detached: set<nat>)
    requires d0.Shaped() && Regular(d0) && Reducible(d0)
    requires Placed(d0, e, done, detached, |d0.outputs|) && Tidy(d0, e, done, detached, |d0.outputs|)
    ensures forall w: nat :: IsUnary(d0, w) && d0.parents[w][0] in done ==>
      w in detached && w in d0.outputs && IsBinary(d0, d0.parents[w][0])
    ensures forall k :: 0 <= k < |d0.outputs| ==> !IsUnary(d0, e.outputs[k])
  {
    hide Regular, Wired, LinkedBut, OutputInvType, HasHalfGate, TidyType, PlainOperand;
    forall w: nat | IsUnary(d0, w) && d0.parents[w][0] in done
      ensures w in detached && w in d0.outputs && IsBinary(d0, d0.parents[w][0])
    {
      var p := d0.parents[w][0];
      var g :| g in detached && d0.parents[g][0] == p;
      var j :| 0 <= j < |d0.outputs| && d0.outputs[j] == g;
      assert StandsAlone(d0, j);
    }
    forall k | 0 <= k < |d0.outputs|
      ensures !IsUnary(d0, e.outputs[k])
    {
      assert TidyOutput(d0, e, done, detached, k) && StandsAlone(d0, k);
    }
  }

  // ---------------------------------------------------------------- the gate loop on a reducible graph

  /** A former INV gate that now copies its operand. */
  predicate IsCopy(d: Dag, w: nat)
    requires |d.parents| == d.Size()
  {
    IsUnary(d, w) && d.types[w] == A
  }

  /** Operand i of a gate with two operands, once the gate loop has passed the first n gates. */
  ghost predicate TameOperand(e: Dag, f: Dag, n: nat, w: nat, i: nat)
    requires e.Shaped() && f.Shaped() && f.Size() == e.Size() && w < f.Size() && i < |f.parents[w]|
  {
    var u := f.parents[w][i];
    && w in f.children[u] && !IsCopy(e, u)
    && (w < e.Inputs() + n ==> !IsUnary(e, u))
    && (IsUnary(e, u) ==> !IsUnary(e, e.parents[u][0]))
  }

  /** One-operand gates are left alone but leave the child lists when the loop passes them. */
  ghost predicate TameUnary(e: Dag, f: Dag, n: nat, w: nat)
    requires e.Shaped() && f.Shaped() && f.Size() == e.Size() && IsUnary(e, w)
  {
    && f.types[w] == e.types[w] && f.parents[w] == e.parents[w] && (e.types[w] != NA ==> !IsUnary(e, e.parents[w][0]))
    && forall q: nat :: q < f.Size() ==>
         multiset(f.children[q])[w] == if e.types[w] == NA && w >= e.Inputs() + n then Feeds(e.parents[w], q) else 0
  }

  ghost predicate TameGate(e: Dag, f: Dag, n: nat, w: nat)
    requires e.Shaped() && f.Shaped() && f.Size() == e.Size() && w < f.Size()
  {
    && |f.parents[w]| == |e.parents[w]|
    && (IsBinary(e, w) ==> HasHalfGate(f.types[w]) && TameOperand(e, f, n, w, 0) && TameOperand(e, f, n, w, 1))
    && (IsUnary(e, w) ==> TameUnary(e, f, n, w))
  }

  /** f is what the gate loop has made of e after n gates. */
  ghost predicate Tame(e: Dag, f: Dag, n: nat)
    requires e.Shaped() && f.Shaped()
  {
    f.Size() == e.Size() && f.Inputs() == e.Inputs() && forall w: nat :: w < e.Size() ==> TameGate(e, f, n, w)
  }

  lemma TameAt(e: Dag, f: Dag, n: nat, w: nat)
    requires e.Shaped() && f.Shaped() && Tame(e, f, n) && w < e.Size()
    ensures f.Size() == e.Size() && f.Inputs() == e.Inputs() && TameGate(e, f, n, w)
    ensures |f.parents[w]| == |e.parents[w]| && (e.IsGate(w) ==> IsUnary(e, w) || IsBinary(e, w))
    ensures forall i :: 0 <= i < |f.parents[w]| ==> f.parents[w][i] < f.Size()
  {
  }

  /** Absorbing at operand i of gate w affects other gates' facts not at all. */
  lemma AbsorbLeavesTame(e: Dag, f: Dag, n: nat, w: nat, i: nat, u: nat)
    requires e.Shaped() && f.Shaped() && IsBinary(e, w) && f.IsGate(w) && i < |f.parents[w]|
    requires f.Size() == e.Size() && Absorb(f, w, i).Done? && u < e.Size() && u != w && TameGate(e, f, n, u)
    ensures TameGate(e, Absorb(f, w, i).d, n, u)
  {
    hide HasHalfGate, Feeds, Invert;
  }

  lemma AbsorbTames(e: Dag, f: Dag, n: nat, w: nat, i: nat)
    requires e.Shaped() && f.Shaped() && Tame(e, f, n) && IsBinary(e, w) && w >= e.Inputs() + n && i < 2
    ensures f.IsGate(w) && |f.parents[w]| == 2 && Absorb(f, w, i).Done?
    ensures var g := Absorb(f, w, i).d;
            && Tame(e, g, n) && g.parents[w][1 - i] == f.parents[w][1 - i] && !IsUnary(e, g.parents[w][i])
  {
    TameAt(e, f, n, w);
    var inv := f.parents[w][i];
    assert TameOperand(e, f, n, w, i);
    TameAt(e, f, n, inv);
    if f.IsInvert(inv) {
      TameAt(e, f, n, f.parents[inv][0]);
      assert TameUnary(e, f, n, inv);
    }
    AbsorbTamesItself(e, f, n, w, i);
    var g := Absorb(f, w, i).d;
    hide Absorb, TameGate;
    forall u: nat | u < e.Size()
      ensures TameGate(e, g, n, u)
    {
      if u != w { AbsorbLeavesTame(e, f, n, w, i, u); }
    }
  }

  lemma AbsorbTamesItself(e: Dag, f: Dag, n: nat, w: nat, i: nat)
    requires e.Shaped() && f.Shaped() && f.Size() == e.Size() && f.Inputs() == e.Inputs() && IsBinary(e, w)
    requires TameGate(e, f, n, w) && w >= e.Inputs() + n && i < 2 && f.parents[w][i] < f.Size()
    requires TameGate(e, f, n, f.parents[w][i])
    requires f.IsInvert(f.parents[w][i]) ==>
      !IsUnary(e, f.parents[f.parents[w][i]][0]) && TameGate(e, f, n, f.parents[f.parents[w][i]][0])
    ensures Absorb(f, w, i).Done? && TameGate(e, Absorb(f, w, i).d, n, w)
    ensures var g := Absorb(f, w, i).d;
            g.parents[w][1 - i] == f.parents[w][1 - i] && !IsUnary(e, g.parents[w][i])
    ensures Absorb(f, w, i).d.Inputs() == e.Inputs()
  {
    HalfGatesStay(f.types[w], f.parents[w], 0);
    hide HasHalfGate, Invert, Feeds;
    assert TameOperand(e, f, n, w, i) && TameOperand(e, f, n, w, 1 - i);
  }

  /** The loop has passed gate w too. */
  lemma PassGate(e: Dag, f: Dag, n: nat, w: nat)
    requires e.Shaped() && f.Shaped() && Tame(e, f, n) && w == e.Inputs() + n < e.Size()
    requires IsBinary(e, w) ==> |f.parents[w]| == 2 && !IsUnary(e, f.parents[w][0]) && !IsUnary(e, f.parents[w][1])
    requires !IsUnary(e, w) || e.types[w] != NA
    ensures Tame(e, f, n + 1)
  {
    var m := n + 1;
    forall u: nat | u < e.Size()
      ensures TameGate(e, f, m, u)
    {
      assert TameGate(e, f, n, u);
      hide HasHalfGate, Feeds;
      if IsBinary(e, u) {
        assert TameOperand(e, f, n, u, 0) && TameOperand(e, f, n, u, 1);
      }
    }
  }

  lemma DetachTames(e: Dag, f: Dag, n: nat, w: nat)
    requires e.Shaped() && f.Shaped() && Tame(e, f, n) && w == e.Inputs() + n < e.Size()
    requires IsUnary(e, w) && e.types[w] == NA
    ensures f.IsGate(w) && f.IsInvert(w) && ReduceInvert(f, w).Done? && Tame(e, ReduceInvert(f, w).d, n + 1)
  {
    TameAt(e, f, n, w);
    assert TameUnary(e, f, n, w);
    var p := f.parents[w][0];
    assert multiset(f.children[p])[w] == 1;
    RemoveOneContents(f.children[p], w);
    var g, m := ReduceInvert(f, w).d, n + 1;
    forall u: nat | u < e.Size()
      ensures TameGate(e, g, m, u)
    {
      TameAt(e, f, n, u);
      DetachLeavesTame(e, f, g, n, w, p, u);
    }
  }

  lemma DetachLeavesTame(e: Dag, f: Dag, g: Dag, n: nat, w: nat, p: nat, u: nat)
    requires e.Shaped() && f.Shaped() && g.Shaped() && f.Size() == g.Size() == e.Size()
    requires f.Inputs() == e.Inputs() && w == e.Inputs() + n < e.Size()
    requires IsUnary(e, w) && p < f.Size() && e.parents[w] == [p] && w in f.children[p]
    requires multiset(g.children[p]) == multiset(f.children[p]) - multiset{w}
    requires g == f.(children := f.children[p := g.children[p]])
    requires u < e.Size() && TameGate(e, f, n, u) && e.types[w] == NA && TameUnary(e, f, n, w)
    requires forall i :: 0 <= i < |f.parents[u]| ==> f.parents[u][i] < f.Size()
    ensures TameGate(e, g, n + 1, u)
  {
    if IsBinary(e, u) {
      DetachLeavesOperand(e, f, g, n, w, p, u, 0);
      DetachLeavesOperand(e, f, g, n, w, p, u, 1);
      hide HasHalfGate, Feeds, TameOperand, Dag.Shaped;
    } else {
      hide HasHalfGate, TameOperand;
    }
  }

  lemma DetachLeavesOperand(e: Dag, f: Dag, g: Dag, n: nat, w: nat, p: nat, u: nat, i: nat)
    requires e.Shaped() && f.Shaped() && g.Shaped() && f.Size() == g.Size() == e.Size()
    requires w == e.Inputs() + n < e.Size() && IsUnary(e, w) && p < f.Size()
    requires multiset(g.children[p]) == multiset(f.children[p]) - multiset{w}
    requires g == f.(children := f.children[p := g.children[p]])
    requires IsBinary(e, u) && |f.parents[u]| == 2 && i < 2 && f.parents[u][i] < f.Size() && TameOperand(e, f, n, u, i)
    ensures TameOperand(e, g, n + 1, u, i)
  {
    ShapedSizes(f, u);
    ShapedSizes(g, u);
    hide Dag.Shaped;
    var q := f.parents[u][i];
    assert u in multiset(f.children[q]);
    assert u in multiset(g.children[q]);
  }

  lemma TameStep(e: Dag, f: Dag, n: nat)
    requires e.Shaped() && f.Shaped() && Tame(e, f, n) && e.Inputs() + n < e.Size()
    ensures f.IsGate(e.Inputs() + n) && ReduceInvert(f, e.Inputs() + n).Done?
    ensures Tame(e, ReduceInvert(f, e.Inputs() + n).d, n + 1)
  {
    var w := e.Inputs() + n;
    TameAt(e, f, n, w);
    hide Tame, Absorb, HasHalfGate, Dag.Shaped;
    if IsBinary(e, w) {
      AbsorbTames(e, f, n, w, 0);
      var g := Absorb(f, w, 0).d;
      AbsorbTames(e, g, n, w, 1);
      PassGate(e, Absorb(g, w, 1).d, n, w);
    } else if e.types[w] == NA {
      DetachTames(e, f, n, w);
    } else {
      CopyIsPassed(e, f, n, w);
      PassGate(e, f, n, w);
    }
  }

  lemma CopyIsPassed(e: Dag, f: Dag, n: nat, w: nat)
    requires e.Shaped() && f.Shaped() && Tame(e, f, n) && w == e.Inputs() + n < e.Size()
    requires IsUnary(e, w) && e.types[w] != NA
    ensures f.IsGate(w) && ReduceInvert(f, w) == Done(f)
  {
    TameAt(e, f, n, w);
    assert TameUnary(e, f, n, w);
    TameAt(e, f, n, e.parents[w][0]);
  }

  lemma {:induction false} TameAfter(e: Dag, n: nat)
    requires e.Shaped() && Tame(e, e, 0) && e.Inputs() + n <= e.Size()
    ensures ReduceInverts(e, n).Done? && Tame(e, ReduceInverts(e, n).d, n)
  {
    hide Tame, ReduceInvert, Dag.Shaped;
    if n > 0 {
      TameAfter(e, n - 1);
      TameStep(e, ReduceInverts(e, n - 1).d, n - 1);
    }
  }

  /** What the output loop leaves is what the gate loop can start from. */
  lemma TidyIsTame(d0: Dag, e: Dag, done: set<nat>, detached: set<nat>)
    requires d0.Shaped() && Regular(d0) && Reducible(d0)
    requires Placed(d0, e, done, detached, |d0.outputs|) && Tidy(d0, e, done, detached, |d0.outputs|)
    ensures e.Shaped() && Tame(e, e, 0)
  {
    CopiesAreDetached(d0, e, done, detached);
    PlacedLinks(d0, e, done, detached, |d0.outputs|);
    ShapedSizes(d0, 0);
    ShapedSizes(e, 0);
    hide Placed, Tidy, Regular, Reducible, LinkedBut, Dag.Shaped, TameGate;
    forall w: nat | w < e.Size()
      ensures TameGate(e, e, 0, w)
    {
      ShapedSizes(e, w);
      if e.IsGate(w) {
        if IsBinary(e, w) {
          BinaryIsTame(d0, e, done, detached, w);
        } else {
          UnaryIsTame(d0, e, done, detached, w);
        }
      } else {
        InputIsTame(e, w);
      }
    }
  }

  lemma InputIsTame(e: Dag, w: nat)
    requires e.Shaped() && w < e.Inputs()
    ensures TameGate(e, e, 0, w)
  {
  }

  lemma BinaryIsTame(d0: Dag, e: Dag, done: set<nat>, detached: set<nat>, w: nat)
    requires d0.Shaped() && Regular(d0) && Reducible(d0) && e.Shaped()
    requires Placed(d0, e, done, detached, |d0.outputs|) && Tidy(d0, e, done, detached, |d0.outputs|)
    requires forall w: nat :: IsUnary(d0, w) && d0.parents[w][0] in done ==> w in d0.outputs
    requires IsBinary(e, w)
    ensures TameGate(e, e, 0, w)
  {
    OperandIsTame(d0, e, done, detached, w, 0);
    OperandIsTame(d0, e, done, detached, w, 1);
    PlacedLinks(d0, e, done, detached, |d0.outputs|);
    hide Placed, Regular, Reducible, TameOperand, Matched, TidyOutputs, HasHalfGate;
    assert TidyType(d0, e, done, w);
  }

  lemma UnaryIsTame(d0: Dag, e: Dag, done: set<nat>, detached: set<nat>, w: nat)
    requires d0.Shaped() && e.Shaped()
    requires Placed(d0, e, done, detached, |d0.outputs|) && Tidy(d0, e, done, detached, |d0.outputs|)
    requires forall w: nat :: IsUnary(d0, w) && d0.parents[w][0] in done ==>
      w in detached && IsBinary(d0, d0.parents[w][0])
    requires IsUnary(e, w)
    ensures TameGate(e, e, 0, w)
  {
    PlacedLinks(d0, e, done, detached, |d0.outputs|);
    hide Placed, TidyOutputs, HasHalfGate;
    assert TidyType(d0, e, done, w);
    hide TidyTypes, Feeds;
    forall q: nat | q < e.Size()
      ensures multiset(e.children[q])[w] == if e.types[w] == NA && w >= e.Inputs() then Feeds(e.parents[w], q) else 0
    {
    }
  }

  lemma OperandIsTame(d0: Dag, e: Dag, done: set<nat>, detached: set<nat>, w: nat, i: nat)
    requires d0.Shaped() && Regular(d0) && Reducible(d0) && e.Shaped()
    requires Placed(d0, e, done, detached, |d0.outputs|) && Tidy(d0, e, done, detached, |d0.outputs|)
    requires forall w: nat :: IsUnary(d0, w) && d0.parents[w][0] in done ==> w in d0.outputs
    requires IsBinary(e, w) && i < 2
    ensures e.parents[w][i] < e.Size() && TameOperand(e, e, 0, w, i)
  {
    ShapedSizes(d0, w);
    ShapedSizes(e, w);
    PlacedLinks(d0, e, done, detached, |d0.outputs|);
    assert PlainOperand(d0, w, i);
    hide Placed, Reducible, Regular, Dag.Shaped, LinkedBut, TidyOutput, HasHalfGate;
    var u := e.parents[w][i];
    BinaryIsListed(d0, e, done, detached, w, i);
    if IsUnary(d0, u) {
      assert TidyType(d0, e, done, u);
    }
  }

  lemma PlacedLinks(d0: Dag, e: Dag, done: set<nat>, detached: set<nat>, i: nat)
    requires d0.Shaped() && i <= |d0.outputs| && Placed(d0, e, done, detached, i)
    ensures e.Shaped() && e.parents == d0.parents && LinkedBut(e, detached) && e.Inputs() == d0.Inputs()
    ensures e.Size() == d0.Size()
    ensures forall w :: w in detached ==> d0.IsInvert(w)
  {
  }

  lemma BinaryIsListed(d0: Dag, e: Dag, done: set<nat>, detached: set<nat>, w: nat, i: nat)
    requires d0.Shaped() && e.Shaped() && LinkedBut(e, detached) && e.parents == d0.parents
    requires forall u :: u in detached ==> d0.IsInvert(u)
    requires IsBinary(e, w) && i < 2
    ensures e.parents[w][i] < e.Size() && w in e.children[e.parents[w][i]]
  {
    var q := e.parents[w][i];
    assert Feeds(e.parents[w], q) > 0;
    assert multiset(e.children[q])[w] == Feeds(e.parents[w], q);
  }

  /** The gates that are not INV gates: mNonInvertGateCount of them. */
  function NonInvertGates(d: Dag): set<nat>
    requires |d.parents| == d.Size()
  {
    set w: nat | w < d.Size() && IsBinary(d, w)
  }

  /** The nodes that reach the circuit: the inputs and the two-operand gates. */
  function Kept(d: Dag): set<nat>
    requires |d.parents| == d.Size() >= d.Inputs()
  {
    set w: nat | w < d.Size() && (w < d.Inputs() || IsBinary(d, w))
  }

  /** What toCircuit reaches and can emit is exactly the two-operand gates, all of half-gate types. */
  ghost predicate Emittable(d: Dag)
    requires d.Shaped()
  {
    && Reached(d) == Kept(d)
    && (forall w :: w in NonInvertGates(d) ==> HasHalfGate(d.types[w]))
    && (forall k :: 0 <= k < |d.outputs| ==> d.outputs[k] in Kept(d))
  }

  lemma KeptChild(e: Dag, f: Dag, w: nat, i: nat)
    requires e.Shaped() && f.Shaped() && Tame(e, f, e.Size() - e.Inputs()) && w < f.Size() && i < |f.children[w]|
    ensures f.children[w][i] in NonInvertGates(f)
  {
    var c := f.children[w][i];
    assert f.IsGate(c) && c in multiset(f.children[w]);
    TameAt(e, f, e.Size() - e.Inputs(), c);
    hide HasHalfGate, Feeds;
    assert !IsUnary(e, c);
  }

  lemma KeptParents(e: Dag, f: Dag, w: nat, i: nat)
    requires e.Shaped() && f.Shaped() && Tame(e, f, e.Size() - e.Inputs()) && w in NonInvertGates(f) && i < 2
    ensures HasHalfGate(f.types[w])
    ensures f.parents[w][i] in Kept(f) && !IsUnary(f, f.parents[w][i]) && w in f.children[f.parents[w][i]]
  {
    TameAt(e, f, e.Size() - e.Inputs(), w);
    assert TameOperand(e, f, e.Size() - e.Inputs(), w, i);
    TameAt(e, f, e.Size() - e.Inputs(), f.parents[w][i]);
  }

  lemma TameIsEmittable(e: Dag, f: Dag, rank: seq<nat>)
    requires e.Shaped() && f.Shaped() && Tame(e, f, e.Size() - e.Inputs()) && f.outputs == e.outputs && f.Ranked(rank)
    requires forall k :: 0 <= k < |e.outputs| ==> !IsUnary(e, e.outputs[k])
    ensures Emittable(f) && NonInvertGates(f) == NonInvertGates(e)
  {
    ShapedSizes(e, 0);
    ShapedSizes(f, 0);
    var n := e.Size() - e.Inputs();
    hide Dag.Ranked, Reached;
    forall w: nat | w < e.Size()
      ensures IsUnary(f, w) == IsUnary(e, w) && IsBinary(f, w) == IsBinary(e, w) && (w in Kept(f) <==> !IsUnary(e, w))
    {
      TameAt(e, f, n, w);
    }
    assert NonInvertGates(f) == NonInvertGates(e);
    hide Tame, HasHalfGate;
    forall w, i | w in Kept(f) && 0 <= i < |f.parents[w]|
      ensures f.parents[w][i] in Kept(f)
    {
      KeptParents(e, f, w, i);
    }
    forall w, i | w in Kept(f) && 0 <= i < |f.children[w]|
      ensures f.children[w][i] in Kept(f)
    {
      KeptChild(e, f, w, i);
    }
    forall w | w in NonInvertGates(f)
      ensures HasHalfGate(f.types[w]) && ChildLinked(f, w)
    {
      KeptParents(e, f, w, 0);
      KeptParents(e, f, w, 1);
    }
    LinkedIsAllReached(f, Kept(f), rank);
  }

  lemma SameArities(d0: Dag, e: Dag)
    requires d0.Shaped() && e.Shaped() && e.parents == d0.parents && e.Inputs() == d0.Inputs()
    ensures e.Size() == d0.Size() && NonInvertGates(e) == NonInvertGates(d0)
    ensures forall w :: IsUnary(e, w) == IsUnary(d0, w) && IsBinary(e, w) == IsBinary(d0, w)
  {
  }

  lemma ReducibleFeeders(d: Dag)
    requires d.Shaped() && Reducible(d)
    ensures FeedersAreBinary(d)
  {
    forall j | 0 <= j < |d.outputs| && IsUnary(d, d.outputs[j])
      ensures IsBinary(d, d.parents[d.outputs[j]][0])
    {
      assert StandsAlone(d, j);
    }
  }

  /**
    removeInvertGates on such a graph returns and leaves exactly the original's XOR and AND gates, each of a
    half-gate type, for toCircuit to emit.
   */
  lemma ReducibleBecomesEmittable(d0: Dag, rank: seq<nat>)
    requires d0.Shaped() && Regular(d0) && Reducible(d0) && d0.Ranked(rank)
    ensures RemoveInvertGates(d0).Done?
    ensures var d := RemoveInvertGates(d0).d;
            Emittable(d) && NonInvertGates(d) == NonInvertGates(d0) && d.Ranked(rank)
  {
    hide Reducible, Regular, Wired, Placed, Tidy, Tame, Emittable, Dag.Shaped, NonInvertGates, DropOutputInverts,
         ReduceInverts, Dag.Ranked, LinkedBut, FeedersAreBinary;
    RegularIsWired(d0);
    ReducibleFeeders(d0);
    ShapedSizes(d0, 0);
    var done, detached := TidyLoop(d0, |d0.outputs|);
    var e := DropOutputInverts(d0, |d0.outputs|).d;
    PlacedLinks(d0, e, done, detached, |d0.outputs|);
    TidyIsTame(d0, e, done, detached);
    CopiesAreDetached(d0, e, done, detached);
    SameArities(d0, e);
    TameAfter(e, e.Size() - e.Inputs());
    RankSurvives(d0, rank);
    TameIsEmittable(e, ReduceInverts(e, e.Size() - e.Inputs()).d, rank);
  }
}
