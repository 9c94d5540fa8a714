/**
  The threads' reports on a bucket's output promise, whatever the set intersection tells them: a thread with a match
  sets the promise to its outputs, the others count a miss, and the one whose count reaches the bucket's size sets it to
  an exception.
 */
module Reports {
  import opened Counting
  import opened OutputPromises
  import opened Wrappers
  import opened Barriers
  import Slots = SlotProtocol
  import Psi = PsiProtocol

  /** Thread i has reported what its open returned. */
  ghost predicate HasReported(s: State, i: nat, match_: bool)
    requires |s.ends| == |s.psi.rs| && i < |s.ends|
  {
    s.ends[i] != Pending && s.psi.rs[i] == Psi.RDone(Some(match_))
  }

  ghost function Reporters(s: State, match_: bool): (r: set<nat>)
    requires |s.ends| == |s.psi.rs|
    ensures forall i: nat :: i in r <==> i < |s.ends| && HasReported(s, i, match_)
  {
    set i: nat | i < |s.ends| && HasReported(s, i, match_)
  }

  /** A thread that has counted its miss but not yet looked at the count. */
  ghost predicate CountOk(s: State, i: nat)
    requires |s.ends| == |s.psi.rs| && i < |s.ends|
  {
    s.ends[i].Missed? ==> HasReported(s, i, false) && s.ends[i].count <= s.misses
  }

  ghost predicate Inv(s: State) {
    && |s.ends| == |s.psi.rs|
    && (forall i: nat :: i < |s.ends| && s.ends[i] != Pending ==> HasReported(s, i, true) || HasReported(s, i, false))
    && (forall i: nat :: i < |s.ends| ==> CountOk(s, i))
    && (forall i, j :: 0 <= i < j < |s.ends| && s.ends[i].Missed? && s.ends[j].Missed? ==> s.ends[i] != s.ends[j])
    && s.misses == |Reporters(s, false)|
    && Elements(s.outputs) == Reporters(s, true)
    && (forall k, l :: 0 <= k < l < |s.outputs| ==> s.outputs[k] != s.outputs[l])
    && s.exceptions == if s.misses == |s.ends| && Missed(|s.ends|) !in s.ends then 1 else 0
  }

  lemma InitInv(n: nat)
    requires n > 0
    ensures Inv(Init(n))
  {
    assert Reporters(Init(n), false) == {} && Reporters(Init(n), true) == {};
    assert Elements(Init(n).outputs) == {};
  }

  /** Reporters are threads. */
  lemma ReportersFit(s: State, match_: bool)
    requires |s.ends| == |s.psi.rs|
    ensures |Reporters(s, match_)| <= |s.ends|
    ensures (exists i: nat :: i < |s.ends| && i !in Reporters(s, match_)) ==> |Reporters(s, match_)| < |s.ends|
  {
    var all := Range(0, |s.ends|);
    SubsetSize(Reporters(s, match_), all);
    if i: nat :| i < |s.ends| && i !in Reporters(s, match_) { SubsetSize(Reporters(s, match_), all - {i}); }
  }

  /** Steps of the slots and of the intersection touch no report. */
  lemma OthersKeep(s: State, t: State)
    requires Inv(s) && |t.psi.rs| == |s.psi.rs|
    requires t.ends == s.ends && t.outputs == s.outputs && t.misses == s.misses && t.exceptions == s.exceptions
    requires forall i: nat :: i < |s.psi.rs| && s.psi.rs[i].RDone? ==> t.psi.rs[i] == s.psi.rs[i]
    ensures Inv(t)
  {
    forall match_: bool
      ensures Reporters(t, match_) == Reporters(s, match_)
    {
      forall i: nat | i < |s.ends|
        ensures HasReported(t, i, match_) <==> HasReported(s, i, match_)
      {
        if s.ends[i] != Pending { assert HasReported(s, i, true) || HasReported(s, i, false); }
      }
    }
    forall i: nat | i < |t.ends|
      ensures CountOk(t, i) && (t.ends[i] != Pending ==> HasReported(t, i, true) || HasReported(t, i, false))
    {
      assert CountOk(s, i);
    }
  }

  lemma DoneStays(c: Psi.Config, s: Psi.State, st: Psi.Step)
    requires Psi.Sized(c, s) && c.Valid() && Psi.Enabled(c, s, st)
    ensures |Psi.Apply(c, s, st).rs| == |s.rs|
    ensures forall i: nat :: i < |s.rs| && s.rs[i].RDone? ==> Psi.Apply(c, s, st).rs[i] == s.rs[i]
  {
    hide Open, Psi.OpenResult, Psi.Across, Psi.ColumnFrom, Psi.CommitAll, Arrive, SetIfLast, Psi.AllSet;
  }

  /** A match sets the promise. */
  lemma MatchKeeps(s: State, t: State, i: nat)
    requires Inv(s) && i < |s.ends| && s.ends[i] == Pending && s.psi.rs[i] == Psi.RDone(Some(true))
    requires t == s.(ends := s.ends[i := Finished], outputs := s.outputs + [i])
    ensures Inv(t)
  {
    assert Reporters(t, false) == Reporters(s, false);
    assert Reporters(t, true) == Reporters(s, true) + {i};
    assert Elements(t.outputs) == Elements(s.outputs) + {i};
    assert i !in Elements(s.outputs);
    SameCounts(s, t, i);
    assert Missed(|s.ends|) in t.ends <==> Missed(|s.ends|) in s.ends by { StillIn(s.ends, i, Finished, |s.ends|); }
  }

  lemma StillIn(ends: seq<End>, i: nat, e: End, n: nat)
    requires i < |ends| && ends[i] != Missed(n) && e != Missed(n)
    ensures Missed(n) in ends[i := e] <==> Missed(n) in ends
  {
    if Missed(n) in ends {
      var k :| 0 <= k < |ends| && ends[k] == Missed(n);
      assert ends[i := e][k] == Missed(n);
    }
  }

  /** The other threads' counts. */
  lemma SameCounts(s: State, t: State, i: nat)
    requires Inv(s) && i < |s.ends| && t.psi == s.psi && s.misses <= t.misses
    requires |t.ends| == |s.ends| && forall k :: 0 <= k < |s.ends| && k != i ==> t.ends[k] == s.ends[k]
    ensures forall k: nat :: k < |s.ends| && k != i ==> CountOk(t, k)
  {
    forall k: nat | k < |s.ends| && k != i
      ensures CountOk(t, k)
    {
      assert CountOk(s, k);
    }
  }

  /** A miss is counted. */
  lemma MissKeeps(s: State, t: State, i: nat)
    requires Inv(s) && i < |s.ends| && s.ends[i] == Pending && s.psi.rs[i] == Psi.RDone(Some(false))
    requires t == s.(ends := s.ends[i := Missed(s.misses + 1)], misses := s.misses + 1)
    ensures Inv(t)
  {
    assert i !in Reporters(s, false);
    ReportersFit(s, false);
    MissReported(s, t, i);
    CountsDiffer(s, t, i);
    hide HasReported;
    SameCounts(s, t, i);
    assert t.ends[i] == Missed(t.misses);
  }

  lemma MissReported(s: State, t: State, i: nat)
    requires Inv(s) && i < |s.ends| && s.ends[i] == Pending && s.psi.rs[i] == Psi.RDone(Some(false))
    requires t == s.(ends := s.ends[i := Missed(s.misses + 1)], misses := s.misses + 1)
    ensures Reporters(t, false) == Reporters(s, false) + {i} && Reporters(t, true) == Reporters(s, true)
    ensures CountOk(t, i) && forall k: nat :: k < |t.ends| && t.ends[k] != Pending ==>
              HasReported(t, k, true) || HasReported(t, k, false)
  {
    assert HasReported(t, i, false);
    forall k: nat | k < |t.ends| && k != i
      ensures t.ends[k] != Pending ==> HasReported(t, k, true) || HasReported(t, k, false)
    {
      if s.ends[k] != Pending { assert HasReported(s, k, true) || HasReported(s, k, false); }
    }
  }

  lemma CountsDiffer(s: State, t: State, i: nat)
    requires Inv(s) && i < |s.ends| && t.ends == s.ends[i := Missed(s.misses + 1)]
    ensures forall k, l :: 0 <= k < l < |t.ends| && t.ends[k].Missed? && t.ends[l].Missed? ==> t.ends[k] != t.ends[l]
  {
    forall k, l | 0 <= k < l < |t.ends| && t.ends[k].Missed? && t.ends[l].Missed?
      ensures t.ends[k] != t.ends[l]
    {
      assert CountOk(s, k) && CountOk(s, l);
    }
  }

  /** The last to count sets the exception. */
  lemma SettleKeeps(s: State, t: State, i: nat)
    requires Inv(s) && i < |s.ends| && s.ends[i].Missed?
    requires t == s.(ends := s.ends[i := Finished],
                     exceptions := s.exceptions + if s.ends[i].count == |s.ends| then 1 else 0)
    ensures Inv(t)
  {
    assert CountOk(s, i);
    ReportersFit(s, false);
    assert Reporters(t, false) == Reporters(s, false) && Reporters(t, true) == Reporters(s, true);
    SameCounts(s, t, i);
    var n := |s.ends|;
    if s.ends[i].count == n {
      assert s.ends[i] == Missed(n);
      assert Missed(n) !in t.ends;
    } else {
      StillIn(s.ends, i, Finished, n);
    }
  }

  lemma StepInv(c: Config, s: State, step: Step)
    requires c.Valid() && Sized(c, s) && Inv(s) && Enabled(c, s, step)
    ensures Inv(Apply(c, s, step))
  {
    hide Inv, Psi.Enabled, Psi.Apply, Slots.Enabled, Slots.Apply, Config.Valid;
    match step
    case Mine(_) => OthersKeep(s, Apply(c, s, step));
    case Theirs(_) => OthersKeep(s, Apply(c, s, step));
    case Intersect(st) =>
      ValidPsi(c);
      DoneStays(c.psi, s.psi, st);
      OthersKeep(s, Apply(c, s, step));
    case Report(i) =>
      if s.psi.rs[i].result.value {
        MatchKeeps(s, Apply(c, s, step), i);
      } else {
        MissKeeps(s, Apply(c, s, step), i);
      }
    case Settle(i) => SettleKeeps(s, Apply(c, s, step), i);
  }

  lemma ValidPsi(c: Config)
    requires c.Valid()
    ensures c.psi.Valid() && c.psi.n > 0
  {
  }

  /** Any interleaving, whatever values the parties hold and draw. */
  ghost predicate IsAnyRun(c: Config, steps: seq<Step>, states: seq<State>)
    requires c.Valid()
  {
    && |states| == |steps| + 1 && states[0] == Init(c.psi.n)
    && forall k :: 0 <= k < |steps| ==>
         Sized(c, states[k]) && Enabled(c, states[k], steps[k]) && states[k + 1] == Apply(c, states[k], steps[k])
  }

  lemma {:induction false} RunInv(c: Config, steps: seq<Step>, states: seq<State>, k: nat)
    requires c.Valid() && IsAnyRun(c, steps, states) && k < |states|
    ensures Inv(states[k])
  {
    hide Inv, Apply, Enabled, Config.Valid;
    if k == 0 {
      ValidPsi(c);
      InitInv(c.psi.n);
    } else {
      RunInv(c, steps, states, k - 1);
      StepInv(c, states[k - 1], steps[k - 1]);
    }
  }

  /**
    In every interleaving, once all threads have finished: each thread with a match has set the promise once, in the
    order of the reports, and if there is none an exception has been put there, once.
   */
  lemma PromiseSets(c: Config, steps: seq<Step>, states: seq<State>, k: nat)
    requires c.Valid() && IsAnyRun(c, steps, states) && k < |states| && AllFinished(states[k])
    ensures var s := states[k];
            && |s.ends| == |s.psi.rs| && |s.outputs| == |Reporters(s, true)|
            && Elements(s.outputs) == Reporters(s, true)
            && s.exceptions == if Reporters(s, true) == {} then 1 else 0
  {
    RunInv(c, steps, states, k);
    var s := states[k];
    DistinctSize(s.outputs);
    var all := Range(0, |s.ends|);
    assert Reporters(s, true) !! Reporters(s, false);
    assert Reporters(s, true) + Reporters(s, false) == all;
    assert |all| == |Reporters(s, true)| + |Reporters(s, false)|;
  }
}
