/** The part of a gate graph that linearisation covers: what the inputs reach along child and parent links. */
module Reaches {
  import opened Dags

  /** live holds the inputs and is closed under parents and children. */
  ghost predicate Live(d: Dag, live: set<nat>)
    requires d.Shaped()
  {
    && (forall w :: w in live ==> w < d.Size())
    && (forall w :: 0 <= w < d.Inputs() ==> w in live)
    && (forall w, i :: w in live && 0 <= i < |d.parents[w]| ==> d.parents[w][i] in live)
    && (forall w, i :: w in live && 0 <= i < |d.children[w]| ==> d.children[w][i] in live)
  }

  ghost predicate Adjacent(d: Dag, q: nat, w: nat)
    requires d.Shaped() && q < d.Size()
  {
    w in d.children[q] || w in d.parents[q]
  }

  /** A path along links, from an input. */
  ghost predicate Trail(d: Dag, path: seq<nat>)
    requires d.Shaped()
  {
    && path != [] && path[0] < d.Inputs()
    && (forall i :: 0 <= i < |path| ==> path[i] < d.Size())
    && (forall i :: 0 < i < |path| ==> Adjacent(d, path[i - 1], path[i]))
  }

  ghost predicate IsReached(d: Dag, w: nat)
    requires d.Shaped()
  {
    exists path :: Trail(d, path) && path[|path| - 1] == w
  }

  ghost function Reached(d: Dag): (live: set<nat>)
    requires d.Shaped()
    ensures forall w: nat :: w in live <==> w < d.Size() && IsReached(d, w)
  {
    set w: nat | w < d.Size() && IsReached(d, w)
  }

  lemma InputIsReached(d: Dag, w: nat)
    requires d.Shaped() && w < d.Inputs()
    ensures IsReached(d, w)
  {
    assert Trail(d, [w]);
  }

  lemma NextIsReached(d: Dag, q: nat, w: nat)
    requires d.Shaped() && q < d.Size() && w < d.Size() && IsReached(d, q) && Adjacent(d, q, w)
    ensures IsReached(d, w)
  {
    hide Dag.Shaped, Adjacent;
    var path :| Trail(d, path) && path[|path| - 1] == q;
    assert Trail(d, path + [w]);
  }

  lemma ReachedIsLive(d: Dag)
    requires d.Shaped()
    ensures Live(d, Reached(d))
  {
    hide IsReached;
    forall w | 0 <= w < d.Inputs()
      ensures w in Reached(d)
    {
      InputIsReached(d, w);
    }
    forall w, i | w in Reached(d) && 0 <= i < |d.parents[w]|
      ensures d.parents[w][i] in Reached(d)
    {
      NextIsReached(d, w, d.parents[w][i]);
    }
    forall w, i | w in Reached(d) && 0 <= i < |d.children[w]|
      ensures d.children[w][i] in Reached(d)
    {
      NextIsReached(d, w, d.children[w][i]);
    }
  }

  lemma {:induction false} TrailStays(d: Dag, live: set<nat>, path: seq<nat>, n: nat)
    requires d.Shaped() && Live(d, live) && Trail(d, path) && n < |path|
    ensures path[n] in live
  {
    hide Dag.Shaped;
    if n > 0 {
      TrailStays(d, live, path, n - 1);
      assert Adjacent(d, path[n - 1], path[n]);
    }
  }

  /** What is reached is the least live set. */
  lemma LiveHoldsReached(d: Dag, live: set<nat>)
    requires d.Shaped() && Live(d, live)
    ensures Reached(d) <= live
  {
    hide Live, Dag.Shaped;
    forall w | w in Reached(d)
      ensures w in live
    {
      var path :| Trail(d, path) && path[|path| - 1] == w;
      TrailStays(d, live, path, |path| - 1);
    }
  }

  /** Some parent of w lists w as a child. */
  ghost predicate ChildLinked(d: Dag, w: nat)
    requires d.Shaped() && d.IsGate(w)
  {
    exists i :: 0 <= i < |d.parents[w]| && w in d.children[d.parents[w][i]]
  }

  lemma {:induction false} LinkedIsReached(d: Dag, live: set<nat>, rank: seq<nat>, w: nat)
    requires d.Shaped() && d.Ranked(rank) && Live(d, live) && w in live
    requires forall u: nat :: u in live && d.IsGate(u) ==> ChildLinked(d, u)
    ensures w in Reached(d)
    decreases rank[w]
  {
    hide IsReached;
    if d.IsGate(w) {
      assert ChildLinked(d, w);
      var i :| 0 <= i < |d.parents[w]| && w in d.children[d.parents[w][i]];
      LinkedIsReached(d, live, rank, d.parents[w][i]);
      NextIsReached(d, d.parents[w][i], w);
    } else {
      InputIsReached(d, w);
    }
  }

  /** A live set whose gates all hang from their parents' child lists is exactly what is reached. */
  lemma LinkedIsAllReached(d: Dag, live: set<nat>, rank: seq<nat>)
    requires d.Shaped() && d.Ranked(rank) && Live(d, live)
    requires forall u: nat :: u in live && d.IsGate(u) ==> ChildLinked(d, u)
    ensures Reached(d) == live
  {
    LiveHoldsReached(d, live);
    hide Live, Dag.Shaped, Dag.Ranked, ChildLinked, IsReached;
    forall w | w in live
      ensures w in Reached(d)
    {
      LinkedIsReached(d, live, rank, w);
    }
  }
}
