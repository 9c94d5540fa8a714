/** Sizes of finite sets of numbers: intervals, subsets, and lists without repeats. */
module Counting {

  /** The n numbers from lo on. */
  ghost function Range(lo: nat, n: nat): (r: set<nat>)
    ensures |r| == n && forall w: nat :: w in r <==> lo <= w < lo + n
  {
    if n == 0 then {} else Range(lo, n - 1) + {lo + n - 1}
  }

  ghost function Elements(s: seq<nat>): (r: set<nat>)
    ensures forall w: nat :: w in r <==> w in s
  {
    set w | w in s
  }

  lemma {:induction false} SubsetSize(a: set<nat>, b: set<nat>)
    requires a <= b
    ensures |a| <= |b|
  {
    if x :| x in a {
      SubsetSize(a - {x}, b - {x});
    }
  }

  lemma EqualWhenSameSize(a: set<nat>, b: set<nat>)
    requires a <= b && |a| == |b|
    ensures a == b
  {
    if x :| x in b && x !in a {
      SubsetSize(a, b - {x});
    }
  }

  lemma {:induction false} DistinctSize(s: seq<nat>)
    requires forall k, l :: 0 <= k < l < |s| ==> s[k] != s[l]
    ensures |Elements(s)| == |s|
  {
    if s != [] {
      var rest: seq<nat>, first: nat := s[1..], s[0];
      DistinctSize(rest);
      assert s == [first] + rest;
      assert first !in rest;
      assert Elements(s) == Elements(rest) + {first};
    }
  }

  /** n different numbers out of an interval of n are all of it. */
  lemma AllTaken(s: seq<nat>, lo: nat, n: nat)
    requires |s| == n && forall k, l :: 0 <= k < l < n ==> s[k] != s[l]
    requires forall k :: 0 <= k < n ==> lo <= s[k] < lo + n
    ensures Elements(s) == Range(lo, n)
  {
    DistinctSize(s);
    EqualWhenSameSize(Elements(s), Range(lo, n));
  }
}
