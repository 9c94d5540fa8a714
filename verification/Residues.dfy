/** Arithmetic modulo a prime, up to Euler's criterion for squares. */
module Residues {
  import opened Division
  import opened Limbs

  predicate IsPrime(p: nat) {
    p >= 2 && forall d :: 2 <= d < p ==> p % d != 0
  }

  /** The product of two numbers, reduced. */
  function Times(x: nat, y: nat, p: nat): (r: nat)
    requires p > 0
    ensures r < p
  {
    x * y % p
  }

  /** c is a square modulo p. */
  ghost predicate IsSquare(c: nat, p: nat)
    requires p > 0
  {
    exists z: nat :: Times(z, z, p) == c % p
  }

  // ---------------------------------------------------------------- products

  lemma TimesLaws(x: nat, y: nat, z: nat, p: nat)
    requires p > 0
    ensures Times(x, y, p) == Times(y, x, p)
    ensures Times(Times(x, y, p), z, p) == Times(x, Times(y, z, p), p)
    ensures Times(1, x, p) == x % p
  {
    ReducedFactor(x * y, z, p);
    ReducedFactor(x, y * z, p);
    assert (x * y) * z == x * (y * z);
  }

  lemma TimesReduced(x: nat, y: nat, p: nat)
    requires p > 0
    ensures Times(x % p, y, p) == Times(x, y, p) == Times(x, y % p, p)
  {
    ReducedFactor(x, y, p);
  }

  /** Every non-zero residue divides every number modulo a prime, by Euclid's descent. */
  lemma {:induction false} Divides(k: nat, c: nat, p: nat) returns (i: nat)
    requires IsPrime(p) && 0 < k < p
    ensures i < p && Times(k, i, p) == c % p
    decreases k
  {
    if k == 1 {
      i := c % p;
      Idempotent(c, p);
    } else {
      var u, r := p / k, p % k;
      assert r != 0;
      var j := Divides(r, c, p);
      hide IsPrime;
      i := (-(u * j)) % p;
      var t := (-(u * j)) / p;
      DescentStep(k, u, r, i, j, t, p);
      SameResidue(k * i, r * j, -j - k * t, p);
    }
  }

  lemma DescentStep(k: int, u: int, r: int, i: int, j: int, t: int, p: int)
    requires p == k * u + r && -(u * j) == p * t + i
    ensures k * i == r * j + (-j - k * t) * p
  {
    assert k * i == -(k * u) * j - k * (p * t);
    assert (k * u) * j == (p - r) * j;
  }

  lemma Cancel(k: nat, x: nat, y: nat, p: nat)
    requires IsPrime(p) && 0 < k < p && x < p && y < p && Times(k, x, p) == Times(k, y, p)
    ensures x == y
  {
    hide IsPrime, Times;
    var i := Divides(k, 1, p);
    TimesLaws(i, k, x, p);
    TimesLaws(i, k, y, p);
    TimesLaws(1, x, 0, p);
    TimesLaws(x, 1, 0, p);
    TimesLaws(y, 1, 0, p);
    OneIsReduced(p);
    Small(x, p);
    Small(y, p);
  }

  lemma Small(x: nat, p: nat)
    requires x < p
    ensures x % p == x
  {
  }

  lemma OneIsReduced(p: nat)
    requires IsPrime(p)
    ensures 1 % p == 1 && p >= 2
  {
  }

  lemma TimesZero(x: nat, p: nat)
    requires p > 0
    ensures Times(x, 0, p) == 0 == Times(0, x, p)
  {
  }

  /** A prime has no zero divisors. */
  lemma UnitProduct(x: nat, y: nat, p: nat)
    requires IsPrime(p) && 0 < x < p && 0 < y < p
    ensures 0 < Times(x, y, p)
  {
    hide IsPrime, Times;
    if Times(x, y, p) == 0 {
      TimesZero(x, p);
      Cancel(x, y, 0, p);
    }
  }

  lemma Opposite(x: nat, y: nat, p: nat)
    requires 0 < x < p && 0 < y < p && 0 < Times(x, y, p)
    ensures Times(x, p - y, p) == p - Times(x, y, p)
  {
    var r := Times(x, y, p);
    assert x * y == p * (x * y / p) + r;
    assert x * (p - y) == p * (x - x * y / p - 1) + (p - r);
    QuotientUnique(x * (p - y), p, x - x * y / p - 1, p - r);
  }

  lemma OppositeRoot(z: nat, p: nat)
    requires IsPrime(p) && 0 < z < p
    ensures Times(p - z, p - z, p) == Times(z, z, p) > 0
    ensures Times(z, p - z, p) == p - Times(z, z, p)
  {
    hide IsPrime, Times;
    UnitProduct(z, z, p);
    Opposite(z, z, p);
    TimesLaws(z, p - z, 0, p);
    UnitProduct(z, p - z, p);
    Opposite(p - z, z, p);
  }

  /** A residue has no roots but a root and its opposite. */
  lemma TwoRoots(k: nat, z: nat, p: nat)
    requires IsPrime(p) && 0 < k < p && 0 < z < p && Times(k, k, p) == Times(z, z, p)
    ensures k == z || k == p - z
  {
    if k > z {
      RootsDiffer(k, z, p);
    } else if k < z {
      RootsDiffer(z, k, p);
    }
  }

  lemma DifferenceOfSquares(k: nat, z: nat, p: nat)
    requires 0 < z < k < p && Times(k, k, p) == Times(z, z, p)
    ensures Times(k - z, k + z, p) == 0
  {
    var d, s := k - z, k + z;
    assert d * s == k * k - z * z;
    var q := k * k / p - z * z / p;
    assert d * s == p * q + 0;
    QuotientUnique(d * s, p, q, 0);
  }

  lemma RootsDiffer(k: nat, z: nat, p: nat)
    requires IsPrime(p) && 0 < z < k < p && Times(k, k, p) == Times(z, z, p)
    ensures k + z == p
  {
    hide IsPrime, Times;
    var d, s := k - z, k + z;
    DifferenceOfSquares(k, z, p);
    if s < p {
      UnitProduct(d, s, p);
    } else if s > p {
      TimesReduced(d, s, p);
      QuotientUnique(s, p, 1, s - p);
      UnitProduct(d, s - p, p);
    }
  }

  // ---------------------------------------------------------------- powers

  /** The power of a number, reduced. */
  function Power(c: nat, e: nat, p: nat): (r: nat)
    requires p > 0
    ensures r < p
  {
    Pow(c, e) % p
  }

  lemma PowerStep(c: nat, e: nat, p: nat)
    requires p > 0
    ensures Power(c, e + 1, p) == Times(c, Power(c, e, p), p)
    ensures Power(c, 0, p) == 1 % p
  {
    ReducedFactor(c, Pow(c, e), p);
  }

  lemma {:induction false} PowerReduced(c: nat, e: nat, p: nat)
    requires p > 0
    ensures Power(c % p, e, p) == Power(c, e, p)
  {
    hide Times, Power;
    if e == 0 {
      PowerStep(c, 0, p);
      PowerStep(c % p, 0, p);
    } else {
      PowerReduced(c, e - 1, p);
      PowerStep(c, e - 1, p);
      PowerStep(c % p, e - 1, p);
      TimesReduced(c, Power(c, e - 1, p), p);
    }
  }

  lemma {:induction false} PowerOfOne(e: nat, p: nat)
    requires p > 1
    ensures Power(1, e, p) == 1
  {
    hide Times, Power;
    Small(1, p);
    if e == 0 {
      PowerStep(1, 0, p);
    } else {
      PowerOfOne(e - 1, p);
      PowerStep(1, e - 1, p);
      TimesLaws(1, 1, 1, p);
    }
  }

  // ---------------------------------------------------------------- products over sets of residues

  ghost function Product(s: set<nat>, p: nat): (r: nat)
    requires p > 1
    ensures r < p
  {
    if s == {} then 1 else
      var x :| x in s;
      Times(x, Product(s - {x}, p), p)
  }

  lemma {:induction false} ProductWithout(s: set<nat>, x: nat, p: nat)
    requires p > 1 && x in s
    ensures Product(s, p) == Times(x, Product(s - {x}, p), p)
    decreases |s|
  {
    hide Times;
    var y :| y in s && Product(s, p) == Times(y, Product(s - {y}, p), p);
    if y != x {
      ProductWithout(s - {y}, x, p);
      ProductWithout(s - {x}, y, p);
      assert s - {x} - {y} == s - {y} - {x};
      var rest := Product(s - {x} - {y}, p);
      TimesLaws(y, x, rest, p);
      TimesLaws(x, y, rest, p);
    }
  }

  ghost predicate HasPartner(s: set<nat>, k: nat, c: nat, p: nat)
    requires p > 0
  {
    exists i :: i in s && Times(k, i, p) == c
  }

  /** s holds a partner of each of its members, with product c, and no member is its own. */
  ghost predicate Paired(s: set<nat>, c: nat, p: nat)
    requires p > 0
  {
    && (forall k :: k in s ==> 0 < k < p)
    && (forall k {:trigger HasPartner(s, k, c, p)} :: k in s ==> HasPartner(s, k, c, p))
    && (forall k :: k in s ==> Times(k, k, p) != c)
  }

  lemma SizeWithout(s: set<nat>, x: nat, y: nat)
    requires x in s && y in s && x != y
    ensures |s - {x} - {y}| == |s| - 2
  {
    assert |s - {x}| == |s| - 1;
  }

  lemma WithoutPair(s: set<nat>, x: nat, y: nat, c: nat, p: nat)
    requires IsPrime(p) && Paired(s, c, p) && x in s && y in s && Times(x, y, p) == c
    ensures x != y && Paired(s - {x} - {y}, c, p)
  {
    hide IsPrime, Times;
    var t := s - {x} - {y};
    forall k | k in t
      ensures HasPartner(t, k, c, p)
    {
      assert HasPartner(s, k, c, p);
      var i :| i in s && Times(k, i, p) == c;
      TimesLaws(k, i, 0, p);
      TimesLaws(x, y, 0, p);
      if i == x { Cancel(x, k, y, p); }
      if i == y { Cancel(y, k, x, p); }
      assert i in t;
    }
  }

  /** The product of a paired set is one c for each pair. */
  lemma {:induction false} PairedProduct(s: set<nat>, c: nat, p: nat)
    requires IsPrime(p) && Paired(s, c, p)
    ensures p > 1 && |s| % 2 == 0 && Product(s, p) == Power(c, |s| / 2, p)
    decreases |s|
  {
    OneIsReduced(p);
    if s == {} {
      PowerStep(c, 0, p);
    } else {
      var x :| x in s;
      assert HasPartner(s, x, c, p);
      var y :| y in s && Times(x, y, p) == c;
      var t := s - {x} - {y};
      WithoutPair(s, x, y, c, p);
      SizeWithout(s, x, y);
      hide IsPrime, Times, Power, Product, Paired;
      PairedProduct(t, c, p);
      ProductWithout(s, x, p);
      ProductWithout(s - {x}, y, p);
      TimesLaws(x, y, Product(t, p), p);
      PowerStep(c, |t| / 2, p);
      assert |s| / 2 == |t| / 2 + 1;
    }
  }

  /** The non-zero residues. */
  ghost function Units(p: nat): (s: set<nat>)
    requires p > 0
    ensures |s| == p - 1 && forall k :: k in s <==> 0 < k < p
  {
    if p == 1 then {} else Units(p - 1) + {p - 1}
  }

  lemma AllPartnered(k: nat, c: nat, p: nat)
    requires IsPrime(p) && 0 < k < p && 0 < c < p
    ensures HasPartner(Units(p), k, c, p)
  {
    hide IsPrime, Times;
    var i := Divides(k, c, p);
    Small(c, p);
    TimesZero(k, p);
    assert i in Units(p);
  }

  lemma PrimeIsOdd(p: nat)
    requires IsPrime(p) && p > 2
    ensures p % 2 == 1
  {
    assert p % 2 != 0;
  }

  /** Taking the two roots of c out of the units leaves pairs. */
  lemma WithoutRoots(z: nat, c: nat, p: nat)
    requires IsPrime(p) && p > 2 && 0 < z < p && Times(z, z, p) == c
    ensures Paired(Units(p) - {z} - {p - z}, c, p)
  {
    OppositeRoot(z, p);
    hide IsPrime, Times;
    var s := Units(p) - {z} - {p - z};
    forall k | k in s
      ensures HasPartner(s, k, c, p) && Times(k, k, p) != c
    {
      if Times(k, k, p) == c { TwoRoots(k, z, p); }
      AllPartnered(k, c, p);
      var i :| i in Units(p) && Times(k, i, p) == c;
      TimesLaws(k, i, 0, p);
      if i == z { Cancel(z, k, z, p); }
      if i == p - z { Cancel(p - z, k, p - z, p); }
      assert i in s;
    }
  }

  /** The product of all units, when c has a root. */
  lemma UnitsProduct(z: nat, c: nat, p: nat)
    requires IsPrime(p) && p > 2 && 0 < z < p && Times(z, z, p) == c
    ensures 0 < c < p && Product(Units(p), p) == Times(p - c, Power(c, (p - 3) / 2, p), p)
  {
    hide *;
    PrimeIsOdd(p);
    OppositeRoot(z, p);
    WithoutRoots(z, c, p);
    var s := Units(p) - {z} - {p - z};
    SizeWithout(Units(p), z, p - z);
    ProductWithout(Units(p), z, p);
    ProductWithout(Units(p) - {z}, p - z, p);
    PairedProduct(s, c, p);
    TimesLaws(z, p - z, Product(s, p), p);
  }

  /** Wilson's theorem. */
  lemma Wilson(p: nat)
    requires IsPrime(p) && p > 2
    ensures Product(Units(p), p) == p - 1
  {
    hide IsPrime, Times, Power, Product;
    TimesLaws(1, 1, 1, p);
    Small(1, p);
    UnitsProduct(1, 1, p);
    PowerOfOne((p - 3) / 2, p);
    TimesLaws(p - 1, 1, 1, p);
    Small(p - 1, p);
  }

  /** Euler's criterion. */
  lemma EulerCriterion(c: nat, p: nat)
    requires IsPrime(p) && p > 2 && c % p != 0
    ensures p % 2 == 1 && Power(c, (p - 1) / 2, p) == if IsSquare(c, p) then 1 else p - 1
  {
    PrimeIsOdd(p);
    if IsSquare(c, p) {
      var y: nat :| Times(y, y, p) == c % p;
      PowerOfSquare(y, c, p);
    } else {
      PowerOfOther(c, p);
    }
  }

  lemma PowerOfSquare(y: nat, c: nat, p: nat)
    requires IsPrime(p) && p > 2 && c % p != 0 && Times(y, y, p) == c % p
    ensures Power(c, (p - 1) / 2, p) == 1
  {
    hide IsPrime, Times, Power, Product;
    PrimeIsOdd(p);
    Wilson(p);
    SquareOfRoot(y, c, p);
    UnitsProduct(y % p, c % p, p);
    NegatedPower(c % p, (p - 3) / 2, p);
    assert (p - 3) / 2 + 1 == (p - 1) / 2;
    PowerReduced(c, (p - 1) / 2, p);
  }

  lemma PowerOfOther(c: nat, p: nat)
    requires IsPrime(p) && p > 2 && c % p != 0 && !IsSquare(c, p)
    ensures Power(c, (p - 1) / 2, p) == p - 1
  {
    UnitsPaired(c, c % p, p);
    hide *;
    Wilson(p);
    PairedProduct(Units(p), c % p, p);
    PowerReduced(c, (p - 1) / 2, p);
  }

  lemma UnitsPaired(c: nat, d: nat, p: nat)
    requires IsPrime(p) && 0 < d < p && d == c % p && !IsSquare(c, p)
    ensures Paired(Units(p), d, p)
  {
    hide IsPrime, Times, HasPartner;
    forall k | k in Units(p)
      ensures HasPartner(Units(p), k, d, p) && Times(k, k, p) != d
    {
      AllPartnered(k, d, p);
    }
  }

  lemma SquareOfRoot(y: nat, c: nat, p: nat)
    requires p > 0 && c % p != 0 && Times(y, y, p) == c % p
    ensures 0 < y % p && Times(y % p, y % p, p) == c % p
  {
    TimesReduced(y, y, p);
    TimesReduced(y % p, y, p);
    TimesZero(y, p);
  }

  lemma NegatedPower(c: nat, e: nat, p: nat)
    requires IsPrime(p) && p > 2 && 0 < c < p && Times(p - c, Power(c, e, p), p) == p - 1
    ensures Power(c, e + 1, p) == 1
  {
    hide IsPrime, Times, Power;
    var w := Power(c, e, p);
    PowerStep(c, e, p);
    TimesLaws(p - c, w, 0, p);
    if w == 0 { TimesZero(p - c, p); }
    UnitProduct(w, c, p);
    Opposite(w, c, p);
    TimesLaws(w, c, 0, p);
  }
}
