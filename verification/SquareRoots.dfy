/** Square roots modulo an odd prime, by Shanks's algorithm. */
module SquareRoots {
  import opened Division
  import opened Limbs
  import opened Residues

  // ---------------------------------------------------------------- repeated squaring

  /** b squared k times. */
  function Squared(b: nat, k: nat, p: nat): (r: nat)
    requires b < p
    ensures r < p
  {
    if k == 0 then b else Times(Squared(b, k - 1, p), Squared(b, k - 1, p), p)
  }

  lemma {:induction false} SquaredSum(b: nat, i: nat, j: nat, p: nat)
    requires b < p
    ensures Squared(Squared(b, i, p), j, p) == Squared(b, i + j, p)
  {
    hide Times;
    if j > 0 { SquaredSum(b, i, j - 1, p); }
  }

  lemma FourFactors(w: nat, x: nat, y: nat, z: nat, p: nat)
    requires p > 0
    ensures Times(Times(w, x, p), Times(y, z, p), p) == Times(Times(w, y, p), Times(x, z, p), p)
  {
    hide Times;
    TimesLaws(w, x, Times(y, z, p), p);
    TimesLaws(x, y, z, p);
    TimesLaws(y, x, z, p);
    TimesLaws(w, y, Times(x, z, p), p);
  }

  lemma {:induction false} SquaredTimes(b: nat, d: nat, k: nat, p: nat)
    requires b < p && d < p
    ensures Squared(Times(b, d, p), k, p) == Times(Squared(b, k, p), Squared(d, k, p), p)
  {
    hide Times;
    if k > 0 {
      SquaredTimes(b, d, k - 1, p);
      FourFactors(Squared(b, k - 1, p), Squared(d, k - 1, p), Squared(b, k - 1, p), Squared(d, k - 1, p), p);
    }
  }

  lemma {:induction false} PowerSum(c: nat, m: nat, n: nat, p: nat)
    requires p > 0
    ensures Power(c, m + n, p) == Times(Power(c, m, p), Power(c, n, p), p)
  {
    hide Times, Power;
    if m == 0 {
      PowerStep(c, 0, p);
      TimesLaws(Power(c, n, p), 1, 0, p);
      TimesReduced(1, Power(c, n, p), p);
      Small(Power(c, n, p), p);
    } else {
      PowerSum(c, m - 1, n, p);
      PowerStep(c, m - 1, p);
      PowerStep(c, m - 1 + n, p);
      TimesLaws(c, Power(c, m - 1, p), Power(c, n, p), p);
    }
  }

  lemma {:induction false} SquaredPower(c: nat, q: nat, k: nat, p: nat)
    requires p > 0
    ensures Squared(Power(c, q, p), k, p) == Power(c, q * Pow(2, k), p)
  {
    hide Times, Power;
    if k == 0 {
      assert Pow(2, 0) == 1;
    } else {
      SquaredPower(c, q, k - 1, p);
      var n := q * Pow(2, k - 1);
      PowerSum(c, n, n, p);
      assert q * Pow(2, k) == n + n;
    }
  }

  lemma PowerIsUnit(c: nat, p: nat)
    requires IsPrime(p) && c % p != 0
    ensures Times(c, 1, p) == c % p && Times(1, 1, p) == 1 && Times(p - 1, p - 1, p) == 1
  {
    OneIsReduced(p);
    TimesLaws(c, 1, 0, p);
    TimesLaws(1, c, 0, p);
    TimesLaws(1, 1, 0, p);
    OppositeRoot(1, p);
  }

  // ---------------------------------------------------------------- the Legendre symbol

  /** The Legendre symbol, computed by Euler's formula. */
  function Legendre(n: nat, p: nat): int
    requires p > 0
  {
    if n % p == 0 then 0 else if Power(n, (p - 1) / 2, p) == 1 then 1 else -1
  }

  lemma LegendreIsSymbol(n: nat, p: nat)
    requires IsPrime(p) && p > 2
    ensures Legendre(n, p) == if n % p == 0 then 0 else if IsSquare(n, p) then 1 else -1
  {
    hide Power, IsPrime, IsSquare;
    if n % p != 0 { EulerCriterion(n, p); }
  }

  /** Draws until a non-residue comes up. */
  method NonResidue(p: nat, draws: nat -> nat, ghost found: nat) returns (n: nat)
    requires IsPrime(p) && p > 2 && Legendre(draws(found), p) == -1
    ensures Legendre(n, p) == -1
  {
    var i := 0;
    n := draws(0);
    while Legendre(n, p) != -1
      invariant i <= found && n == draws(i)
      decreases found - i
    {
      i := i + 1;
      n := draws(i);
    }
  }

  /** Splits p - 1 into a power of two and an odd number. */
  method SplitPower(p: nat) returns (q: nat, e: nat)
    requires p > 2 && p % 2 == 1
    ensures q % 2 == 1 && e > 0 && p - 1 == q * Pow(2, e)
  {
    q, e := p - 1, 0;
    assert Pow(2, 0) == 1;
    while q % 2 == 0
      invariant q > 0 && p - 1 == q * Pow(2, e)
      invariant e == 0 ==> q % 2 == 0
      decreases q
    {
      e := e + 1;
      assert q * Pow(2, e - 1) == (q / 2) * Pow(2, e);
      q := q / 2;
    }
  }

  lemma HalfOf(p: nat, q: nat, e: nat)
    requires e > 0 && p - 1 == q * Pow(2, e)
    ensures (p - 1) / 2 == q * Pow(2, e - 1)
  {
    assert q * Pow(2, e) == 2 * (q * Pow(2, e - 1));
  }

  // ---------------------------------------------------------------- the algorithm

  /** What every round keeps: x squared is a times b, y has order 2^r exactly, and b has a smaller order. */
  ghost predicate Invariant(a: nat, p: nat, x: nat, y: nat, b: nat, r: nat) {
    && 0 < p && x < p && y < p && b < p && r > 0
    && Times(x, x, p) == Times(a, b, p)
    && Squared(y, r - 1, p) == p - 1 && Squared(b, r - 1, p) == 1
  }

  /** The initial x and b, whatever a is. */
  lemma StartProduct(a: nat, w: nat, p: nat)
    requires p > 0
    ensures Times(Times(a, w, p), Times(a, w, p), p) == Times(a, Times(Times(a, w, p), w, p), p)
  {
    hide Times;
    var aw := Times(a, w, p);
    TimesLaws(a, w, aw, p);
    TimesLaws(w, aw, 0, p);
  }

  /** c to the q, squared e - 1 times, is c to the (p - 1) / 2. */
  lemma SquaredToHalf(c: nat, p: nat, q: nat, e: nat)
    requires p > 0 && e > 0 && p - 1 == q * Pow(2, e)
    ensures Squared(Power(c, q, p), e - 1, p) == Power(c, (p - 1) / 2, p)
  {
    hide Times, Power, Squared, Pow;
    HalfOf(p, q, e);
    SquaredPower(c, q, e - 1, p);
  }

  /** The initial b is a to the q. */
  lemma StartPower(a: nat, p: nat, q: nat, w: nat)
    requires p > 0 && q % 2 == 1 && w == Power(a, (q - 1) / 2, p)
    ensures Times(Times(a, w, p), w, p) == Power(a, q, p)
  {
    hide Times, Power;
    var m := (q - 1) / 2;
    assert q == m + 1 + m;
    PowerSum(a, m + 1, m, p);
    PowerStep(a, m, p);
  }

  lemma StartsWell(a: nat, p: nat, n: nat, q: nat, e: nat, w: nat)
    requires IsPrime(p) && p > 2 && a % p != 0 && IsSquare(a, p) && Legendre(n, p) == -1
    requires q % 2 == 1 && e > 0 && p - 1 == q * Pow(2, e) && w == Power(a, (q - 1) / 2, p)
    ensures Invariant(a, p, Times(a, w, p), Power(n, q, p), Times(Times(a, w, p), w, p), e)
  {
    hide IsPrime, Times, Power, Squared, IsSquare, Pow;
    LegendreIsSymbol(n, p);
    EulerCriterion(a, p);
    EulerCriterion(n, p);
    SquaredToHalf(n, p, q, e);
    SquaredToHalf(a, p, q, e);
    StartPower(a, p, q, w);
    StartProduct(a, w, p);
  }

  /** Where the inner loop stops: the least number of squarings, at least one, that make b one. */
  ghost predicate StopsAt(b: nat, m: nat, p: nat)
    requires b < p
  {
    m > 0 && Squared(b, m, p) == 1 && forall k :: 1 <= k < m ==> Squared(b, k, p) != 1
  }

  /** The loop that finds it. */
  method LeastOrder(b: nat, p: nat, ghost r: nat) returns (m: nat)
    requires b < p && b != 1 && r > 0 && Squared(b, r - 1, p) == 1
    ensures 1 <= m < r && StopsAt(b, m, p)
  {
    hide Times;
    m := 1;
    var temp := Times(b, b, p);
    while temp != 1
      invariant 1 <= m < r && temp == Squared(b, m, p) && forall k :: 1 <= k < m ==> Squared(b, k, p) != 1
      decreases r - m
    {
      temp := Times(temp, temp, p);
      m := m + 1;
    }
  }

  /** y squared k times. */
  method SquareTimes(y: nat, k: nat, p: nat) returns (t: nat)
    requires y < p
    ensures t == Squared(y, k, p)
  {
    hide Times;
    t := y;
    for i := 0 to k
      invariant t == Squared(y, i, p)
    {
      t := Times(t, t, p);
    }
  }

  /** The number squared last before one is minus one. */
  lemma BeforeOne(b: nat, m: nat, p: nat)
    requires IsPrime(p) && b < p && m > 0 && Squared(b, m, p) == 1 && Squared(b, m - 1, p) != 1
    ensures Squared(b, m - 1, p) == p - 1
  {
    hide IsPrime, Times;
    var w := Squared(b, m - 1, p);
    OneIsReduced(p);
    TimesZero(w, p);
    TimesLaws(1, 1, 0, p);
    TwoRoots(w, 1, p);
  }

  /** One round keeps the invariant with the smaller order. */
  lemma RoundKeeps(a: nat, p: nat, x: nat, y: nat, b: nat, r: nat, m: nat, t: nat)
    requires IsPrime(p) && p > 2 && Invariant(a, p, x, y, b, r)
    requires 1 <= m < r && Squared(b, m, p) == 1 && Squared(b, m - 1, p) != 1 && t == Squared(y, r - m - 1, p)
    ensures Invariant(a, p, Times(x, t, p), Times(t, t, p), Times(b, Times(t, t, p), p), m)
  {
    BeforeOne(b, m, p);
    OneIsReduced(p);
    OppositeRoot(1, p);
    TimesLaws(1, 1, 0, p);
    hide IsPrime, Times;
    var y' := Times(t, t, p);
    assert y' == Squared(y, r - m, p);
    SquaredSum(y, r - m, m - 1, p);
    SquaredTimes(b, y', m - 1, p);
    RoundKeepsProduct(a, p, x, b, t);
  }

  /** A round keeps x squared equal to a times b, whatever t is. */
  lemma RoundKeepsProduct(a: nat, p: nat, x: nat, b: nat, t: nat)
    requires p > 0 && Times(x, x, p) == Times(a, b, p)
    ensures Times(Times(x, t, p), Times(x, t, p), p) == Times(a, Times(b, Times(t, t, p), p), p)
  {
    hide Times;
    FourFactors(x, t, x, t, p);
    TimesLaws(a, b, Times(t, t, p), p);
  }

  // ---------------------------------------------------------------- runs of the loops, whatever a is

  /** The variables of the outer loop. */
  datatype Turn = Turn(x: nat, y: nat, b: nat, r: nat)

  /** How often the loop for t runs: not at all if m is no smaller than r. */
  function Squarings(r: nat, m: nat): nat {
    if r > m then r - m - 1 else 0
  }

  /** One turn of the outer loop, in which the inner loop stops at m. */
  ghost predicate Turns(p: nat, s: Turn, m: nat, s': Turn)
    requires 0 < p
  {
    && s.b != 1 && s.b < p && s.y < p && StopsAt(s.b, m, p)
    && var t := Squared(s.y, Squarings(s.r, m), p);
       s' == Turn(Times(s.x, t, p), Times(t, t, p), Times(s.b, Times(t, t, p), p), m)
  }

  /** A run of the outer loop from its first state to its end, where b is one. */
  ghost predicate EndingRun(p: nat, run: seq<Turn>)
    requires 0 < p
    decreases |run|
  {
    && |run| > 0
    && if |run| == 1 then run[0].b == 1
       else (exists m: nat :: Turns(p, run[0], m, run[1])) && EndingRun(p, run[1..])
  }

  /** What the outer loop starts from: n is the non-residue, and p - 1 is q times 2^e. */
  function FirstTurn(a: nat, p: nat, n: nat, q: nat, e: nat): Turn
    requires 0 < p && q > 0
  {
    var w := Power(a, (q - 1) / 2, p);
    Turn(Times(a, w, p), Power(n, q, p), Times(Times(a, w, p), w, p), e)
  }

  /** The loops end: there is a run from the first state in which every inner loop stops. */
  ghost predicate LoopsEnd(a: nat, p: nat, n: nat, q: nat, e: nat)
    requires 0 < p && q > 0
  {
    exists run :: |run| > 0 && EndingRun(p, run) && run[0] == FirstTurn(a, p, n, q, e)
  }

  ghost predicate KeepsProduct(a: nat, p: nat, s: Turn)
    requires 0 < p
  {
    Times(s.x, s.x, p) == Times(a, s.b, p)
  }

  lemma FirstKeepsProduct(a: nat, p: nat, n: nat, q: nat, e: nat)
    requires p > 0 && q > 0
    ensures KeepsProduct(a, p, FirstTurn(a, p, n, q, e))
  {
    hide Times, Power;
    StartProduct(a, Power(a, (q - 1) / 2, p), p);
  }

  /** Whatever a is, a run that ends has found a square root of it. */
  lemma {:induction false} EndingRunFindsRoot(a: nat, p: nat, run: seq<Turn>)
    requires p > 1 && EndingRun(p, run) && KeepsProduct(a, p, run[0])
    ensures IsSquare(a, p)
  {
    if |run| == 1 {
      if !IsSquare(a, p) { NonSquareNeverEnds(a, p, run[0].x, run[0].b); }
    } else {
      var m: nat :| Turns(p, run[0], m, run[1]);
      RoundKeepsProduct(a, p, run[0].x, run[0].b, Squared(run[0].y, Squarings(run[0].r, m), p));
      EndingRunFindsRoot(a, p, run[1..]);
    }
  }

  lemma NonSquareNeverEnds(a: nat, p: nat, x: nat, b: nat)
    requires p > 1 && !IsSquare(a, p) && Times(x, x, p) == Times(a, b, p)
    ensures b != 1
  {
    hide Times;
    TimesLaws(a, 1, 0, p);
    TimesLaws(1, a, 0, p);
  }

  /** For a multiple of p, b starts as zero, and squaring zero never gives one: the inner loop has no exit. */
  lemma {:induction false} MultipleNeverEnds(a: nat, p: nat, w: nat, k: nat)
    requires p > 1 && a % p == 0
    ensures Times(Times(a, w, p), w, p) == 0 && Squared(0, k, p) == 0
  {
    hide Times;
    TimesReduced(a, w, p);
    TimesZero(w, p);
    TimesZero(0, p);
    if k > 0 { MultipleNeverEnds(a, p, w, k - 1); }
  }

  lemma EndingRunIsUnit(a: nat, p: nat, n: nat, q: nat, e: nat, run: seq<Turn>)
    requires p > 1 && q > 0 && EndingRun(p, run) && run[0] == FirstTurn(a, p, n, q, e)
    ensures a % p != 0
  {
    hide Times, Power;
    if a % p == 0 {
      MultipleNeverEnds(a, p, Power(a, (q - 1) / 2, p), 0);
      var m: nat :| Turns(p, run[0], m, run[1]);
      MultipleNeverEnds(a, p, 0, m);
      assert false;
    }
  }

  lemma {:induction false} LeastStop(b: nat, k: nat, p: nat) returns (m: nat)
    requires b < p && k > 0 && Squared(b, k, p) == 1
    ensures m <= k && StopsAt(b, m, p)
  {
    hide Squared;
    if j: nat :| 1 <= j < k && Squared(b, j, p) == 1 {
      m := LeastStop(b, j, p);
    } else {
      m := k;
    }
  }

  /** From a state with the invariant the loops end, in fewer and fewer squarings. */
  lemma {:induction false} InvariantEnds(a: nat, p: nat, s: Turn) returns (run: seq<Turn>)
    requires IsPrime(p) && p > 2 && Invariant(a, p, s.x, s.y, s.b, s.r)
    ensures |run| > 0 && run[0] == s && EndingRun(p, run)
    decreases s.r
  {
    hide IsPrime, Times;
    if s.b == 1 {
      run := [s];
    } else {
      assert s.r > 1 && Squared(s.b, 0, p) == s.b;
      var m := LeastStop(s.b, s.r - 1, p);
      var t := Squared(s.y, s.r - m - 1, p);
      RoundKeeps(a, p, s.x, s.y, s.b, s.r, m, t);
      var s' := Turn(Times(s.x, t, p), Times(t, t, p), Times(s.b, Times(t, t, p), p), m);
      var rest := InvariantEnds(a, p, s');
      run := [s] + rest;
      assert Turns(p, s, m, s');
      assert run[0] == s && run[1] == s' && run[1..] == rest;
    }
  }

  /**
    The exact condition: the loops end, whatever non-residue is drawn, if and only if p does not divide a and a is a
    square modulo p.
   */
  lemma LoopsEndIff(a: nat, p: nat, n: nat, q: nat, e: nat)
    requires IsPrime(p) && p > 2 && Legendre(n, p) == -1 && q % 2 == 1 && e > 0 && p - 1 == q * Pow(2, e)
    ensures LoopsEnd(a, p, n, q, e) <==> a % p != 0 && IsSquare(a, p)
  {
    hide IsPrime, IsSquare, Times, Power, Squared, Legendre, Invariant, EndingRun, KeepsProduct;
    if LoopsEnd(a, p, n, q, e) {
      var run :| |run| > 0 && EndingRun(p, run) && run[0] == FirstTurn(a, p, n, q, e);
      FirstKeepsProduct(a, p, n, q, e);
      EndingRunFindsRoot(a, p, run);
      EndingRunIsUnit(a, p, n, q, e, run);
    } else if a % p != 0 && IsSquare(a, p) {
      StartsWell(a, p, n, q, e, Power(a, (q - 1) / 2, p));
      var run := InvariantEnds(a, p, FirstTurn(a, p, n, q, e));
    }
  }

  /** Two is no square modulo five, so the search for its root does not end. */
  lemma TwoModuloFive()
    ensures IsPrime(5) && Legendre(2, 5) == -1 && !LoopsEnd(2, 5, 2, 1, 2)
  {
    hide *;
    FiveFacts();
    NoRootOfTwo();
    LegendreIsSymbol(2, 5);
    LoopsEndIff(2, 5, 2, 1, 2);
  }

  lemma FiveFacts()
    ensures IsPrime(5) && Pow(2, 2) == 4
  {
  }

  lemma NoRootOfTwo()
    ensures !IsSquare(2, 5) && 2 % 5 != 0
  {
    forall z: nat
      ensures Times(z, z, 5) != 2
    {
      var k := z % 5;
      TimesReduced(z, z, 5);
      TimesReduced(k, z, 5);
      SquaresModuloFive(k);
    }
  }

  lemma SquaresModuloFive(k: nat)
    requires k < 5
    ensures Times(k, k, 5) != 2
  {
    assert k == 0 || k == 1 || k == 2 || k == 3 || k == 4;
  }

  // ---------------------------------------------------------------- the root

  /**
    A square root of a, if there is one. Modulo p = 1 (mod 4) the original is only for squares that p does not divide;
    elsewhere its loops have no end. `draws` is the seeded generator, and some draw is a non-residue.
   */
  method SqrRootMod(a: nat, p: nat, draws: nat -> nat, ghost found: nat) returns (ans: nat)
    requires IsPrime(p) && p > 2
    requires p % 4 == 1 && a != 0 ==> a % p != 0 && IsSquare(a, p) && Legendre(draws(found), p) == -1
    ensures Times(ans, ans, p) == a % p <==> IsSquare(a, p)
  {
    hide *;
    PrimeIsOdd(p);
    if a == 0 {
      TimesZero(0, p);
      ans := 0;
    } else if p / 2 % 2 == 1 {
      ThreeModFour(p);
      ans := Power(a, (p + 1) / 4, p);
      if IsSquare(a, p) { RootOfThree(a, p); }
    } else {
      ThreeModFour(p);
      ans := Shanks(a, p, draws, found);
    }
    HasRoot(a, p, ans);
  }

  /** Bit 1 of an odd number. */
  lemma ThreeModFour(p: nat)
    requires p % 2 == 1
    ensures p % 4 == if p / 2 % 2 == 1 then 3 else 1
  {
    var q := p / 2;
    QuotientUnique(p, 4, q / 2, 2 * (q % 2) + 1);
  }

  lemma HasRoot(a: nat, p: nat, ans: nat)
    requires p > 0
    ensures Times(ans, ans, p) == a % p ==> IsSquare(a, p)
  {
  }

  lemma RootOfThree(a: nat, p: nat)
    requires IsPrime(p) && p > 2 && p % 4 == 3 && IsSquare(a, p)
    ensures Times(Power(a, (p + 1) / 4, p), Power(a, (p + 1) / 4, p), p) == a % p
  {
    hide *;
    var k := (p + 1) / 4;
    var h := (p - 1) / 2;
    assert k + k == h + 1 && k == k - 1 + 1;
    PowerSum(a, k, k, p);
    PowerStep(a, h, p);
    if a % p == 0 {
      TimesReduced(a, Power(a, h, p), p);
      TimesZero(Power(a, h, p), p);
    } else {
      EulerCriterion(a, p);
      PowerIsUnit(a, p);
    }
  }

  lemma StopIsLast(b: nat, m: nat, p: nat)
    requires b < p && b != 1 && StopsAt(b, m, p)
    ensures Squared(b, m - 1, p) != 1
  {
    if m > 1 { assert Squared(b, m - 1, p) != 1; }
  }

  /** Shanks's algorithm, turn by turn. */
  method Shanks(a: nat, p: nat, draws: nat -> nat, ghost found: nat) returns (ans: nat)
    requires IsPrime(p) && p > 2 && a % p != 0 && IsSquare(a, p) && Legendre(draws(found), p) == -1
    ensures Times(ans, ans, p) == a % p
  {
    hide IsPrime, IsSquare, Times, Power, Squared, Legendre;
    PrimeIsOdd(p);
    var n := NonResidue(p, draws, found);
    var q, e := SplitPower(p);
    var r := e;
    var y := Power(n, q, p);
    var x := Power(a, (q - 1) / 2, p);
    StartsWell(a, p, n, q, e, x);
    var b := Times(Times(a, x, p), x, p);
    x := Times(a, x, p);
    while b != 1
      invariant Invariant(a, p, x, y, b, r)
      decreases r
    {
      ghost var before := Turn(x, y, b, r);
      var m := LeastOrder(b, p, r);
      var t := SquareTimes(y, r - m - 1, p);
      StopIsLast(b, m, p);
      RoundKeeps(a, p, x, y, b, r, m, t);
      y := Times(t, t, p);
      r := m;
      x := Times(x, t, p);
      b := Times(b, y, p);
      assert Turns(p, before, m, Turn(x, y, b, r));
    }
    PowerIsUnit(a, p);
    ans := x;
  }
}
