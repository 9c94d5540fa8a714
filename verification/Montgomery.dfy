/** Montgomery multiplication on limb arrays, and exponentiation built on it. */
module Montgomery {
  import opened Division
  import opened Limbs

  /** pi is minus the inverse of the modulus, modulo the base. */
  predicate IsNegInverse(pi: nat, p0: nat) {
    pi < BASE && (pi * p0 + 1) % BASE == 0
  }

  /** The chosen multiple of the modulus clears the low limb. */
  lemma LowLimbClears(w0: nat, xy: nat, p0: nat, pi: nat, u: nat)
    requires IsNegInverse(pi, p0) && u == (w0 + xy) * pi % BASE
    ensures (w0 + xy + p0 * u) % BASE == 0
  {
    var a := w0 + xy;
    var m, k := (pi * p0 + 1) / BASE, a * pi / BASE;
    assert pi * p0 + 1 == BASE * m && a * pi == BASE * k + u;
    ClearsExactly(a, p0, pi, u, m, k, BASE);
    assert a + p0 * u == BASE * (a * m - p0 * k);
    MultipleMod(a * m - p0 * k, BASE);
  }

  lemma ClearsExactly(a: int, p0: int, pi: int, u: int, m: int, k: int, b: int)
    requires pi * p0 + 1 == b * m && a * pi == b * k + u
    ensures a + p0 * u == b * (a * m - p0 * k)
  {
    assert p0 * (a * pi) == p0 * (b * k) + p0 * u;
    assert a * (pi * p0 + 1) == a * (b * m);
    assert p0 * (a * pi) == a * (pi * p0);
  }

  lemma MultipleMod(q: int, b: int)
    requires b > 0
    ensures (b * q) % b == 0
  {
    QuotientUnique(b * q, b, q, 0);
  }

  /** Bounds that keep the running value below twice the modulus. */
  lemma RoundBound(w: nat, y: nat, xi: nat, p: nat, u: nat)
    requires w < 2 * p && y < p && xi < BASE && u < BASE
    ensures 0 <= y * xi && 0 <= p * u && w + y * xi + p * u < 2 * p * BASE
  {
    assert y * xi <= (p - 1) * xi <= (p - 1) * (BASE - 1) by { Scale(y, p - 1, xi); Scale(xi, BASE - 1, p - 1); }
    assert p * u <= p * (BASE - 1) by { Scale(u, BASE - 1, p); }
    assert (p - 1) * (BASE - 1) == p * BASE - p - BASE + 1;
  }

  lemma Scale(a: nat, b: nat, c: nat)
    requires a <= b
    ensures a * c <= b * c && c * a <= c * b
  {
    assert (b - a) * c >= 0;
    assert b * c == a * c + (b - a) * c;
  }

  /** Dropping the cleared low limb divides by the base. */
  lemma RoundValue(s: seq<nat>, n: nat, total: nat)
    requires 0 < n <= |s| && AreLimbs(s) && Value(s, n) == total && total % BASE == 0
    ensures total == BASE * Value(s[1..], n - 1)
  {
    ValueShift(s, n);
    QuotientUnique(total, BASE, Value(s[1..], n - 1), s[0]);
  }

  lemma LowOf(s: seq<nat>, n: nat)
    requires 0 < n <= |s| && AreLimbs(s)
    ensures Value(s, n) % BASE == s[0]
  {
    ValueShift(s, n);
    QuotientUnique(Value(s, n), BASE, Value(s[1..], n - 1), s[0]);
  }

  /** The round's sum has a zero low limb. */
  lemma SumClears(w: nat, w0: nat, y: nat, y0: nat, xi: nat, p: nat, p0: nat, pi: nat, u: nat)
    requires w % BASE == w0 && y % BASE == y0 && p % BASE == p0
    requires IsNegInverse(pi, p0) && u == (w0 + xi * y0) * pi % BASE
    ensures (w + y * xi + p * u) % BASE == 0
  {
    LowLimbClears(w0, xi * y0, p0, pi, u);
    var a, b, c, k := w / BASE, y / BASE, p / BASE, (w0 + xi * y0 + p0 * u) / BASE;
    SplitSum(w, a, w0, y, b, y0, xi, p, c, p0, u, BASE);
    assert w + y * xi + p * u == BASE * (a + b * xi + c * u + k);
    MultipleMod(a + b * xi + c * u + k, BASE);
  }

  lemma SplitSum(w: int, a: int, w0: int, y: int, b: int, y0: int, xi: int, p: int, c: int, p0: int, u: int, base: int)
    requires w == base * a + w0 && y == base * b + y0 && p == base * c + p0
    ensures w + y * xi + p * u == base * (a + b * xi + c * u) + (w0 + xi * y0 + p0 * u)
  {
    assert y * xi == base * (b * xi) + xi * y0;
    assert p * u == base * (c * u) + p0 * u;
  }

  /** One more limb of x: the exact equation that the running value keeps. */
  lemma RoundEquation(w: nat, next: nat, ri: nat, xs: int, y: nat, xi: nat, m: int, u: nat, p: nat)
    requires BASE * next == w + y * xi + p * u && w * ri == xs * y + m * p
    ensures next * (BASE * ri) == (xs + xi * ri) * y + (m + u * ri) * p
  {
    Regrouped(w, next, ri, xs, y, xi, m, u, p, BASE);
  }

  lemma Regrouped(w: int, next: int, ri: int, xs: int, y: int, xi: int, m: int, u: int, p: int, b: int)
    requires b * next == w + y * xi + p * u && w * ri == xs * y + m * p
    ensures next * (b * ri) == (xs + xi * ri) * y + (m + u * ri) * p
  {
    assert next * (b * ri) == (b * next) * ri;
    assert (w + y * xi + p * u) * ri == w * ri + (y * xi) * ri + (p * u) * ri;
    assert (y * xi) * ri == (xi * ri) * y && (p * u) * ri == (u * ri) * p;
    assert (xs + xi * ri) * y == xs * y + (xi * ri) * y && (m + u * ri) * p == m * p + (u * ri) * p;
  }

  /** The carries of a round fit one limb: nothing is lost in the limb above. */
  lemma CarriesFit(v1: nat, v2: nat, c1: nat, c2: nat, w: nat, y: nat, xi: nat, p: nat, u: nat, r: nat, rd: nat)
    requires rd == BASE * r && v1 + c1 * rd == w + y * xi && v2 + c2 * rd == v1 + p * u
    requires w + y * xi + p * u < 2 * p * BASE && p <= r && r > 0
    ensures v2 + (c1 + c2) * rd == w + y * xi + p * u && c1 + c2 < 2
  {
    assert (c1 + c2) * rd == c1 * rd + c2 * rd;
    if c1 + c2 >= 2 { NextMultiple(1, c1 + c2, rd); }
  }

  class ZpData {
    const t: nat
    const pi: nat
    const prA: seq<nat>
    const R: seq<nat>

    constructor (t: nat, pi: nat, prA: seq<nat>, R: seq<nat>)
      ensures this.t == t && this.pi == pi && this.prA == prA && this.R == R
    {
      this.t, this.pi, this.prA, this.R := t, pi, prA, R;
    }

    function Modulus(): nat
      requires |prA| == t + 1
    {
      Value(prA, t)
    }

    /** The constants are right for the modulus: its limbs, minus its inverse, and the radix reduced. */
    ghost predicate Valid() {
      && t > 0 && |prA| == |R| == t + 1 && AreLimbs(prA) && AreLimbs(R) && prA[t] == R[t] == 0
      && Modulus() > 0 && IsNegInverse(pi, prA[0]) && Value(R, t) == Radix(t) % Modulus()
    }

    /** The running value: t + 1 limbs from position i. */
    ghost predicate Running(ans: array<nat>, i: nat, w: nat)
      reads ans
      requires |prA| == t + 1
    {
      && ans.Length == 2 * t + 2 && i <= t && AreLimbs(ans[i..i + t + 1]) && Value(ans[i..i + t + 1], t + 1) == w
      && w < 2 * Modulus()
    }

    /** The low limb of the running value. */
    lemma RunningLow(ans: array<nat>, i: nat, w: nat)
      requires Valid() && Running(ans, i, w)
      ensures ans[i] < BASE && w % BASE == ans[i]
      ensures Value(prA, t + 1) == Modulus() && Value(prA, t + 1) % BASE == prA[0]
    {
      LowOf(ans[i..i + t + 1], t + 1);
      LowOf(prA, t + 1);
    }

    /** What the round adds up to, before and after the multiple of the modulus. */
    ghost predicate RoundSums(s1: nat, total: nat, w: nat, y: nat, xi: nat, u: nat)
      requires |prA| == t + 1
    {
      && s1 == w + y * xi && total == s1 + Modulus() * u && w < 2 * Modulus() && y < Modulus() && xi < BASE && u < BASE
      && total % BASE == 0
    }

    /** The value of n limbs, with a carry above them. */
    static ghost predicate Carried(v: nat, c: nat, n: nat, s: nat) {
      v + c * Radix(n) == s
    }

    lemma RoundCarries(s1: nat, total: nat, w: nat, y: nat, xi: nat, u: nat, v1: nat, c1: nat, v2: nat, c2: nat)
      requires Valid() && RoundSums(s1, total, w, y, xi, u) && Carried(v1, c1, t + 1, s1)
      requires v2 + c2 * Radix(t + 1) == v1 + Value(prA, t + 1) * u
      ensures c1 + c2 < 2 && Carried(v2, c1 + c2, t + 1, total)
    {
      ModulusFits();
      hide Value, Radix;
      RoundBound(w, y, xi, Modulus(), u);
      CarriesFit(v1, v2, c1, c2, w, y, xi, Modulus(), u, Radix(t), Radix(t + 1));
    }

    lemma RoundShifts(s1: nat, total: nat, w: nat, y: nat, xi: nat, u: nat, before: seq<nat>, all: seq<nat>, c: nat)
      requires Valid() && RoundSums(s1, total, w, y, xi, u)
      requires |before| == t + 1 && |all| == t + 2 && AreLimbs(all) && all[..t + 1] == before && all[t + 1] == c
      requires Carried(Value(before, t + 1), c, t + 1, total)
      ensures total == BASE * Value(all[1..], t + 1) && Value(all[1..], t + 1) < 2 * Modulus()
    {
      assert forall k :: 0 <= k < t + 1 ==> all[..t + 1][k] == all[k];
      ValueSame(before, all, t + 1);
      ValueStep(all, t + 1);
      hide Value, Radix;
      RoundValue(all, t + 2, total);
      RoundBound(w, y, xi, Modulus(), u);
    }

    /**
      Adds u times the modulus to the t + 1 limbs at i, once the carry of x's limb has been stored
      above them. The low limb becomes zero, and the new running value starts one limb up.
     */
    method Reduce(ans: array<nat>, i: nat, u: nat, c1: nat, ghost s1: nat, ghost total: nat, ghost w: nat, ghost y: nat,
                  ghost xi: nat)
      returns (ghost next: nat)
      requires Valid() && ans.Length == 2 * t + 2 && i < t && u < BASE
      requires AreLimbs(ans[i..i + t + 1]) && Carried(Value(ans[i..i + t + 1], t + 1), c1, t + 1, s1)
      requires ans[t + i + 1] == c1 && RoundSums(s1, total, w, y, xi, u)
      modifies ans
      ensures Running(ans, i + 1, next) && BASE * next == total
    {
      hide Value, Radix, IsNegInverse, RoundSums, Carried;
      ghost var v1 := Value(ans[i..i + t + 1], t + 1);
      var c2 := AddMul1(ans, i, prA, t + 1, u);
      ghost var before := ans[i..i + t + 1];
      RoundCarries(s1, total, w, y, xi, u, v1, c1, Value(before, t + 1), c2);
      ans[t + i + 1] := (ans[t + i + 1] + c2) % BASE;
      ghost var all := ans[i..i + t + 2];
      assert all[..t + 1] == before && all[t + 1] == c1 + c2;
      RoundShifts(s1, total, w, y, xi, u, before, all, c1 + c2);
      assert all[1..] == ans[i + 1..i + 1 + t + 1];
      next := Value(all[1..], t + 1);
    }

    lemma ModulusFits()
      requires Valid()
      ensures Modulus() < Radix(t) && Radix(t + 1) == BASE * Radix(t) && Value(prA, t + 1) == Modulus()
    {
      ValueBound(prA, t);
    }

    /** The running value after the first i limbs of x: an exact equation, and a bound. */
    ghost predicate Partial(ans: array<nat>, i: nat, xs: seq<nat>, y: nat, w: nat, m: nat)
      reads ans
      requires |prA| == t + 1 && i <= |xs|
    {
      Running(ans, i, w) && w * Radix(i) == Value(xs, i) * y + m * Modulus()
    }

    /** The first limb of x. */
    method FirstRound(ans: array<nat>, xs: seq<nat>, ys: seq<nat>) returns (ghost w: nat, ghost m: nat)
      requires Valid() && ans.Length == 2 * t + 2 && |xs| > t && |ys| > t && AreLimbs(xs) && AreLimbs(ys) && ys[t] == 0
      requires Value(ys, t) < Modulus()
      modifies ans
      ensures Partial(ans, 1, xs, Value(ys, t), w, m)
    {
      hide Value, Radix, IsNegInverse;
      ghost var y := Value(ys, t);
      Wrapping(xs[0], ys[0], pi);
      FirstDigit(xs);
      var u := xs[0] * ys[0] * pi % BASE;
      FirstSums(ys, y, xs[0], u);
      var carry := Mul1(ans, ys, t, xs[0]);
      ghost var below := ans[..t];
      ans[t] := carry;
      ans[t + 1] := 0;
      ghost var low := ans[0..0 + t + 1];
      assert forall k :: 0 <= k < t ==> low[k] == below[k];
      ValueSame(below, low, t);
      ValueStep(low, t);
      NoCarry(Value(low, t + 1), t + 1);
      w := Reduce(ans, 0, u, 0, y * xs[0], y * xs[0] + Modulus() * u, 0, y, xs[0]);
      m := u;
      RoundEquation(0, w, 1, 0, y, xs[0], 0, u, Modulus());
    }

    lemma NoCarry(v: nat, n: nat)
      ensures Carried(v, 0, n, v)
    {
    }

    lemma FirstSums(ys: seq<nat>, y: nat, x0: nat, u: nat)
      requires Valid() && |ys| > t && AreLimbs(ys) && y == Value(ys, t) < Modulus() && x0 < BASE
      requires u == x0 * ys[0] * pi % BASE
      ensures y * x0 >= 0 && RoundSums(y * x0, y * x0 + Modulus() * u, 0, y, x0, u)
    {
      LowOf(ys, t);
      LowOf(prA, t);
      hide Value, Radix, IsNegInverse;
      SumClears(0, 0, y, ys[0], x0, Modulus(), prA[0], pi, u);
      RoundBound(0, y, x0, Modulus(), u);
    }

    lemma NextSums(w: nat, w0: nat, ys: seq<nat>, y: nat, xi: nat, u: nat)
      requires Valid() && w < 2 * Modulus() && w % BASE == w0 && |ys| > t && AreLimbs(ys)
      requires y == Value(ys, t) < Modulus() && xi < BASE
      requires u == (w0 + xi * ys[0]) * pi % BASE
      ensures RoundSums(w + y * xi, w + y * xi + Modulus() * u, w, y, xi, u)
    {
      LowOf(ys, t);
      LowOf(prA, t);
      hide Value, Radix, IsNegInverse;
      SumClears(w, w0, y, ys[0], xi, Modulus(), prA[0], pi, u);
      RoundBound(w, y, xi, Modulus(), u);
    }

    lemma FirstDigit(xs: seq<nat>)
      requires |xs| > 0
      ensures Value(xs, 1) == xs[0] && Radix(1) == BASE && Value(xs, 0) == 0 && Radix(0) == 1
    {
    }

    lemma Wrapping(a: nat, b: nat, c: nat)
      ensures a * b >= 0 && a * b * c >= 0
    {
    }

    /** One more limb of x: the multiple of y, then the multiple of the modulus that clears the low limb. */
    method NextRound(ans: array<nat>, i: nat, xs: seq<nat>, ys: seq<nat>, ghost w: nat, ghost m: nat)
      returns (ghost next: nat, ghost mm: nat)
      requires Valid() && 1 <= i < t && |xs| > t && |ys| > t && AreLimbs(xs) && AreLimbs(ys) && ys[t] == 0
      requires Value(ys, t) < Modulus()
      requires Partial(ans, i, xs, Value(ys, t), w, m)
      modifies ans
      ensures Partial(ans, i + 1, xs, Value(ys, t), next, mm)
    {
      hide Value, Radix, IsNegInverse, RoundSums, Carried;
      ghost var y := Value(ys, t);
      ValueStep(ys, t);
      Wrapping(xs[i], ys[0], 1);
      RunningLow(ans, i, w);
      Wrapping(ans[i] + xs[i] * ys[0], pi, 1);
      var u := (ans[i] + xs[i] * ys[0]) * pi % BASE;
      NextSums(w, ans[i], ys, y, xs[i], u);
      var c1 := AddMul1(ans, i, ys, t + 1, xs[i]);
      ghost var low := ans[i..i + t + 1];
      ans[t + i + 1] := c1;
      assert low == ans[i..i + t + 1];
      ghost var total: nat := w + y * xs[i] + Modulus() * u;
      IsCarried(Value(low, t + 1), c1, t + 1, w + y * xs[i]);
      next := Reduce(ans, i, u, c1, w + y * xs[i], total, w, y, xs[i]);
      mm := m + u * Radix(i);
      RoundEquation(w, next, Radix(i), Value(xs, i), y, xs[i], m, u, Modulus());
      ValueStep(xs, i);
    }

    lemma IsCarried(v: nat, c: nat, n: nat, s: nat)
      requires v + c * Radix(n) == s
      ensures Carried(v, c, n, s)
    {
    }

    /** The last comparison: one subtraction brings the value below the modulus. */
    method FinalSubtract(z: array<nat>, ans: array<nat>, ghost w: nat)
      requires Valid() && Running(ans, t, w) && z.Length > t && z != ans
      modifies z
      ensures AreLimbs(z[..t]) && Value(z[..t], t) == (if w >= Modulus() then w - Modulus() else w) < Modulus()
      ensures forall i :: t <= i < z.Length ==> z[i] == old(z[i])
    {
      ModulusFits();
      ghost var high := ans[t..t + t + 1];
      ValueStep(high, t);
      ValueStep(prA, t);
      var ge := AtLeast(ans[t..2 * t + 1], prA, t + 1);
      assert ans[t..2 * t + 1] == high;
      if ge {
        var borrow := SubN(z, ans[t..2 * t + 1], prA, t);
        ValueBound(z[..t], t);
        BorrowIsTop(Value(z[..t], t), Modulus(), Value(high, t), borrow, high[t], Radix(t), w);
      } else {
        for k := 0 to t
          invariant forall i :: 0 <= i < k ==> z[i] == high[i]
          invariant forall i :: t <= i < z.Length ==> z[i] == old(z[i])
        {
          z[k] := ans[t + k];
          assert ans[t + k] == high[k];
        }
        assert forall i :: 0 <= i < t ==> z[..t][i] == high[i];
        ValueSame(z[..t], high, t);
        TopIsZero(Value(high, t), high[t], Radix(t), w, Modulus());
      }
    }

    lemma TopIsZero(v: nat, top: nat, r: nat, w: nat, p: nat)
      requires w == v + top * r && w < p < r
      ensures top == 0 && w == v
    {
      if top > 0 { NextMultiple(0, top, r); }
    }

    /** The borrow of the subtraction is the top limb. */
    lemma BorrowIsTop(z: nat, p: nat, v: nat, borrow: nat, top: nat, r: nat, w: nat)
      requires z + p == v + borrow * r && w == v + top * r && p <= w < 2 * p && p < r && z < r && borrow <= 1
      ensures z == w - p
    {
      if top < borrow {
        NextMultiple(top, borrow, r);
      } else if borrow < top {
        NextMultiple(borrow, top, r);
      }
    }

    /**
      Montgomery multiplication; false where the original aborts. z may be x or y. The result is
      reduced, and times the radix it is congruent to the product.
     */
    method MontMult(z: array<nat>, x: array<nat>, y: array<nat>) returns (ok: bool)
      requires Valid() && z.Length > t && x.Length > t && y.Length > t && AreLimbs(x[..]) && AreLimbs(y[..])
      requires Value(y[..], t) < Modulus()
      modifies z
      ensures ok <==> old(x[t]) == 0 && old(y[t]) == 0
      ensures ok ==> AreLimbs(z[..t]) && Value(z[..t], t) < Modulus()
      ensures ok ==> Value(z[..t], t) * Radix(t) % Modulus() == old(Value(x[..], t)) * old(Value(y[..], t)) % Modulus()
      ensures ok ==> forall i :: t <= i < z.Length ==> z[i] == old(z[i])
      ensures !ok ==> z[..] == old(z[..])
    {
      if x[t] != 0 || y[t] != 0 { return false; }
      var xs, ys := x[..], y[..];
      var ans := new nat[2 * t + 2];
      ghost var w, m := FirstRound(ans, xs, ys);
      for i := 1 to t
        modifies ans
        invariant Partial(ans, i, xs, Value(ys, t), w, m)
      {
        w, m := NextRound(ans, i, xs, ys, w, m);
      }
      FinalSubtract(z, ans, w);
      Congruent(Value(z[..t], t), w, Radix(t), Value(xs, t) * Value(ys, t), m, Modulus());
      ok := true;
    }

    lemma Congruent(z: nat, w: nat, r: nat, xy: int, m: int, p: nat)
      requires p > 0 && w * r == xy + m * p && (z == w || z == w - p)
      ensures z * r % p == xy % p
    {
      if z == w {
        SameResidue(z * r, xy, m, p);
      } else {
        assert (w - p) * r == w * r - p * r;
        assert z * r == xy + (m - r) * p by { assert (m - r) * p == m * p - r * p; }
        SameResidue(z * r, xy, m - r, p);
      }
    }

    /** v is the Montgomery form of a. */
    ghost predicate Represents(v: nat, a: nat)
      requires |prA| == t + 1 && Modulus() > 0
    {
      v < Modulus() && v % Modulus() == a * Radix(t) % Modulus()
    }

    /** A reduced number in t limbs, with the limb above clear. */
    ghost predicate IsModp(x: array<nat>)
      reads x
      requires |prA| == t + 1
    {
      x.Length == t + 1 && AreLimbs(x[..]) && x[t] == 0 && Value(x[..], t) < Modulus()
    }

    /** Montgomery forms multiply. */
    lemma ProductRepresents(z: nat, x: nat, y: nat, a: nat, b: nat)
      requires Valid() && Represents(x, a) && Represents(y, b) && z < Modulus()
      requires z * Radix(t) % Modulus() == x * y % Modulus()
      ensures Represents(z, a * b)
    {
      NegInverseOfModulus();
      hide Value, Radix, IsNegInverse;
      FormsMultiply(z, x, y, a, b, Modulus(), pi, t);
    }

    lemma NegInverseOfModulus()
      requires Valid()
      ensures (pi * Modulus() + 1) % BASE == 0
    {
      LowOf(prA, t);
      hide Value, Radix;
      var p, c := Modulus(), Modulus() / BASE;
      assert pi * p + 1 == (pi * prA[0] + 1) + (pi * c) * BASE;
      SameResidue(pi * p + 1, pi * prA[0] + 1, pi * c, BASE);
    }

    /** Mul and Sqr: one Montgomery multiplication; the result may overwrite an operand. */
    method Mul(ans: array<nat>, x: array<nat>, y: array<nat>, ghost a: nat, ghost b: nat)
      requires Valid() && IsModp(x) && IsModp(y) && IsModp(ans)
      requires Represents(Value(x[..], t), a) && Represents(Value(y[..], t), b)
      modifies ans
      ensures IsModp(ans) && Represents(Value(ans[..], t), a * b)
    {
      ghost var xv, yv := Value(x[..], t), Value(y[..], t);
      var ok := MontMult(ans, x, y);
      assert forall i :: 0 <= i < t ==> ans[..t][i] == ans[..][i];
      ValueSame(ans[..t], ans[..], t);
      ProductRepresents(Value(ans[..], t), xv, yv, a, b);
    }

    /** The Montgomery form of one. */
    method AssignOne(x: array<nat>)
      requires Valid() && x.Length == t + 1
      modifies x
      ensures IsModp(x) && Represents(Value(x[..], t), 1)
    {
      hide Value, Radix, IsNegInverse;
      for i := 0 to t + 1
        invariant forall k :: 0 <= k < i ==> x[k] == R[k]
      {
        x[i] := R[i];
      }
      assert x[..] == R;
      Reduced(Radix(t), Modulus());
    }

    lemma Reduced(r: nat, p: nat)
      requires p > 0
      ensures r % p < p && (r % p) % p == 1 * r % p
    {
    }

    /** Copies a number. */
    method Copy(dst: array<nat>, src: array<nat>)
      requires Valid() && IsModp(src) && dst.Length == t + 1
      modifies dst
      ensures IsModp(dst) && dst[..] == old(src[..])
    {
      for i := 0 to t + 1
        invariant forall k :: 0 <= k < i ==> dst[k] == old(src[k])
        invariant forall k :: 0 <= k < t + 1 ==> src[k] == old(src[k])
      {
        dst[i] := src[i];
      }
      assert dst[..] == old(src[..]);
    }

    /** Square and multiply: the Montgomery form of the power; false where the original throws. */
    method Power(ans: array<nat>, x: array<nat>, exp: int, ghost a: nat) returns (ok: bool)
      requires Valid() && IsModp(x) && ans.Length == t + 1 && Represents(Value(x[..], t), a)
      modifies ans
      ensures ok <==> exp >= 0
      ensures ok ==> IsModp(ans) && Represents(Value(ans[..], t), Pow(a, exp))
    {
      hide Value, Radix, IsNegInverse, Pow, IsModp, Represents;
      PowOne(a);
      if exp == 1 {
        Copy(ans, x);
        return true;
      }
      if exp == 0 {
        AssignOne(ans);
        return true;
      }
      if exp < 0 { return false; }
      var s := new nat[t + 1];
      Copy(s, x);
      AssignOne(ans);
      var e: nat := exp;
      ghost var done: nat, base: nat := 1, a;
      while e != 0
        modifies ans, s
        invariant IsModp(ans) && IsModp(s) && Represents(Value(ans[..], t), done) && Represents(Value(s[..], t), base)
        invariant done * Pow(base, e) == Pow(a, exp)
      {
        PowHalves(done, base, e);
        PowOne(base);
        if e % 2 == 1 {
          Mul(ans, ans, s, done, base);
          done := done * base;
        }
        e := e / 2;
        Mul(s, s, s, base, base);
        base := base * base;
      }
      PowOne(base);
      ok := true;
    }
  }

  lemma FormsMultiply(z: nat, x: nat, y: nat, a: nat, b: nat, p: nat, pi: nat, n: nat)
    requires p > 0 && (pi * p + 1) % BASE == 0 && z * Radix(n) % p == x * y % p
    requires x % p == a * Radix(n) % p && y % p == b * Radix(n) % p
    ensures z % p == a * b * Radix(n) % p
  {
    hide Radix;
    var r := Radix(n);
    ProductResidue(x, y, a * r, b * r, p);
    Regroup4(a, b, r);
    CancelRadix(z, a * b * r, p, pi, n);
  }

  lemma Regroup4(a: int, b: int, r: int)
    ensures (a * r) * (b * r) == (a * b * r) * r
  {
    assert (a * r) * (b * r) == a * (r * (b * r));
  }

  lemma PowOne(a: nat)
    ensures Pow(a, 1) == a && Pow(a, 0) == 1
  {
    assert Pow(a, 0) == 1;
  }

  lemma {:induction false} PowSquare(b: nat, e: nat)
    ensures Pow(b, 2 * e) == Pow(b * b, e)
  {
    if e > 0 {
      PowSquare(b, e - 1);
      assert Pow(b, 2 * e) == b * Pow(b, 2 * e - 1) == b * (b * Pow(b, 2 * e - 2));
    }
  }

  /** One step of square and multiply. */
  lemma PowHalves(done: nat, b: nat, e: nat)
    requires e > 0
    ensures done * Pow(b, e) == (if e % 2 == 1 then done * b else done) * Pow(b * b, e / 2)
  {
    PowSquare(b, e / 2);
    if e % 2 == 1 {
      assert Pow(b, e) == b * Pow(b, 2 * (e / 2));
    }
  }

  /** The base is invertible modulo p, so it cancels. */
  lemma CancelBase(u: int, v: int, p: nat, pi: nat)
    requires p > 0 && (pi * p + 1) % BASE == 0 && (BASE * u) % p == (BASE * v) % p
    ensures u % p == v % p
  {
    var k, q := (pi * p + 1) / BASE, (BASE * u) / p - (BASE * v) / p;
    assert BASE * k == pi * p + 1;
    assert BASE * u - BASE * v == p * q;
    CancelExactly(u, v, p, pi, k, q, BASE);
    SameResidue(u, v, k * q - pi * (u - v), p);
  }

  lemma CancelExactly(u: int, v: int, p: int, pi: int, k: int, q: int, b: int)
    requires b * k == pi * p + 1 && b * u - b * v == p * q
    ensures u == v + (k * q - pi * (u - v)) * p
  {
    assert (b * k) * (u - v) == k * (b * u - b * v);
    assert (pi * p + 1) * (u - v) == (pi * (u - v)) * p + (u - v);
    assert k * (p * q) == (k * q) * p;
  }

  lemma {:induction false} CancelRadix(u: int, v: int, p: nat, pi: nat, n: nat)
    requires p > 0 && (pi * p + 1) % BASE == 0 && (u * Radix(n)) % p == (v * Radix(n)) % p
    ensures u % p == v % p
  {
    if n > 0 {
      assert u * Radix(n) == BASE * (u * Radix(n - 1)) && v * Radix(n) == BASE * (v * Radix(n - 1));
      CancelBase(u * Radix(n - 1), v * Radix(n - 1), p, pi);
      CancelRadix(u, v, p, pi, n - 1);
    }
  }
}
