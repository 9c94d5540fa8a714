/** Numbers as little-endian sequences of 64-bit limbs, and the limb routines that Montgomery multiplication calls. */
module Limbs {

  const BASE: nat := 0x1_0000_0000_0000_0000

  function Pow(b: nat, e: nat): nat {
    if e == 0 then 1 else b * Pow(b, e - 1)
  }

  /** BASE to the n. */
  function Radix(n: nat): (r: nat)
    ensures r > 0
  {
    if n == 0 then 1 else BASE * Radix(n - 1)
  }

  predicate AreLimbs(s: seq<nat>) {
    forall i :: 0 <= i < |s| ==> s[i] < BASE
  }

  /** The number that the first n limbs stand for. */
  function Value(s: seq<nat>, n: nat): nat
    requires n <= |s|
  {
    if n == 0 then 0 else Value(s, n - 1) + s[n - 1] * Radix(n - 1)
  }

  lemma {:induction false} ValueBound(s: seq<nat>, n: nat)
    requires n <= |s| && AreLimbs(s)
    ensures Value(s, n) < Radix(n)
  {
    if n > 0 {
      ValueBound(s, n - 1);
      TopLimb(s[n - 1], Radix(n - 1), Value(s, n - 1));
    }
  }

  lemma TopLimb(d: nat, r: nat, v: nat)
    requires d < BASE && v < r
    ensures v + d * r < BASE * r
  {
    NextMultiple(d, BASE, r);
  }

  lemma NextMultiple(d: nat, e: nat, r: nat)
    requires d < e
    ensures d * r + r <= e * r
  {
    assert (e - d - 1) * r >= 0;
    assert e * r == d * r + r + (e - d - 1) * r;
  }

  /** Equal limbs, equal value. */
  lemma {:induction false} ValueSame(s: seq<nat>, t: seq<nat>, n: nat)
    requires n <= |s| && n <= |t| && forall i :: 0 <= i < n ==> s[i] == t[i]
    ensures Value(s, n) == Value(t, n)
  {
    if n > 0 { ValueSame(s, t, n - 1); }
  }

  /** Taking off the lowest limb. */
  lemma {:induction false} ValueShift(s: seq<nat>, n: nat)
    requires 0 < n <= |s|
    ensures Value(s, n) == s[0] + BASE * Value(s[1..], n - 1)
  {
    if n > 1 {
      ValueShift(s, n - 1);
      assert s[1..][n - 2] == s[n - 1];
      ShiftTerm(BASE, s[n - 1], Radix(n - 2), Value(s[1..], n - 2));
    }
  }

  lemma ShiftTerm(b: int, d: int, r: int, v: int)
    ensures b * (v + d * r) == b * v + d * (b * r)
  {
    assert b * (d * r) == d * (b * r);
  }

  lemma {:induction false} ValueUnique(s: seq<nat>, t: seq<nat>, n: nat)
    requires n <= |s| && n <= |t| && AreLimbs(s) && AreLimbs(t) && Value(s, n) == Value(t, n)
    ensures s[..n] == t[..n]
  {
    if n > 0 {
      ValueBound(s, n - 1);
      ValueBound(t, n - 1);
      DigitUnique(s[n - 1], t[n - 1], Radix(n - 1), Value(s, n - 1), Value(t, n - 1));
      ValueUnique(s, t, n - 1);
      assert s[..n] == s[..n - 1] + [s[n - 1]] && t[..n] == t[..n - 1] + [t[n - 1]];
    }
  }

  lemma DigitUnique(d: nat, e: nat, r: nat, v: nat, w: nat)
    requires v + d * r == w + e * r && v < r && w < r
    ensures d == e && v == w
  {
    if d < e {
      NextMultiple(d, e, r);
    } else if e < d {
      NextMultiple(e, d, r);
    }
  }

  lemma CarryStep(dst: nat, src: nat, v: nat, carry: nat)
    requires dst < BASE && src < BASE && v < BASE && carry < BASE
    ensures src * v >= 0 && (dst + src * v + carry) / BASE < BASE
  {
    Products(src, v, BASE - 1);
  }

  lemma Products(a: nat, b: nat, m: nat)
    requires a <= m && b <= m
    ensures a * b <= m * m
  {
    assert (m - a) * b >= 0 && m * (m - b) >= 0;
    assert a * b == m * b - (m - a) * b && m * b == m * m - m * (m - b);
  }

  lemma Collect(a: int, b: int, v: int, r: int, dst: int, src: int, carry: int, digit: int, next: int, old0: int,
                src0: int)
    requires a + carry * r == old0 + src0 * v
    requires digit + next * b == dst + src * v + carry
    ensures a + digit * r + next * (b * r) == old0 + dst * r + (src0 + src * r) * v
  {
    assert next * (b * r) == (next * b) * r;
    assert (digit + next * b) * r == digit * r + (next * b) * r;
    assert (dst + src * v + carry) * r == dst * r + (src * v) * r + carry * r;
    assert (src0 + src * r) * v == src0 * v + (src * r) * v;
    assert (src * v) * r == (src * r) * v;
  }

  /** mpn_addmul_1: adds v times n limbs of src to the n limbs of dst at off, and returns the carry. */
  method AddMul1(dst: array<nat>, off: nat, src: seq<nat>, n: nat, v: nat) returns (carry: nat)
    requires off + n <= dst.Length && n <= |src| && v < BASE && AreLimbs(src)
    requires AreLimbs(dst[off..off + n])
    modifies dst
    ensures carry < BASE && AreLimbs(dst[off..off + n])
    ensures Value(dst[off..off + n], n) + carry * Radix(n) == old(Value(dst[off..off + n], n)) + Value(src, n) * v
    ensures forall i :: 0 <= i < dst.Length && !(off <= i < off + n) ==> dst[i] == old(dst[i])
  {
    hide Radix, Value;
    ghost var before := dst[off..off + n];
    carry := 0;
    ValueNothing(before, src);
    ValueNothing(dst[off..off + n], src);
    for k := 0 to n
      invariant carry < BASE && AreLimbs(dst[off..off + n])
      invariant forall i :: k <= i < n ==> dst[off..off + n][i] == before[i]
      invariant forall i :: 0 <= i < dst.Length && !(off <= i < off + n) ==> dst[i] == old(dst[i])
      invariant Value(dst[off..off + n], k) + carry * Radix(k) == Value(before, k) + Value(src, k) * v
    {
      ghost var now := dst[off..off + n];
      assert now[k] == before[k] == dst[off + k];
      CarryStep(before[k], src[k], v, carry);
      var sum := dst[off + k] + src[k] * v + carry;
      Collect(Value(now, k), BASE, v, Radix(k), before[k], src[k], carry, sum % BASE, sum / BASE, Value(before, k),
              Value(src, k));
      dst[off + k] := sum % BASE;
      carry := sum / BASE;
      ghost var next := dst[off..off + n];
      assert next == now[k := sum % BASE];
      ValueSame(now, next, k);
      ValueStep(next, k);
      ValueStep(before, k);
      ValueStep(src, k);
    }
  }

  lemma ValueNothing(s: seq<nat>, t: seq<nat>)
    ensures Value(s, 0) == Value(t, 0) == 0 && Radix(0) == 1
  {
  }

  lemma ValueStep(s: seq<nat>, k: nat)
    requires k < |s|
    ensures Value(s, k + 1) == Value(s, k) + s[k] * Radix(k) && Radix(k + 1) == BASE * Radix(k)
  {
  }

  /** mpn_mul_1: the n lowest limbs of dst become v times src, and the carry is returned. */
  method Mul1(dst: array<nat>, src: seq<nat>, n: nat, v: nat) returns (carry: nat)
    requires n <= dst.Length && n <= |src| && v < BASE && AreLimbs(src)
    modifies dst
    ensures carry < BASE && AreLimbs(dst[..n])
    ensures Value(dst[..n], n) + carry * Radix(n) == Value(src, n) * v
    ensures forall i :: n <= i < dst.Length ==> dst[i] == old(dst[i])
  {
    for i := 0 to n
      invariant forall k :: 0 <= k < i ==> dst[k] == 0
      invariant forall k :: n <= k < dst.Length ==> dst[k] == old(dst[k])
    {
      dst[i] := 0;
    }
    ValueZero(dst[..n], n);
    assert dst[0..0 + n] == dst[..n];
    carry := AddMul1(dst, 0, src, n, v);
    assert dst[0..0 + n] == dst[..n];
  }

  lemma {:induction false} ValueZero(s: seq<nat>, n: nat)
    requires n <= |s| && forall i :: 0 <= i < n ==> s[i] == 0
    ensures Value(s, n) == 0
  {
    if n > 0 { ValueZero(s, n - 1); }
  }

  /** mpn_cmp on n limbs, from the highest down: whether a's number is at least b's. */
  method AtLeast(a: seq<nat>, b: seq<nat>, n: nat) returns (ge: bool)
    requires n <= |a| && n <= |b| && AreLimbs(a) && AreLimbs(b)
    ensures ge <==> Value(a, n) >= Value(b, n)
  {
    var i: nat := n;
    while i > 0
      invariant i <= n && (Value(a, n) >= Value(b, n) <==> Value(a, i) >= Value(b, i))
    {
      i := i - 1;
      ValueBound(a, i);
      ValueBound(b, i);
      if a[i] != b[i] {
        HigherDigit(a[i], b[i], Radix(i), Value(a, i), Value(b, i));
        return a[i] > b[i];
      }
    }
    ge := true;
  }

  lemma HigherDigit(d: nat, e: nat, r: nat, v: nat, w: nat)
    requires d != e && v < r && w < r
    ensures v + d * r >= w + e * r <==> d > e
  {
    if d > e {
      NextMultiple(e, d, r);
    } else {
      NextMultiple(d, e, r);
    }
  }

  /** mpn_sub_n: z becomes a minus b on n limbs; the borrow is returned. */
  method SubN(z: array<nat>, a: seq<nat>, b: seq<nat>, n: nat) returns (borrow: nat)
    requires n <= z.Length && n <= |a| && n <= |b| && AreLimbs(a) && AreLimbs(b)
    modifies z
    ensures borrow <= 1 && AreLimbs(z[..n]) && Value(z[..n], n) + Value(b, n) == Value(a, n) + borrow * Radix(n)
    ensures forall i :: n <= i < z.Length ==> z[i] == old(z[i])
  {
    borrow := 0;
    for k := 0 to n
      invariant borrow <= 1 && forall i :: 0 <= i < k ==> z[i] < BASE
      invariant forall i :: n <= i < z.Length ==> z[i] == old(z[i])
      invariant Value(z[..n], k) + Value(b, k) == Value(a, k) + borrow * Radix(k)
    {
      ghost var now := z[..n];
      var need := b[k] + borrow;
      var next := if a[k] < need then 1 else 0;
      var digit := a[k] + next * BASE - need;
      BorrowStep(Value(now, k), Value(b, k), Value(a, k), borrow, Radix(k), a[k], b[k], next, digit);
      z[k] := digit;
      borrow := next;
      ValueSame(now, z[..n], k);
    }
  }

  lemma BorrowStep(z: int, b: int, a: int, borrow: int, r: int, da: int, db: int, next: int, digit: int)
    requires z + b == a + borrow * r && digit + db + borrow == da + next * BASE
    ensures z + digit * r + (b + db * r) == a + da * r + next * (BASE * r)
  {
    assert (digit + db + borrow) * r == digit * r + db * r + borrow * r;
    assert (da + next * BASE) * r == da * r + next * (BASE * r);
  }
}
