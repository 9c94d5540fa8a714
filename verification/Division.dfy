/** Quotients, remainders and residues of products. */
module Division {

  lemma Multiples(d: int, b: int)
    requires b > 0
    ensures (d >= 1 ==> b * d >= b) && (d <= -1 ==> b * d <= -b)
  {
  }

  lemma QuotientUnique(x: int, b: int, q: int, r: int)
    requires b > 0 && x == b * q + r && 0 <= r < b
    ensures x % b == r && x / b == q
  {
    var d := x / b - q;
    assert x == b * (x / b) + x % b;
    assert b * d == r - x % b;
    Multiples(d, b);
  }

  lemma SameResidue(a: int, b: int, k: int, p: nat)
    requires p > 0 && a == b + k * p
    ensures a % p == b % p
  {
    var q, r := b / p, b % p;
    assert a == p * (q + k) + r;
    QuotientUnique(a, p, q + k, r);
  }

  lemma ProductResidue(x: int, y: int, u: int, v: int, p: nat)
    requires p > 0 && x % p == u % p && y % p == v % p
    ensures x * y % p == u * v % p
  {
    var i, j := x / p - u / p, y / p - v / p;
    assert x == u + i * p && y == v + j * p;
    assert x * y == u * v + (u * j + i * v + i * p * j) * p;
    SameResidue(x * y, u * v, u * j + i * v + i * p * j, p);
  }

  lemma Idempotent(x: int, p: nat)
    requires p > 0
    ensures x % p % p == x % p
  {
    SameResidue(x % p, x, -(x / p), p);
  }

  lemma ReducedFactor(x: int, y: int, p: nat)
    requires p > 0
    ensures (x % p) * y % p == x * y % p && x * (y % p) % p == x * y % p
  {
    Idempotent(x, p);
    Idempotent(y, p);
    ProductResidue(x % p, y, x, y, p);
    ProductResidue(x, y % p, x, y, p);
  }
}
