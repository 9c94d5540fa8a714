/** What the half-gate hash reads, and that no two of its uses for a circuit read the same. */
module HashTweaks {
  import opened Blocks
  import opened Lanes
  import opened Gates
  import opened HalfGates
  import opened Packages
  import opened XorSums

  /** What the fixed-key permutation is applied to. */
  function HashKey(wire: Block, tweak: Block): Block {
    wire.ShiftLanes().Xor(tweak)
  }

  /** The hash depends on the permutation at its key alone, and differs where that does. */
  lemma HashReadsKey(pi: Permutation, pi': Permutation, wire: Block, tweak: Block)
    ensures HashBlock(pi, wire, tweak).Xor(HashBlock(pi', wire, tweak)) ==
            pi(HashKey(wire, tweak)).Xor(pi'(HashKey(wire, tweak)))
  {
    var k := HashKey(wire, tweak);
    var p, q := pi(k), pi'(k);
    assert p.Xor(k).Xor(q.Xor(k)).bits == p.Xor(q).bits;
  }

  /** So every value is a hash under some permutation. */
  lemma HashTakesAll(wire: Block, tweak: Block, value: Block)
    ensures HashBlock(k => value.Xor(k), wire, tweak) == value
  {
    XorCancels(value, HashKey(wire, tweak));
  }

  /** Two keys meet exactly if the labels' difference, shifted, is the tweaks'. */
  lemma KeysMeetIff(x: Block, y: Block, t: Block, u: Block)
    ensures HashKey(x, t) == HashKey(y, u) <==> x.Xor(y).ShiftLanes() == t.Xor(u)
  {
    assert x.Xor(y).ShiftLanes().bits == x.ShiftLanes().Xor(y.ShiftLanes()).bits;
    SwapSides(x.ShiftLanes(), t, y.ShiftLanes(), u);
  }

  lemma SwapSides(a: Block, b: Block, c: Block, d: Block)
    ensures a.Xor(b) == c.Xor(d) <==> a.Xor(c) == b.Xor(d)
  {
    var x, y := a.Xor(b).Xor(c.Xor(d)), a.Xor(c).Xor(b.Xor(d));
    assert x.bits == y.bits;
    XorIsZeroIff(a.Xor(b), c.Xor(d));
    XorIsZeroIff(a.Xor(c), b.Xor(d));
  }

  /** A wire's two labels have different keys under one tweak. */
  lemma BothLabelsDiffer(x: Block, d: Block, t: Block)
    requires d.PermuteBit()
    ensures HashKey(x, t) != HashKey(x.Xor(d), t)
  {
    assert HashKey(x, t).bits[1] != HashKey(x.Xor(d), t).bits[1];
  }

  /** The uses of the hash: for either input of the j-th garbled gate, and for output i and a bit. */
  datatype Use = OfFirst(j: nat) | OfSecond(j: nat) | OfOutput(i: nat, bit: bool)

  /** The tweak of a use, in a circuit with n gates and the given number of wires. */
  function TweakOf(n: nat, wireCount: nat, u: Use): Block {
    match u
    case OfFirst(j) => FromLanes(j, 0)
    case OfSecond(j) => FromLanes(n + j, 0)
    case OfOutput(i, bit) =>
      var start := (if bit then 3 else 2) * wireCount;
      FromLanes(start + i, start)
  }

  /** A circuit small enough for its tweaks to count in 64 bits. */
  predicate Fits(n: nat, wireCount: nat, u: Use) {
    match u
    case OfFirst(j) => j < n && 2 * n < Pow2(64)
    case OfSecond(j) => j < n && 2 * n < Pow2(64)
    case OfOutput(i, _) => 0 < wireCount && 3 * wireCount + i < Pow2(64)
  }

  /** These are the tweaks that garbling, evaluation and the output hashes count through. */
  lemma TweaksAreUsed(pi: Permutation, s: Setting, n: nat, j: nat, i: nat, bit: bool, wire: Block,
                      tweaks: (Block, Block))
    requires Counted(tweaks, 2 * j, n, j)
    ensures tweaks == (TweakOf(n, s.cir.wireCount, OfFirst(j)), TweakOf(n, s.cir.wireCount, OfSecond(j)))
    ensures s.OutputHash(wire, i, bit) == HashBlock(s.pi, wire, TweakOf(n, s.cir.wireCount, OfOutput(i, bit)))
  {
  }

  /** How the permutations differ at the key of a use. */
  function KeyDifference(pi: Permutation, pi': Permutation, wire: Block, tweak: Block): Block {
    pi(HashKey(wire, tweak)).Xor(pi'(HashKey(wire, tweak)))
  }

  /** The j-th table reads the keys of both labels of both inputs, each input under its own tweak, and no others. */
  lemma TableReadsKeys(pi: Permutation, pi': Permutation, d: Block, gt: GateType, a: Block, b: Block, n: nat, j: nat,
                       wireCount: nat)
    ensures var first, second := TweakOf(n, wireCount, OfFirst(j)), TweakOf(n, wireCount, OfSecond(j));
            var r, r' := Rows(pi, d, gt, a, b, n, j), Rows(pi', d, gt, a, b, n, j);
            && r.row0.Xor(r'.row0) ==
                 KeyDifference(pi, pi', a, first).Xor(KeyDifference(pi, pi', a.Xor(d), first))
            && r.row1.Xor(r'.row1) ==
                 KeyDifference(pi, pi', b, second).Xor(KeyDifference(pi, pi', b.Xor(d), second))
  {
    hide HashBlock, HashKey, FromLanes, AAlpha, BAlpha, Block.Xor, Times, Block.PermuteBit, KeyDifference;
    var t, u := FromLanes(j, 0), FromLanes(n + j, 0);
    HashesDiffer(pi, pi', a, a.Xor(d), t);
    HashesDiffer(pi, pi', b, b.Xor(d), u);
    SameRest(HashBlock(pi, a, t).Xor(HashBlock(pi, a.Xor(d), t)), HashBlock(pi', a, t).Xor(HashBlock(pi', a.Xor(d), t)),
             Times(BAlpha(gt) != b.PermuteBit(), d), ZERO_BLOCK);
    SameRest(HashBlock(pi, b, u).Xor(HashBlock(pi, b.Xor(d), u)), HashBlock(pi', b, u).Xor(HashBlock(pi', b.Xor(d), u)),
             a, Times(AAlpha(gt), d));
  }

  /** Two hashes under one tweak. */
  lemma HashesDiffer(pi: Permutation, pi': Permutation, x: Block, y: Block, tweak: Block)
    ensures HashBlock(pi, x, tweak).Xor(HashBlock(pi, y, tweak)).Xor(
              HashBlock(pi', x, tweak).Xor(HashBlock(pi', y, tweak))) ==
            KeyDifference(pi, pi', x, tweak).Xor(KeyDifference(pi, pi', y, tweak))
  {
    HashReadsKey(pi, pi', x, tweak);
    HashReadsKey(pi, pi', y, tweak);
    hide HashBlock, HashKey;
    var p, q, p', q' :=
      HashBlock(pi, x, tweak), HashBlock(pi, y, tweak), HashBlock(pi', x, tweak), HashBlock(pi', y, tweak);
    assert p.Xor(q).Xor(p'.Xor(q')).bits == p.Xor(p').Xor(q.Xor(q')).bits;
  }

  lemma SameRest(h: Block, h': Block, x: Block, y: Block)
    ensures h.Xor(x).Xor(h'.Xor(x)) == h.Xor(h') && h.Xor(x).Xor(y).Xor(h'.Xor(x).Xor(y)) == h.Xor(h')
  {
    assert h.Xor(x).Xor(h'.Xor(x)).bits == h.Xor(h').bits;
    assert h.Xor(x).Xor(y).Xor(h'.Xor(x).Xor(y)).bits == h.Xor(h').bits;
  }

  /** No tweak is used twice. */
  lemma TweaksNeverRepeat(n: nat, wireCount: nat, u: Use, v: Use)
    requires Fits(n, wireCount, u) && Fits(n, wireCount, v)
    ensures TweakOf(n, wireCount, u) == TweakOf(n, wireCount, v) <==> u == v
  {
    hide FromLanes, Pow2;
    LanesDiffer(LowLane(n, wireCount, u), HighLane(wireCount, u), LowLane(n, wireCount, v), HighLane(wireCount, v));
  }

  function HighLane(wireCount: nat, u: Use): nat {
    if u.OfOutput? then (if u.bit then 3 else 2) * wireCount else 0
  }

  function LowLane(n: nat, wireCount: nat, u: Use): nat {
    match u
    case OfFirst(j) => j
    case OfSecond(j) => n + j
    case OfOutput(i, _) => HighLane(wireCount, u) + i
  }

  /** So one label never gives the same key in two uses, nor do both labels of a wire in one. */
  lemma KeysNeverRepeat(n: nat, wireCount: nat, x: Block, d: Block, u: Use, v: Use)
    requires Fits(n, wireCount, u) && Fits(n, wireCount, v) && d.PermuteBit()
    ensures HashKey(x, TweakOf(n, wireCount, u)) == HashKey(x, TweakOf(n, wireCount, v)) <==> u == v
    ensures HashKey(x, TweakOf(n, wireCount, u)) != HashKey(x.Xor(d), TweakOf(n, wireCount, u))
  {
    hide TweakOf, Fits;
    var t, w := TweakOf(n, wireCount, u), TweakOf(n, wireCount, v);
    TweaksNeverRepeat(n, wireCount, u, v);
    BothLabelsDiffer(x, d, t);
    XorCancels(t, x.ShiftLanes());
    XorCancels(w, x.ShiftLanes());
  }
}
