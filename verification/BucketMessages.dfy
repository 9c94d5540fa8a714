/** The algebra of a bucket's messages: input labels, output labels and the value both parties compare. */
module BucketMessages {
  import opened Blocks
  import opened Circuits
  import opened HalfGates
  import opened GarbledCircuits
  import opened KProbe
  import opened Packages
  import Division
  import opened Wrappers
  import opened XorSums

  function Pick(p: Pair, bit: bool): Block {
    if bit then p.1 else p.0
  }

  function PickCommit(p: (Digest, Digest), bit: bool): Digest {
    if bit then p.1 else p.0
  }

  /** The common output labels of a bucket. */
  function CommonOutput(s: Setting, seed: Block): (r: seq<Pair>)
    requires s.Valid()
    ensures |r| == |s.cir.outputs|
    ensures forall i :: 0 <= i < |r| ==>
      r[i] == (s.aes(seed, s.indexArray[2 * i]), s.aes(seed, s.indexArray[2 * i + 1]))
  {
    seq(|s.cir.outputs|,
        i requires 0 <= i < |s.cir.outputs| => (s.aes(seed, s.indexArray[2 * i]), s.aes(seed, s.indexArray[2 * i + 1])))
  }

  function XorPairs(a: seq<Pair>, b: seq<Pair>): (r: seq<Pair>)
    requires |a| == |b|
    ensures |r| == |a| && forall i :: 0 <= i < |r| ==> r[i] == (a[i].0.Xor(b[i].0), a[i].1.Xor(b[i].1))
  {
    seq(|a|, i requires 0 <= i < |a| => (a[i].0.Xor(b[i].0), a[i].1.Xor(b[i].1)))
  }

  /** The k-probe labels for both choices, masked with the transferred messages. */
  function MaskedLabels(sent: seq<Pair>, k: seq<Block>, d: Block): (r: seq<Pair>)
    requires |sent| == |k|
    ensures |r| == |k| && forall t :: 0 <= t < |r| ==> r[t] == (sent[t].0.Xor(k[t]), sent[t].1.Xor(k[t]).Xor(d))
  {
    seq(|k|, t requires 0 <= t < |k| => (sent[t].0.Xor(k[t]), sent[t].1.Xor(k[t]).Xor(d)))
  }

  /** Unmasks the chosen labels with the messages received. */
  function Unmasked(masked: seq<Pair>, choices: seq<bool>, received: seq<Block>): (r: seq<Block>)
    requires |masked| == |choices| == |received|
    ensures |r| == |masked| && forall t :: 0 <= t < |r| ==> r[t] == Pick(masked[t], choices[t]).Xor(received[t])
  {
    seq(|masked|, t requires 0 <= t < |masked| => Pick(masked[t], choices[t]).Xor(received[t]))
  }

  /** Each message received is the one chosen. */
  ghost predicate Transferred(sent: seq<Pair>, choices: seq<bool>, received: seq<Block>) {
    |sent| == |choices| == |received| && forall t :: 0 <= t < |sent| ==> received[t] == Pick(sent[t], choices[t])
  }

  lemma UnmaskOne(m: Block, k: Block, d: Block)
    ensures m.Xor(k).Xor(m) == k && m.Xor(k).Xor(d).Xor(m) == k.Xor(d)
  {
    assert m.Xor(k).Xor(m).bits == k.bits;
    assert m.Xor(k).Xor(d).Xor(m).bits == k.Xor(d).bits;
  }

  /** What the evaluator unmasks are the labels of its choices. */
  lemma UnmaskedIsActive(sent: seq<Pair>, choices: seq<bool>, received: seq<Block>, k: seq<Block>, d: Block)
    requires Transferred(sent, choices, received) && |k| == |sent|
    ensures Unmasked(MaskedLabels(sent, k, d), choices, received) == ActiveLabels(k, choices, d)
  {
    var masked := MaskedLabels(sent, k, d);
    forall t | 0 <= t < |k|
      ensures Unmasked(masked, choices, received)[t] == ActiveLabels(k, choices, d)[t]
    {
      UnmaskOne(received[t], k[t], d);
      XorZero(k[t]);
    }
  }

  /** The garbler's corrections from decoded k-probe labels to input labels. */
  function Offsets(decoded: seq<Block>, labels: seq<Block>, d: Block, correction: seq<bool>,
                   permute: seq<bool>): (r: seq<Block>)
    requires |decoded| == |labels| == |correction| == |permute|
    ensures |r| == |labels|
    ensures forall t :: 0 <= t < |r| ==> r[t] == decoded[t].Xor(labels[t]).Xor(Times(correction[t] != permute[t], d))
  {
    seq(|labels|, t requires 0 <= t < |labels| => decoded[t].Xor(labels[t]).Xor(Times(correction[t] != permute[t], d)))
  }

  function XorBlocks(a: seq<Block>, b: seq<Block>): (r: seq<Block>)
    requires |a| == |b|
    ensures |r| == |a| && forall i :: 0 <= i < |r| ==> r[i] == a[i].Xor(b[i])
  {
    seq(|a|, i requires 0 <= i < |a| => a[i].Xor(b[i]))
  }

  lemma OffsetOne(z: Block, w: Block, d: Block, p: bool, q: bool, x: bool)
    requires (p != q) == x
    ensures z.Xor(Times(p, d)).Xor(z.Xor(w).Xor(Times(q, d))) == w.Xor(Times(x, d))
  {
    assert z.Xor(Times(p, d)).Xor(z.Xor(w).Xor(Times(q, d))).bits == w.Xor(Times(x, d)).bits;
  }

  /**
    The evaluator's decoded labels, corrected, are its input labels: c0 are the choices of the
    bucket's first circuit, cb those of this circuit, and the correction hides x under c0.
   */
  lemma CorrectedLabelsEncodeInput(k: KProbeMatrix, z: seq<Block>, w: seq<Block>, d: Block, c0: seq<bool>,
                                   cb: seq<bool>, x: seq<bool>, correction: seq<bool>, permute: seq<bool>)
    requires k.Valid() && |z| == |c0| == |cb| == k.encodingSize && |w| == |x| == |correction| == |permute| == k.Rows()
    requires correction == XorBits(DecodedBits(k, c0), x)
    requires permute == XorBits(DecodedBits(k, c0), DecodedBits(k, cb))
    ensures XorBlocks(DecodedBlocks(k, ActiveLabels(z, cb, d)),
                      Offsets(DecodedBlocks(k, z), w, d, correction, permute)) ==
            ActiveLabels(w, x, d)
  {
    DecodedActiveLabels(k, z, cb, d);
    var u := DecodedBlocks(k, z);
    forall t | 0 <= t < |w|
      ensures ActiveLabels(u, DecodedBits(k, cb), d)[t].Xor(Offsets(u, w, d, correction, permute)[t]) ==
        ActiveLabels(w, x, d)[t]
    {
      OffsetOne(u[t], w[t], d, DecodedBits(k, cb)[t], correction[t] != permute[t], x[t]);
    }
  }

  /** The order bits of circuit b, relative to the bucket's first circuit. */
  function PermuteAt(permutes: seq<seq<bool>>, n: nat, b: nat): seq<bool>
    requires b <= |permutes|
  {
    if b == 0 then Zeros(n) else permutes[b - 1]
  }

  /** The input label opens the commitment that the correction and the order bit point to. */
  ghost predicate OpensInput(s: Setting, commits: seq<(Digest, Digest)>, labels: seq<Block>, correction: seq<bool>,
                             permute: seq<bool>) {
    && |commits| == |labels| == |correction| == |permute|
    && forall i :: 0 <= i < |labels| ==>
       s.hashes.block(labels[i]) == PickCommit(commits[i], permute[i] != correction[i])
  }

  /**
    Input consistency. With binding commitments laid out by each circuit's choices, and order bits
    decoded from the choices' differences, the garbler's labels for circuit b pass the check exactly
    when they encode the one input: correction xor what the first circuit's choices decode to.
   */
  lemma OpensInputIff(s: Setting, k: KProbeMatrix, w: seq<Block>, d: Block, c0: seq<bool>, cb: seq<bool>,
                      labels: seq<Block>, correction: seq<bool>, permute: seq<bool>, commits: seq<(Digest, Digest)>)
    requires Binding(s.hashes) && k.Valid() && |c0| == |cb| == k.encodingSize
    requires |w| == |labels| == |correction| == |permute| == k.Rows()
    requires permute == XorBits(DecodedBits(k, c0), DecodedBits(k, cb))
    requires commits == s.LabelCommits(w, d, DecodedBits(k, cb))
    ensures OpensInput(s, commits, labels, correction, permute) <==>
            labels == ActiveLabels(w, XorBits(correction, DecodedBits(k, c0)), d)
  {
    hide Block.Xor, Times;
    var x := XorBits(correction, DecodedBits(k, c0));
    forall i | 0 <= i < |labels|
      ensures PickCommit(commits[i], permute[i] != correction[i]) == s.hashes.block(ActiveLabels(w, x, d)[i])
    {
    }
  }

  /** The honest half needs no binding. */
  lemma HonestInputOpens(s: Setting, k: KProbeMatrix, w: seq<Block>, d: Block, c0: seq<bool>, cb: seq<bool>,
                         x: seq<bool>, correction: seq<bool>, permute: seq<bool>, commits: seq<(Digest, Digest)>)
    requires k.Valid() && |c0| == |cb| == k.encodingSize && |w| == |x| == |correction| == |permute| == k.Rows()
    requires correction == XorBits(DecodedBits(k, c0), x)
    requires permute == XorBits(DecodedBits(k, c0), DecodedBits(k, cb))
    requires commits == s.LabelCommits(w, d, DecodedBits(k, cb))
    ensures OpensInput(s, commits, ActiveLabels(w, x, d), correction, permute)
  {
    hide Block.Xor, Times;
  }

  /** The xor, over the outputs, of both parties' common labels for the output bits. */
  function Agreed(a: seq<Pair>, b: seq<Pair>, bits: seq<bool>, n: nat): Block
    requires n <= |a| && n <= |b| && n <= |bits|
  {
    if n == 0 then ZERO_BLOCK
    else Agreed(a, b, bits, n - 1).Xor(Pick(a[n - 1], bits[n - 1]).Xor(Pick(b[n - 1], bits[n - 1])))
  }

  /** Both parties compute the same value. */
  lemma {:induction false} AgreedIsSymmetric(a: seq<Pair>, b: seq<Pair>, bits: seq<bool>, n: nat)
    requires n <= |a| && n <= |b| && n <= |bits|
    ensures Agreed(a, b, bits, n) == Agreed(b, a, bits, n)
  {
    if n > 0 {
      AgreedIsSymmetric(a, b, bits, n - 1);
      XorCancels(Pick(a[n - 1], bits[n - 1]), Pick(b[n - 1], bits[n - 1]));
    }
  }

  /** What each output adds to the value. */
  function AgreedTerms(a: seq<Pair>, b: seq<Pair>, bits: seq<bool>): (r: seq<Block>)
    requires |a| == |b| == |bits|
    ensures |r| == |bits|
    ensures forall i :: 0 <= i < |r| ==> r[i] == Pick(a[i], bits[i]).Xor(Pick(b[i], bits[i]))
  {
    seq(|bits|, i requires 0 <= i < |bits| => Pick(a[i], bits[i]).Xor(Pick(b[i], bits[i])))
  }

  /** The value sums up all outputs' labels, each once. */
  lemma {:induction false} AgreedIsSum(a: seq<Pair>, b: seq<Pair>, bits: seq<bool>, n: nat)
    requires n <= |bits| && |a| == |b| == |bits|
    ensures Agreed(a, b, bits, n) == XorOver(AgreedTerms(a, b, bits)[..n])
  {
    hide Block.Xor, XorOver, Pick;
    XorOverPrefix(AgreedTerms(a, b, bits), n);
    if n > 0 { AgreedIsSum(a, b, bits, n - 1); }
  }

  /** The difference of both labels of an output. */
  function Difference(p: Pair): Block {
    p.0.Xor(p.1)
  }

  lemma PickFlips(p: Pair, bit: bool)
    ensures Pick(p, bit).Xor(Pick(p, !bit)) == Difference(p)
  {
    XorCancels(p.0, p.1);
  }

  /** Flipping one output changes the value by that output's label differences and by nothing else. */
  lemma AgreedFlip(a: seq<Pair>, b: seq<Pair>, bits: seq<bool>, i: nat, n: nat)
    requires i < n <= |bits| && |a| == |b| == |bits|
    ensures Agreed(a, b, bits[i := !bits[i]], n) ==
            Agreed(a, b, bits, n).Xor(Difference(a[i]).Xor(Difference(b[i])))
  {
    hide Block.Xor, Pick, Difference, Agreed, XorOver;
    var flipped := bits[i := !bits[i]];
    var terms, term := AgreedTerms(a, b, bits), Pick(a[i], !bits[i]).Xor(Pick(b[i], !bits[i]));
    AgreedIsSum(a, b, bits, n);
    AgreedIsSum(a, b, flipped, n);
    assert AgreedTerms(a, b, flipped)[..n] == terms[..n][i := term];
    XorOverReplace(terms[..n], i, term);
    PickFlips(a[i], bits[i]);
    PickFlips(b[i], bits[i]);
    SwapMiddle(Pick(a[i], bits[i]), Pick(b[i], bits[i]), Pick(a[i], !bits[i]), Pick(b[i], !bits[i]));
  }

  lemma SwapMiddle(a: Block, b: Block, c: Block, d: Block)
    ensures a.Xor(b).Xor(c.Xor(d)) == a.Xor(c).Xor(b.Xor(d))
  {
    assert a.Xor(b).Xor(c.Xor(d)).bits == a.Xor(c).Xor(b.Xor(d)).bits;
  }

  /** The value over outputs in two groups is the sum of the groups' values. */
  lemma AgreedConcat(a: seq<Pair>, b: seq<Pair>, x: seq<bool>, c: seq<Pair>, d: seq<Pair>, y: seq<bool>)
    requires |a| == |b| == |x| && |c| == |d| == |y|
    ensures Agreed(a + c, b + d, x + y, |x| + |y|) == Agreed(a, b, x, |x|).Xor(Agreed(c, d, y, |y|))
  {
    hide Block.Xor, Pick, Agreed, XorOver;
    var left, right := AgreedTerms(a, b, x), AgreedTerms(c, d, y);
    AgreedIsSum(a, b, x, |x|);
    AgreedIsSum(c, d, y, |y|);
    AgreedIsSum(a + c, b + d, x + y, |x| + |y|);
    assert left[..|x|] == left && right[..|y|] == right;
    TermsConcat(a, b, x, c, d, y);
    assert (left + right)[..|x| + |y|] == left + right;
    XorOverConcat(left, right);
  }

  lemma TermsConcat(a: seq<Pair>, b: seq<Pair>, x: seq<bool>, c: seq<Pair>, d: seq<Pair>, y: seq<bool>)
    requires |a| == |b| == |x| && |c| == |d| == |y|
    ensures AgreedTerms(a + c, b + d, x + y) == AgreedTerms(a, b, x) + AgreedTerms(c, d, y)
  {
    hide Block.Xor, Pick;
    var all, left, right := AgreedTerms(a + c, b + d, x + y), AgreedTerms(a, b, x), AgreedTerms(c, d, y);
    forall i | 0 <= i < |all|
      ensures all[i] == (left + right)[i]
    {
      if i < |x| {
        assert (a + c)[i] == a[i] && (b + d)[i] == b[i] && (x + y)[i] == x[i];
      } else {
        var j := i - |x|;
        assert (a + c)[i] == c[j] && (b + d)[i] == d[j] && (x + y)[i] == y[j];
      }
    }
  }

  /** Both labels' differences of each output at which x and y disagree. */
  function Disagreements(a: seq<Pair>, b: seq<Pair>, x: seq<bool>, y: seq<bool>): (r: seq<Block>)
    requires |a| == |b| == |x| == |y|
    ensures |r| == |x| && forall i :: 0 <= i < |r| ==>
              r[i] == if x[i] != y[i] then Difference(a[i]).Xor(Difference(b[i])) else ZERO_BLOCK
  {
    seq(|x|, i requires 0 <= i < |x| =>
      if x[i] != y[i] then Difference(a[i]).Xor(Difference(b[i])) else ZERO_BLOCK)
  }

  /** Different outputs give one value exactly if the label differences of the outputs that differ cancel out. */
  lemma AgreedSameIff(a: seq<Pair>, b: seq<Pair>, x: seq<bool>, y: seq<bool>)
    requires |a| == |b| == |x| == |y|
    ensures Agreed(a, b, x, |x|) == Agreed(a, b, y, |y|) <==> XorOver(Disagreements(a, b, x, y)) == ZERO_BLOCK
  {
    hide Block.Xor, Pick, Difference, Agreed, XorOver;
    var s, t := AgreedTerms(a, b, x), AgreedTerms(a, b, y);
    AgreedIsSum(a, b, x, |x|);
    AgreedIsSum(a, b, y, |y|);
    assert s[..|x|] == s && t[..|y|] == t;
    XorOverSum(s, t);
    var sum := seq(|s|, i requires 0 <= i < |s| => s[i].Xor(t[i]));
    forall i | 0 <= i < |x|
      ensures sum[i] == Disagreements(a, b, x, y)[i]
    {
      if x[i] == y[i] {
        XorZero(s[i]);
      } else {
        PickFlips(a[i], x[i]);
        PickFlips(b[i], x[i]);
        SwapMiddle(Pick(a[i], x[i]), Pick(b[i], x[i]), Pick(a[i], y[i]), Pick(b[i], y[i]));
      }
    }
    assert sum == Disagreements(a, b, x, y);
    XorIsZeroIff(Agreed(a, b, x, |x|), Agreed(a, b, y, |y|));
  }

  /** The bit and the common label that the evaluator derives from one output label. */
  lemma OutputLabelTranslates(s: Setting, w: Block, d: Block, i: nat, bit: bool, common: Pair)
    requires d.PermuteBit()
    ensures var wire := w.Xor(Times(bit, d));
            && (wire.PermuteBit() != w.PermuteBit()) == bit
            && s.OutputHash(wire, i, bit).Xor(
                 Pick((s.OutputHash(w, i, false).Xor(common.0), s.OutputHash(w.Xor(d), i, true).Xor(common.1)), bit)) ==
                   Pick(common, bit)
  {
    XorZero(w);
    XorCancels(common.0, s.OutputHash(w, i, false));
    XorCancels(common.1, s.OutputHash(w.Xor(d), i, true));
  }

  /** Translation values and common labels give back the committed hashes, and only the right labels do. */
  lemma TranslationOpensIff(hashed: seq<Pair>, common: seq<Pair>, translation: seq<Pair>)
    requires |hashed| == |common| == |translation|
    ensures XorPairs(common, translation) == hashed <==> translation == XorPairs(hashed, common)
  {
    forall i | 0 <= i < |common|
      ensures XorPairs(common, translation)[i] == hashed[i] <==> translation[i] == XorPairs(hashed, common)[i]
    {
      XorCancels(common[i].0, translation[i].0);
      XorCancels(common[i].1, translation[i].1);
      XorCancels(hashed[i].0, common[i].0);
      XorCancels(hashed[i].1, common[i].1);
      XorCancels(translation[i].0, common[i].0);
      XorCancels(translation[i].1, common[i].1);
    }
    if XorPairs(common, translation) == hashed {
      assert translation == XorPairs(hashed, common);
    }
    if translation == XorPairs(hashed, common) {
      assert XorPairs(common, translation) == hashed;
    }
  }

  /** The circuits that a thread handles: every step-th one from offset on. */
  function Strided(offset: nat, step: nat, n: nat): (r: seq<nat>)
    requires step > 0
    ensures forall m :: 0 <= m < |r| ==> offset <= r[m] < n
    decreases n - offset
  {
    if offset >= n then [] else [offset] + Strided(offset + step, step, n)
  }

  predicate OnStride(offset: nat, step: nat, b: nat)
    requires step > 0
  {
    offset <= b && (b - offset) % step == 0
  }

  lemma OnNextStride(offset: nat, step: nat, b: nat)
    requires step > 0
    ensures OnStride(offset, step, b) <==> b == offset || OnStride(offset + step, step, b)
  {
    if offset + step <= b {
      Division.SameResidue(b - offset, b - offset - step, 1, step);
    }
  }

  lemma {:induction false} StridedHolds(offset: nat, step: nat, n: nat, b: nat)
    requires step > 0 && b < n
    ensures b in Strided(offset, step, n) <==> OnStride(offset, step, b)
    decreases n - offset
  {
    OnNextStride(offset, step, b);
    if offset < n {
      StridedHolds(offset + step, step, n, b);
      hide OnStride;
      assert b in Strided(offset, step, n) <==> b == offset || b in Strided(offset + step, step, n);
    }
  }

  /** Threads with the offsets below step share the circuits out: circuit b is for the thread b mod step alone. */
  lemma OneThreadPerCircuit(step: nat, n: nat, b: nat, o: nat)
    requires step > 0 && b < n && o < step
    ensures b in Strided(o, step, n) <==> o == b % step
  {
    StridedHolds(o, step, n, b);
    if o <= b {
      SameThread(b, o, step);
    } else {
      assert b < step;
    }
  }

  lemma SameThread(b: nat, o: nat, step: nat)
    requires o < step && o <= b
    ensures (b - o) % step == 0 <==> o == b % step
  {
    var q := (b - o) / step;
    if (b - o) % step == 0 {
      assert b == step * q + o;
      Division.QuotientUnique(b, step, q, o);
    }
    if o == b % step {
      Division.SameResidue(b - o, 0, b / step, step);
    }
  }

  /** The other party's corrections as sent, given all of them: none where setting the write position throws. */
  function CorrectionMessage(s: Setting, role: Role, full: seq<Block>): Option<seq<Block>>
    requires |full| == s.InputSize(Other(role))
  {
    if s.InputSize(role) <= |full| then Some(full[..s.InputSize(role)]) else None
  }

  /** What a receive of n blocks hands over: none where the message has another length. */
  function Receive(m: Option<seq<Block>>, n: nat): Option<seq<Block>> {
    if m.Some? && |m.value| == n then m else None
  }

  /**
    The other party, which waits for one block per input of its own, gets its corrections exactly if the input counts
    agree.
   */
  lemma CorrectionsArriveIff(s: Setting, role: Role, full: seq<Block>)
    requires |full| == s.InputSize(Other(role))
    ensures Receive(CorrectionMessage(s, role, full), s.InputSize(Other(role))) == Some(full) <==>
      s.cir.in0 == s.cir.in1
    ensures s.cir.in0 != s.cir.in1 ==> Receive(CorrectionMessage(s, role, full), s.InputSize(Other(role))) == None
    ensures CorrectionMessage(s, role, full) == None <==> s.InputSize(role) > s.InputSize(Other(role))
  {
    if s.cir.in0 == s.cir.in1 {
      assert full[..|full|] == full;
    }
  }

  /** One input for the first party and two for the second. */
  const UNEQUAL: Netlist := Netlist(1, 2, 3, 0, [], [])

  /** The first party sends one correction of two; the second throws. */
  lemma UnequalInputsFail(s: Setting, toSecond: seq<Block>, toFirst: seq<Block>)
    requires s.cir == UNEQUAL && |toSecond| == 2 && |toFirst| == 1
    ensures UNEQUAL.WellFormed() && s.InputSize(First) == 1 && s.InputSize(Second) == 2
    ensures CorrectionMessage(s, First, toSecond) == Some([toSecond[0]]) && Receive(Some([toSecond[0]]), 2) == None
    ensures CorrectionMessage(s, Second, toFirst) == None
  {
    assert toSecond[..1] == [toSecond[0]];
  }
}
