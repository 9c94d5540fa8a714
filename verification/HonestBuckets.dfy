/** Two honest parties in one bucket: every circuit runs on the same inputs, and both compute the same values. */
module HonestBuckets {
  import opened Blocks
  import opened Circuits
  import opened Schemes
  import opened HalfGates
  import opened GarbledCircuits
  import opened KProbe
  import opened Packages
  import opened BucketMessages
  import opened Buckets
  import opened XorSums

  /** The seeds and zero labels behind a garbled circuit. */
  datatype Secrets = Secrets(seed: Block, kProbeSeed: Block, wires: seq<Block>)

  /** Two sides of one bucket: the same circuits seen from both ends. */
  ghost predicate Opposite(g: Side, e: Side) {
    && g.Valid() && e.Valid() && g.s == e.s && g.role == Other(e.role)
    && g.theirKProbe == e.myKProbe && g.myKProbe == e.theirKProbe && |g.mine| == |e.mine|
  }

  /** Circuit b is honestly garbled and committed to by g, and its label transfers to e are right. */
  ghost predicate HonestCircuit(g: Side, e: Side, b: nat, w: Secrets)
    requires Opposite(g, e) && b < |g.mine|
  {
    var m, t := g.mine[b], e.theirs[b];
    && |g.s.indexArray| >= g.theirKProbe.encodingSize
    && HonestOffer(g.s, g.theirKProbe.encodingSize, w.seed, m.maskSeed, w.kProbeSeed, w.wires,
                   m.view.(tables := t.offer.tables), t.offer)
    && m.kProbeInputs == Expand(g.s.aes, w.kProbeSeed, g.s.indexArray, g.theirKProbe.encodingSize)
    && HonestInputCommits(g.s, g.role, g.myKProbe, m.choices, m.view, t.inputCommits)
    && Transferred(g.theirs[b].sent, e.mine[b].choices, e.mine[b].received)
  }

  ghost predicate HonestGarbler(g: Side, e: Side, ws: seq<Secrets>) {
    Opposite(g, e) && |ws| == |g.mine| && forall b :: 0 <= b < |ws| ==> HonestCircuit(g, e, b, ws[b])
  }

  lemma SideSizes(g: Side, e: Side, b: nat)
    requires Opposite(g, e) && b < |g.mine|
    ensures b < |e.mine| == |e.theirs| == |g.theirs| && g.MineValid(g.mine[b]) && e.MineValid(e.mine[b])
    ensures g.TheirsValid(g.theirs[b]) && e.TheirsValid(e.theirs[b])
    ensures g.MineValid(g.mine[0]) && e.MineValid(e.mine[0])
    ensures g.s.InputSize(Other(g.role)) == e.s.InputSize(e.role)
    ensures g.s.InputSize(g.role) == e.s.InputSize(Other(e.role))
  {
  }

  /** What e unmasks of circuit b's k-probe labels. */
  function Recovered(g: Side, e: Side, b: nat): seq<Block>
    requires b < |g.mine| && b < |g.theirs| && b < |e.mine| && |g.theirs[b].sent| == |g.mine[b].kProbeInputs|
    requires |e.mine[b].choices| == |e.mine[b].received| == |g.mine[b].kProbeInputs|
  {
    Unmasked(g.Masked(b), e.mine[b].choices, e.mine[b].received)
  }

  /** The k-probe labels that e recovers are those of its choices, and they open their commitments. */
  lemma KProbeLabelsOpen(g: Side, e: Side, b: nat, w: Secrets)
    requires Opposite(g, e) && b < |g.mine| && HonestCircuit(g, e, b, w)
    ensures b < |g.theirs| && b < |e.mine|
    ensures |g.theirs[b].sent| == |g.mine[b].kProbeInputs| == |e.mine[b].choices| == |e.mine[b].received|
    ensures Recovered(g, e, b) == ActiveLabels(g.mine[b].kProbeInputs, e.mine[b].choices, g.mine[b].view.offset)
    ensures OpensKProbe(g.s, e.theirs[b].offer.kProbeCommits, Recovered(g, e, b), e.mine[b].choices)
  {
    SideSizes(g, e, b);
    hide HonestGarbling, Setting.Valid, Side.Valid, Block.Xor, Times;
    UnmaskedIsActive(g.theirs[b].sent, e.mine[b].choices, e.mine[b].received, g.mine[b].kProbeInputs,
                     g.mine[b].view.offset);
  }

  /** The correction that e sends: its input under its first circuit's decoded choices. */
  function CorrectionOf(e: Side, x: seq<bool>): seq<bool>
    requires 0 < |e.mine| && e.myKProbe.Valid() && |e.mine[0].choices| == e.myKProbe.encodingSize
    requires |x| == e.myKProbe.Rows()
  {
    XorBits(DecodedBits(e.myKProbe, e.mine[0].choices), x)
  }

  /** The order bits of e's circuit b relative to its first. */
  function OrderOf(e: Side, b: nat): (r: seq<bool>)
    requires b < |e.mine| && e.myKProbe.Valid() && |e.mine[0].choices| == |e.mine[b].choices| == e.myKProbe.encodingSize
    ensures |r| == e.myKProbe.Rows()
  {
    XorBits(DecodedBits(e.myKProbe, e.mine[0].choices), DecodedBits(e.myKProbe, e.mine[b].choices))
  }

  /** Decoding the choice differences gives the order bits. */
  lemma PermutesAreOrders(e: Side, permutes: seq<seq<bool>>, b: nat)
    requires e.Valid() && b < |e.mine| && |permutes| == |e.mine| - 1
    requires forall j :: 1 <= j < |e.mine| ==> |e.mine[j].choices| == |e.mine[0].choices| == e.myKProbe.encodingSize
    requires forall j :: 1 <= j < |e.mine| ==> permutes[j - 1] == DecodedBits(e.myKProbe, e.Delta(j))
    ensures |e.mine[b].choices| == |e.mine[0].choices| == e.myKProbe.encodingSize
    ensures PermuteAt(permutes, e.myKProbe.Rows(), b) == OrderOf(e, b)
  {
    assert e.MineValid(e.mine[0]) && e.MineValid(e.mine[b]);
    if b == 0 {
      assert PermuteAt(permutes, e.myKProbe.Rows(), 0) == OrderOf(e, 0);
    } else {
      DecodedBitsXor(e.myKProbe, e.mine[0].choices, e.mine[b].choices);
      assert permutes[b - 1] == DecodedBits(e.myKProbe, e.Delta(b));
    }
  }

  /** The offsets that g sends for circuit b, on e's correction for input x. */
  function OffsetsOf(g: Side, e: Side, b: nat, x: seq<bool>): seq<Block>
    requires Opposite(g, e) && b < |g.mine| && |x| == e.s.InputSize(e.role)
  {
    SideSizes(g, e, b);
    Offsets(DecodedBlocks(g.theirKProbe, g.mine[b].kProbeInputs), g.TheirLabels(b), g.mine[b].view.offset,
            CorrectionOf(e, x), OrderOf(e, b))
  }

  /** e's corrected labels of its own input encode x. */
  lemma OwnLabelsEncode(g: Side, e: Side, b: nat, w: Secrets, x: seq<bool>)
    requires Opposite(g, e) && b < |g.mine| && HonestCircuit(g, e, b, w) && |x| == e.s.InputSize(e.role)
    ensures |g.mine[b].view.inputWires| == g.s.cir.Inputs()
    ensures b < |g.theirs| && b < |e.mine|
    ensures |g.theirs[b].sent| == |g.mine[b].kProbeInputs| == |e.mine[b].choices| == |e.mine[b].received|
    ensures |Recovered(g, e, b)| == e.myKProbe.encodingSize && e.myKProbe.Valid()
    ensures |OffsetsOf(g, e, b, x)| == e.myKProbe.Rows() == |g.TheirLabels(b)| == |x|
    ensures XorBlocks(DecodedBlocks(e.myKProbe, Recovered(g, e, b)), OffsetsOf(g, e, b, x)) ==
            ActiveLabels(g.TheirLabels(b), x, g.mine[b].view.offset)
  {
    SideSizes(g, e, b);
    hide HonestCircuit, Setting.Valid, Side.Valid;
    KProbeLabelsOpen(g, e, b, w);
    CorrectedLabelsEncodeInput(e.myKProbe, g.mine[b].kProbeInputs, g.TheirLabels(b), g.mine[b].view.offset,
                               e.mine[0].choices, e.mine[b].choices, x, CorrectionOf(e, x), OrderOf(e, b));
  }

  /** g's labels of its own input open the commitments that e's check points to. */
  lemma OtherLabelsOpen(g: Side, e: Side, b: nat, w: Secrets, x: seq<bool>)
    requires Opposite(g, e) && b < |g.mine| && HonestCircuit(g, e, b, w) && |x| == g.s.InputSize(g.role)
    ensures |g.mine[b].view.inputWires| == g.s.cir.Inputs() && b < |e.theirs| && g.myKProbe.Valid()
    ensures |g.mine[0].choices| == |g.mine[b].choices| == g.myKProbe.encodingSize && |x| == g.myKProbe.Rows()
    ensures OpensInput(g.s, e.theirs[b].inputCommits, ActiveLabels(g.MyLabels(b), x, g.mine[b].view.offset),
                       CorrectionOf(g, x), OrderOf(g, b))
  {
    SideSizes(g, e, b);
    hide HonestOffer, Setting.Valid, Side.Valid;
    HonestInputOpens(g.s, g.myKProbe, g.MyLabels(b), g.mine[b].view.offset, g.mine[0].choices, g.mine[b].choices, x,
                     CorrectionOf(g, x), OrderOf(g, b), e.theirs[b].inputCommits);
  }

  /** The view of g's circuit b with the tables that e holds. */
  function FullView(g: Side, e: Side, b: nat): GarbledView
    requires b < |g.mine| && b < |e.theirs|
  {
    g.mine[b].view.(tables := e.theirs[b].offer.tables)
  }

  lemma RowEncodes(s: Setting, role: Role, v: GarbledView, x: seq<bool>, y: seq<bool>, labels: seq<Block>)
    requires s.Valid() && |v.inputWires| == s.cir.Inputs() && |x| == s.InputSize(role)
    requires |y| == s.InputSize(Other(role))
    requires |labels| >= s.cir.Inputs()
    requires forall i :: 0 <= i < s.cir.Inputs() ==>
      labels[i] == InputRow(role, ActiveLabels(s.OwnLabels(v, role), x, v.offset),
                            ActiveLabels(s.OwnLabels(v, Other(role)), y, v.offset))[i]
    ensures EncodesInput(v, labels, InputRow(role, x, y))
  {
    LabelsInRow(s, role, v);
    ActiveRow(role, s.OwnLabels(v, role), s.OwnLabels(v, Other(role)), x, y, v.offset);
    hide Block.Xor, Times, Setting.Valid, InputRow, Setting.OwnLabels;
    assert v.inputWires == InputRow(role, s.OwnLabels(v, role), s.OwnLabels(v, Other(role)));
  }

  lemma LabelsInRow(s: Setting, role: Role, v: GarbledView)
    requires |v.inputWires| == s.cir.Inputs()
    ensures InputRow(role, s.OwnLabels(v, role), s.OwnLabels(v, Other(role))) == v.inputWires
  {
    assert v.inputWires == v.inputWires[..s.cir.in0] + v.inputWires[s.cir.in0..];
    assert v.inputWires[s.cir.in0..s.cir.in0 + s.cir.in1] == v.inputWires[s.cir.in0..];
  }

  lemma ActiveRow(role: Role, a: seq<Block>, b: seq<Block>, x: seq<bool>, y: seq<bool>, d: Block)
    requires |a| == |x| && |b| == |y|
    ensures InputRow(role, ActiveLabels(a, x, d), ActiveLabels(b, y, d)) ==
      ActiveLabels(InputRow(role, a, b), InputRow(role, x, y), d)
  {
    hide Block.Xor, Times;
    if role == First {
      assert ActiveLabels(a, x, d) + ActiveLabels(b, y, d) == ActiveLabels(a + b, x + y, d);
    } else {
      assert ActiveLabels(b, y, d) + ActiveLabels(a, x, d) == ActiveLabels(b + a, y + x, d);
    }
  }

  lemma HonestViewFacts(s: Setting, n: nat, seed: Block, maskSeed: Block, kProbeSeed: Block, wires: seq<Block>,
                        v: GarbledView, offer: Offer)
    requires s.Valid() && |s.indexArray| >= n && HonestOffer(s, n, seed, maskSeed, kProbeSeed, wires, v, offer)
    ensures HonestGarbling(s.pi, s.aes, s.cir, seed, s.indexArray, s.Masks(maskSeed), wires, v)
    ensures v.offset.PermuteBit() && |wires| >= s.cir.wireCount && offer.translation == v.translation
    ensures offer.tables == v.tables
    ensures |v.translation| == |v.outputWires| == |s.cir.outputs|
    ensures forall i :: 0 <= i < |s.cir.outputs| ==> s.cir.outputs[i] < |wires|
    ensures forall i :: 0 <= i < |s.cir.outputs| ==>
      v.outputWires[i] == wires[s.cir.outputs[i]] && v.translation[i] == wires[s.cir.outputs[i]].PermuteBit()
    ensures |v.inputWires| == s.cir.Inputs()
  {
  }

  /** Each output label that e derives encodes the plain output bit. */
  lemma OutputLabelEncodes(s: Setting, n: nat, w: Secrets, maskSeed: Block, v: GarbledView, offer: Offer,
                           labels: seq<Block>, x: seq<bool>, i: nat)
    requires s.Valid() && |s.indexArray| >= n && HonestOffer(s, n, w.seed, maskSeed, w.kProbeSeed, w.wires, v, offer)
    requires AllHalfGates(s.cir) && |labels| == s.cir.wireCount && EncodesInput(v, labels, x) && i < |s.cir.outputs|
    requires Evaluated(SchemeOf(s.pi, v.offset, s.cir, s.Masks(maskSeed)), s.cir, labels, offer.tables, |s.cir.gates|)
    ensures |x| == s.cir.Inputs() && s.cir.outputs[i] < |labels| && i < |v.outputWires| && i < |v.translation|
    ensures labels[s.cir.outputs[i]] == v.outputWires[i].Xor(Times(OutputBits(s.cir, x)[i], v.offset))
    ensures v.translation[i] == v.outputWires[i].PermuteBit()
  {
    HonestViewFacts(s, n, w.seed, maskSeed, w.kProbeSeed, w.wires, v, offer);
    hide HonestGarbling, HonestOffer, Evaluated, NonXorCount, Block.Xor;
    HalfGatesSuffice(s.pi, v.offset, s.cir, s.Masks(maskSeed), x, s.cir.outputs[i]);
    EveryWireEncodesItsBit(s.pi, s.aes, s.cir, w.seed, s.indexArray, s.Masks(maskSeed), w.wires, v, labels, x,
                           s.cir.outputs[i]);
  }

  /** What holds of every output label. */
  ghost predicate LabelsEncodeOutputs(s: Setting, v: GarbledView, labels: seq<Block>, bits: seq<bool>)
    requires s.Valid() && |labels| == s.cir.wireCount
  {
    && |bits| == |s.cir.outputs| == |v.outputWires| == |v.translation| && v.offset.PermuteBit()
    && forall i :: 0 <= i < |bits| ==>
         labels[s.cir.outputs[i]] == v.outputWires[i].Xor(Times(bits[i], v.offset))
           && v.translation[i] == v.outputWires[i].PermuteBit()
  }

  lemma TranslatesTo(s: Setting, v: GarbledView, labels: seq<Block>, bits: seq<bool>)
    requires s.Valid() && |labels| == s.cir.wireCount && LabelsEncodeOutputs(s, v, labels, bits)
    ensures OutputsOf(s, v.translation, labels) == bits
  {
    forall i | 0 <= i < |bits|
      ensures OutputsOf(s, v.translation, labels)[i] == bits[i]
    {
      OutputLabelTranslates(s, v.outputWires[i], v.offset, i, bits[i], (ZERO_BLOCK, ZERO_BLOCK));
    }
  }

  lemma {:induction false} PsiIsAgreed(s: Setting, v: GarbledView, labels: seq<Block>, bits: seq<bool>,
                                       garblers: seq<Pair>, own: seq<Pair>, n: nat)
    requires s.Valid() && |labels| == s.cir.wireCount && LabelsEncodeOutputs(s, v, labels, bits)
    requires |garblers| == |own| == |bits| && n <= |bits|
    ensures PsiSum(s, labels, bits, XorPairs(s.HashedOutputs(v.outputWires, v.offset), garblers), own, n) ==
      Agreed(garblers, own, bits, n)
  {
    hide HashBlock, Block.Xor, FromLanes, Netlist.Ordered, NonXorCount;
    if n > 0 {
      PsiIsAgreed(s, v, labels, bits, garblers, own, n - 1);
      OutputLabelTranslates(s, v.outputWires[n - 1], v.offset, n - 1, bits[n - 1], garblers[n - 1]);
    }
  }

  /**
    Two evaluations, of this party's circuits by the other or the other way round, give one value exactly if the label
    differences of the outputs at which they disagree cancel out: where one output alone differs, exactly if both
    parties' labels of it differ by the same block.
   */
  lemma DisagreementShows(s: Setting, v: GarbledView, labels: seq<Block>, x: seq<bool>, u: GarbledView,
                          labels': seq<Block>, y: seq<bool>, garblers: seq<Pair>, own: seq<Pair>)
    requires s.Valid() && |labels| == |labels'| == s.cir.wireCount
    requires LabelsEncodeOutputs(s, v, labels, x) && LabelsEncodeOutputs(s, u, labels', y)
    requires |garblers| == |own| == |x|
    ensures var n := |x|;
            var p := PsiSum(s, labels, x, XorPairs(s.HashedOutputs(v.outputWires, v.offset), garblers), own, n);
            var q := PsiSum(s, labels', y, XorPairs(s.HashedOutputs(u.outputWires, u.offset), garblers), own, n);
            var r := PsiSum(s, labels', y, XorPairs(s.HashedOutputs(u.outputWires, u.offset), own), garblers, n);
            && q == r && (p == q <==> XorOver(Disagreements(garblers, own, x, y)) == ZERO_BLOCK)
            && forall i :: 0 <= i < n && y == x[i := !x[i]] ==>
                 (p == q <==> Difference(garblers[i]) == Difference(own[i]))
  {
    hide Block.Xor, HashBlock, PsiSum, Agreed, XorOver, Difference, LabelsEncodeOutputs, Setting.Valid;
    var n := |x|;
    SizesOfOutputs(s, v, labels, x);
    SizesOfOutputs(s, u, labels', y);
    PsiIsAgreed(s, v, labels, x, garblers, own, n);
    PsiIsAgreed(s, u, labels', y, garblers, own, n);
    PsiIsAgreed(s, u, labels', y, own, garblers, n);
    AgreedIsSymmetric(garblers, own, y, n);
    AgreedSameIff(garblers, own, x, y);
    forall i | 0 <= i < n && y == x[i := !x[i]]
      ensures Agreed(garblers, own, x, n) == Agreed(garblers, own, y, n) <==>
              Difference(garblers[i]) == Difference(own[i])
    {
      AgreedFlip(garblers, own, x, i, n);
      var before, change := Agreed(garblers, own, x, n), Difference(garblers[i]).Xor(Difference(own[i]));
      XorIsZeroIff(Difference(garblers[i]), Difference(own[i]));
      XorZero(before);
      XorCancels(change, before);
    }
  }

  lemma SizesOfOutputs(s: Setting, v: GarbledView, labels: seq<Block>, bits: seq<bool>)
    requires s.Valid() && |labels| == s.cir.wireCount && LabelsEncodeOutputs(s, v, labels, bits)
    ensures |bits| == |s.cir.outputs| == |v.outputWires| == |v.translation|
  {
  }

  /** One evaluation: e's role is given, v is the garbler's view with the tables that e holds. */
  lemma EvaluationIsRightOn(s: Setting, role: Role, n: nat, w: Secrets, maskSeed: Block, v: GarbledView, offer: Offer,
                            x: seq<bool>, y: seq<bool>, labels: seq<Block>, garblers: seq<Pair>, own: seq<Pair>)
    requires s.Valid() && |s.indexArray| >= n && HonestOffer(s, n, w.seed, maskSeed, w.kProbeSeed, w.wires, v, offer)
    requires AllHalfGates(s.cir)
    requires |x| == s.InputSize(role) && |y| == s.InputSize(Other(role)) && |x| + |y| == s.cir.Inputs()
    requires |garblers| == |own| == |s.cir.outputs| == |v.outputWires| == |offer.translation|
    requires |v.inputWires| == s.cir.Inputs()
    requires EvaluatedOn(s, role, offer.tables, maskSeed, v.offset,
                         ActiveLabels(s.OwnLabels(v, Other(role)), y, v.offset),
                           ActiveLabels(s.OwnLabels(v, role), x, v.offset), labels)
    ensures OutputsOf(s, offer.translation, labels) == OutputBits(s.cir, InputRow(role, x, y))
    ensures PsiSum(s, labels, OutputBits(s.cir, InputRow(role, x, y)),
                   XorPairs(s.HashedOutputs(v.outputWires, v.offset), garblers), own, |own|) ==
            Agreed(garblers, own, OutputBits(s.cir, InputRow(role, x, y)), |own|)
  {
    HonestViewFacts(s, n, w.seed, maskSeed, w.kProbeSeed, w.wires, v, offer);
    hide HonestGarbling, HonestOffer, Evaluated, NonXorCount, Block.Xor, OutputsOf, PsiSum, HashBlock, Netlist.Ordered,
         EncodesInput, AllHalfGates, Setting.Valid;
    RowEncodes(s, role, v, x, y, labels);
    var bits := OutputBits(s.cir, InputRow(role, x, y));
    AllLabelsEncode(s, n, w, maskSeed, v, offer, labels, InputRow(role, x, y));
    TranslatesTo(s, v, labels, bits);
    PsiIsAgreed(s, v, labels, bits, garblers, own, |own|);
  }

  lemma AllLabelsEncode(s: Setting, n: nat, w: Secrets, maskSeed: Block, v: GarbledView, offer: Offer,
                        labels: seq<Block>, x: seq<bool>)
    requires s.Valid() && |s.indexArray| >= n && HonestOffer(s, n, w.seed, maskSeed, w.kProbeSeed, w.wires, v, offer)
    requires AllHalfGates(s.cir) && |labels| == s.cir.wireCount && EncodesInput(v, labels, x) && |x| == s.cir.Inputs()
    requires Evaluated(SchemeOf(s.pi, v.offset, s.cir, s.Masks(maskSeed)), s.cir, labels, offer.tables, |s.cir.gates|)
    ensures LabelsEncodeOutputs(s, v, labels, OutputBits(s.cir, x))
  {
    HonestViewFacts(s, n, w.seed, maskSeed, w.kProbeSeed, w.wires, v, offer);
    hide HonestGarbling, HonestOffer, Evaluated, NonXorCount, Block.Xor, Netlist.Ordered, EncodesInput, AllHalfGates,
         Times;
    var bits := OutputBits(s.cir, x);
    forall i | 0 <= i < |bits|
      ensures labels[s.cir.outputs[i]] == v.outputWires[i].Xor(Times(bits[i], v.offset))
      ensures v.translation[i] == v.outputWires[i].PermuteBit()
    {
      OutputLabelEncodes(s, n, w, maskSeed, v, offer, labels, x, i);
    }
  }

  lemma FullViewFacts(g: Side, e: Side, b: nat, w: Secrets, garblers: seq<Pair>)
    requires Opposite(g, e) && b < |g.mine| && HonestCircuit(g, e, b, w) && |garblers| == |g.mine[b].view.outputWires|
    ensures b < |e.theirs| && e.s == g.s && e.s.Valid() && |g.mine[b].view.inputWires| == g.s.cir.Inputs()
    ensures var v := FullView(g, e, b);
            && v.offset == g.mine[b].view.offset && |v.inputWires| == g.s.cir.Inputs() && |v.outputWires| == |garblers|
            && g.TheirLabels(b) == e.s.OwnLabels(v, e.role) && g.MyLabels(b) == e.s.OwnLabels(v, Other(e.role))
            && g.Translation(garblers, b) == XorPairs(e.s.HashedOutputs(v.outputWires, v.offset), garblers)
            && |e.s.indexArray| >= g.theirKProbe.encodingSize
            && HonestOffer(e.s, g.theirKProbe.encodingSize, w.seed, g.mine[b].maskSeed, w.kProbeSeed, w.wires, v,
                           e.theirs[b].offer)
  {
    hide HonestOffer, HonestInputCommits, Transferred;
    SideSizes(g, e, b);
  }

  /** Evaluating g's circuit b, e gets the plain outputs of both inputs and the agreed value. */
  lemma EvaluationIsRight(g: Side, e: Side, b: nat, w: Secrets, x: seq<bool>, y: seq<bool>, labels: seq<Block>,
                          garblers: seq<Pair>, own: seq<Pair>)
    requires Opposite(g, e) && b < |g.mine| && HonestCircuit(g, e, b, w) && AllHalfGates(e.s.cir)
    requires |x| == e.s.InputSize(e.role) && |y| == g.s.InputSize(g.role) && |garblers| == |own| == |e.s.cir.outputs|
    requires |g.mine[b].view.inputWires| == g.s.cir.Inputs()
    requires |x| + |y| == e.s.cir.Inputs() && |g.TheirLabels(b)| == |x| && |g.MyLabels(b)| == |y|
    requires EvaluatedOn(e.s, e.role, e.theirs[b].offer.tables, g.mine[b].maskSeed, g.mine[b].view.offset,
                         ActiveLabels(g.MyLabels(b), y, g.mine[b].view.offset),
                           ActiveLabels(g.TheirLabels(b), x, g.mine[b].view.offset), labels)
    requires |g.mine[b].view.outputWires| == |garblers| && |e.theirs[b].offer.translation| == |e.s.cir.outputs|
    ensures OutputsOf(e.s, e.theirs[b].offer.translation, labels) == OutputBits(e.s.cir, InputRow(e.role, x, y))
    ensures PsiSum(e.s, labels, OutputBits(e.s.cir, InputRow(e.role, x, y)), g.Translation(garblers, b), own, |own|) ==
            Agreed(garblers, own, OutputBits(e.s.cir, InputRow(e.role, x, y)), |own|)
  {
    SideSizes(g, e, b);
    FullViewFacts(g, e, b, w, garblers);
    hide HonestCircuit, Opposite, Side.TheirLabels, Side.MyLabels, Side.Translation, OutputsOf, PsiSum, AllHalfGates,
         EvaluatedOn, Setting.Valid, Agreed, Netlist.WellFormed, Setting.OwnLabels, Setting.HashedOutputs, XorPairs,
         ActiveLabels, HonestOffer, FullView;
    EvaluationIsRightOn(e.s, e.role, g.theirKProbe.encodingSize, w, g.mine[b].maskSeed, FullView(g, e, b),
                        e.theirs[b].offer, x, y, labels, garblers, own);
  }

  /** The opened common labels give circuit b's committed hashes. */
  lemma TranslationOpens(g: Side, e: Side, b: nat, w: Secrets, garblers: seq<Pair>)
    requires Opposite(g, e) && b < |g.mine| && HonestCircuit(g, e, b, w) && |garblers| == |e.s.cir.outputs|
    requires |g.mine[b].view.outputWires| == |garblers| && b < |e.theirs|
    ensures g.s.hashes.pairs(XorPairs(garblers, g.Translation(garblers, b))) == e.theirs[b].offer.outputCommit
  {
    TranslationOpensIff(g.s.HashedOutputs(g.mine[b].view.outputWires, g.mine[b].view.offset), garblers,
                        g.Translation(garblers, b));
  }
}
