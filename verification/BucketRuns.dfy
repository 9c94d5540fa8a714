/** A whole run of one bucket by two honest parties. */
module BucketRuns {
  import opened Blocks
  import opened Circuits
  import opened Schemes
  import opened HalfGates
  import opened GarbledCircuits
  import opened KProbe
  import opened Packages
  import opened BucketMessages
  import opened Buckets
  import opened HonestBuckets
  import opened Wrappers

  /** The plain outputs of the circuit on both parties' inputs. */
  ghost function PlainOutputs(s: Setting, role: Role, own: seq<bool>, theirs: seq<bool>): (r: seq<bool>)
    requires s.Valid() && |own| == s.InputSize(role) && |theirs| == s.InputSize(Other(role))
    ensures |r| == |s.cir.outputs|
  {
    OutputBits(s.cir, InputRow(role, own, theirs))
  }

  /** What e holds of circuit b once the bucket is set up by g and e. */
  ghost predicate SetUpAt(g: Side, e: Side, garblers: seq<Pair>, translation: seq<Pair>, decoded: seq<Block>, b: nat) {
    && Opposite(g, e) && b < |g.mine| && |garblers| == |g.mine[b].view.outputWires| == |e.s.cir.outputs|
    && |g.theirs[b].sent| == |g.mine[b].kProbeInputs| == |e.mine[b].choices| == |e.mine[b].received| ==
       e.myKProbe.encodingSize
    && e.myKProbe.Valid()
    && translation == g.Translation(garblers, b)
    && decoded == DecodedBlocks(e.myKProbe, Recovered(g, e, b))
  }

  /** The messages that g sends e for circuit b, on e's correction of x and g's input y. */
  ghost predicate SentAt(g: Side, e: Side, x: seq<bool>, y: seq<bool>, maskSeed: Block, own: seq<Block>,
                         offsets: seq<Block>, b: nat) {
    && Opposite(g, e) && b < |g.mine| && |g.mine[b].view.inputWires| == g.s.cir.Inputs()
    && |x| == e.s.InputSize(e.role) && |y| == g.s.InputSize(g.role) == |g.MyLabels(b)|
    && maskSeed == g.mine[b].maskSeed
    && own == ActiveLabels(g.MyLabels(b), y, g.mine[b].view.offset)
    && offsets == OffsetsOf(g, e, b, x)
  }

  lemma SentSizes(g: Side, e: Side, x: seq<bool>, y: seq<bool>, maskSeed: Block, own: seq<Block>, offsets: seq<Block>,
                  b: nat)
    requires SentAt(g, e, x, y, maskSeed, own, offsets, b)
    ensures |own| == e.s.InputSize(Other(e.role)) && |offsets| == e.s.InputSize(e.role) && e.Valid()
    ensures |e.theirs| == |g.mine|
    ensures |x| == e.s.InputSize(e.role) && |y| == e.s.InputSize(Other(e.role)) && |x| + |y| == e.s.cir.Inputs()
  {
    SideSizes(g, e, b);
  }

  lemma SetUpSizes(g: Side, e: Side, garblers: seq<Pair>, translation: seq<Pair>, decoded: seq<Block>, b: nat)
    requires SetUpAt(g, e, garblers, translation, decoded, b)
    ensures |translation| == |e.s.cir.outputs| == |garblers| && |decoded| == e.s.InputSize(e.role) && e.Valid()
    ensures b < |e.theirs| && |e.theirs[b].offer.translation| == |e.s.cir.outputs| && e.s.Valid()
  {
    SideSizes(g, e, b);
  }

  /** One evaluation, from what was set up and sent. */
  lemma OneEvaluation(g: Side, e: Side, w: Secrets, x: seq<bool>, y: seq<bool>, garblers: seq<Pair>,
                      translation: seq<Pair>, decoded: seq<Block>, maskSeed: Block, own: seq<Block>,
                      offsets: seq<Block>, labels: seq<Block>, common: seq<Pair>, b: nat)
    requires SetUpAt(g, e, garblers, translation, decoded, b) && SentAt(g, e, x, y, maskSeed, own, offsets, b)
    requires HonestCircuit(g, e, b, w) && AllHalfGates(e.s.cir)
    requires |common| == |garblers| == |translation| == |e.s.cir.outputs|
    requires |x| == e.s.InputSize(e.role) && |y| == e.s.InputSize(Other(e.role)) && |decoded| == |offsets|
    requires |own| + |offsets| == e.s.cir.Inputs()
    requires e.s.Valid() && b < |e.theirs| && |e.theirs[b].offer.translation| == |e.s.cir.outputs|
    requires EvaluatedOn(e.s, e.role, e.theirs[b].offer.tables, maskSeed, g.mine[b].view.offset, own,
                         XorBlocks(decoded, offsets), labels)
    requires |x| + |y| == e.s.cir.Inputs()
    ensures var bits := OutputBits(e.s.cir, InputRow(e.role, x, y));
            && OutputsOf(e.s, e.theirs[b].offer.translation, labels) == bits
            && PsiSum(e.s, labels, bits, translation, common, |common|) == Agreed(garblers, common, bits, |common|)
  {
    SideSizes(g, e, b);
    SentSizes(g, e, x, y, maskSeed, own, offsets, b);
    ReceivedFacts(g, e, x, y, garblers, translation, decoded, maskSeed, own, offsets, labels, b);
    hide SetUpAt, SentAt, Opposite, HonestCircuit, Side.Valid, Setting.Valid, OutputsOf, PsiSum, Agreed, AllHalfGates,
         EvaluatedOn, ActiveLabels, XorBlocks, DecodedBlocks, Unmasked, MaskedLabels, Offsets, XorPairs, OutputBits,
         WireValue, Netlist.WellFormed, Netlist.Ordered, Netlist.InGateOrder, NonXorCount, Recovered, OffsetsOf,
         Side.TheirLabels, Side.MyLabels, Side.Translation;
    OwnLabelsEncode(g, e, b, w, x);
    assert XorBlocks(decoded, offsets) == ActiveLabels(g.TheirLabels(b), x, g.mine[b].view.offset);
    EvaluationIsRight(g, e, b, w, x, y, labels, garblers, common);
  }

  /** What e has received about circuit b, in terms of what g holds. */
  lemma ReceivedFacts(g: Side, e: Side, x: seq<bool>, y: seq<bool>, garblers: seq<Pair>, translation: seq<Pair>,
                      decoded: seq<Block>, maskSeed: Block, own: seq<Block>, offsets: seq<Block>, labels: seq<Block>,
                      b: nat)
    requires SetUpAt(g, e, garblers, translation, decoded, b) && SentAt(g, e, x, y, maskSeed, own, offsets, b)
    requires e.s.Valid() && b < |e.theirs| && |decoded| == |offsets| && |own| + |offsets| == e.s.cir.Inputs()
    requires EvaluatedOn(e.s, e.role, e.theirs[b].offer.tables, maskSeed, g.mine[b].view.offset, own,
                         XorBlocks(decoded, offsets), labels)
    requires |x| + |y| == e.s.cir.Inputs()
    ensures Opposite(g, e) && |y| == g.s.InputSize(g.role) && maskSeed == g.mine[b].maskSeed
    ensures |labels| == e.s.cir.wireCount && |InputRow(e.role, x, y)| == |x| + |y| == e.s.cir.Inputs()
    ensures |g.mine[b].view.inputWires| == g.s.cir.Inputs() && |g.mine[b].view.outputWires| == |garblers|
    ensures |g.theirs[b].sent| == |g.mine[b].kProbeInputs| == |e.mine[b].choices| == |e.mine[b].received|
    ensures decoded == DecodedBlocks(e.myKProbe, Recovered(g, e, b)) && offsets == OffsetsOf(g, e, b, x)
    ensures own == ActiveLabels(g.MyLabels(b), y, g.mine[b].view.offset) && translation == g.Translation(garblers, b)
  {
    SideSizes(g, e, b);
    hide OutputBits, WireValue, OutputsOf, PsiSum, Agreed, Evaluated, NonXorCount;
  }

  lemma HonestAt(g: Side, e: Side, ws: seq<Secrets>, b: nat)
    requires HonestGarbler(g, e, ws) && b < |g.mine|
    ensures |ws| == |g.mine| && Opposite(g, e) && HonestCircuit(g, e, b, ws[b])
  {
  }

  /** Evaluates circuit b of g's. */
  method EvaluateOne(e: Bucket, ghost g: Side, ghost w: Secrets, b: nat, x: seq<bool>, ghost y: seq<bool>,
                     ghost garblers: seq<Pair>, maskSeed: Block, own: seq<Block>, offsets: seq<Block>,
                     buffer: seq<Block>)
    returns (psi: Block, labels: seq<Block>)
    requires b < |e.outputs| == |e.translation| == |e.decodedLabels| == |g.mine| && |buffer| == e.side.s.cir.wireCount
    requires SetUpAt(g, e.side, garblers, e.translation[b], e.decodedLabels[b], b)
    requires SentAt(g, e.side, x, y, maskSeed, own, offsets, b)
    requires HonestCircuit(g, e.side, b, w) && AllHalfGates(e.side.s.cir)
    requires |e.commonOutput| == |e.side.s.cir.outputs| == |garblers|
    requires e.side.s.Valid() && |x| == e.side.s.InputSize(e.side.role) && |y| == e.side.s.InputSize(Other(e.side.role))
    modifies e`outputs
    ensures e.outputs == old(e.outputs)[b := PlainOutputs(e.side.s, e.side.role, x, y)] && |labels| == |buffer|
    ensures psi == Agreed(garblers, e.commonOutput, PlainOutputs(e.side.s, e.side.role, x, y), |garblers|)
  {
    ghost var bits := PlainOutputs(e.side.s, e.side.role, x, y);
    SetUpSizes(g, e.side, garblers, e.translation[b], e.decodedLabels[b], b);
    SentSizes(g, e.side, x, y, maskSeed, own, offsets, b);
    assert bits == OutputBits(e.side.s.cir, InputRow(e.side.role, x, y));
    hide *;
    psi, labels := e.EvalCircuit(b, maskSeed, own, offsets, buffer, g.mine[b].view.offset);
    EvaluatedSize(e.side.s, e.side.role, e.side.theirs[b].offer.tables, maskSeed, g.mine[b].view.offset, own,
                  XorBlocks(e.decodedLabels[b], offsets), labels);
    OneEvaluation(g, e.side, w, x, y, garblers, e.translation[b], e.decodedLabels[b], maskSeed, own, offsets, labels,
                  e.commonOutput, b);
  }

  /** e has decoded g's choice differences. */
  ghost predicate HasOrders(g: Side, permutes: seq<seq<bool>>) {
    && |permutes| == |g.mine| - 1 && g.myKProbe.Valid() && 0 < |g.mine|
    && (forall b :: 0 <= b < |g.mine| ==> |g.mine[b].choices| == g.myKProbe.encodingSize)
    && forall b: nat {:trigger OrderOf(g, b)} :: b < |g.mine| ==>
       PermuteAt(permutes, g.myKProbe.Rows(), b) == OrderOf(g, b)
  }

  /** g keeps its decoded k-probe zero labels. */
  ghost predicate HasOffsets(g: Side, theirInputOffsets: seq<seq<Block>>) {
    && |theirInputOffsets| == |g.mine| && g.theirKProbe.Valid()
    && forall b :: 0 <= b < |g.mine| ==>
         |g.mine[b].kProbeInputs| == g.theirKProbe.encodingSize
           && theirInputOffsets[b] == DecodedBlocks(g.theirKProbe, g.mine[b].kProbeInputs)
  }

  /** e has formed its side of the bucket with g, whose common output labels are given. */
  ghost predicate Formed(e: Bucket, g: Side, garblers: seq<Pair>)
    reads e`theirPermutes, e`theirInputOffsets, e`translation, e`decodedLabels, e`commonOutput
  {
    && HasOrders(g, e.theirPermutes) && HasOffsets(e.side, e.theirInputOffsets)
    && |e.translation| == |e.decodedLabels| == |g.mine| && |e.commonOutput| == |e.side.s.cir.outputs|
    && forall b :: 0 <= b < |g.mine| ==> SetUpAt(g, e.side, garblers, e.translation[b], e.decodedLabels[b], b)
  }

  ghost predicate AllSent(g: Side, e: Side, x: seq<bool>, y: seq<bool>, maskSeeds: seq<Block>, own: seq<seq<Block>>,
                          offsets: seq<seq<Block>>) {
    && |maskSeeds| == |own| == |offsets| == |g.mine|
    && forall b :: 0 <= b < |g.mine| ==> SentAt(g, e, x, y, maskSeeds[b], own[b], offsets[b], b)
  }

  lemma FormedAt(e: Bucket, g: Side, garblers: seq<Pair>, b: nat)
    requires Formed(e, g, garblers) && b < |g.mine|
    ensures |e.translation| == |e.decodedLabels| == |g.mine| && |e.commonOutput| == |e.side.s.cir.outputs| == |garblers|
    ensures SetUpAt(g, e.side, garblers, e.translation[b], e.decodedLabels[b], b)
  {
    assert SetUpAt(g, e.side, garblers, e.translation[b], e.decodedLabels[b], b);
  }

  lemma SentToAt(g: Side, e: Side, x: seq<bool>, y: seq<bool>, maskSeeds: seq<Block>, own: seq<seq<Block>>,
                 offsets: seq<seq<Block>>, b: nat)
    requires AllSent(g, e, x, y, maskSeeds, own, offsets) && b < |g.mine|
    ensures |maskSeeds| == |own| == |offsets| == |g.mine| && SentAt(g, e, x, y, maskSeeds[b], own[b], offsets[b], b)
  {
  }

  /** Evaluates every circuit that g garbled. */
  method EvaluateAll(e: Bucket, ghost g: Side, ghost ws: seq<Secrets>, x: seq<bool>, ghost y: seq<bool>,
                     ghost garblers: seq<Pair>, maskSeeds: seq<Block>, own: seq<seq<Block>>, offsets: seq<seq<Block>>)
    returns (psis: seq<Block>)
    requires HonestGarbler(g, e.side, ws) && AllHalfGates(e.side.s.cir) && e.side.s.Valid()
    requires |e.outputs| == |g.mine| > 0
    requires |x| == e.side.s.InputSize(e.side.role) && |y| == e.side.s.InputSize(Other(e.side.role))
    requires Formed(e, g, garblers) && AllSent(g, e.side, x, y, maskSeeds, own, offsets)
    modifies e`outputs
    ensures |psis| == |e.outputs| == |g.mine| && |garblers| == |e.commonOutput| == |e.side.s.cir.outputs|
    ensures forall b :: 0 <= b < |psis| ==> e.outputs[b] == PlainOutputs(e.side.s, e.side.role, x, y)
    ensures forall b :: 0 <= b < |psis| ==>
      psis[b] == Agreed(garblers, e.commonOutput, PlainOutputs(e.side.s, e.side.role, x, y), |garblers|)
  {
    hide *;
    ghost var bits := PlainOutputs(e.side.s, e.side.role, x, y);
    FormedAt(e, g, garblers, 0);
    SentToAt(g, e.side, x, y, maskSeeds, own, offsets, 0);
    psis := [];
    var buffer := seq(e.side.s.cir.wireCount, _ => ZERO_BLOCK);
    for b := 0 to |maskSeeds|
      invariant |psis| == b && |e.outputs| == |g.mine| && |buffer| == e.side.s.cir.wireCount && Formed(e, g, garblers)
      invariant forall k :: 0 <= k < b ==> e.outputs[k] == bits
      invariant forall k :: 0 <= k < b ==> psis[k] == Agreed(garblers, e.commonOutput, bits, |garblers|)
    {
      HonestAt(g, e.side, ws, b);
      FormedAt(e, g, garblers, b);
      SentToAt(g, e.side, x, y, maskSeeds, own, offsets, b);
      var psi;
      psi, buffer := EvaluateOne(e, g, ws[b], b, x, y, garblers, maskSeeds[b], own[b], offsets[b], buffer);
      psis := psis + [psi];
    }
  }

  lemma EvaluatedSize(s: Setting, role: Role, tables: seq<GarbledGate>, maskSeed: Block, d: Block, theirOwn: seq<Block>,
                      own: seq<Block>, labels: seq<Block>)
    requires s.Valid() && |own| + |theirOwn| == s.cir.Inputs()
    requires EvaluatedOn(s, role, tables, maskSeed, d, theirOwn, own, labels)
    ensures |labels| == s.cir.wireCount
  {
  }

  lemma GotOrders(g: Side, permutes: seq<seq<bool>>, deltas: seq<seq<bool>>)
    requires g.Valid() && |permutes| == |deltas| == |g.mine| - 1
    requires forall b :: 0 <= b < |g.mine| ==> |g.mine[b].choices| == g.myKProbe.encodingSize
    requires forall b :: 1 <= b < |g.mine| ==> deltas[b - 1] == g.Delta(b)
    requires forall i :: 0 <= i < |deltas| ==>
      |deltas[i]| == g.myKProbe.encodingSize && permutes[i] == DecodedBits(g.myKProbe, deltas[i])
    ensures HasOrders(g, permutes)
  {
    forall b: nat | b < |g.mine|
      ensures PermuteAt(permutes, g.myKProbe.Rows(), b) == OrderOf(g, b)
    {
      PermutesAreOrders(g, permutes, b);
    }
  }

  lemma ChoiceSizes(g: Side)
    requires g.Valid()
    ensures forall b :: 0 <= b < |g.mine| ==> |g.mine[b].choices| == g.myKProbe.encodingSize
  {
    forall b | 0 <= b < |g.mine|
      ensures |g.mine[b].choices| == g.myKProbe.encodingSize
    {
      assert g.MineValid(g.mine[b]);
    }
  }

  /** Receives what g sends when the bucket is formed; nothing throws. */
  method SetUp(e: Bucket, ghost g: Side, ghost ws: seq<Secrets>, ghost garblers: seq<Pair>,
               translations: seq<seq<Pair>>, deltas: seq<seq<bool>>, masked: seq<seq<Pair>>)
    returns (ok: bool)
    requires HonestGarbler(g, e.side, ws) && |garblers| == |g.s.cir.outputs|
    requires |translations| == |masked| == |g.mine| == |deltas| + 1
    requires forall b :: 0 <= b < |g.mine| ==>
      |g.mine[b].view.outputWires| == |garblers| && translations[b] == g.Translation(garblers, b)
    requires forall b :: 0 <= b < |g.mine| ==> |g.mine[b].choices| == g.myKProbe.encodingSize
    requires forall b :: 1 <= b < |g.mine| ==> deltas[b - 1] == g.Delta(b)
    requires forall b :: 0 <= b < |g.mine| ==>
      b < |g.theirs| && |g.theirs[b].sent| == |g.mine[b].kProbeInputs| && masked[b] == g.Masked(b)
    modifies e`translation, e`theirPermutes, e`decodedLabels, e`inputCorrection
    ensures ok && HasOrders(g, e.theirPermutes)
    ensures |e.translation| == |e.decodedLabels| == |g.mine|
    ensures forall b :: 0 <= b < |g.mine| ==> SetUpAt(g, e.side, garblers, e.translation[b], e.decodedLabels[b], b)
    ensures 0 < |e.side.mine| && |e.side.mine[0].choices| == e.side.myKProbe.encodingSize && e.side.myKProbe.Valid()
    ensures e.inputCorrection == DecodedBits(e.side.myKProbe, e.side.mine[0].choices)
  {
    SideSizes(g, e.side, 0);
    forall i | 0 <= i < |deltas|
      ensures |deltas[i]| == g.myKProbe.encodingSize
    {
      assert deltas[i + 1 - 1] == g.Delta(i + 1);
    }
    ok := e.InitRecv(translations, deltas);
    GotOrders(g, e.theirPermutes, deltas);
    forall b | 0 <= b < |masked|
      ensures |masked[b]| == e.side.myKProbe.encodingSize
    {
      SideSizes(g, e.side, b);
    }
    var received := e.InitKProbeInputRecv(masked);
    forall b | 0 <= b < |masked|
      ensures OpensKProbe(e.side.s, e.side.theirs[b].offer.kProbeCommits,
                          Unmasked(masked[b], e.side.mine[b].choices, e.side.mine[b].received), e.side.mine[b].choices)
    {
      KProbeLabelsOpen(g, e.side, b, ws[b]);
    }
    forall b | 0 <= b < |g.mine|
      ensures SetUpAt(g, e.side, garblers, e.translation[b], e.decodedLabels[b], b)
    {
      SideSizes(g, e.side, b);
    }
    ok := ok && received;
  }

  /** The check of the labels received for g's input passes. */
  lemma InputsOpen(g: Side, e: Side, ws: seq<Secrets>, y: seq<bool>, own: seq<seq<Block>>, permutes: seq<seq<bool>>,
                   b: nat)
    requires HonestGarbler(g, e, ws) && b < |g.mine| == |own| && HasOrders(g, permutes) && |y| == g.s.InputSize(g.role)
    requires |g.mine[b].view.inputWires| == g.s.cir.Inputs() && |g.MyLabels(b)| == |y| == g.myKProbe.Rows()
    requires own[b] == ActiveLabels(g.MyLabels(b), y, g.mine[b].view.offset)
    ensures b < |e.theirs|
    ensures OpensInput(e.s, e.theirs[b].inputCommits, own[b], CorrectionOf(g, y), PermuteAt(permutes, |y|, b))
  {
    HonestAt(g, e, ws, b);
    hide HonestGarbler, HonestCircuit, Opposite, OpensInput, ActiveLabels;
    OtherLabelsOpen(g, e, b, ws[b], y);
    SameSetting(g, e);
    assert PermuteAt(permutes, g.myKProbe.Rows(), b) == OrderOf(g, b);
  }

  lemma SameSetting(g: Side, e: Side)
    requires Opposite(g, e)
    ensures g.s == e.s && e.role == Other(g.role) && g.myKProbe.Rows() == g.s.InputSize(g.role)
    ensures e.myKProbe.Rows() == e.s.InputSize(e.role)
    ensures g.s.InputSize(g.role) == e.s.InputSize(Other(e.role)) && e.Valid() && g.Valid() && g.s.Valid()
    ensures |g.mine| == |e.mine| == |e.theirs|
    ensures g.theirKProbe == e.myKProbe && e.theirKProbe == g.myKProbe && 0 < |g.mine|
  {
  }

  /** Evaluates g's circuits, checks g's inputs, and checks g's opened common labels; nothing throws. */
  method Finish(e: Bucket, ghost g: Side, ghost ws: seq<Secrets>, x: seq<bool>, ghost y: seq<bool>, garblers: seq<Pair>,
                maskSeeds: seq<Block>, own: seq<seq<Block>>, offsets: seq<seq<Block>>)
    returns (ok: bool, psis: seq<Block>)
    requires HonestGarbler(g, e.side, ws) && AllHalfGates(e.side.s.cir) && e.side.s.Valid() && |e.outputs| == |g.mine|
    requires |x| == e.side.s.InputSize(e.side.role) && |y| == e.side.s.InputSize(Other(e.side.role))
    requires Formed(e, g, garblers) && AllSent(g, e.side, x, y, maskSeeds, own, offsets)
    requires 0 < |g.mine| && g.myKProbe.Valid() && |g.mine[0].choices| == g.myKProbe.encodingSize
    requires |y| == g.myKProbe.Rows()
    requires e.theirInputCorrection == CorrectionOf(g, y)
    modifies e`outputs
    ensures ok && |psis| == |e.outputs| == |g.mine|
    ensures forall b :: 0 <= b < |psis| ==> e.outputs[b] == PlainOutputs(e.side.s, e.side.role, x, y)
    ensures |garblers| == |e.commonOutput| == |e.side.s.cir.outputs|
    ensures forall b :: 0 <= b < |psis| ==>
      psis[b] == Agreed(garblers, e.commonOutput, PlainOutputs(e.side.s, e.side.role, x, y), |garblers|)
  {
    HonestAt(g, e.side, ws, 0);
    SameSetting(g, e.side);
    psis := EvaluateAll(e, g, ws, x, y, garblers, maskSeeds, own, offsets);
    PermutesSized(g, e.theirPermutes);
    hide HonestGarbler, HonestCircuit, OpensInput, PlainOutputs, Agreed, AllHalfGates, Setting.Valid, Side.Valid,
         Opposite;
    forall b | 0 <= b < |own|
      ensures |own[b]| == |y|
      ensures OpensInput(e.side.s, e.side.theirs[b].inputCommits, own[b], e.theirInputCorrection,
                         PermuteAt(e.theirPermutes, |y|, b))
    {
      assert SentAt(g, e.side, x, y, maskSeeds[b], own[b], offsets[b], b);
      InputsOpen(g, e.side, ws, y, own, e.theirPermutes, b);
    }
    ok := e.CheckInputs(own);
    assert ok;
    ok := CheckTranslations(e, g, ws, garblers);
  }

  method CheckTranslations(e: Bucket, ghost g: Side, ghost ws: seq<Secrets>, garblers: seq<Pair>) returns (ok: bool)
    requires HonestGarbler(g, e.side, ws) && |e.translation| == |e.decodedLabels| == |g.mine|
    requires forall b :: 0 <= b < |g.mine| ==> SetUpAt(g, e.side, garblers, e.translation[b], e.decodedLabels[b], b)
    ensures ok
  {
    HonestAt(g, e.side, ws, 0);
    SameSetting(g, e.side);
    for b := 0 to |e.translation|
    {
      assert SetUpAt(g, e.side, garblers, e.translation[b], e.decodedLabels[b], b);
      HonestAt(g, e.side, ws, b);
      TranslationOpens(g, e.side, b, ws[b], garblers);
      SetUpSizes(g, e.side, garblers, e.translation[b], e.decodedLabels[b], b);
      ok := e.CheckTranslation(b, garblers);
      assert ok;
    }
    ok := true;
  }

  lemma PermutesSized(g: Side, permutes: seq<seq<bool>>)
    requires HasOrders(g, permutes)
    ensures forall i :: 0 <= i < |permutes| ==> |permutes[i]| == g.myKProbe.Rows()
  {
    forall i | 0 <= i < |permutes|
      ensures |permutes[i]| == g.myKProbe.Rows()
    {
      assert |OrderOf(g, i + 1)| == g.myKProbe.Rows();
    }
  }

  lemma SentByG(g: Side, e: Side, x: seq<bool>, y: seq<bool>, own: seq<Block>, offsets: seq<Block>,
                permutes: seq<seq<bool>>, theirInputOffsets: seq<Block>, correction: seq<bool>, b: nat)
    requires Opposite(g, e) && b < |g.mine| && |g.mine[b].view.inputWires| == g.s.cir.Inputs()
    requires |x| == e.s.InputSize(e.role) && |y| == g.s.InputSize(g.role) == |g.MyLabels(b)|
    requires own == ActiveLabels(g.MyLabels(b), y, g.mine[b].view.offset)
    requires HasOrders(e, permutes) && |x| == e.myKProbe.Rows() && correction == CorrectionOf(e, x)
    requires |g.mine[b].kProbeInputs| == g.theirKProbe.encodingSize && g.theirKProbe.Valid()
    requires theirInputOffsets == DecodedBlocks(g.theirKProbe, g.mine[b].kProbeInputs)
    requires |theirInputOffsets| == |g.TheirLabels(b)| == |correction| == |PermuteAt(permutes, |correction|, b)|
    requires offsets == Offsets(theirInputOffsets, g.TheirLabels(b), g.mine[b].view.offset, correction,
                                PermuteAt(permutes, |correction|, b))
    ensures SentAt(g, e, x, y, g.mine[b].maskSeed, own, offsets, b)
  {
    SideSizes(g, e, b);
    SameSetting(g, e);
    hide Opposite, Offsets, ActiveLabels, DecodedBlocks;
    assert PermuteAt(permutes, e.myKProbe.Rows(), b) == OrderOf(e, b);
  }

  /** g forms its half of the bucket: common labels, translations, choice differences, masked k-probe labels. */
  method Form(g: Bucket, outputSeed: Block)
    returns (translations: seq<seq<Pair>>, deltas: seq<seq<bool>>, masked: seq<seq<Pair>>)
    requires g.side.Valid()
    modifies g`commonOutput, g`theirInputOffsets
    ensures |g.commonOutput| == |g.side.s.cir.outputs| && |translations| == |masked| == |g.side.mine| == |deltas| + 1
    ensures forall b :: 0 <= b < |g.side.mine| ==>
      |g.side.mine[b].view.outputWires| == |g.commonOutput| && translations[b] == g.side.Translation(g.commonOutput, b)
    ensures forall b :: 0 <= b < |g.side.mine| ==> |g.side.mine[b].choices| == g.side.myKProbe.encodingSize
    ensures forall b :: 1 <= b < |g.side.mine| ==> deltas[b - 1] == g.side.Delta(b)
    ensures forall b :: 0 <= b < |g.side.mine| ==>
      b < |g.side.theirs| && |g.side.theirs[b].sent| == |g.side.mine[b].kProbeInputs| && masked[b] == g.side.Masked(b)
    ensures HasOffsets(g.side, g.theirInputOffsets)
  {
    ChoiceSizes(g.side);
    translations, deltas := g.InitSend(outputSeed);
    masked := g.InitKProbeInputSend();
    forall b | 0 <= b < |g.side.mine|
      ensures |g.side.mine[b].view.outputWires| == |g.commonOutput|
      ensures |g.side.mine[b].kProbeInputs| == g.side.theirKProbe.encodingSize
      ensures |g.side.theirs[b].sent| == g.side.theirKProbe.encodingSize
    {
      assert g.side.MineValid(g.side.mine[b]) && g.side.TheirsValid(g.side.theirs[b]);
    }
  }

  /** g sends its labels, and the corrections of e's; no result where g throws or e waits for more than g sends. */
  method Send(g: Bucket, ghost e: Side, ghost x: seq<bool>, y: seq<bool>)
    returns (ok: bool, own: seq<seq<Block>>, offsets: seq<seq<Block>>)
    requires Opposite(g.side, e)
    requires |x| == e.s.InputSize(e.role) == e.myKProbe.Rows() && |y| == g.side.s.InputSize(g.side.role)
    requires HasOrders(e, g.theirPermutes) && g.theirInputCorrection == CorrectionOf(e, x)
    requires HasOffsets(g.side, g.theirInputOffsets)
    ensures ok <==> g.side.s.cir.in0 == g.side.s.cir.in1
    ensures ok ==> AllSent(g.side, e, x, y, MaskSeeds(g.side), own, offsets)
  {
    hide Side.Valid, Setting.Valid, ActiveLabels, Offsets, HasOrders, Opposite, HasOffsets, CorrectionOf, SentAt,
         Bucket.OwnActive, Bucket.Corrections;
    SendReady(g, e, x);
    own, offsets := [], [];
    for b := 0 to |g.side.mine|
      invariant |own| == |offsets| == b && (b > 0 ==> g.side.s.cir.in0 == g.side.s.cir.in1)
      invariant forall k :: 0 <= k < b ==> SentAt(g.side, e, x, y, g.side.mine[k].maskSeed, own[k], offsets[k], k)
    {
      var sent, o, c := g.SendCircuitInputs(y, b, |g.side.mine|);
      OwnCircuit(b, |g.side.mine|);
      SizesDiffer(g.side.s, g.side.role);
      if !sent { return false, own, offsets; }
      assert o[0] == g.OwnActive(y, b) && c[0] == g.Corrections(b)[..g.side.s.InputSize(g.side.role)];
      if Receive(Some(c[0]), g.side.s.InputSize(Other(g.side.role))) == None { return false, own, offsets; }
      ThreadSends(g, e, x, y, o[0], c[0], b);
      own, offsets := own + [o[0]], offsets + [c[0]];
    }
    ok := true;
  }

  lemma SizesDiffer(s: Setting, role: Role)
    ensures s.InputSize(role) == s.InputSize(Other(role)) <==> s.cir.in0 == s.cir.in1
  {
  }

  lemma OwnCircuit(b: nat, n: nat)
    requires b < n
    ensures Strided(b, n, n) == [b]
  {
  }

  lemma SendReady(g: Bucket, e: Side, x: seq<bool>)
    requires Opposite(g.side, e) && |x| == e.s.InputSize(e.role) == e.myKProbe.Rows()
    requires HasOrders(e, g.theirPermutes) && g.theirInputCorrection == CorrectionOf(e, x)
    requires HasOffsets(g.side, g.theirInputOffsets)
    ensures g.side.Valid() && g.CanSend() && g.side.s == e.s && 0 < |g.side.mine|
  {
    SameSetting(g.side, e);
    PermutesSized(e, g.theirPermutes);
  }

  lemma ThreadSends(g: Bucket, e: Side, x: seq<bool>, y: seq<bool>, own: seq<Block>, offsets: seq<Block>, b: nat)
    requires Opposite(g.side, e) && g.side.s.cir.in0 == g.side.s.cir.in1 && b < |g.side.mine|
    requires |x| == e.s.InputSize(e.role) == e.myKProbe.Rows() && |y| == g.side.s.InputSize(g.side.role)
    requires HasOrders(e, g.theirPermutes) && g.theirInputCorrection == CorrectionOf(e, x)
    requires HasOffsets(g.side, g.theirInputOffsets)
    requires g.side.Valid() && g.CanSend()
    requires own == g.OwnActive(y, b) && offsets == g.Corrections(b)[..g.side.s.InputSize(g.side.role)]
    ensures SentAt(g.side, e, x, y, g.side.mine[b].maskSeed, own, offsets, b)
  {
    SameSetting(g.side, e);
    SideSizes(g.side, e, b);
    assert g.side.s.InputSize(g.side.role) == |g.Corrections(b)|;
    assert offsets == g.Corrections(b);
    SentByG(g.side, e, x, y, own, offsets, g.theirPermutes, g.theirInputOffsets[b], g.theirInputCorrection, b);
  }

  function MaskSeeds(g: Side): (r: seq<Block>)
    ensures |r| == |g.mine| && forall b :: 0 <= b < |r| ==> r[b] == g.mine[b].maskSeed
  {
    seq(|g.mine|, b requires 0 <= b < |g.mine| => g.mine[b].maskSeed)
  }

  /** Both parties' inputs in circuit order, from either side. */
  lemma OutputsFromBothSides(s: Setting, role: Role, x: seq<bool>, y: seq<bool>)
    requires s.Valid() && |x| == s.InputSize(role) && |y| == s.InputSize(Other(role))
    ensures PlainOutputs(s, role, x, y) == PlainOutputs(s, Other(role), y, x)
  {
  }

  /** Both parties form the bucket. */
  method FormBoth(p: Bucket, q: Bucket, ghost wp: seq<Secrets>, ghost wq: seq<Secrets>, seedP: Block, seedQ: Block)
    returns (ok: bool)
    requires p != q && HonestGarbler(p.side, q.side, wp) && HonestGarbler(q.side, p.side, wq)
    modifies p, q
    ensures ok && p.outputs == old(p.outputs) && q.outputs == old(q.outputs)
    ensures Formed(p, q.side, q.commonOutput) && Formed(q, p.side, p.commonOutput)
    ensures CanCorrect(p.side) && CanCorrect(q.side)
    ensures p.inputCorrection == DecodedBits(p.side.myKProbe, p.side.mine[0].choices)
    ensures q.inputCorrection == DecodedBits(q.side.myKProbe, q.side.mine[0].choices)
  {
    HonestAt(p.side, q.side, wp, 0);
    SameSetting(p.side, q.side);
    SameSetting(q.side, p.side);
    hide HonestGarbler, HonestCircuit, Opposite, Side.Valid, Setting.Valid, HasOrders, HasOffsets, SetUpAt, DecodedBits,
         Side.Delta, Side.Masked, Side.Translation;
    var translationsP, deltasP, maskedP := Form(p, seedP);
    var translationsQ, deltasQ, maskedQ := Form(q, seedQ);
    ok := SetUp(p, q.side, wq, q.commonOutput, translationsQ, deltasQ, maskedQ);
    ok := SetUp(q, p.side, wp, p.commonOutput, translationsP, deltasP, maskedP);
  }

  /** The first circuit's choices can be decoded. */
  ghost predicate CanCorrect(e: Side) {
    0 < |e.mine| && e.myKProbe.Valid() && |e.mine[0].choices| == e.myKProbe.encodingSize
  }

  /** Both parties hide their inputs, then send their labels and corrections. */
  method Exchange(p: Bucket, q: Bucket, x: seq<bool>, y: seq<bool>)
    returns (ok: bool, ownP: seq<seq<Block>>, offsetsP: seq<seq<Block>>, ownQ: seq<seq<Block>>,
             offsetsQ: seq<seq<Block>>)
    requires p != q && Opposite(p.side, q.side) && Opposite(q.side, p.side)
    requires Formed(p, q.side, q.commonOutput) && Formed(q, p.side, p.commonOutput)
    requires CanCorrect(p.side) && p.inputCorrection == DecodedBits(p.side.myKProbe, p.side.mine[0].choices)
    requires CanCorrect(q.side) && q.inputCorrection == DecodedBits(q.side.myKProbe, q.side.mine[0].choices)
    requires |x| == p.side.s.InputSize(p.side.role) == p.side.myKProbe.Rows()
    requires |y| == q.side.s.InputSize(q.side.role) == q.side.myKProbe.Rows()
    modifies p`inputCorrection, p`theirInputCorrection, q`inputCorrection, q`theirInputCorrection
    ensures Formed(p, q.side, q.commonOutput) && Formed(q, p.side, p.commonOutput)
    ensures q.theirInputCorrection == CorrectionOf(p.side, x) && p.theirInputCorrection == CorrectionOf(q.side, y)
    ensures ok <==> p.side.s.cir.in0 == p.side.s.cir.in1
    ensures ok ==> AllSent(p.side, q.side, y, x, MaskSeeds(p.side), ownP, offsetsP)
    ensures ok ==> AllSent(q.side, p.side, x, y, MaskSeeds(q.side), ownQ, offsetsQ)
  {
    FormedFacts(p, q.side, q.commonOutput);
    FormedFacts(q, p.side, p.commonOutput);
    SameSetting(p.side, q.side);
    hide Opposite, HasOrders, HasOffsets, DecodedBits, Formed, AllSent, Side.Valid, Setting.Valid;
    q.theirInputCorrection := p.CorrectInput(x);
    p.theirInputCorrection := q.CorrectInput(y);
    var sent;
    sent, ownP, offsetsP := Send(p, q.side, y, x);
    ok, ownQ, offsetsQ := Send(q, p.side, x, y);
    ok := ok && sent;
  }

  /**
    A bucket run by two honest parties on inputs x and y, for all seeds, masks and transfer choices:
    if both have the same number of inputs nothing throws, every evaluation in both directions gives the plain outputs,
    and every evaluation of either party gives the one value that both compare; otherwise the run ends at the
    corrections.
   */
  method Run(p: Bucket, q: Bucket, ghost wp: seq<Secrets>, ghost wq: seq<Secrets>, seedP: Block, seedQ: Block,
             x: seq<bool>, y: seq<bool>)
    returns (ok: bool, psisP: seq<Block>, psisQ: seq<Block>)
    requires p != q && HonestGarbler(p.side, q.side, wp) && HonestGarbler(q.side, p.side, wq)
    requires AllHalfGates(p.side.s.cir)
    requires |x| == p.side.s.InputSize(p.side.role) && |y| == q.side.s.InputSize(q.side.role)
    requires |p.outputs| == |q.outputs| == |p.side.mine|
    modifies p, q
    ensures ok <==> p.side.s.cir.in0 == p.side.s.cir.in1
    ensures p.side.s.Valid() && |y| == p.side.s.InputSize(Other(p.side.role))
    ensures ok ==> |psisP| == |psisQ| == |p.outputs| == |q.outputs| == |p.side.mine|
    ensures ok ==> forall b :: 0 <= b < |psisP| ==>
      p.outputs[b] == q.outputs[b] == PlainOutputs(p.side.s, p.side.role, x, y)
    ensures ok ==> forall b, c :: 0 <= b < |psisP| && 0 <= c < |psisQ| ==> psisP[b] == psisQ[c]
  {
    HonestAt(p.side, q.side, wp, 0);
    HonestAt(q.side, p.side, wq, 0);
    SameSetting(p.side, q.side);
    SameSetting(q.side, p.side);
    OutputsFromBothSides(p.side.s, p.side.role, x, y);
    hide HonestGarbler, Opposite, Side.Valid, Setting.Valid, PlainOutputs, Agreed, AllHalfGates, Formed, AllSent,
         HonestCircuit, DecodedBits, MaskSeeds;
    var formed := FormBoth(p, q, wp, wq, seedP, seedQ);
    var ownP, offsetsP, ownQ, offsetsQ;
    ok, ownP, offsetsP, ownQ, offsetsQ := Exchange(p, q, x, y);
    if !ok { return false, [], []; }
    psisP, psisQ := FinishBoth(p, q, wp, wq, x, y, ownP, offsetsP, ownQ, offsetsQ);
  }

  /** Both parties evaluate, check and compare. */
  method FinishBoth(p: Bucket, q: Bucket, ghost wp: seq<Secrets>, ghost wq: seq<Secrets>, x: seq<bool>, y: seq<bool>,
                    ownP: seq<seq<Block>>, offsetsP: seq<seq<Block>>, ownQ: seq<seq<Block>>, offsetsQ: seq<seq<Block>>)
    returns (psisP: seq<Block>, psisQ: seq<Block>)
    requires p != q && HonestGarbler(p.side, q.side, wp) && HonestGarbler(q.side, p.side, wq)
    requires AllHalfGates(p.side.s.cir) && p.side.s == q.side.s && p.side.s.Valid() && q.side.role == Other(p.side.role)
    requires |p.outputs| == |q.outputs| == |p.side.mine| == |q.side.mine| > 0
    requires |x| == p.side.s.InputSize(p.side.role) == p.side.myKProbe.Rows()
    requires |y| == p.side.s.InputSize(q.side.role) == q.side.myKProbe.Rows()
    requires Formed(p, q.side, q.commonOutput) && Formed(q, p.side, p.commonOutput) && CanCorrect(p.side)
    requires CanCorrect(q.side)
    requires q.theirInputCorrection == CorrectionOf(p.side, x) && p.theirInputCorrection == CorrectionOf(q.side, y)
    requires AllSent(p.side, q.side, y, x, MaskSeeds(p.side), ownP, offsetsP)
    requires AllSent(q.side, p.side, x, y, MaskSeeds(q.side), ownQ, offsetsQ)
    modifies p`outputs, q`outputs
    ensures |psisP| == |psisQ| == |p.outputs| == |q.outputs| == |p.side.mine|
    ensures forall b :: 0 <= b < |psisP| ==> p.outputs[b] == q.outputs[b] == PlainOutputs(p.side.s, p.side.role, x, y)
    ensures forall b, c :: 0 <= b < |psisP| && 0 <= c < |psisQ| ==> psisP[b] == psisQ[c]
  {
    OutputsFromBothSides(p.side.s, p.side.role, x, y);
    hide HonestGarbler, Side.Valid, Setting.Valid, PlainOutputs, Agreed, AllHalfGates, Formed, AllSent, DecodedBits,
         MaskSeeds, CorrectionOf;
    var ok;
    ok, psisP := Finish(p, q.side, wq, x, y, q.commonOutput, MaskSeeds(q.side), ownQ, offsetsQ);
    ok, psisQ := Finish(q, p.side, wp, y, x, p.commonOutput, MaskSeeds(p.side), ownP, offsetsP);
    AgreedIsSymmetric(p.commonOutput, q.commonOutput, PlainOutputs(p.side.s, p.side.role, x, y), |p.commonOutput|);
  }

  lemma FormedFacts(e: Bucket, g: Side, garblers: seq<Pair>)
    requires Formed(e, g, garblers)
    ensures HasOrders(g, e.theirPermutes) && HasOffsets(e.side, e.theirInputOffsets)
  {
  }

  /** The labels received for g's input pass e's consistency check in every circuit: what CheckInputs accepts. */
  ghost predicate AllOpen(e: Side, correction: seq<bool>, permutes: seq<seq<bool>>, labels: seq<seq<Block>>)
    requires |labels| == |e.theirs| && |permutes| == |e.theirs| - 1
  {
    forall b: nat :: b < |labels| ==>
      OpensInput(e.s, e.theirs[b].inputCommits, labels[b], correction, PermuteAt(permutes, |correction|, b))
  }

  /** In every circuit the labels encode the bits x of g's input. */
  ghost predicate AllEncode(g: Side, x: seq<bool>, labels: seq<seq<Block>>)
    requires g.Valid() && |labels| == |g.mine| && |x| == g.s.InputSize(g.role)
  {
    forall b: nat :: b < |labels| ==> InputEncoded(g, b, x, labels[b])
  }

  ghost predicate InputEncoded(g: Side, b: nat, x: seq<bool>, labels: seq<Block>)
    requires g.Valid() && b < |g.mine| && |x| == g.s.InputSize(g.role)
  {
    assert g.MineValid(g.mine[b]);
    labels == ActiveLabels(g.MyLabels(b), x, g.mine[b].view.offset)
  }

  /** g's input commitments in every circuit follow its transfer choices. */
  ghost predicate CommitsInputs(g: Side, e: Side)
    requires Opposite(g, e)
  {
    forall b: nat :: b < |g.mine| ==>
      HonestInputCommits(g.s, g.role, g.myKProbe, g.mine[b].choices, g.mine[b].view, e.theirs[b].inputCommits)
  }

  lemma OneOpensIff(g: Side, e: Side, correction: seq<bool>, permutes: seq<seq<bool>>, labels: seq<Block>, b: nat)
    requires Opposite(g, e) && Binding(g.s.hashes) && CommitsInputs(g, e) && HasOrders(g, permutes) && b < |g.mine|
    requires |correction| == |labels| == g.s.InputSize(g.role)
    ensures |DecodedBits(g.myKProbe, g.mine[0].choices)| == |correction|
    ensures OpensInput(e.s, e.theirs[b].inputCommits, labels, correction, PermuteAt(permutes, |correction|, b)) <==>
            InputEncoded(g, b, XorBits(correction, DecodedBits(g.myKProbe, g.mine[0].choices)), labels)
  {
    SideSizes(g, e, b);
    assert HonestInputCommits(g.s, g.role, g.myKProbe, g.mine[b].choices, g.mine[b].view, e.theirs[b].inputCommits);
    hide Side.Valid, Setting.Valid, OpensInput, Binding, CommitsInputs, ActiveLabels;
    assert PermuteAt(permutes, |correction|, b) == OrderOf(g, b);
    OpensInputIff(g.s, g.myKProbe, g.MyLabels(b), g.mine[b].view.offset, g.mine[0].choices, g.mine[b].choices, labels,
                  correction, PermuteAt(permutes, |correction|, b), e.theirs[b].inputCommits);
  }

  /**
    Input consistency of a whole bucket. With injective commitments, whatever labels and correction a garbler sends,
    the check accepts exactly when all circuits' labels encode one and the same input: the correction xor what the
    first circuit's choices decode to.
   */
  lemma OneInputIff(g: Side, e: Side, correction: seq<bool>, permutes: seq<seq<bool>>, labels: seq<seq<Block>>)
    requires Opposite(g, e) && Binding(g.s.hashes) && CommitsInputs(g, e) && HasOrders(g, permutes)
    requires |correction| == g.s.InputSize(g.role) && |labels| == |g.mine| == |e.theirs|
    requires forall b :: 0 <= b < |labels| ==> |labels[b]| == |correction|
    ensures g.Valid() && |DecodedBits(g.myKProbe, g.mine[0].choices)| == |correction|
    ensures AllOpen(e, correction, permutes, labels) <==>
            AllEncode(g, XorBits(correction, DecodedBits(g.myKProbe, g.mine[0].choices)), labels)
  {
    SideSizes(g, e, 0);
    OneOpensIff(g, e, correction, permutes, labels[0], 0);
    hide Side.Valid, Setting.Valid, OpensInput, InputEncoded, Binding, HasOrders, CommitsInputs, Opposite;
    forall b: nat | b < |labels|
      ensures OpensInput(e.s, e.theirs[b].inputCommits, labels[b], correction,
                         PermuteAt(permutes, |correction|, b)) <==>
              InputEncoded(g, b, XorBits(correction, DecodedBits(g.myKProbe, g.mine[0].choices)), labels[b])
    {
      OneOpensIff(g, e, correction, permutes, labels[b], b);
    }
  }
}
