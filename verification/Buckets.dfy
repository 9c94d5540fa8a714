/** One party's side of a bucket: both parties' circuits, and the messages that evaluate them. */
module Buckets {
  import opened Blocks
  import opened Circuits
  import opened Schemes
  import opened Lanes
  import opened HalfGates
  import opened GarbledCircuits
  import opened KProbe
  import KProbeVectors
  import opened Packages
  import opened BucketMessages
  import opened XorSums

  /** What the bucket reads of a circuit that this party garbled. */
  datatype MyCircuit = MyCircuit(view: GarbledView, maskSeed: Block, kProbeInputs: seq<Block>, choices: seq<bool>,
                                 received: seq<Block>)

  /** What the bucket reads of a circuit that the other party garbled. */
  datatype TheirCircuit = TheirCircuit(offer: Offer, inputCommits: seq<(Digest, Digest)>, sent: seq<Pair>)

  /** What neither party changes once the bucket is formed. */
  datatype Side = Side(s: Setting, role: Role, myKProbe: KProbeMatrix, theirKProbe: KProbeMatrix,
                       mine: seq<MyCircuit>, theirs: seq<TheirCircuit>) {

    ghost predicate Valid() {
      && s.Valid() && myKProbe.Valid() && theirKProbe.Valid()
      && myKProbe.Rows() == s.InputSize(role) && theirKProbe.Rows() == s.InputSize(Other(role))
      && 0 < |mine| == |theirs|
      && (forall b :: 0 <= b < |mine| ==> MineValid(mine[b]) && TheirsValid(theirs[b]))
    }

    ghost predicate MineValid(m: MyCircuit) {
      && |m.view.inputWires| == s.cir.Inputs() && |m.view.outputWires| == |s.cir.outputs|
      && |m.kProbeInputs| == theirKProbe.encodingSize && |m.choices| == |m.received| == myKProbe.encodingSize
    }

    ghost predicate TheirsValid(t: TheirCircuit) {
      && |t.offer.tables| == s.cir.nonXor && |t.offer.translation| == |s.cir.outputs|
      && |t.offer.kProbeCommits| == myKProbe.encodingSize
      && |t.inputCommits| == s.InputSize(Other(role)) && |t.sent| == theirKProbe.encodingSize
    }

    function MyLabels(b: nat): (r: seq<Block>)
      requires b < |mine| && |mine[b].view.inputWires| == s.cir.Inputs()
      ensures |r| == s.InputSize(role)
    {
      s.OwnLabels(mine[b].view, role)
    }

    /** The zero labels of the other party's inputs in this party's circuit b. */
    function TheirLabels(b: nat): (r: seq<Block>)
      requires b < |mine| && |mine[b].view.inputWires| == s.cir.Inputs()
      ensures |r| == s.InputSize(Other(role))
    {
      s.OwnLabels(mine[b].view, Other(role))
    }

    /** The output translation of circuit b to the bucket's common labels. */
    function Translation(common: seq<Pair>, b: nat): seq<Pair>
      requires b < |mine| && |mine[b].view.outputWires| == |common|
    {
      XorPairs(s.HashedOutputs(mine[b].view.outputWires, mine[b].view.offset), common)
    }

    /** The difference of the first circuit's choices and circuit b's. */
    function Delta(b: nat): seq<bool>
      requires 0 < |mine| && b < |mine| && |mine[0].choices| == |mine[b].choices|
    {
      XorBits(mine[0].choices, mine[b].choices)
    }

    function Masked(b: nat): seq<Pair>
      requires b < |mine| && b < |theirs| && |theirs[b].sent| == |mine[b].kProbeInputs|
    {
      MaskedLabels(theirs[b].sent, mine[b].kProbeInputs, mine[b].view.offset)
    }
  }

  lemma SideSized(side: Side)
    requires side.Valid()
    ensures side.s.Valid() && side.myKProbe.Valid() && side.theirKProbe.Valid() && 0 < |side.mine| == |side.theirs|
    ensures side.myKProbe.Rows() == side.s.InputSize(side.role)
    ensures side.theirKProbe.Rows() == side.s.InputSize(Other(side.role))
    ensures forall b :: 0 <= b < |side.mine| ==>
      |side.mine[b].view.inputWires| == side.s.cir.Inputs()
        && |side.mine[b].choices| == |side.mine[b].received| == side.myKProbe.encodingSize
    ensures forall b :: 0 <= b < |side.theirs| ==> |side.theirs[b].offer.kProbeCommits| == side.myKProbe.encodingSize
  {
    forall b | 0 <= b < |side.mine|
      ensures side.MineValid(side.mine[b]) && side.TheirsValid(side.theirs[b])
    {
    }
  }

  /** The k-probe labels open the commitments that the choices point to. */
  ghost predicate OpensKProbe(s: Setting, commits: seq<(Digest, Digest)>, labels: seq<Block>, choices: seq<bool>) {
    && |commits| == |labels| == |choices|
    && forall t :: 0 <= t < |labels| ==> s.hashes.block(labels[t]) == PickCommit(commits[t], choices[t])
  }

  /** With injective commitments, the labels of the choices are the only ones that open. */
  lemma OpensKProbeIff(s: Setting, k: seq<Block>, d: Block, labels: seq<Block>, choices: seq<bool>)
    requires Binding(s.hashes) && |k| == |labels| == |choices|
    ensures OpensKProbe(s, s.LabelCommits(k, d, Zeros(|k|)), labels, choices) <==> labels == ActiveLabels(k, choices, d)
  {
    hide Block.Xor, Times;
    var commits := s.LabelCommits(k, d, Zeros(|k|));
    forall t | 0 <= t < |k|
      ensures PickCommit(commits[t], choices[t]) == s.hashes.block(k[t].Xor(Times(choices[t], d)))
    {
    }
    if OpensKProbe(s, commits, labels, choices) { assert labels == ActiveLabels(k, choices, d); }
  }

  class Bucket {
    const side: Side
    var commonOutput: seq<Pair>
    var translation: seq<seq<Pair>>
    var theirPermutes: seq<seq<bool>>
    var theirInputOffsets: seq<seq<Block>>
    var decodedLabels: seq<seq<Block>>
    var inputCorrection: seq<bool>
    var theirInputCorrection: seq<bool>
    var outputs: seq<seq<bool>>

    constructor (side: Side)
      requires side.Valid()
      ensures this.side == side && |outputs| == |side.mine|
    {
      this.side := side;
      commonOutput, translation, theirPermutes, theirInputOffsets, decodedLabels := [], [], [], [], [];
      inputCorrection, theirInputCorrection, outputs := [], [], seq(|side.mine|, _ => []);
    }

    /** Chooses the common output labels and sends the translations to them, and the choice differences. */
    method InitSend(outputSeed: Block) returns (translations: seq<seq<Pair>>, deltas: seq<seq<bool>>)
      requires side.Valid()
      modifies `commonOutput
      ensures commonOutput == CommonOutput(side.s, outputSeed)
      ensures |translations| == |side.mine|
      ensures forall b :: 0 <= b < |side.mine| ==> translations[b] == side.Translation(commonOutput, b)
      ensures |deltas| == |side.mine| - 1 && forall b :: 1 <= b < |side.mine| ==> deltas[b - 1] == side.Delta(b)
    {
      commonOutput := CommonOutput(side.s, outputSeed);
      translations, deltas := [], [];
      for b := 0 to |side.mine|
        modifies {}
        invariant |translations| == b && forall k :: 0 <= k < b ==> translations[k] == side.Translation(commonOutput, k)
      {
        assert side.MineValid(side.mine[b]);
        var hashed := HashOutputs(side.s, side.mine[b].view.outputWires, side.mine[b].view.offset);
        translations := translations + [XorPairs(hashed, commonOutput)];
      }
      for j := 1 to |side.mine|
        modifies {}
        invariant |deltas| == j - 1 && forall k :: 1 <= k < j ==> deltas[k - 1] == side.Delta(k)
      {
        assert side.MineValid(side.mine[0]) && side.MineValid(side.mine[j]);
        deltas := deltas + [XorBits(side.mine[0].choices, side.mine[j].choices)];
      }
    }

    /** Stores the translations and decodes the choice differences; false where decoding throws. */
    method InitRecv(translations: seq<seq<Pair>>, deltas: seq<seq<bool>>) returns (ok: bool)
      requires side.Valid() && |translations| == |side.theirs| && |deltas| == |side.theirs| - 1
      modifies `translation, `theirPermutes
      ensures ok <==> forall i :: 0 <= i < |deltas| ==> |deltas[i]| == side.theirKProbe.encodingSize
      ensures ok ==> translation == translations && |theirPermutes| == |deltas|
      ensures ok ==> forall i :: 0 <= i < |deltas| ==> theirPermutes[i] == DecodedBits(side.theirKProbe, deltas[i])
    {
      translation := translations;
      theirPermutes := [];
      for i := 0 to |deltas|
        modifies `theirPermutes
        invariant |theirPermutes| == i
        invariant forall k :: 0 <= k < i ==>
          |deltas[k]| == side.theirKProbe.encodingSize && theirPermutes[k] == DecodedBits(side.theirKProbe, deltas[k])
      {
        var permute;
        ok, permute := KProbeVectors.DecodeBits(side.theirKProbe, deltas[i]);
        if !ok { return; }
        theirPermutes := theirPermutes + [permute];
      }
      ok := true;
    }

    /** Keeps the decoded k-probe zero labels and sends both labels of each position under the transferred messages. */
    method InitKProbeInputSend() returns (masked: seq<seq<Pair>>)
      requires side.Valid()
      modifies `theirInputOffsets
      ensures |masked| == |theirInputOffsets| == |side.mine|
      ensures forall b :: 0 <= b < |side.mine| ==>
        masked[b] == side.Masked(b)
          && theirInputOffsets[b] == DecodedBlocks(side.theirKProbe, side.mine[b].kProbeInputs)
    {
      masked, theirInputOffsets := [], [];
      for b := 0 to |side.mine|
        invariant |masked| == |theirInputOffsets| == b
        invariant forall k :: 0 <= k < b ==>
          masked[k] == side.Masked(k)
            && theirInputOffsets[k] == DecodedBlocks(side.theirKProbe, side.mine[k].kProbeInputs)
      {
        assert side.MineValid(side.mine[b]) && side.TheirsValid(side.theirs[b]);
        var decoded := new Block[side.theirKProbe.Rows()](_ => ZERO_BLOCK);
        var ok := DecodeBlocks(side.theirKProbe, side.mine[b].kProbeInputs, decoded);
        theirInputOffsets := theirInputOffsets + [decoded[..]];
        masked := masked + [MaskedLabels(side.theirs[b].sent, side.mine[b].kProbeInputs, side.mine[b].view.offset)];
      }
    }

    /**
      Unmasks the k-probe labels of every circuit and decodes them; false where a commitment does
      not open.
     */
    method InitKProbeInputRecv(masked: seq<seq<Pair>>) returns (ok: bool)
      requires side.Valid() && |masked| == |side.theirs|
      requires forall b :: 0 <= b < |masked| ==> |masked[b]| == side.myKProbe.encodingSize
      modifies `decodedLabels, `inputCorrection
      ensures inputCorrection == DecodedBits(side.myKProbe, side.mine[0].choices)
      ensures ok <==> forall b :: 0 <= b < |masked| ==>
        OpensKProbe(side.s, side.theirs[b].offer.kProbeCommits,
                    Unmasked(masked[b], side.mine[b].choices, side.mine[b].received), side.mine[b].choices)
      ensures ok ==> |decodedLabels| == |masked|
      ensures ok ==> forall b :: 0 <= b < |masked| ==>
        decodedLabels[b] ==
          DecodedBlocks(side.myKProbe, Unmasked(masked[b], side.mine[b].choices, side.mine[b].received))
    {
      hide Side.Valid, Setting.Valid, OpensKProbe, Unmasked, DecodedBlocks, DecodedBits, KProbeMatrix.Valid;
      SideSized(side);
      ok, inputCorrection := KProbeVectors.DecodeBits(side.myKProbe, side.mine[0].choices);
      decodedLabels := [];
      for b := 0 to |masked|
        modifies `decodedLabels
        invariant |decodedLabels| == b
        invariant forall k :: 0 <= k < b ==>
          OpensKProbe(side.s, side.theirs[k].offer.kProbeCommits,
                      Unmasked(masked[k], side.mine[k].choices, side.mine[k].received), side.mine[k].choices)
        invariant forall k :: 0 <= k < b ==>
          decodedLabels[k] ==
            DecodedBlocks(side.myKProbe, Unmasked(masked[k], side.mine[k].choices, side.mine[k].received))
      {
        var decoded;
        ok, decoded := RecoverLabels(side.s, side.myKProbe, side.theirs[b].offer.kProbeCommits, masked[b],
                                     side.mine[b].choices, side.mine[b].received);
        if !ok { return; }
        decodedLabels := decodedLabels + [decoded];
      }
      ok := true;
    }

    /** Hides the input under the first circuit's decoded choices. */
    method CorrectInput(input: seq<bool>) returns (correction: seq<bool>)
      requires |input| == |inputCorrection|
      modifies `inputCorrection
      ensures correction == XorBits(old(inputCorrection), input) == inputCorrection
    {
      inputCorrection := XorBits(inputCorrection, input);
      correction := inputCorrection;
    }

    /**
      What sending needs: one correction per input of the other party, and orders and k-probe labels of that length.
     */
    ghost predicate CanSend()
      reads this
    {
      var n := side.s.InputSize(Other(side.role));
      && |theirInputCorrection| == n && |theirPermutes| == |side.mine| - 1 && |theirInputOffsets| == |side.mine|
      && (forall i :: 0 <= i < |theirPermutes| ==> |theirPermutes[i]| == n)
      && (forall b :: 0 <= b < |theirInputOffsets| ==> |theirInputOffsets[b]| == n)
    }

    /** The corrections of the other party's labels in circuit b, all of them. */
    ghost function Corrections(b: nat): (r: seq<Block>)
      requires side.Valid() && CanSend() && b < |side.mine|
      reads this
      ensures |r| == side.s.InputSize(Other(side.role))
    {
      assert side.MineValid(side.mine[b]);
      Offsets(theirInputOffsets[b], side.TheirLabels(b), side.mine[b].view.offset, theirInputCorrection,
              PermuteAt(theirPermutes, |theirInputCorrection|, b))
    }

    /** The labels of this party's input in circuit b. */
    function OwnActive(input: seq<bool>, b: nat): seq<Block>
      requires side.Valid() && |input| == side.s.InputSize(side.role) && b < |side.mine|
    {
      assert side.MineValid(side.mine[b]);
      ActiveLabels(side.MyLabels(b), input, side.mine[b].view.offset)
    }

    /** The labels of this party's input, for every circuitStep-th circuit. */
    method SendOwnLabels(input: seq<bool>, circuitOffset: nat, circuitStep: nat) returns (own: seq<seq<Block>>)
      requires side.Valid() && |input| == side.s.InputSize(side.role) && circuitStep > 0
      ensures var cs := Strided(circuitOffset, circuitStep, |side.mine|);
              |own| == |cs| && forall m :: 0 <= m < |own| ==> own[m] == OwnActive(input, cs[m])
    {
      SideSized(side);
      hide Side.Valid, ActiveLabels, Side.MyLabels;
      own := [];
      ghost var cs := Strided(circuitOffset, circuitStep, |side.mine|);
      var cirIdx := circuitOffset;
      while cirIdx < |side.mine|
        invariant |own| <= |cs| && Strided(cirIdx, circuitStep, |side.mine|) == cs[|own|..]
        invariant forall m :: 0 <= m < |own| ==> own[m] == OwnActive(input, cs[m])
        decreases |side.mine| - cirIdx
      {
        own := own + [ActiveLabels(side.MyLabels(cirIdx), input, side.mine[cirIdx].view.offset)];
        cirIdx := cirIdx + circuitStep;
      }
    }

    /**
      The corrections of the other party's labels in circuit b, as sent: the buffer holds one block per input of the
      other party, and its write position is set to this party's own count. False where setting it throws.
     */
    method SendCorrections(b: nat) returns (ok: bool, sent: seq<Block>)
      requires side.Valid() && CanSend() && b < |side.mine|
      ensures ok <==> side.s.InputSize(side.role) <= side.s.InputSize(Other(side.role))
      ensures ok ==> sent == Corrections(b)[..side.s.InputSize(side.role)]
    {
      hide Side.Valid, Block.Xor, Setting.Valid, Corrections, Side.TheirLabels;
      SideSized(side);
      ghost var full := Corrections(b);
      var labels, d := side.TheirLabels(b), side.mine[b].view.offset;
      CorrectionsAt(b);
      var buff := new Block[side.s.InputSize(Other(side.role))];
      var writeHead := side.s.InputSize(side.role);
      if writeHead > buff.Length { return false, []; }
      for t := 0 to buff.Length
        invariant forall k :: 0 <= k < t ==> buff[k] == full[k]
      {
        var flip := if b > 0 then theirInputCorrection[t] != theirPermutes[b - 1][t] else theirInputCorrection[t];
        buff[t] := theirInputOffsets[b][t].Xor(labels[t]).Xor(Times(flip, d));
      }
      assert buff[..] == full;
      return true, buff[..writeHead];
    }

    lemma CorrectionsAt(b: nat)
      requires side.Valid() && CanSend() && b < |side.mine| && |side.mine[b].view.inputWires| == side.s.cir.Inputs()
      ensures forall t :: 0 <= t < |Corrections(b)| ==>
        Corrections(b)[t] == theirInputOffsets[b][t].Xor(side.TheirLabels(b)[t]).Xor(
          Times(if b > 0 then theirInputCorrection[t] != theirPermutes[b - 1][t] else theirInputCorrection[t],
                side.mine[b].view.offset))
    {
      hide Block.Xor, Setting.Valid, Side.Valid, Side.TheirLabels;
    }

    /**
      The labels of this party's input, then the corrections for the other's, for every circuitStep-th circuit from
      circuitOffset on. False where the first correction throws.
     */
    method SendCircuitInputs(input: seq<bool>, circuitOffset: nat, circuitStep: nat)
      returns (ok: bool, own: seq<seq<Block>>, offsets: seq<seq<Block>>)
      requires side.Valid() && |input| == side.s.InputSize(side.role) && CanSend() && circuitStep > 0
      ensures var cs := Strided(circuitOffset, circuitStep, |side.mine|);
              && |own| == |cs| && (forall m :: 0 <= m < |own| ==> own[m] == OwnActive(input, cs[m]))
              && (ok <==> cs == [] || side.s.InputSize(side.role) <= side.s.InputSize(Other(side.role)))
              && (ok ==> |offsets| == |cs| && forall m :: 0 <= m < |offsets| ==>
                offsets[m] == Corrections(cs[m])[..side.s.InputSize(side.role)])
    {
      hide Side.Valid, Corrections, CanSend, ActiveLabels, Side.MyLabels;
      SideSized(side);
      own := SendOwnLabels(input, circuitOffset, circuitStep);
      ok, offsets := true, [];
      ghost var cs := Strided(circuitOffset, circuitStep, |side.mine|);
      var cirIdx := circuitOffset;
      while cirIdx < |side.mine|
        invariant |offsets| <= |cs| && Strided(cirIdx, circuitStep, |side.mine|) == cs[|offsets|..]
        invariant |offsets| > 0 ==> side.s.InputSize(side.role) <= side.s.InputSize(Other(side.role))
        invariant forall m :: 0 <= m < |offsets| ==> offsets[m] == Corrections(cs[m])[..side.s.InputSize(side.role)]
        decreases |side.mine| - cirIdx
      {
        var sent;
        ok, sent := SendCorrections(cirIdx);
        if !ok { return; }
        offsets := offsets + [sent];
        cirIdx := cirIdx + circuitStep;
      }
      ok := true;
    }

    /**
      Evaluates the other party's circuit b on the labels received: places them, derives the output
      bits, and adds up the common labels of both parties.
     */
    method EvalCircuit(b: nat, maskSeed: Block, theirOwn: seq<Block>, offsets: seq<Block>, buffer: seq<Block>,
                       ghost d: Block)
      returns (psi: Block, labels: seq<Block>)
      requires side.Valid() && b < |side.theirs| == |outputs| && |buffer| == side.s.cir.wireCount
      requires |theirOwn| == side.s.InputSize(Other(side.role)) && |offsets| == side.s.InputSize(side.role)
      requires b < |decodedLabels| && |decodedLabels[b]| == side.s.InputSize(side.role)
      requires b < |translation| && |translation[b]| == |commonOutput| == |side.s.cir.outputs|
      modifies `outputs
      ensures EvaluatedOn(side.s, side.role, side.theirs[b].offer.tables, maskSeed, d, theirOwn,
                          XorBlocks(decodedLabels[b], offsets), labels)
      ensures outputs == old(outputs)[b := OutputsOf(side.s, side.theirs[b].offer.translation, labels)]
      ensures psi == PsiSum(side.s, labels, outputs[b], translation[b], commonOutput, |commonOutput|)
    {
      hide Evaluated, NonXorCount, OutputsOf, PsiSum, Netlist.Ordered, HashBlock, Block.Xor, FromLanes;
      assert side.TheirsValid(side.theirs[b]);
      var s := side.s;
      SegmentsFit(s, side.role);
      var masks := s.Masks(maskSeed);
      labels := Placed(buffer, s.Start(Other(side.role)), theirOwn);
      labels := Placed(labels, s.Start(side.role), offsets);
      labels := Placed(labels, s.Start(side.role), XorBlocks(decodedLabels[b], offsets));
      ghost var placed := labels;
      PlacedTwice(s, side.role, buffer, theirOwn, offsets, XorBlocks(decodedLabels[b], offsets));
      labels := EvaluateTables(s.pi, s.cir, side.theirs[b].offer.tables, labels, masks, d);
      var bits;
      psi, bits := Combine(s, labels, side.theirs[b].offer.translation, translation[b], commonOutput);
      outputs := outputs[b := bits];
    }

    /** Every label received for the other party's input opens its commitment; false where the original throws. */
    method CheckInputs(labels: seq<seq<Block>>) returns (ok: bool)
      requires side.Valid() && |labels| == |side.theirs| && |theirPermutes| == |side.theirs| - 1
      requires |theirInputCorrection| == side.s.InputSize(Other(side.role))
      requires forall b :: 0 <= b < |labels| ==> |labels[b]| == |theirInputCorrection|
      requires forall i :: 0 <= i < |theirPermutes| ==> |theirPermutes[i]| == |theirInputCorrection|
      ensures ok <==> forall b :: 0 <= b < |labels| ==>
        OpensInput(side.s, side.theirs[b].inputCommits, labels[b], theirInputCorrection,
                   PermuteAt(theirPermutes, |theirInputCorrection|, b))
    {
      var n := |theirInputCorrection|;
      forall b | 0 <= b < |labels|
        ensures side.TheirsValid(side.theirs[b])
      {
      }
      for i := 0 to n
        invariant forall b, k :: 0 <= b < |labels| && 0 <= k < i ==>
          side.s.hashes.block(labels[b][k]) ==
            PickCommit(side.theirs[b].inputCommits[k], PermuteAt(theirPermutes, n, b)[k] != theirInputCorrection[k])
      {
        var phi := theirInputCorrection[i];
        ok := side.s.hashes.block(labels[0][i]) == PickCommit(side.theirs[0].inputCommits[i], phi);
        if !ok {
          assert !PermuteAt(theirPermutes, n, 0)[i];
          return;
        }
        for j := 1 to |labels|
          invariant forall b :: 0 <= b < j ==>
            side.s.hashes.block(labels[b][i]) ==
              PickCommit(side.theirs[b].inputCommits[i], PermuteAt(theirPermutes, n, b)[i] != theirInputCorrection[i])
        {
          var delta := theirPermutes[j - 1][i];
          ok := side.s.hashes.block(labels[j][i]) == PickCommit(side.theirs[j].inputCommits[i], delta != phi);
          if !ok {
            assert PermuteAt(theirPermutes, n, j)[i] == delta;
            return;
          }
        }
      }
      ok := true;
    }

    /** The opened common labels and the translations of circuit b give the committed hashes. */
    method CheckTranslation(b: nat, common: seq<Pair>) returns (ok: bool)
      requires b < |side.theirs| && b < |translation| && |common| == |translation[b]|
      ensures ok <==> side.s.hashes.pairs(XorPairs(common, translation[b])) == side.theirs[b].offer.outputCommit
    {
      var out := [];
      for i := 0 to |common|
        invariant out == XorPairs(common, translation[b])[..i]
      {
        out := out + [(common[i].0.Xor(translation[b][i].0), common[i].1.Xor(translation[b][i].1))];
      }
      assert out == XorPairs(common, translation[b]);
      ok := side.s.hashes.pairs(out) == side.theirs[b].offer.outputCommit;
    }
  }

  /** labels with the given values from position start on. */
  function Placed(labels: seq<Block>, start: nat, values: seq<Block>): (r: seq<Block>)
    requires start + |values| <= |labels|
    ensures |r| == |labels|
    ensures forall i :: 0 <= i < |r| ==> r[i] == if start <= i < start + |values| then values[i - start] else labels[i]
  {
    labels[..start] + values + labels[start + |values|..]
  }

  lemma SegmentsFit(s: Setting, role: Role)
    requires s.Valid()
    ensures s.Start(role) + s.InputSize(role) <= s.cir.Inputs() <= s.cir.wireCount
    ensures s.Start(Other(role)) + s.InputSize(Other(role)) <= s.cir.Inputs()
  {
  }

  /** The evaluator's and the garbler's input labels in wire order. */
  function InputRow<T>(role: Role, own: seq<T>, theirs: seq<T>): (r: seq<T>)
    ensures |r| == |own| + |theirs|
  {
    if role == First then own + theirs else theirs + own
  }

  lemma PlacedTwice(s: Setting, role: Role, buffer: seq<Block>, theirOwn: seq<Block>, offsets: seq<Block>,
                    own: seq<Block>)
    requires s.Valid() && |buffer| == s.cir.wireCount && |own| == |offsets| == s.InputSize(role)
    requires |theirOwn| == s.InputSize(Other(role))
    ensures |own| + |theirOwn| == s.cir.Inputs() <= |buffer|
    ensures s.Start(role) + |own| <= |buffer| && s.Start(Other(role)) + |theirOwn| <= |buffer|
    ensures var p :=
      Placed(Placed(Placed(buffer, s.Start(Other(role)), theirOwn), s.Start(role), offsets), s.Start(role), own);
            forall i :: 0 <= i < s.cir.Inputs() ==> p[i] == InputRow(role, own, theirOwn)[i]
  {
    SegmentsFit(s, role);
    hide Setting.Valid, Placed;
    if role == First {
      PlacedInOrder(buffer, |own|, theirOwn, 0, offsets, own);
    } else {
      PlacedInOrder(buffer, 0, theirOwn, |theirOwn|, offsets, own);
    }
  }

  /** The first values at `other`, then two layers at `start`, side by side. */
  lemma PlacedInOrder(buffer: seq<Block>, other: nat, theirOwn: seq<Block>, start: nat, offsets: seq<Block>,
                      own: seq<Block>)
    requires |own| == |offsets| && |own| + |theirOwn| <= |buffer|
    requires (other == |own| && start == 0) || (other == 0 && start == |theirOwn|)
    ensures var p := Placed(Placed(Placed(buffer, other, theirOwn), start, offsets), start, own);
            forall i :: 0 <= i < |own| + |theirOwn| ==>
              p[i] == if start == 0 && other == |own| then (own + theirOwn)[i] else (theirOwn + own)[i]
  {
    hide Placed;
  }

  /** The labels of every wire, from the input labels given. */
  ghost predicate EvaluatedOn(s: Setting, role: Role, tables: seq<GarbledGate>, maskSeed: Block, d: Block,
                              theirOwn: seq<Block>, own: seq<Block>, labels: seq<Block>)
    requires s.Valid() && |own| + |theirOwn| == s.cir.Inputs()
  {
    && |labels| == s.cir.wireCount >= s.cir.Inputs()
    && Evaluated(SchemeOf(s.pi, d, s.cir, s.Masks(maskSeed)), s.cir, labels, tables, |s.cir.gates|)
    && forall i :: 0 <= i < s.cir.Inputs() ==> labels[i] == InputRow(role, own, theirOwn)[i]
  }

  /** The output bits that the labels and the translation table give. */
  function OutputsOf(s: Setting, table: seq<bool>, labels: seq<Block>): (r: seq<bool>)
    requires s.Valid() && |table| == |s.cir.outputs| && |labels| == s.cir.wireCount
    ensures |r| == |table|
    ensures forall i :: 0 <= i < |r| ==> r[i] == (labels[s.cir.outputs[i]].PermuteBit() != table[i])
  {
    seq(|table|, i requires 0 <= i < |table| => labels[s.cir.outputs[i]].PermuteBit() != table[i])
  }

  /** The xor of the translated output labels and this party's own common labels. */
  function PsiSum(s: Setting, labels: seq<Block>, bits: seq<bool>, translation: seq<Pair>, common: seq<Pair>,
                  n: nat): Block
    requires s.Valid() && |labels| == s.cir.wireCount && |bits| == |translation| == |common| == |s.cir.outputs|
    requires n <= |bits|
  {
    if n == 0 then ZERO_BLOCK
    else PsiSum(s, labels, bits, translation, common, n - 1).Xor(
      s.OutputHash(labels[s.cir.outputs[n - 1]], n - 1, bits[n - 1])
       .Xor(Pick(translation[n - 1], bits[n - 1])).Xor(Pick(common[n - 1], bits[n - 1])))
  }

  /** What each output adds: its hash, its translation value and this party's common label, for its bit. */
  function PsiTerms(s: Setting, labels: seq<Block>, bits: seq<bool>, translation: seq<Pair>,
                    common: seq<Pair>): (r: seq<Block>)
    requires s.Valid() && |labels| == s.cir.wireCount && |bits| == |translation| == |common| == |s.cir.outputs|
    ensures |r| == |bits|
    ensures forall i :: 0 <= i < |r| ==>
      r[i] == s.OutputHash(labels[s.cir.outputs[i]], i, bits[i]).Xor(Pick(translation[i], bits[i]))
               .Xor(Pick(common[i], bits[i]))
  {
    seq(|bits|, i requires 0 <= i < |bits| =>
      s.OutputHash(labels[s.cir.outputs[i]], i, bits[i]).Xor(Pick(translation[i], bits[i]))
       .Xor(Pick(common[i], bits[i])))
  }

  lemma {:induction false} PsiSumIsSum(s: Setting, labels: seq<Block>, bits: seq<bool>, translation: seq<Pair>,
                                       common: seq<Pair>, n: nat)
    requires s.Valid() && |labels| == s.cir.wireCount && |bits| == |translation| == |common| == |s.cir.outputs|
    requires n <= |bits|
    ensures PsiSum(s, labels, bits, translation, common, n) ==
            XorOver(PsiTerms(s, labels, bits, translation, common)[..n])
  {
    hide Block.Xor, XorOver, Setting.OutputHash, Pick, Netlist.Ordered, NonXorCount;
    XorOverPrefix(PsiTerms(s, labels, bits, translation, common), n);
    if n > 0 { PsiSumIsSum(s, labels, bits, translation, common, n - 1); }
  }

  /** The loop over a circuit's outputs. */
  method Combine(s: Setting, labels: seq<Block>, table: seq<bool>, translation: seq<Pair>, common: seq<Pair>)
    returns (psi: Block, bits: seq<bool>)
    requires s.Valid() && |labels| == s.cir.wireCount && |table| == |translation| == |common| == |s.cir.outputs|
    ensures bits == OutputsOf(s, table, labels)
    ensures psi == PsiSum(s, labels, bits, translation, common, |bits|)
    ensures psi == XorOver(PsiTerms(s, labels, bits, translation, common))
  {
    hide HashBlock, Block.Xor, FromLanes, AddLanes, Netlist.Ordered, NonXorCount, XorOver;
    bits := Zeros(|table|);
    psi := ZERO_BLOCK;
    ghost var expected := OutputsOf(s, table, labels);
    var start0, start1 := 2 * s.cir.wireCount, 3 * s.cir.wireCount;
    var tweak0, tweak1 := FromLanes(start0, start0), FromLanes(start1, start1);
    for i := 0 to |table|
      invariant tweak0 == FromLanes(start0 + i, start0) && tweak1 == FromLanes(start1 + i, start1)
      invariant |bits| == |table| && forall k :: 0 <= k < i ==> bits[k] == expected[k]
      invariant psi == PsiSum(s, labels, expected, translation, common, i)
    {
      var wire := labels[s.cir.outputs[i]];
      var hash := (HashBlock(s.pi, wire, tweak0), HashBlock(s.pi, wire, tweak1));
      CountUp(start0 + i, start0);
      CountUp(start1 + i, start1);
      tweak0, tweak1 := AddLanes(tweak0, ONE_BLOCK), AddLanes(tweak1, ONE_BLOCK);
      bits := bits[i := wire.PermuteBit() != table[i]];
      var theirCommonOutput := Pick(hash, bits[i]).Xor(Pick(translation[i], bits[i]));
      psi := psi.Xor(theirCommonOutput.Xor(Pick(common[i], bits[i])));
    }
    assert bits == expected;
    PsiSumIsSum(s, labels, bits, translation, common, |bits|);
    assert PsiTerms(s, labels, bits, translation, common)[..|bits|] ==
      PsiTerms(s, labels, bits, translation, common);
  }

  /** One circuit's k-probe labels, decoded. */
  method RecoverLabels(s: Setting, k: KProbeMatrix, commits: seq<(Digest, Digest)>, masked: seq<Pair>,
                       choices: seq<bool>, received: seq<Block>)
    returns (ok: bool, labels: seq<Block>)
    requires k.Valid() && |commits| == |masked| == |choices| == |received| == k.encodingSize
    ensures ok <==> OpensKProbe(s, commits, Unmasked(masked, choices, received), choices)
    ensures ok ==> labels == DecodedBlocks(k, Unmasked(masked, choices, received))
  {
    ok, labels := UnmaskLabels(s, commits, masked, choices, received);
    if !ok { return; }
    var decoded := new Block[k.Rows()](_ => ZERO_BLOCK);
    ok := DecodeBlocks(k, labels, decoded);
    labels := decoded[..];
  }

  /** One circuit's k-probe labels; false where a commitment does not open. */
  method UnmaskLabels(s: Setting, commits: seq<(Digest, Digest)>, masked: seq<Pair>, choices: seq<bool>,
                      received: seq<Block>)
    returns (ok: bool, labels: seq<Block>)
    requires |commits| == |masked| == |choices| == |received|
    ensures ok <==> OpensKProbe(s, commits, Unmasked(masked, choices, received), choices)
    ensures ok ==> labels == Unmasked(masked, choices, received)
  {
    labels := [];
    for t := 0 to |masked|
      invariant labels == Unmasked(masked, choices, received)[..t]
      invariant forall k :: 0 <= k < t ==> s.hashes.block(labels[k]) == PickCommit(commits[k], choices[k])
    {
      var blk := Pick(masked[t], choices[t]).Xor(received[t]);
      labels := labels + [blk];
      if s.hashes.block(blk) != PickCommit(commits[t], choices[t]) {
        assert Unmasked(masked, choices, received)[t] == blk;
        return false, labels;
      }
    }
    ok := true;
  }
}
