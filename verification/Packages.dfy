/** A garbled circuit with its commitments: what the garbler sends, and the check when it is opened. */
module Packages {
  import opened Blocks
  import opened Circuits
  import opened Lanes
  import opened HalfGates
  import opened GarbledCircuits
  import opened KProbe
  import KProbeVectors
  import opened XorSums

  type Digest = seq<bool>

  type Pair = (Block, Block)

  /** The hash commitments to one block and to a list of output hash pairs. */
  datatype Commitments = Commitments(block: Block -> Digest, pairs: seq<Pair> -> Digest)

  /** Different values have different commitments. */
  ghost predicate Binding(h: Commitments) {
    && (forall a, b :: h.block(a) == h.block(b) ==> a == b)
    && (forall a, b :: h.pairs(a) == h.pairs(b) ==> a == b)
  }

  datatype Role = First | Second

  function Other(role: Role): Role {
    if role == First then Second else First
  }

  /**
    What both parties know: the fixed-key permutation, the cipher, the circuit, the index blocks, the commitment hash.
   */
  datatype Setting = Setting(pi: Permutation, aes: Cipher, cir: Netlist, indexArray: seq<Block>, hashes: Commitments) {

    ghost predicate Valid() {
      && cir.WellFormed() && |indexArray| >= cir.Inputs()
      && |indexArray| >= 2 * cir.nonXor && |indexArray| >= 2 * |cir.outputs|
    }

    function InputSize(role: Role): nat {
      if role == First then cir.in0 else cir.in1
    }

    /** The first wire of a party's input. */
    function Start(role: Role): nat {
      if role == First then 0 else cir.in0
    }

    function Masks(seed: Block): (r: seq<Block>)
      requires |indexArray| >= 2 * cir.nonXor
      ensures |r| == 2 * cir.nonXor && forall i :: 0 <= i < |r| ==> r[i] == aes(seed, indexArray[i])
    {
      Expand(aes, seed, indexArray, 2 * cir.nonXor)
    }

    /** The hash of the label of output i when it stands for the given bit. */
    function OutputHash(wire: Block, i: nat, bit: bool): Block {
      var tweak := (if bit then 3 else 2) * cir.wireCount;
      HashBlock(pi, wire, FromLanes(tweak + i, tweak))
    }

    function HashedOutputs(wires: seq<Block>, d: Block): (r: seq<Pair>)
      ensures |r| == |wires|
      ensures forall i :: 0 <= i < |r| ==>
        r[i] == (OutputHash(wires[i], i, false), OutputHash(wires[i].Xor(d), i, true))
    {
      seq(|wires|,
          i requires 0 <= i < |wires| => (OutputHash(wires[i], i, false), OutputHash(wires[i].Xor(d), i, true)))
    }

    /** Commitments to both labels of each wire, in an order given by a bit. */
    function LabelCommits(labels: seq<Block>, d: Block, order: seq<bool>): (r: seq<(Digest, Digest)>)
      requires |order| == |labels|
      ensures |r| == |labels|
      ensures forall i :: 0 <= i < |r| ==>
        r[i] == (hashes.block(labels[i].Xor(Times(order[i], d))), hashes.block(labels[i].Xor(Times(!order[i], d))))
    {
      seq(|labels|, i requires 0 <= i < |labels| =>
        (hashes.block(labels[i].Xor(Times(order[i], d))), hashes.block(labels[i].Xor(Times(!order[i], d)))))
    }

    function OwnLabels(v: GarbledView, role: Role): (r: seq<Block>)
      requires |v.inputWires| == cir.Inputs()
      ensures |r| == InputSize(role)
    {
      v.inputWires[Start(role)..Start(role) + InputSize(role)]
    }
  }

  /** What the garbler sends about a circuit before its inputs are known. */
  datatype Offer = Offer(tables: seq<GarbledGate>, translation: seq<bool>, kProbeCommits: seq<(Digest, Digest)>,
                         outputCommit: Digest)

  /** The garbling, labels and commitments that the seeds determine. */
  ghost predicate HonestOffer(s: Setting, theirSize: nat, seed: Block, maskSeed: Block, kProbeSeed: Block,
                              wires: seq<Block>, v: GarbledView, offer: Offer)
    requires s.Valid() && |s.indexArray| >= theirSize
  {
    && HonestGarbling(s.pi, s.aes, s.cir, seed, s.indexArray, s.Masks(maskSeed), wires, v)
    && offer.tables == v.tables && offer.translation == v.translation
    && offer.kProbeCommits ==
       s.LabelCommits(Expand(s.aes, kProbeSeed, s.indexArray, theirSize), v.offset, Zeros(theirSize))
    && offer.outputCommit == s.hashes.pairs(s.HashedOutputs(v.outputWires, v.offset))
  }

  /** The garbler's own input commitments, ordered by what its transfer choices decode to. */
  ghost predicate HonestInputCommits(s: Setting, role: Role, myKProbe: KProbeMatrix, choices: seq<bool>, v: GarbledView,
                                     commits: seq<(Digest, Digest)>) {
    && myKProbe.Valid() && |choices| == myKProbe.encodingSize && myKProbe.Rows() == s.InputSize(role)
    && |v.inputWires| == s.cir.Inputs()
    && commits == s.LabelCommits(s.OwnLabels(v, role), v.offset, DecodedBits(myKProbe, choices))
  }

  /** Commits to both labels of each wire, in the given order. */
  method CommitLabels(s: Setting, labels: seq<Block>, d: Block, order: seq<bool>)
    returns (commits: seq<(Digest, Digest)>)
    requires |order| == |labels|
    ensures commits == s.LabelCommits(labels, d, order)
  {
    hide Block.Xor;
    commits := [];
    for i := 0 to |labels|
      invariant commits == s.LabelCommits(labels, d, order)[..i]
    {
      var label0 := labels[i];
      var label1 := label0.Xor(d);
      XorZero(label0);
      var commit0 := if order[i] then label1 else label0;
      var commit1 := if order[i] then label0 else label1;
      commits := commits + [(s.hashes.block(commit0), s.hashes.block(commit1))];
      assert commits[i] == s.LabelCommits(labels, d, order)[i];
    }
  }

  /** Hashes both labels of each output wire, with the two tweaks counting up. */
  method HashOutputs(s: Setting, wires: seq<Block>, d: Block) returns (hashed: seq<Pair>)
    ensures hashed == s.HashedOutputs(wires, d)
  {
    hide HashBlock, Block.Xor, FromLanes, AddLanes;
    hashed := [];
    var start0, start1 := 2 * s.cir.wireCount, 3 * s.cir.wireCount;
    var tweak0, tweak1 := FromLanes(start0, start0), FromLanes(start1, start1);
    for i := 0 to |wires|
      invariant tweak0 == FromLanes(start0 + i, start0) && tweak1 == FromLanes(start1 + i, start1)
      invariant hashed == s.HashedOutputs(wires, d)[..i]
    {
      var h0, h1 := HashBlock(s.pi, wires[i], tweak0), HashBlock(s.pi, wires[i].Xor(d), tweak1);
      hashed := hashed + [(h0, h1)];
      CountUp(start0 + i, start0);
      CountUp(start1 + i, start1);
      tweak0, tweak1 := AddLanes(tweak0, ONE_BLOCK), AddLanes(tweak1, ONE_BLOCK);
    }
  }

  class CircuitPackage {
    const circuit: HalfGtGarbledCircuit
    var circuitSeed: Block
    var adaptiveSecureMaskSeed: Block
    var kProbeWireSeed: Block
    var kProbeInputs: seq<Block>
    var choices: seq<bool>

    constructor (circuit: HalfGtGarbledCircuit)
      ensures this.circuit == circuit
    {
      this.circuit := circuit;
      circuitSeed, adaptiveSecureMaskSeed, kProbeWireSeed := ZERO_BLOCK, ZERO_BLOCK, ZERO_BLOCK;
      kProbeInputs, choices := [], [];
    }

    /** Garbles from fresh seeds and commits to the k-probe labels and the hashed outputs. */
    method Init(s: Setting, seed: Block, maskSeed: Block, kProbeSeed: Block, theirKProbe: KProbeMatrix,
                wireBuff: array<Block>)
      returns (offer: Offer)
      requires s.Valid() && |s.indexArray| >= theirKProbe.encodingSize && wireBuff.Length >= s.cir.wireCount
      modifies this, circuit, wireBuff
      ensures circuitSeed == seed && adaptiveSecureMaskSeed == maskSeed && kProbeWireSeed == kProbeSeed
      ensures kProbeInputs == Expand(s.aes, kProbeSeed, s.indexArray, theirKProbe.encodingSize)
      ensures HonestOffer(s, theirKProbe.encodingSize, seed, maskSeed, kProbeSeed, wireBuff[..],
                          circuit.View().(tables := offer.tables), offer)
    {
      circuitSeed, adaptiveSecureMaskSeed, kProbeWireSeed := seed, maskSeed, kProbeSeed;
      var tables, translation :=
        circuit.GarbleSend(s.pi, s.aes, s.cir, seed, wireBuff, s.indexArray, s.Masks(maskSeed));
      hide HonestGarbling;
      kProbeInputs := Expand(s.aes, kProbeSeed, s.indexArray, theirKProbe.encodingSize);
      var kProbeCommits := CommitLabels(s, kProbeInputs, circuit.globalOffset, Zeros(|kProbeInputs|));
      var hashed := HashOutputs(s, circuit.outputWires, circuit.globalOffset);
      offer := Offer(tables, translation, kProbeCommits, s.hashes.pairs(hashed));
    }

    /** Takes its transfer choices and commits to the garbler's own input labels in their decoded order. */
    method InitOT(s: Setting, role: Role, myKProbe: KProbeMatrix, choiceBits: seq<bool>, firstOTIdx: nat)
      returns (commits: seq<(Digest, Digest)>, nextOTIdx: nat)
      requires myKProbe.Valid() && firstOTIdx + myKProbe.encodingSize <= |choiceBits|
      requires myKProbe.Rows() == s.InputSize(role)
      requires |circuit.inputWires| == s.cir.Inputs()
      modifies `choices
      ensures nextOTIdx == firstOTIdx + myKProbe.encodingSize && choices == choiceBits[firstOTIdx..nextOTIdx]
      ensures HonestInputCommits(s, role, myKProbe, choices, circuit.View(), commits)
    {
      choices := choiceBits[firstOTIdx..firstOTIdx + myKProbe.encodingSize];
      nextOTIdx := firstOTIdx + myKProbe.encodingSize;
      var ok, permuteBits := KProbeVectors.DecodeBits(myKProbe, choices);
      commits := CommitLabels(s, s.OwnLabels(circuit.View(), role), circuit.globalOffset, permuteBits);
    }
  }

  /** The xor of the transferred messages that the choices select. */
  function ChosenSum(sent: seq<Pair>, choices: seq<bool>, n: nat): Block
    requires n <= |sent| && n <= |choices|
  {
    if n == 0 then ZERO_BLOCK
    else ChosenSum(sent, choices, n - 1).Xor(if choices[n - 1] then sent[n - 1].1 else sent[n - 1].0)
  }

  /** The chosen message of each transfer. */
  function ChosenMessages(sent: seq<Pair>, choices: seq<bool>): (r: seq<Block>)
    requires |sent| == |choices|
    ensures |r| == |sent| && forall t :: 0 <= t < |r| ==> r[t] == if choices[t] then sent[t].1 else sent[t].0
  {
    seq(|sent|, t requires 0 <= t < |sent| => if choices[t] then sent[t].1 else sent[t].0)
  }

  /** The sum takes the chosen message of every transfer once. */
  lemma {:induction false} ChosenSumIsSum(sent: seq<Pair>, choices: seq<bool>, n: nat)
    requires |sent| == |choices| && n <= |sent|
    ensures ChosenSum(sent, choices, n) == XorOver(ChosenMessages(sent, choices)[..n])
  {
    hide Block.Xor, XorOver;
    XorOverPrefix(ChosenMessages(sent, choices), n);
    if n > 0 { ChosenSumIsSum(sent, choices, n - 1); }
  }

  /** One other choice changes it by the difference of that transfer's messages. */
  lemma ChosenSumFlip(sent: seq<Pair>, choices: seq<bool>, t: nat)
    requires |sent| == |choices| && t < |sent|
    ensures ChosenSum(sent, choices[t := !choices[t]], |sent|) ==
            ChosenSum(sent, choices, |sent|).Xor(sent[t].0.Xor(sent[t].1))
  {
    hide Block.Xor, ChosenSum, XorOver;
    var m, other := ChosenMessages(sent, choices), if choices[t] then sent[t].0 else sent[t].1;
    ChosenSumIsSum(sent, choices, |sent|);
    ChosenSumIsSum(sent, choices[t := !choices[t]], |sent|);
    assert m[..|sent|] == m;
    assert ChosenMessages(sent, choices[t := !choices[t]])[..|sent|] == m[t := other];
    XorOverReplace(m, t, other);
    XorCancels(sent[t].0, sent[t].1);
  }

  /** The commitments received match the labels, in order; false where the original throws. */
  method CheckLabels(s: Setting, labels: seq<Block>, d: Block, order: seq<bool>, commits: seq<(Digest, Digest)>)
    returns (ok: bool)
    requires |order| == |labels| == |commits|
    ensures ok <==> commits == s.LabelCommits(labels, d, order)
  {
    hide Block.Xor;
    for i := 0 to |labels|
      invariant commits[..i] == s.LabelCommits(labels, d, order)[..i]
    {
      var label0 := labels[i];
      var label1 := label0.Xor(d);
      XorZero(label0);
      var expected := s.LabelCommits(labels, d, order)[i];
      assert expected.0 == s.hashes.block(if order[i] then label1 else label0);
      if s.hashes.block(if order[i] then label1 else label0) != commits[i].0 { return false; }
      if s.hashes.block(if order[i] then label0 else label1) != commits[i].1 { return false; }
    }
    ok := true;
  }

  class CommCircuitPackage {
    const circuit: HalfGtGarbledCircuit
    var outputCommit: Digest
    var theirInputCommits: seq<(Digest, Digest)>
    var myKProbeInputCommit: seq<(Digest, Digest)>

    constructor (circuit: HalfGtGarbledCircuit)
      ensures this.circuit == circuit
    {
      this.circuit := circuit;
      outputCommit, theirInputCommits, myKProbeInputCommit := [], [], [];
    }

    /** What was received about the circuit. */
    function Received(): Offer
      reads this, circuit
    {
      Offer(circuit.gates, circuit.translationTable, myKProbeInputCommit, outputCommit)
    }

    /**
      Re-garbles from the opened seeds and recomputes every commitment. Accepts exactly the offers
      and input commitments that honest garbling makes from these seeds and choices, and adds the
      messages the choices select to the running sum.
     */
    method Open(s: Setting, role: Role, theirKProbe: KProbeMatrix, myKProbe: KProbeMatrix, seed: Block,
                kProbeSeed: Block, maskSeed: Block, choices: seq<bool>, sent: seq<Pair>, sum: Block)
      returns (ok: bool, newSum: Block, ghost wires: seq<Block>, ghost v: GarbledView)
      requires s.Valid() && |s.indexArray| >= myKProbe.encodingSize && theirKProbe.Valid()
      requires |circuit.gates| == s.cir.nonXor && |circuit.translationTable| == |s.cir.outputs|
      requires |myKProbeInputCommit| == myKProbe.encodingSize
      requires |choices| == |sent| == theirKProbe.encodingSize
      requires theirKProbe.Rows() == s.InputSize(Other(role)) == |theirInputCommits|
      modifies circuit
      ensures Received() == old(Received()) && theirInputCommits == old(theirInputCommits)
      ensures ok ==> HonestOffer(s, myKProbe.encodingSize, seed, maskSeed, kProbeSeed, wires, v, Received())
      ensures ok ==> HonestInputCommits(s, Other(role), theirKProbe, choices, v, theirInputCommits)
      ensures ok ==> newSum == sum.Xor(ChosenSum(sent, choices, |sent|))
      ensures !ok ==> forall w: seq<Block>, u: GarbledView ::
                !(HonestOffer(s, myKProbe.encodingSize, seed, maskSeed, kProbeSeed, w, u, Received()) &&
                  HonestInputCommits(s, Other(role), theirKProbe, choices, u, theirInputCommits))
    {
      hide HonestGarbling, ChosenSum;
      newSum := sum;
      ok, wires := circuit.Validate(s.pi, s.aes, s.cir, seed, s.indexArray, s.Masks(maskSeed));
      v := circuit.View();
      if !ok { return; }
      GarblingIsDetermined(s, seed, maskSeed, wires, v);
      var kProbeInputs := Expand(s.aes, kProbeSeed, s.indexArray, myKProbe.encodingSize);
      ok := CheckLabels(s, kProbeInputs, circuit.globalOffset, Zeros(|kProbeInputs|), myKProbeInputCommit);
      if !ok { return; }
      var hashed := HashOutputs(s, circuit.outputWires, circuit.globalOffset);
      ok := outputCommit == s.hashes.pairs(hashed);
      if !ok { return; }
      newSum := AddChosen(sent, choices, sum);
      var decoded, permuteBits := KProbeVectors.DecodeBits(theirKProbe, choices);
      HonestInputSize(s, seed, maskSeed, wires, v);
      ok := CheckLabels(s, s.OwnLabels(circuit.View(), Other(role)), circuit.globalOffset, permuteBits,
                        theirInputCommits);
    }

    /** The loop that adds up the messages selected by the choices. */
    method AddChosen(sent: seq<Pair>, choices: seq<bool>, sum: Block) returns (newSum: Block)
      requires |sent| == |choices|
      ensures newSum == sum.Xor(ChosenSum(sent, choices, |sent|))
    {
      hide Block.Xor;
      newSum := sum;
      XorZero(sum);
      for i := 0 to |sent|
        invariant newSum == sum.Xor(ChosenSum(sent, choices, i))
      {
        XorAssociates(sum, ChosenSum(sent, choices, i), if choices[i] then sent[i].1 else sent[i].0);
        newSum := newSum.Xor(if choices[i] then sent[i].1 else sent[i].0);
      }
    }
  }

  lemma HonestInputSize(s: Setting, seed: Block, maskSeed: Block, wires: seq<Block>, v: GarbledView)
    requires s.Valid() && HonestGarbling(s.pi, s.aes, s.cir, seed, s.indexArray, s.Masks(maskSeed), wires, v)
    ensures |v.inputWires| == s.cir.Inputs() && |v.outputWires| == |s.cir.outputs|
  {
  }

  /** Only one view is an honest garbling from given seeds. */
  lemma GarblingIsDetermined(s: Setting, seed: Block, maskSeed: Block, wires: seq<Block>, v: GarbledView)
    requires s.Valid() && HonestGarbling(s.pi, s.aes, s.cir, seed, s.indexArray, s.Masks(maskSeed), wires, v)
    ensures forall w, u :: HonestGarbling(s.pi, s.aes, s.cir, seed, s.indexArray, s.Masks(maskSeed), w, u) ==> u == v
  {
    hide HonestGarbling;
    forall w, u | HonestGarbling(s.pi, s.aes, s.cir, seed, s.indexArray, s.Masks(maskSeed), w, u)
      ensures u == v
    {
      HonestGarblingIsUnique(s.pi, s.aes, s.cir, seed, s.indexArray, s.Masks(maskSeed), wires, v, w, u);
    }
  }
}
