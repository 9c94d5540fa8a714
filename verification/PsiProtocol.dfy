/**
  The synchronous private set intersection between n receiver threads and n sender threads: three
  counted barriers, the messages, and the values they carry, in every interleaving.
 */
module PsiProtocol {
  import opened Barriers
  import opened Blocks
  import opened Wrappers
  import opened XorSums

  // ---------------------------------------------------------------- values

  type Digest = seq<bool>

  /**
    The parties' inputs (their low wordSize bits), the receiver's random choices per input, the two
    transferred messages per input and bit, the pseudo-random function and the commitment hash.
   */
  datatype Config = Config(n: nat, wordSize: nat, xs: seq<seq<bool>>, ys: seq<seq<bool>>, choices: seq<seq<bool>>,
                           messages: (nat, nat, bool) -> Block, prf: (Block, nat) -> Block, commit: Block -> Digest) {

    predicate Valid() {
      && n > 0 && |xs| == |ys| == |choices| == n
      && forall i :: 0 <= i < n ==> |xs[i]| == |ys[i]| == |choices[i]| == wordSize
    }

    /** The xor of the messages for the given bits of the receiver's input r. */
    function Mask(r: nat, bits: seq<bool>, k: nat): Block
      requires k <= |bits|
    {
      if k == 0 then ZERO_BLOCK else Mask(r, bits, k - 1).Xor(messages(r, k - 1, bits[k - 1]))
    }

    /** The messages that the bits select. */
    function MaskTerms(r: nat, bits: seq<bool>): (t: seq<Block>)
      ensures |t| == |bits| && forall b :: 0 <= b < |bits| ==> t[b] == messages(r, b, bits[b])
    {
      seq(|bits|, b requires 0 <= b < |bits| => messages(r, b, bits[b]))
    }

    /** The difference of the two messages for each bit at which the inputs of receiver r and sender s differ. */
    function InputDifferences(r: nat, s: nat): (t: seq<Block>)
      requires Valid() && r < n && s < n
      ensures |t| == wordSize && forall b :: 0 <= b < wordSize ==>
                t[b] == if xs[r][b] != ys[s][b] then messages(r, b, false).Xor(messages(r, b, true)) else ZERO_BLOCK
    {
      seq(wordSize, b requires 0 <= b < wordSize =>
        if xs[r][b] != ys[s][b] then messages(r, b, false).Xor(messages(r, b, true)) else ZERO_BLOCK)
    }

    /** What the receiver sends for input r. */
    function PermuteOf(r: nat): (p: seq<bool>)
      requires Valid() && r < n
      ensures |p| == wordSize
    {
      XorBits(choices[r], xs[r])
    }

    /** The sender's value for its input s under the receiver's input r, from the bits received. */
    function SenderValue(s: nat, r: nat, permute: seq<bool>): Block
      requires Valid() && s < n && |permute| == wordSize
    {
      prf(Mask(r, XorBits(ys[s], permute), wordSize), s)
    }

    /** The receiver's own value for its input r and the sender's index s. */
    function ReceiverValue(r: nat, s: nat): Block
      requires Valid() && r < n
    {
      prf(Mask(r, choices[r], wordSize), s)
    }

    /** Column r of the sender's values, as opened to the receiver's thread r. */
    function OpenedTo(r: nat): (v: seq<Block>)
      requires Valid() && r < n
      ensures |v| == n && forall s :: 0 <= s < n ==> v[s] == SenderValue(s, r, PermuteOf(r))
    {
      seq(n, s requires 0 <= s < n => SenderValue(s, r, PermuteOf(r)))
    }

    /** The commitments of sender thread s, one per receiver input. */
    function CommitsOf(s: nat): (v: seq<Digest>)
      requires Valid() && s < n
      ensures |v| == n && forall r :: 0 <= r < n ==> v[r] == commit(SenderValue(s, r, PermuteOf(r)))
    {
      seq(n, r requires 0 <= r < n => commit(SenderValue(s, r, PermuteOf(r))))
    }
  }

  /** Equal inputs give equal values: the choices cancel out of the bits. */
  lemma EqualInputsMatch(c: Config, r: nat, s: nat)
    requires c.Valid() && r < c.n && s < c.n && c.xs[r] == c.ys[s]
    ensures c.SenderValue(s, r, c.PermuteOf(r)) == c.ReceiverValue(r, s)
  {
    assert XorBits(c.ys[s], c.PermuteOf(r)) == c.choices[r];
  }

  /** A mask sums up the selected messages of all bits, each once. */
  lemma {:induction false} MaskIsSum(c: Config, r: nat, bits: seq<bool>, k: nat)
    requires k <= |bits|
    ensures c.Mask(r, bits, k) == XorOver(c.MaskTerms(r, bits)[..k])
  {
    hide Block.Xor, XorOver;
    XorOverPrefix(c.MaskTerms(r, bits), k);
    if k > 0 { MaskIsSum(c, r, bits, k - 1); }
  }

  /** Flipping one bit changes the mask by the difference of that bit's messages. */
  lemma MaskFlip(c: Config, r: nat, bits: seq<bool>, b: nat, k: nat)
    requires b < k <= |bits|
    ensures c.Mask(r, bits[b := !bits[b]], k) ==
            c.Mask(r, bits, k).Xor(c.messages(r, b, false).Xor(c.messages(r, b, true)))
  {
    hide Block.Xor, Config.Mask, XorOver;
    var flipped, t := bits[b := !bits[b]], c.MaskTerms(r, bits);
    MaskIsSum(c, r, bits, k);
    MaskIsSum(c, r, flipped, k);
    assert c.MaskTerms(r, flipped)[..k] == t[..k][b := c.messages(r, b, !bits[b])];
    XorOverReplace(t[..k], b, c.messages(r, b, !bits[b]));
    XorCancels(c.messages(r, b, false), c.messages(r, b, true));
  }

  /** The two parties' masks agree exactly if the message differences of the bits where the inputs differ cancel out. */
  lemma MasksAgreeIff(c: Config, r: nat, s: nat)
    requires c.Valid() && r < c.n && s < c.n
    ensures c.Mask(r, XorBits(c.ys[s], c.PermuteOf(r)), c.wordSize) == c.Mask(r, c.choices[r], c.wordSize) <==>
            XorOver(c.InputDifferences(r, s)) == ZERO_BLOCK
  {
    hide Block.Xor, Config.Mask, XorOver;
    var mine, theirs := c.choices[r], XorBits(c.ys[s], c.PermuteOf(r));
    var t, u := c.MaskTerms(r, theirs), c.MaskTerms(r, mine);
    MaskIsSum(c, r, mine, c.wordSize);
    MaskIsSum(c, r, theirs, c.wordSize);
    assert t[..c.wordSize] == t && u[..c.wordSize] == u;
    XorOverSum(t, u);
    var sum := seq(|t|, b requires 0 <= b < |t| => t[b].Xor(u[b]));
    forall b | 0 <= b < c.wordSize
      ensures sum[b] == c.InputDifferences(r, s)[b]
    {
      XorZero(u[b]);
      XorCancels(c.messages(r, b, false), c.messages(r, b, true));
    }
    assert sum == c.InputDifferences(r, s);
    XorIsZeroIff(XorOver(t), XorOver(u));
  }

  /** Different blocks have different pseudo-random values under every index. */
  ghost predicate Separates(c: Config) {
    forall a, b, s :: c.prf(a, s) == c.prf(b, s) ==> a == b
  }

  /** If the pseudo-random function separates blocks, values meet exactly where those differences cancel out. */
  lemma ValuesMeetIff(c: Config, r: nat, s: nat)
    requires c.Valid() && Separates(c) && r < c.n && s < c.n
    ensures c.ReceiverValue(r, s) == c.OpenedTo(r)[s] <==> XorOver(c.InputDifferences(r, s)) == ZERO_BLOCK
  {
    hide Config.Mask, XorOver, Config.PermuteOf;
    MasksAgreeIff(c, r, s);
  }

  /** So against an honest sender open says whether they do for some input of the sender. */
  lemma HonestOpenIff(c: Config, r: nat, commits: seq<Digest>)
    requires c.Valid() && Separates(c) && r < c.n && |commits| == c.n
    requires forall s :: 0 <= s < c.n ==> commits[s] == c.commit(c.OpenedTo(r)[s])
    ensures OpenResult(c, r, commits, c.OpenedTo(r), 0) ==
            Some(exists s :: 0 <= s < c.n && XorOver(c.InputDifferences(r, s)) == ZERO_BLOCK)
  {
    hide XorOver, Config.ReceiverValue, Config.OpenedTo, OpenResult;
    HonestOpen(c, r, commits, c.OpenedTo(r), 0);
    forall s: nat | s < c.n
      ensures c.ReceiverValue(r, s) == c.OpenedTo(r)[s] <==> XorOver(c.InputDifferences(r, s)) == ZERO_BLOCK
    {
      ValuesMeetIff(c, r, s);
    }
  }

  /** What open returns: None where it throws, otherwise whether some value matches before any commitment fails. */
  function OpenResult(c: Config, r: nat, commits: seq<Digest>, theirs: seq<Block>, j: nat): Option<bool>
    requires c.Valid() && r < c.n && |commits| == |theirs| == c.n && j <= c.n
    decreases c.n - j
  {
    if j == c.n then Some(false)
    else if c.commit(theirs[j]) != commits[j] then None
    else if c.ReceiverValue(r, j) == theirs[j] then Some(true)
    else OpenResult(c, r, commits, theirs, j + 1)
  }

  /** Against honest openings, open does not throw, and is true exactly if some value from j on matches. */
  lemma {:induction false} HonestOpen(c: Config, r: nat, commits: seq<Digest>, theirs: seq<Block>, j: nat)
    requires c.Valid() && r < c.n && |commits| == |theirs| == c.n && j <= c.n
    requires forall s :: 0 <= s < c.n ==> commits[s] == c.commit(theirs[s])
    ensures OpenResult(c, r, commits, theirs, j).Some?
    ensures OpenResult(c, r, commits, theirs, j).value <==>
      exists s :: j <= s < c.n && c.ReceiverValue(r, s) == theirs[s]
    decreases c.n - j
  {
    if j < c.n { HonestOpen(c, r, commits, theirs, j + 1); }
  }

  /** No value opened for one sender input serves for another, if the pseudo-random function separates indices too. */
  lemma ValuesDiffer(c: Config, r: nat, s: nat, t: nat)
    requires c.Valid() && r < c.n && s < c.n && t < c.n
    requires forall a, b, k, l :: c.prf(a, k) == c.prf(b, l) ==> a == b && k == l
    ensures c.ReceiverValue(r, s) == c.ReceiverValue(r, t) <==> s == t
    ensures c.OpenedTo(r)[s] == c.ReceiverValue(r, t) ==> s == t
  {
  }

  /** Inputs that differ do not cancel out in the messages. */
  ghost predicate InputsSeparated(c: Config)
    requires c.Valid()
  {
    Separates(c) && forall r: nat, s: nat :: r < c.n && s < c.n && c.xs[r] != c.ys[s] ==>
      XorOver(c.InputDifferences(r, s)) != ZERO_BLOCK
  }

  /** Then values meet exactly for equal inputs. */
  lemma ValuesMeetIfEqual(c: Config, r: nat, s: nat)
    requires c.Valid() && InputsSeparated(c) && r < c.n && s < c.n
    ensures c.ReceiverValue(r, s) == c.OpenedTo(r)[s] <==> c.xs[r] == c.ys[s]
  {
    hide XorOver, Config.ReceiverValue, Config.OpenedTo;
    ValuesMeetIff(c, r, s);
    if c.xs[r] == c.ys[s] { XorOverZeros(c.InputDifferences(r, s)); }
  }

  /** The j-th commitment opens and the values do not meet, so that open goes on. */
  predicate GoesOn(c: Config, r: nat, commits: seq<Digest>, theirs: seq<Block>, j: nat)
    requires c.Valid() && r < c.n && |commits| == |theirs| == c.n && j < c.n
  {
    c.commit(theirs[j]) == commits[j] && c.ReceiverValue(r, j) != theirs[j]
  }

  predicate AllGoOn(c: Config, r: nat, commits: seq<Digest>, theirs: seq<Block>, j: nat, k: nat)
    requires c.Valid() && r < c.n && |commits| == |theirs| == c.n && k <= c.n
  {
    forall l: nat :: j <= l < k ==> GoesOn(c, r, commits, theirs, l)
  }

  /**
    Against any sender: the first value that does not open its commitment or that meets decides, throw before match.
   */
  lemma {:induction false} OpenResultIff(c: Config, r: nat, commits: seq<Digest>, theirs: seq<Block>, j: nat)
    requires c.Valid() && r < c.n && |commits| == |theirs| == c.n && j <= c.n
    ensures var o := OpenResult(c, r, commits, theirs, j);
            && (o == Some(false) <==> AllGoOn(c, r, commits, theirs, j, c.n))
            && (o == None <==> exists k: nat :: j <= k < c.n && c.commit(theirs[k]) != commits[k] &&
                                                AllGoOn(c, r, commits, theirs, j, k))
            && (o == Some(true) <==> exists k: nat :: j <= k < c.n && c.commit(theirs[k]) == commits[k] &&
                                       c.ReceiverValue(r, k) == theirs[k] && AllGoOn(c, r, commits, theirs, j, k))
    decreases c.n - j
  {
    hide Config.ReceiverValue;
    if j < c.n {
      OpenResultIff(c, r, commits, theirs, j + 1);
      assert AllGoOn(c, r, commits, theirs, j, j);
      if GoesOn(c, r, commits, theirs, j) {
        forall k: nat | j < k <= c.n
          ensures AllGoOn(c, r, commits, theirs, j, k) <==> AllGoOn(c, r, commits, theirs, j + 1, k)
        {
        }
      }
    }
  }

  // ---------------------------------------------------------------- the threads

  /** How far a receiver thread is: sent its bits, got the commitments, decremented, passed the set, opened. */
  datatype RPlace = RStart | RSent | RGot | RArrived | RReady | RDone(result: Option<bool>)

  /** How far a sender thread is: stored the bits, decremented, passed the set, committed, the same again, opened. */
  datatype SPlace = SStart | SStored | SArrived | SReady | SCommitted | SArrivedAgain | SReadyAgain | SDone

  function RRank(p: RPlace): nat {
    match p case RStart => 0 case RSent => 1 case RGot => 2 case RArrived => 3 case RReady => 4 case RDone(_) => 5
  }

  function SRank(p: SPlace): nat {
    match p case SStart => 0 case SStored => 1 case SArrived => 2 case SReady => 3 case SCommitted => 4
            case SArrivedAgain => 5 case SReadyAgain => 6 case SDone => 7
  }

  /**
    Shared state. Entry i of a message list is thread i's channel; unset entries of the stored
    tables are None, and `fault` records a read of one.
   */
  datatype State = State(rs: seq<RPlace>, ss: seq<SPlace>, inputs: Barrier, values: Barrier, commitsIn: Barrier,
                         permutes: seq<Option<seq<bool>>>, columns: seq<Option<seq<Block>>>,
                         commits: seq<Option<seq<Digest>>>, toSender: seq<Option<seq<bool>>>,
                         toReceiver: seq<Option<seq<Digest>>>, openings: seq<Option<seq<Block>>>, fault: bool)

  function Unset<T>(n: nat): (r: seq<Option<T>>)
    ensures |r| == n && forall i :: 0 <= i < n ==> r[i] == None
  {
    seq(n, _ => None)
  }

  function Init(n: nat): State {
    State(seq(n, _ => RStart), seq(n, _ => SStart), NewBarrier(n), NewBarrier(n), NewBarrier(n),
          Unset(n), Unset(n), Unset(n), Unset(n), Unset(n), Unset(n), false)
  }

  datatype Step = RSend(i: nat) | RReceive(i: nat) | RArrive(i: nat) | RSet(i: nat) | ROpen(i: nat)
                | SReceive(i: nat) | SArrive(i: nat) | SSet(i: nat) | SCommit(i: nat)
                | SArriveAgain(i: nat) | SSetAgain(i: nat) | SOpen(i: nat)

  predicate Sized(c: Config, s: State) {
    && |s.rs| == |s.ss| == |s.permutes| == |s.columns| == |s.commits| == |s.toSender| == |s.toReceiver| ==
       |s.openings| == c.n
    && (forall i :: 0 <= i < c.n && s.permutes[i].Some? ==> |s.permutes[i].value| == c.wordSize)
    && (forall i :: 0 <= i < c.n && s.toSender[i].Some? ==> |s.toSender[i].value| == c.wordSize)
    && (forall i :: 0 <= i < c.n && s.columns[i].Some? ==> |s.columns[i].value| == c.n)
    && (forall i :: 0 <= i < c.n && s.commits[i].Some? ==> |s.commits[i].value| == c.n)
    && (forall i :: 0 <= i < c.n && s.toReceiver[i].Some? ==> |s.toReceiver[i].value| == c.n)
    && (forall i :: 0 <= i < c.n && s.openings[i].Some? ==> |s.openings[i].value| == c.n)
  }

  predicate Enabled(c: Config, s: State, step: Step)
    requires Sized(c, s)
  {
    step.i < c.n &&
    match step
    case RSend(i) => s.rs[i] == RStart
    case RReceive(i) => s.rs[i] == RSent && s.toReceiver[i].Some?
    case RArrive(i) => s.rs[i] == RGot
    case RSet(i) => s.rs[i] == RArrived
    case ROpen(i) => s.rs[i] == RReady && Open(s.commitsIn) && s.openings[i].Some?
    case SReceive(i) => s.ss[i] == SStart && s.toSender[i].Some?
    case SArrive(i) => s.ss[i] == SStored
    case SSet(i) => s.ss[i] == SArrived
    case SCommit(i) => s.ss[i] == SReady && Open(s.inputs)
    case SArriveAgain(i) => s.ss[i] == SCommitted
    case SSetAgain(i) => s.ss[i] == SArrivedAgain
    case SOpen(i) => s.ss[i] == SReadyAgain && Open(s.values)
  }

  predicate AllSet<T>(table: seq<Option<T>>) {
    forall i :: 0 <= i < |table| ==> table[i].Some?
  }

  /** The sender's column s, from the stored bits. */
  function ColumnFrom(c: Config, s: State, i: nat): (v: seq<Block>)
    requires c.Valid() && Sized(c, s) && i < c.n && AllSet(s.permutes)
    ensures |v| == c.n
  {
    seq(c.n, r requires 0 <= r < c.n => c.SenderValue(i, r, s.permutes[r].value))
  }

  function CommitAll(c: Config, v: seq<Block>): (r: seq<Digest>)
    ensures |r| == |v| && forall k :: 0 <= k < |v| ==> r[k] == c.commit(v[k])
  {
    seq(|v|, k requires 0 <= k < |v| => c.commit(v[k]))
  }

  /** Entry i of every table row. */
  function Across<T>(table: seq<Option<seq<T>>>, i: nat): (r: seq<T>)
    requires AllSet(table) && forall k :: 0 <= k < |table| ==> i < |table[k].value|
    ensures |r| == |table| && forall k :: 0 <= k < |r| ==> r[k] == table[k].value[i]
  {
    seq(|table|, k requires 0 <= k < |table| => table[k].value[i])
  }

  function Apply(c: Config, s: State, step: Step): State
    requires c.Valid() && Sized(c, s) && Enabled(c, s, step)
  {
    match step
    case RSend(i) => s.(rs := s.rs[i := RSent], toSender := s.toSender[i := Some(c.PermuteOf(i))])
    case RReceive(i) => s.(rs := s.rs[i := RGot], commits := s.commits[i := s.toReceiver[i]])
    case RArrive(i) => s.(rs := s.rs[i := RArrived], commitsIn := Arrive(s.commitsIn, i))
    case RSet(i) => s.(rs := s.rs[i := RReady], commitsIn := SetIfLast(s.commitsIn, i))
    case ROpen(i) =>
      if !AllSet(s.commits) then s.(fault := true)
      else s.(rs := s.rs[i := RDone(OpenResult(c, i, Across(s.commits, i), s.openings[i].value, 0))])
    case SReceive(i) => s.(ss := s.ss[i := SStored], permutes := s.permutes[i := s.toSender[i]])
    case SArrive(i) => s.(ss := s.ss[i := SArrived], inputs := Arrive(s.inputs, i))
    case SSet(i) => s.(ss := s.ss[i := SReady], inputs := SetIfLast(s.inputs, i))
    case SCommit(i) =>
      if !AllSet(s.permutes) then s.(fault := true)
      else s.(ss := s.ss[i := SCommitted], columns := s.columns[i := Some(ColumnFrom(c, s, i))],
              toReceiver := s.toReceiver[i := Some(CommitAll(c, ColumnFrom(c, s, i)))])
    case SArriveAgain(i) => s.(ss := s.ss[i := SArrivedAgain], values := Arrive(s.values, i))
    case SSetAgain(i) => s.(ss := s.ss[i := SReadyAgain], values := SetIfLast(s.values, i))
    case SOpen(i) =>
      if !AllSet(s.columns) then s.(fault := true)
      else s.(ss := s.ss[i := SDone], openings := s.openings[i := Some(Across(s.columns, i))])
  }

  /** Column i of the honest sender's values. */
  ghost function Column(c: Config, i: nat): (v: seq<Block>)
    requires c.Valid() && i < c.n
    ensures |v| == c.n && forall r :: 0 <= r < c.n ==> v[r] == c.SenderValue(i, r, c.PermuteOf(r))
  {
    seq(c.n, r requires 0 <= r < c.n => c.SenderValue(i, r, c.PermuteOf(r)))
  }

  /** Some sender value for thread r is the receiver's own. */
  ghost predicate Matches(c: Config, r: nat)
    requires c.Valid() && r < c.n
  {
    exists s :: 0 <= s < c.n && c.ReceiverValue(r, s) == c.OpenedTo(r)[s]
  }

  /** Every table entry of thread i is unset until the thread that writes it has, and then has its one value. */
  ghost predicate ThreadOk(c: Config, s: State, i: nat)
    requires c.Valid() && Sized(c, s) && i < c.n
  {
    && s.toSender[i] == (if RRank(s.rs[i]) >= 1 then Some(c.PermuteOf(i)) else None)
    && s.permutes[i] == (if SRank(s.ss[i]) >= 1 then Some(c.PermuteOf(i)) else None)
    && s.columns[i] == (if SRank(s.ss[i]) >= 4 then Some(Column(c, i)) else None)
    && s.toReceiver[i] == (if SRank(s.ss[i]) >= 4 then Some(c.CommitsOf(i)) else None)
    && s.commits[i] == (if RRank(s.rs[i]) >= 2 then Some(c.CommitsOf(i)) else None)
    && s.openings[i] == (if SRank(s.ss[i]) >= 7 then Some(c.OpenedTo(i)) else None)
    && (s.rs[i].RDone? ==> s.rs[i].result == Some(Matches(c, i)))
    && (i in s.inputs.arrived <==> SRank(s.ss[i]) >= 2) && (i in s.inputs.passedSet <==> SRank(s.ss[i]) >= 3)
    && (i in s.values.arrived <==> SRank(s.ss[i]) >= 5) && (i in s.values.passedSet <==> SRank(s.ss[i]) >= 6)
    && (i in s.commitsIn.arrived <==> RRank(s.rs[i]) >= 3) && (i in s.commitsIn.passedSet <==> RRank(s.rs[i]) >= 4)
  }

  ghost predicate Inv(c: Config, s: State) {
    && c.Valid() && Sized(c, s) && !s.fault
    && BarrierOk(s.inputs, c.n) && BarrierOk(s.values, c.n) && BarrierOk(s.commitsIn, c.n)
    && forall i: nat :: i < c.n ==> ThreadOk(c, s, i)
  }

  lemma InitInv(c: Config)
    requires c.Valid()
    ensures Inv(c, Init(c.n))
  {
  }

  /** The state of the other threads is not affected by thread i's step. */
  lemma OthersKept(c: Config, s: State, step: Step, k: nat)
    requires Inv(c, s) && Enabled(c, s, step) && k < c.n && k != step.i
    requires Sized(c, Apply(c, s, step))
    ensures ThreadOk(c, Apply(c, s, step), k)
  {
    hide Config.PermuteOf, Config.CommitsOf, Config.OpenedTo, Column, Matches, OpenResult, BarrierOk, Open, ColumnFrom,
         CommitAll, Across;
    assert ThreadOk(c, s, k);
  }

  /** After the first barrier every stored entry is the receiver's, so the column is the honest one. */
  lemma ColumnIsHonest(c: Config, s: State, i: nat)
    requires Inv(c, s) && i < c.n && Open(s.inputs)
    ensures AllSet(s.permutes) && ColumnFrom(c, s, i) == Column(c, i) && CommitAll(c, Column(c, i)) == c.CommitsOf(i)
  {
    OpenMeansAll(s.inputs, c.n);
    forall k | 0 <= k < c.n
      ensures s.permutes[k] == Some(c.PermuteOf(k))
    {
      assert ThreadOk(c, s, k);
    }
    hide Config.SenderValue, Config.PermuteOf;
    assert ColumnFrom(c, s, i) == Column(c, i);
    assert CommitAll(c, Column(c, i)) == c.CommitsOf(i);
  }

  lemma OpeningIsHonest(c: Config, s: State, i: nat)
    requires Inv(c, s) && i < c.n && Open(s.values)
    ensures AllSet(s.columns) && Across(s.columns, i) == c.OpenedTo(i)
  {
    OpenMeansAll(s.values, c.n);
    forall k | 0 <= k < c.n
      ensures s.columns[k] == Some(Column(c, k))
    {
      assert ThreadOk(c, s, k);
    }
    hide Config.SenderValue, Config.PermuteOf;
    assert Across(s.columns, i) == c.OpenedTo(i);
  }

  lemma ResultIsHonest(c: Config, s: State, i: nat)
    requires Inv(c, s) && i < c.n && Open(s.commitsIn) && s.openings[i].Some?
    ensures AllSet(s.commits) && OpenResult(c, i, Across(s.commits, i), s.openings[i].value, 0) == Some(Matches(c, i))
  {
    OpenMeansAll(s.commitsIn, c.n);
    assert ThreadOk(c, s, i);
    forall k | 0 <= k < c.n
      ensures s.commits[k] == Some(c.CommitsOf(k))
    {
      assert ThreadOk(c, s, k);
    }
    hide Config.SenderValue, Config.PermuteOf, Config.ReceiverValue;
    HonestOpen(c, i, Across(s.commits, i), c.OpenedTo(i), 0);
  }

  /** The thread's own entries, and the barriers, after its step. */
  ghost predicate Kept(c: Config, t: State, i: nat)
    requires c.Valid() && i < c.n
  {
    && Sized(c, t) && ThreadOk(c, t, i) && !t.fault
    && BarrierOk(t.inputs, c.n) && BarrierOk(t.values, c.n) && BarrierOk(t.commitsIn, c.n)
  }

  lemma ReceiverStepKept(c: Config, s: State, step: Step)
    requires Inv(c, s) && Enabled(c, s, step) && (step.RSend? || step.RReceive? || step.RArrive? || step.RSet?)
    ensures Kept(c, Apply(c, s, step), step.i)
  {
    hide Config.PermuteOf, Config.CommitsOf, Config.OpenedTo, Column, Matches, OpenResult, BarrierOk;
    assert ThreadOk(c, s, step.i);
    match step
    case RArrive(i) => ArriveOk(s.commitsIn, c.n, i);
    case RSet(i) => SetOk(s.commitsIn, c.n, i);
    case _ =>
  }

  lemma FirstSenderStepKept(c: Config, s: State, step: Step)
    requires Inv(c, s) && Enabled(c, s, step) && (step.SReceive? || step.SArrive? || step.SSet?)
    ensures Kept(c, Apply(c, s, step), step.i)
  {
    hide Config.PermuteOf, Config.CommitsOf, Config.OpenedTo, Column, Matches, OpenResult, BarrierOk;
    assert ThreadOk(c, s, step.i);
    match step
    case SArrive(i) => ArriveOk(s.inputs, c.n, i);
    case SSet(i) => SetOk(s.inputs, c.n, i);
    case _ =>
  }

  lemma SecondSenderStepKept(c: Config, s: State, step: Step)
    requires Inv(c, s) && Enabled(c, s, step) && (step.SArriveAgain? || step.SSetAgain?)
    ensures Kept(c, Apply(c, s, step), step.i)
  {
    hide Config.PermuteOf, Config.CommitsOf, Config.OpenedTo, Column, Matches, OpenResult, BarrierOk;
    assert ThreadOk(c, s, step.i);
    if step.SArriveAgain? {
      ArriveOk(s.values, c.n, step.i);
    } else {
      SetOk(s.values, c.n, step.i);
    }
  }

  lemma OpeningStepKept(c: Config, s: State, step: Step)
    requires Inv(c, s) && Enabled(c, s, step) && (step.ROpen? || step.SOpen?)
    ensures Kept(c, Apply(c, s, step), step.i)
  {
    hide Config.PermuteOf, Config.CommitsOf, Config.OpenedTo, Column, Matches, OpenResult, BarrierOk, Across;
    assert ThreadOk(c, s, step.i);
    if step.ROpen? {
      ResultIsHonest(c, s, step.i);
    } else {
      OpeningIsHonest(c, s, step.i);
    }
  }

  lemma CommitStepKept(c: Config, s: State, step: Step)
    requires Inv(c, s) && Enabled(c, s, step) && step.SCommit?
    ensures Kept(c, Apply(c, s, step), step.i)
  {
    hide Config.PermuteOf, Config.CommitsOf, Config.OpenedTo, Column, Matches, BarrierOk, ColumnFrom, CommitAll;
    assert ThreadOk(c, s, step.i);
    ColumnIsHonest(c, s, step.i);
  }

  lemma OwnKept(c: Config, s: State, step: Step)
    requires Inv(c, s) && Enabled(c, s, step)
    ensures Kept(c, Apply(c, s, step), step.i)
  {
    hide Inv, Kept, Apply;
    if step.ROpen? || step.SOpen? {
      OpeningStepKept(c, s, step);
    } else if step.SCommit? {
      CommitStepKept(c, s, step);
    } else if step.RSend? || step.RReceive? || step.RArrive? || step.RSet? {
      ReceiverStepKept(c, s, step);
    } else if step.SReceive? || step.SArrive? || step.SSet? {
      FirstSenderStepKept(c, s, step);
    } else {
      SecondSenderStepKept(c, s, step);
    }
  }

  /** Every step of any thread keeps the invariant. */
  lemma StepInv(c: Config, s: State, step: Step)
    requires Inv(c, s) && Enabled(c, s, step)
    ensures Inv(c, Apply(c, s, step))
  {
    OwnKept(c, s, step);
    forall k: nat | k < c.n
      ensures ThreadOk(c, Apply(c, s, step), k)
    {
      if k != step.i { OthersKept(c, s, step, k); }
    }
  }

  /** Every step takes its own thread one place further and leaves the others where they are, so runs are finite. */
  lemma StepAdvances(c: Config, s: State, step: Step, k: nat)
    requires Inv(c, s) && Enabled(c, s, step) && k < c.n
    ensures Sized(c, Apply(c, s, step))
    ensures var t := Apply(c, s, step);
            RRank(t.rs[k]) + SRank(t.ss[k]) == RRank(s.rs[k]) + SRank(s.ss[k]) + if k == step.i then 1 else 0
  {
    hide ThreadOk, BarrierOk, OpenResult, Across, ColumnFrom, CommitAll, Open, Arrive, SetIfLast, Config.PermuteOf;
    OwnKept(c, s, step);
    assert Kept(c, Apply(c, s, step), step.i);
  }

  ghost predicate IsRun(c: Config, steps: seq<Step>, states: seq<State>)
    requires c.Valid()
  {
    && |states| == |steps| + 1 && states[0] == Init(c.n)
    && forall i :: 0 <= i < |steps| ==>
         Sized(c, states[i]) && Enabled(c, states[i], steps[i]) && states[i + 1] == Apply(c, states[i], steps[i])
  }

  lemma {:induction false} RunInv(c: Config, steps: seq<Step>, states: seq<State>, k: nat)
    requires c.Valid() && IsRun(c, steps, states) && k < |states|
    ensures Inv(c, states[k])
  {
    hide Inv, Apply;
    if k == 0 {
      InitInv(c);
    } else {
      RunInv(c, steps, states, k - 1);
      StepInv(c, states[k - 1], steps[k - 1]);
    }
  }

  /**
    In every interleaving: no entry is read before it is written, no promise is set twice, an open
    that has finished did not throw, and it returned true if the receiver's input equals one of the sender's.
   */
  lemma EveryRunIsSafe(c: Config, steps: seq<Step>, states: seq<State>, k: nat, r: nat)
    requires c.Valid() && IsRun(c, steps, states) && k < |states| && r < c.n
    ensures !states[k].fault && |states[k].rs| == c.n
    ensures states[k].inputs.promised <= 1 && states[k].values.promised <= 1 && states[k].commitsIn.promised <= 1
    ensures states[k].rs[r].RDone? ==> states[k].rs[r].result == Some(Matches(c, r))
    ensures states[k].rs[r].RDone? && (exists s :: 0 <= s < c.n && c.xs[r] == c.ys[s]) ==>
      states[k].rs[r].result == Some(true)
  {
    RunInv(c, steps, states, k);
    assert ThreadOk(c, states[k], r);
    if s :| 0 <= s < c.n && c.xs[r] == c.ys[s] {
      EqualInputsMatch(c, r, s);
      assert c.OpenedTo(r)[s] == c.ReceiverValue(r, s);
    }
  }

  /**
    With separated inputs, in every interleaving an open that has finished says whether the input is one of the
    sender's.
   */
  lemma ResultTellsEquality(c: Config, steps: seq<Step>, states: seq<State>, k: nat, r: nat)
    requires c.Valid() && InputsSeparated(c) && IsRun(c, steps, states) && k < |states| && r < c.n
    ensures |states[k].rs| == c.n
    ensures states[k].rs[r].RDone? ==> states[k].rs[r].result == Some(exists s :: 0 <= s < c.n && c.xs[r] == c.ys[s])
  {
    hide InputsSeparated, Config.ReceiverValue, Config.OpenedTo, IsRun;
    EveryRunIsSafe(c, steps, states, k, r);
    forall s: nat | s < c.n
      ensures c.ReceiverValue(r, s) == c.OpenedTo(r)[s] <==> c.xs[r] == c.ys[s]
    {
      ValuesMeetIfEqual(c, r, s);
    }
  }

  predicate AllDone(s: State) {
    (forall i :: 0 <= i < |s.rs| ==> s.rs[i].RDone?) && (forall i :: 0 <= i < |s.ss| ==> s.ss[i].SDone?)
  }

  /** All threads stand before their open, or are past it. */
  predicate AllReady(s: State) {
    && (forall i :: 0 <= i < |s.rs| ==> s.rs[i] == RReady || s.rs[i].RDone?)
    && (forall i :: 0 <= i < |s.ss| ==> s.ss[i] == SReadyAgain || s.ss[i] == SDone)
  }

  /** No thread is stuck for ever before it opens. */
  lemma UntilReady(c: Config, s: State) returns (step: Step)
    requires Inv(c, s) && !AllReady(s)
    ensures Enabled(c, s, step) && !step.ROpen? && !step.SOpen?
  {
    forall i: nat | i < c.n
      ensures ThreadOk(c, s, i)
    {
    }
    if i :| 0 <= i < c.n && s.rs[i] == RStart { return RSend(i); }
    if i :| 0 <= i < c.n && s.rs[i] == RGot { return RArrive(i); }
    if i :| 0 <= i < c.n && s.rs[i] == RArrived { return RSet(i); }
    if i :| 0 <= i < c.n && s.ss[i] == SStart { assert ThreadOk(c, s, i); return SReceive(i); }
    if i :| 0 <= i < c.n && s.ss[i] == SStored { return SArrive(i); }
    if i :| 0 <= i < c.n && s.ss[i] == SArrived { return SSet(i); }
    if i :| 0 <= i < c.n && s.ss[i] == SCommitted { return SArriveAgain(i); }
    if i :| 0 <= i < c.n && s.ss[i] == SArrivedAgain { return SSetAgain(i); }
    step := Waiting(c, s);
  }

  /** The cases where all the threads that are not ready stand before a message or the first barrier. */
  lemma Waiting(c: Config, s: State) returns (step: Step)
    requires Inv(c, s) && !AllReady(s)
    requires forall i :: 0 <= i < c.n ==> s.rs[i] == RSent || s.rs[i] == RReady || s.rs[i].RDone?
    requires forall i :: 0 <= i < c.n ==> s.ss[i] == SReady || s.ss[i] == SReadyAgain || s.ss[i] == SDone
    ensures Enabled(c, s, step) && !step.ROpen? && !step.SOpen?
  {
    forall i: nat | i < c.n
      ensures i in s.inputs.arrived
    {
      assert ThreadOk(c, s, i);
    }
    AllArrived(s.inputs, c.n);
    if i :| 0 <= i < c.n && s.ss[i] == SReady { return SCommit(i); }
    var i :| 0 <= i < c.n && s.rs[i] == RSent;
    assert ThreadOk(c, s, i);
    step := RReceive(i);
  }

  /** Once all threads are ready, each promise has been set exactly once. */
  lemma ReadyMeansSet(c: Config, s: State)
    requires Inv(c, s) && AllReady(s)
    ensures s.inputs.promised == s.values.promised == s.commitsIn.promised == 1
  {
    forall i: nat | i < c.n
      ensures i in s.inputs.passedSet && i in s.values.passedSet && i in s.commitsIn.passedSet
    {
      assert ThreadOk(c, s, i);
    }
    SetByAll(s.inputs, c.n);
    SetByAll(s.values, c.n);
    SetByAll(s.commitsIn, c.n);
  }

  /** No thread that has more to do is stuck for ever: some step is always enabled until all have finished. */
  lemma NoDeadlock(c: Config, s: State) returns (step: Step)
    requires Inv(c, s) && !AllDone(s)
    ensures Enabled(c, s, step)
  {
    if !AllReady(s) {
      step := UntilReady(c, s);
      return;
    }
    ReadyMeansSet(c, s);
    if i :| 0 <= i < c.n && s.ss[i] == SReadyAgain { return SOpen(i); }
    var i :| 0 <= i < c.n && !s.rs[i].RDone?;
    assert ThreadOk(c, s, i);
    step := ROpen(i);
  }

  /** Once all threads have finished, each promise has been set exactly once. */
  lemma PromisesSetOnce(c: Config, s: State)
    requires Inv(c, s) && AllDone(s)
    ensures s.inputs.promised == s.values.promised == s.commitsIn.promised == 1
  {
    ReadyMeansSet(c, s);
  }
}
