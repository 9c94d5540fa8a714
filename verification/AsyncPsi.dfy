/**
  The asynchronous private set intersection: the sender commits to every share beforehand, both parties' threads
  announce their masked inputs, and each side goes on when all of its own have announced and received.
 */
module AsyncPsi {
  import opened Counting
  import opened Barriers
  import opened Blocks
  import opened Wrappers
  import opened XorSums

  type Digest = seq<bool>

  datatype Side = Receiver | Sender

  function Peer(side: Side): Side {
    if side == Receiver then Sender else Receiver
  }

  /**
    The inputs' low bits, the receiver's random choices, the sender's random permutes, the two transferred messages per
    receiver input and bit, the pseudo-random function and the commitment hash.
   */
  datatype Config = Config(n: nat, wordSize: nat, xs: seq<seq<bool>>, ys: seq<seq<bool>>, choices: seq<seq<bool>>,
                           permutes: seq<seq<bool>>, messages: (nat, nat, bool) -> Block, prf: (Block, nat) -> Block,
                           commit: Block -> Digest) {

    predicate Valid() {
      && n > 0 && wordSize > 0 && |xs| == |ys| == |choices| == |permutes| == n
      && forall i :: 0 <= i < n ==> |xs[i]| == |ys[i]| == |choices[i]| == |permutes[i]| == wordSize
    }

    /** What thread i of a side announces: its random bits plus its input. */
    function Announced(side: Side, i: nat): (bits: seq<bool>)
      requires Valid() && i < n
      ensures |bits| == wordSize
    {
      if side == Receiver then XorBits(choices[i], xs[i]) else XorBits(permutes[i], ys[i])
    }

    /** mShares[i][j][b][e]: one of the two shares of the sender's input j for the receiver's input i. */
    function Share(i: nat, j: nat, b: nat, e: bool): Block
      requires Valid() && j < n && b < wordSize
    {
      prf(messages(i, b, permutes[j][b] != e), j)
    }

    /** The share that the announced bits select. */
    function Selected(i: nat, j: nat, b: nat): Block
      requires Valid() && i < n && j < n && b < wordSize
    {
      Share(i, j, b, Announced(Receiver, i)[b] != Announced(Sender, j)[b])
    }

    /** The shares opened to the receiver's thread i. */
    function OpeningOf(i: nat): (o: seq<seq<Block>>)
      requires Valid() && i < n
      ensures |o| == n
      ensures forall j :: 0 <= j < n ==> |o[j]| == wordSize && forall b :: 0 <= b < wordSize ==>
        o[j][b] == Selected(i, j, b)
    {
      seq(n, j requires 0 <= j < n => seq(wordSize, b requires 0 <= b < wordSize => Selected(i, j, b)))
    }

    /** The sum of the receiver's own transferred messages. */
    function OwnSum(i: nat, j: nat, k: nat): Block
      requires Valid() && i < n && k <= wordSize
    {
      if k == 0 then ZERO_BLOCK else OwnSum(i, j, k - 1).Xor(prf(messages(i, k - 1, choices[i][k - 1]), j))
    }
  }

  function Sum(shares: seq<Block>, k: nat): Block
    requires k <= |shares|
  {
    if k == 0 then ZERO_BLOCK else Sum(shares, k - 1).Xor(shares[k - 1])
  }

  /** A sum takes every share once. */
  lemma {:induction false} SumIsXorOver(shares: seq<Block>, k: nat)
    requires k <= |shares|
    ensures Sum(shares, k) == XorOver(shares[..k])
  {
    hide Block.Xor, XorOver;
    XorOverPrefix(shares, k);
    if k > 0 { SumIsXorOver(shares, k - 1); }
  }

  /** Another share in place of one changes the sum by their difference. */
  lemma SumReplace(shares: seq<Block>, b: nat, share: Block, k: nat)
    requires b < k <= |shares|
    ensures Sum(shares[b := share], k) == Sum(shares, k).Xor(shares[b].Xor(share))
  {
    hide Block.Xor, Sum, XorOver;
    SumIsXorOver(shares, k);
    SumIsXorOver(shares[b := share], k);
    assert shares[b := share][..k] == shares[..k][b := share];
    XorOverReplace(shares[..k], b, share);
  }

  /** The shares of the receiver's own messages. */
  function OwnShares(c: Config, i: nat, j: nat): (t: seq<Block>)
    requires c.Valid() && i < c.n
    ensures |t| == c.wordSize && forall b :: 0 <= b < c.wordSize ==> t[b] == c.prf(c.messages(i, b, c.choices[i][b]), j)
  {
    seq(c.wordSize, b requires 0 <= b < c.wordSize => c.prf(c.messages(i, b, c.choices[i][b]), j))
  }

  lemma {:induction false} OwnSumIsXorOver(c: Config, i: nat, j: nat, k: nat)
    requires c.Valid() && i < c.n && k <= c.wordSize
    ensures c.OwnSum(i, j, k) == XorOver(OwnShares(c, i, j)[..k])
  {
    hide Block.Xor, XorOver;
    XorOverPrefix(OwnShares(c, i, j), k);
    if k > 0 { OwnSumIsXorOver(c, i, j, k - 1); }
  }

  /** The difference of the two shares for each bit at which the receiver's input i and the sender's j differ. */
  function InputDifferences(c: Config, i: nat, j: nat): (t: seq<Block>)
    requires c.Valid() && i < c.n && j < c.n
    ensures |t| == c.wordSize && forall b :: 0 <= b < c.wordSize ==>
              t[b] == if c.xs[i][b] != c.ys[j][b]
                      then c.prf(c.messages(i, b, false), j).Xor(c.prf(c.messages(i, b, true), j)) else ZERO_BLOCK
  {
    seq(c.wordSize, b requires 0 <= b < c.wordSize =>
      if c.xs[i][b] != c.ys[j][b]
      then c.prf(c.messages(i, b, false), j).Xor(c.prf(c.messages(i, b, true), j)) else ZERO_BLOCK)
  }

  /** At a bit where the inputs agree the opened share is the receiver's own, elsewhere the other one. */
  lemma SelectedShare(c: Config, i: nat, j: nat, b: nat)
    requires c.Valid() && i < c.n && j < c.n && b < c.wordSize
    ensures c.Selected(i, j, b) == c.prf(c.messages(i, b, c.choices[i][b] != (c.xs[i][b] != c.ys[j][b])), j)
  {
  }

  /** The two parties' sums agree exactly if the share differences of the bits where the inputs differ cancel out. */
  lemma SumsAgreeIff(c: Config, i: nat, j: nat)
    requires c.Valid() && i < c.n && j < c.n
    ensures c.OwnSum(i, j, c.wordSize) == Sum(c.OpeningOf(i)[j], c.wordSize) <==>
            XorOver(InputDifferences(c, i, j)) == ZERO_BLOCK
  {
    hide Block.Xor, XorOver, Sum, Config.OwnSum, Config.Selected;
    var w, t, u := c.wordSize, c.OpeningOf(i)[j], OwnShares(c, i, j);
    SumIsXorOver(t, w);
    OwnSumIsXorOver(c, i, j, w);
    assert t[..w] == t && u[..w] == u;
    XorOverSum(t, u);
    var sum := seq(|t|, b requires 0 <= b < |t| => t[b].Xor(u[b]));
    forall b | 0 <= b < w
      ensures sum[b] == InputDifferences(c, i, j)[b]
    {
      SelectedShare(c, i, j, b);
      XorZero(u[b]);
      XorCancels(c.prf(c.messages(i, b, false), j), c.prf(c.messages(i, b, true), j));
    }
    assert sum == InputDifferences(c, i, j);
    XorIsZeroIff(XorOver(t), XorOver(u));
  }

  /** Equal inputs give equal sums: choices and permutes cancel. */
  lemma {:induction false} EqualInputsMatch(c: Config, i: nat, j: nat, k: nat)
    requires c.Valid() && i < c.n && j < c.n && c.xs[i] == c.ys[j] && k <= c.wordSize
    ensures Sum(c.OpeningOf(i)[j], k) == c.OwnSum(i, j, k)
  {
    hide Block.Xor;
    if k > 0 {
      EqualInputsMatch(c, i, j, k - 1);
      var b := k - 1;
      assert (c.permutes[j][b] != (c.Announced(Receiver, i)[b] != c.Announced(Sender, j)[b])) == c.choices[i][b];
    }
  }

  /** The share commitments that the received shares must open. */
  predicate SharesOpen(c: Config, i: nat, j: nat, mine: seq<bool>, theirs: seq<bool>, shares: seq<Block>)
    requires c.Valid() && i < c.n && j < c.n && |mine| == |theirs| == |shares| == c.wordSize
  {
    forall b :: 0 <= b < c.wordSize ==> c.commit(shares[b]) == c.commit(c.Share(i, j, b, mine[b] != theirs[b]))
  }

  /** With injective commitments only the sender's own shares open. */
  lemma SharesOpenIff(c: Config, i: nat, j: nat, mine: seq<bool>, theirs: seq<bool>, shares: seq<Block>)
    requires c.Valid() && i < c.n && j < c.n && |mine| == |theirs| == |shares| == c.wordSize
    requires forall a, b :: c.commit(a) == c.commit(b) ==> a == b
    ensures SharesOpen(c, i, j, mine, theirs, shares) <==>
            forall b: nat :: b < c.wordSize ==> shares[b] == c.Share(i, j, b, mine[b] != theirs[b])
  {
    hide Config.Share;
  }

  /** What open returns from element j on: None where it throws, otherwise whether any sum matches. */
  function OpenResult(c: Config, i: nat, mine: seq<bool>, theirs: seq<seq<bool>>, shares: seq<seq<Block>>,
                      j: nat): Option<bool>
    requires c.Valid() && i < c.n && j <= c.n && |mine| == c.wordSize && |theirs| == |shares| == c.n
    requires forall k :: 0 <= k < c.n ==> |theirs[k]| == |shares[k]| == c.wordSize
    decreases c.n - j
  {
    if j == c.n then Some(false)
    else if !SharesOpen(c, i, j, mine, theirs[j], shares[j]) then None
    else
      match OpenResult(c, i, mine, theirs, shares, j + 1)
      case None => None
      case Some(more) => Some(more || c.OwnSum(i, j, c.wordSize) == Sum(shares[j], c.wordSize))
  }

  /** Against the honest openings open does not throw, and is true exactly if some sum matches. */
  lemma {:induction false} HonestOpen(c: Config, i: nat, theirs: seq<seq<bool>>, j: nat)
    requires c.Valid() && i < c.n && j <= c.n && |theirs| == c.n
    requires forall k :: 0 <= k < c.n ==> theirs[k] == c.Announced(Sender, k) && |theirs[k]| == c.wordSize
    ensures OpenResult(c, i, c.Announced(Receiver, i), theirs, c.OpeningOf(i), j).Some?
    ensures OpenResult(c, i, c.Announced(Receiver, i), theirs, c.OpeningOf(i), j).value <==> MatchesFrom(c, i, j)
    decreases c.n - j
  {
    hide Config.Announced, Config.Share, Config.OwnSum, Sum;
    if j < c.n {
      HonestOpen(c, i, theirs, j + 1);
      assert SharesOpen(c, i, j, c.Announced(Receiver, i), theirs[j], c.OpeningOf(i)[j]);
    }
  }

  /**
    Against any sender: open throws exactly if some share does not open its commitment, and else it compares the sums.
   */
  lemma {:induction false} OpenResultIff(c: Config, i: nat, mine: seq<bool>, theirs: seq<seq<bool>>,
                                         shares: seq<seq<Block>>, j: nat)
    requires c.Valid() && i < c.n && j <= c.n && |mine| == c.wordSize && |theirs| == |shares| == c.n
    requires forall k :: 0 <= k < c.n ==> |theirs[k]| == |shares[k]| == c.wordSize
    ensures var o := OpenResult(c, i, mine, theirs, shares, j);
            && (o.Some? <==> forall k :: j <= k < c.n ==> SharesOpen(c, i, k, mine, theirs[k], shares[k]))
            && (o.Some? ==> (o.value <==> exists k :: j <= k < c.n &&
                                            c.OwnSum(i, k, c.wordSize) == Sum(shares[k], c.wordSize)))
    decreases c.n - j
  {
    hide SharesOpen, Config.OwnSum, Sum;
    if j < c.n { OpenResultIff(c, i, mine, theirs, shares, j + 1); }
  }

  /** Whether some input of the sender meets the receiver's, in the terms of the inputs. */
  lemma MatchesIff(c: Config, i: nat)
    requires c.Valid() && i < c.n
    ensures MatchesFrom(c, i, 0) <==> exists j :: 0 <= j < c.n && XorOver(InputDifferences(c, i, j)) == ZERO_BLOCK
  {
    hide Sum, XorOver, Config.OwnSum, Config.OpeningOf;
    forall j: nat | j < c.n
      ensures c.OwnSum(i, j, c.wordSize) == Sum(c.OpeningOf(i)[j], c.wordSize) <==>
              XorOver(InputDifferences(c, i, j)) == ZERO_BLOCK
    {
      SumsAgreeIff(c, i, j);
    }
  }

  /** One of the sender's inputs from j on has the receiver's sum. */
  ghost predicate MatchesFrom(c: Config, i: nat, j: nat)
    requires c.Valid() && i < c.n
  {
    exists k :: j <= k < c.n && c.OwnSum(i, k, c.wordSize) == Sum(c.OpeningOf(i)[k], c.wordSize)
  }

  // ---------------------------------------------------------------- the threads

  /**
    One party's threads. A thread's place counts its steps: announce, decrement, set the promise if it was last, receive
    the peer's announcement, decrement and set again, and then the party's own. The counter is decremented twice per
    thread, so thread i arrives as i and as n + i.
   */
  datatype Party = Party(places: seq<nat>, announced: seq<Option<seq<bool>>>, received: seq<Option<seq<bool>>>,
                         barrier: Barrier)

  /**
    Entry i of `buffers` is what the sender fills for thread i, and of `openings` its message; `fault` records an early
    read.
   */
  datatype State = State(receiver: Party, sender: Party, buffers: seq<Option<seq<seq<Block>>>>,
                         openings: seq<Option<seq<seq<Block>>>>, results: seq<Option<Option<bool>>>, fault: bool) {
    function Of(side: Side): Party {
      if side == Receiver then receiver else sender
    }

    function With(side: Side, p: Party): State {
      if side == Receiver then this.(receiver := p) else this.(sender := p)
    }
  }

  datatype Step = Step(side: Side, i: nat)

  function Unset<T>(n: nat): (r: seq<Option<T>>)
    ensures |r| == n && forall i :: 0 <= i < n ==> r[i] == None
  {
    seq(n, _ => None)
  }

  function NewParty(n: nat): Party {
    Party(seq(n, _ => 0), Unset(n), Unset(n), NewBarrier(2 * n))
  }

  function Init(n: nat): State {
    State(NewParty(n), NewParty(n), Unset(n), Unset(n), Unset(n), false)
  }

  predicate PartySized(c: Config, p: Party) {
    && |p.places| == |p.announced| == |p.received| == c.n
    && (forall i :: 0 <= i < c.n && p.announced[i].Some? ==> |p.announced[i].value| == c.wordSize)
    && (forall i :: 0 <= i < c.n && p.received[i].Some? ==> |p.received[i].value| == c.wordSize)
  }

  predicate IsOpening(c: Config, o: seq<seq<Block>>) {
    |o| == c.n && forall j :: 0 <= j < c.n ==> |o[j]| == c.wordSize
  }

  predicate Sized(c: Config, s: State) {
    && PartySized(c, s.receiver) && PartySized(c, s.sender) && |s.buffers| == |s.openings| == |s.results| == c.n
    && (forall i :: 0 <= i < c.n && s.buffers[i].Some? ==> IsOpening(c, s.buffers[i].value))
    && (forall i :: 0 <= i < c.n && s.openings[i].Some? ==> IsOpening(c, s.openings[i].value))
  }

  const RECEIVE: nat := 3
  const GO_ON: nat := 6
  const SEND_OPENING: nat := 7

  /** The sender's wait is for the promise alone; the receiver's is skipped when the counter reads zero. */
  predicate Enabled(c: Config, s: State, step: Step)
    requires Sized(c, s)
  {
    step.i < c.n &&
    var place := s.Of(step.side).places[step.i];
    if place == RECEIVE then s.Of(Peer(step.side)).announced[step.i].Some?
    else if place == GO_ON then
      if step.side == Sender then s.sender.barrier.promised > 0
        else Open(s.receiver.barrier) && s.openings[step.i].Some?
    else if place == SEND_OPENING then step.side == Sender
    else place < GO_ON
  }

  predicate AllSet<T>(table: seq<Option<T>>) {
    forall i :: 0 <= i < |table| ==> table[i].Some?
  }

  function Values<T>(table: seq<Option<T>>): (r: seq<T>)
    requires AllSet(table)
    ensures |r| == |table| && forall i :: 0 <= i < |r| ==> r[i] == table[i].value
  {
    seq(|table|, i requires 0 <= i < |table| => table[i].value)
  }

  /** The first six steps of a thread, the same for both parties. */
  function PartyStep(c: Config, side: Side, p: Party, peer: Party, i: nat): Party
    requires c.Valid() && PartySized(c, p) && PartySized(c, peer) && i < c.n && p.places[i] < GO_ON
  {
    var q := p.(places := p.places[i := p.places[i] + 1]);
    match p.places[i]
    case 0 => q.(announced := p.announced[i := Some(c.Announced(side, i))])
    case 1 => q.(barrier := Arrive(p.barrier, i))
    case 2 => q.(barrier := SetIfLast(p.barrier, i))
    case 3 => q.(received := p.received[i := peer.announced[i]])
    case 4 => q.(barrier := Arrive(p.barrier, c.n + i))
    case _ => q.(barrier := SetIfLast(p.barrier, c.n + i))
  }

  /** The sender's buffer for thread i, from the announcements it holds. */
  function Filled(c: Config, announced: seq<seq<bool>>, theirs: seq<bool>, i: nat): (o: seq<seq<Block>>)
    requires c.Valid() && |announced| == c.n && |theirs| == c.wordSize
    requires forall j :: 0 <= j < c.n ==> |announced[j]| == c.wordSize
    ensures IsOpening(c, o)
  {
    seq(c.n, j requires 0 <= j < c.n =>
      seq(c.wordSize, b requires 0 <= b < c.wordSize => c.Share(i, j, b, theirs[b] != announced[j][b])))
  }

  /** The sender's thread fills its buffer; then it opens. */
  function SenderStep(c: Config, s: State, i: nat): State
    requires c.Valid() && Sized(c, s) && i < c.n && GO_ON <= s.sender.places[i] <= SEND_OPENING
  {
    var t := s.(sender := s.sender.(places := s.sender.places[i := s.sender.places[i] + 1]));
    if s.sender.places[i] == SEND_OPENING then t.(openings := s.openings[i := s.buffers[i]])
    else if !AllSet(s.sender.announced) || s.sender.received[i] == None then s.(fault := true)
    else t.(buffers := s.buffers[i := Some(Filled(c, Values(s.sender.announced), s.sender.received[i].value, i))])
  }

  /** The receiver's thread opens. */
  function ReceiverStep(c: Config, s: State, i: nat): State
    requires c.Valid() && Sized(c, s) && i < c.n && s.receiver.places[i] == GO_ON && s.openings[i].Some?
  {
    if !AllSet(s.receiver.received) || s.receiver.announced[i] == None then s.(fault := true)
    else
      var result :=
        OpenResult(c, i, s.receiver.announced[i].value, Values(s.receiver.received), s.openings[i].value, 0);
      s.(receiver := s.receiver.(places := s.receiver.places[i := GO_ON + 1]), results := s.results[i := Some(result)])
  }

  function Apply(c: Config, s: State, step: Step): State
    requires c.Valid() && Sized(c, s) && Enabled(c, s, step)
  {
    if s.Of(step.side).places[step.i] < GO_ON then
      s.With(step.side, PartyStep(c, step.side, s.Of(step.side), s.Of(Peer(step.side)), step.i))
    else if step.side == Sender then SenderStep(c, s, step.i)
    else ReceiverStep(c, s, step.i)
  }

  // ---------------------------------------------------------------- the invariant

  /** Every table entry of thread i has its one value exactly from the step that writes it on. */
  ghost predicate ThreadOk(c: Config, side: Side, p: Party, i: nat)
    requires c.Valid() && PartySized(c, p) && i < c.n
  {
    && p.announced[i] == (if p.places[i] > 0 then Some(c.Announced(side, i)) else None)
    && p.received[i] == (if p.places[i] > 3 then Some(c.Announced(Peer(side), i)) else None)
    && (i in p.barrier.arrived <==> p.places[i] > 1) && (i in p.barrier.passedSet <==> p.places[i] > 2)
    && (c.n + i in p.barrier.arrived <==> p.places[i] > 4) && (c.n + i in p.barrier.passedSet <==> p.places[i] > 5)
    && p.places[i] <= if side == Sender then 8 else 7
  }

  ghost predicate PartyOk(c: Config, side: Side, p: Party)
    requires c.Valid()
  {
    PartySized(c, p) && BarrierOk(p.barrier, 2 * c.n) && forall i: nat :: i < c.n ==> ThreadOk(c, side, p, i)
  }

  ghost predicate OpeningOk(c: Config, s: State, i: nat)
    requires c.Valid() && Sized(c, s) && i < c.n
  {
    && s.buffers[i] == (if s.sender.places[i] > GO_ON then Some(c.OpeningOf(i)) else None)
    && s.openings[i] == (if s.sender.places[i] > SEND_OPENING then Some(c.OpeningOf(i)) else None)
    && s.results[i] == (if s.receiver.places[i] > GO_ON then Some(Some(MatchesFrom(c, i, 0))) else None)
  }

  ghost predicate Inv(c: Config, s: State) {
    && c.Valid() && Sized(c, s) && !s.fault
    && PartyOk(c, Receiver, s.receiver) && PartyOk(c, Sender, s.sender)
    && forall i: nat :: i < c.n ==> OpeningOk(c, s, i)
  }

  lemma InitInv(c: Config)
    requires c.Valid()
    ensures Inv(c, Init(c.n))
  {
    hide MatchesFrom, Config.OpeningOf, Config.Announced;
    PartyStarts(c, Receiver);
    PartyStarts(c, Sender);
  }

  lemma PartyStarts(c: Config, side: Side)
    requires c.Valid()
    ensures PartyOk(c, side, NewParty(c.n))
  {
  }

  lemma OwnArrival(c: Config, side: Side, p: Party, peer: Party, i: nat, a: nat)
    requires c.Valid() && PartySized(c, p) && PartySized(c, peer) && BarrierOk(p.barrier, 2 * c.n) && i < c.n
    requires ThreadOk(c, side, p, i)
    requires (p.places[i] == 1 && a == i) || (p.places[i] == 4 && a == c.n + i)
    ensures var q := PartyStep(c, side, p, peer, i);
      PartySized(c, q) && BarrierOk(q.barrier, 2 * c.n) && ThreadOk(c, side, q, i)
  {
    hide Config.Announced, BarrierOk, Arrive, SetIfLast;
    ArriveOk(p.barrier, 2 * c.n, a);
    ArriveAdds(p.barrier, a);
  }

  lemma OwnPassage(c: Config, side: Side, p: Party, peer: Party, i: nat, a: nat)
    requires c.Valid() && PartySized(c, p) && PartySized(c, peer) && BarrierOk(p.barrier, 2 * c.n) && i < c.n
    requires ThreadOk(c, side, p, i)
    requires (p.places[i] == 2 && a == i) || (p.places[i] == 5 && a == c.n + i)
    ensures var q := PartyStep(c, side, p, peer, i);
      PartySized(c, q) && BarrierOk(q.barrier, 2 * c.n) && ThreadOk(c, side, q, i)
  {
    hide Config.Announced, BarrierOk, Arrive, SetIfLast;
    SetOk(p.barrier, 2 * c.n, a);
    SetAdds(p.barrier, a);
  }

  lemma OwnEntry(c: Config, side: Side, p: Party, peer: Party, i: nat)
    requires c.Valid() && PartySized(c, p) && PartySized(c, peer) && BarrierOk(p.barrier, 2 * c.n) && i < c.n
    requires ThreadOk(c, side, p, i) && ThreadOk(c, Peer(side), peer, i)
    requires p.places[i] == 0 || (p.places[i] == RECEIVE && peer.announced[i].Some?)
    ensures var q := PartyStep(c, side, p, peer, i);
      PartySized(c, q) && BarrierOk(q.barrier, 2 * c.n) && ThreadOk(c, side, q, i)
  {
    hide Config.Announced, BarrierOk, Arrive, SetIfLast;
  }

  /** One of a thread's first six steps keeps its own entries and its barrier. */
  lemma OwnPartyStep(c: Config, side: Side, p: Party, peer: Party, i: nat)
    requires c.Valid() && PartyOk(c, side, p) && PartyOk(c, Peer(side), peer) && i < c.n && p.places[i] < GO_ON
    requires p.places[i] == RECEIVE ==> peer.announced[i].Some?
    ensures var q := PartyStep(c, side, p, peer, i);
      PartySized(c, q) && BarrierOk(q.barrier, 2 * c.n) && ThreadOk(c, side, q, i)
  {
    assert ThreadOk(c, side, p, i) && ThreadOk(c, Peer(side), peer, i);
    PartyIsSized(c, side, p);
    PartyIsSized(c, Peer(side), peer);
    hide ThreadOk, BarrierOk, PartyStep;
    if p.places[i] == 1 {
      OwnArrival(c, side, p, peer, i, i);
    } else if p.places[i] == 4 {
      OwnArrival(c, side, p, peer, i, c.n + i);
    } else if p.places[i] == 2 {
      OwnPassage(c, side, p, peer, i, i);
    } else if p.places[i] == 5 {
      OwnPassage(c, side, p, peer, i, c.n + i);
    } else {
      OwnEntry(c, side, p, peer, i);
    }
  }

  lemma ArriveAdds(b: Barrier, i: nat)
    ensures Arrive(b, i).arrived == b.arrived + {i} && Arrive(b, i).passedSet == b.passedSet
  {
  }

  lemma SetAdds(b: Barrier, i: nat)
    ensures SetIfLast(b, i).arrived == b.arrived && SetIfLast(b, i).passedSet == b.passedSet + {i}
  {
  }

  lemma OtherPartyStep(c: Config, side: Side, p: Party, peer: Party, i: nat, k: nat)
    requires c.Valid() && PartyOk(c, side, p) && PartySized(c, peer) && i < c.n && k < c.n && k != i
    requires p.places[i] < GO_ON
    requires PartySized(c, PartyStep(c, side, p, peer, i))
    ensures ThreadOk(c, side, PartyStep(c, side, p, peer, i), k)
  {
    assert ThreadOk(c, side, p, k);
    hide Config.Announced, BarrierOk;
  }

  lemma PartyStepOk(c: Config, side: Side, p: Party, peer: Party, i: nat)
    requires c.Valid() && PartyOk(c, side, p) && PartyOk(c, Peer(side), peer) && i < c.n && p.places[i] < GO_ON
    requires p.places[i] == RECEIVE ==> peer.announced[i].Some?
    ensures PartyOk(c, side, PartyStep(c, side, p, peer, i))
    ensures PartyStep(c, side, p, peer, i).places == p.places[i := p.places[i] + 1]
  {
    OwnPartyStep(c, side, p, peer, i);
    hide ThreadOk, BarrierOk;
    forall k: nat | k < c.n
      ensures ThreadOk(c, side, PartyStep(c, side, p, peer, i), k)
    {
      if k != i { OtherPartyStep(c, side, p, peer, i, k); }
    }
  }

  /** Past its barrier a party holds every announcement, its own and the peer's. */
  lemma OpenHoldsAll(c: Config, side: Side, p: Party)
    requires c.Valid() && PartyOk(c, side, p) && Open(p.barrier)
    ensures AllSet(p.announced) && AllSet(p.received)
    ensures Values(p.announced) == seq(c.n, i requires 0 <= i < c.n => c.Announced(side, i))
    ensures Values(p.received) == seq(c.n, i requires 0 <= i < c.n => c.Announced(Peer(side), i))
  {
    OpenMeansAll(p.barrier, 2 * c.n);
    forall i: nat | i < c.n
      ensures p.announced[i] == Some(c.Announced(side, i)) && p.received[i] == Some(c.Announced(Peer(side), i))
    {
      assert ThreadOk(c, side, p, i) && c.n + i in p.barrier.arrived;
    }
    hide BarrierOk, Config.Announced;
  }

  /** The sender fills its buffer with exactly the shares that the announcements select. */
  lemma FillIsHonest(c: Config, p: Party, i: nat)
    requires c.Valid() && PartyOk(c, Sender, p) && Open(p.barrier) && i < c.n
    ensures AllSet(p.announced) && p.received[i].Some?
    ensures forall j :: 0 <= j < c.n ==> |Values(p.announced)[j]| == c.wordSize
    ensures Filled(c, Values(p.announced), p.received[i].value, i) == c.OpeningOf(i)
  {
    OpenHoldsAll(c, Sender, p);
    hide PartyOk, Open;
    var o := Filled(c, Values(p.announced), p.received[i].value, i);
    assert Values(p.received)[i] == p.received[i].value;
    forall j | 0 <= j < c.n
      ensures o[j] == c.OpeningOf(i)[j]
    {
    }
  }

  /** What a receiver thread opens is the honest result. */
  lemma ResultIsHonest(c: Config, p: Party, i: nat)
    requires c.Valid() && PartyOk(c, Receiver, p) && Open(p.barrier) && i < c.n
    ensures AllSet(p.received) && p.announced[i].Some? && |p.announced[i].value| == c.wordSize
    ensures |Values(p.received)| == c.n && forall k :: 0 <= k < c.n ==> |Values(p.received)[k]| == c.wordSize
    ensures OpenResult(c, i, p.announced[i].value, Values(p.received), c.OpeningOf(i), 0) == Some(MatchesFrom(c, i, 0))
  {
    OpenHoldsAll(c, Receiver, p);
    hide PartyOk, Open, Config.Announced, Config.OpeningOf, OpenResult, MatchesFrom;
    assert Values(p.announced)[i] == p.announced[i].value;
    HonestOpen(c, i, Values(p.received), 0);
  }

  lemma CommonStepInv(c: Config, s: State, step: Step)
    requires Inv(c, s) && Enabled(c, s, step) && s.Of(step.side).places[step.i] < GO_ON
    ensures Inv(c, Apply(c, s, step))
  {
    PartyStepOk(c, step.side, s.Of(step.side), s.Of(Peer(step.side)), step.i);
    hide PartyOk, PartyStep, MatchesFrom, Config.OpeningOf, IsOpening;
    var t := Apply(c, s, step);
    PartyIsSized(c, step.side, t.Of(step.side));
    forall k: nat | k < c.n
      ensures OpeningOk(c, t, k)
    {
      assert OpeningOk(c, s, k);
    }
  }

  lemma PartyIsSized(c: Config, side: Side, p: Party)
    requires c.Valid() && PartyOk(c, side, p)
    ensures PartySized(c, p)
  {
  }

  /** Moving a thread on past its sixth step changes no entry of its party. */
  lemma PlaceMoves(c: Config, side: Side, p: Party, i: nat)
    requires c.Valid() && PartyOk(c, side, p) && i < c.n && GO_ON <= p.places[i] < if side == Sender then 8 else 7
    ensures PartyOk(c, side, p.(places := p.places[i := p.places[i] + 1]))
  {
    hide BarrierOk, Config.Announced;
    var q := p.(places := p.places[i := p.places[i] + 1]);
    assert ThreadOk(c, side, p, i);
    forall k: nat | k < c.n
      ensures ThreadOk(c, side, q, k)
    {
      assert ThreadOk(c, side, p, k);
    }
  }

  lemma SenderStepInv(c: Config, s: State, i: nat)
    requires Inv(c, s) && i < c.n && GO_ON <= s.sender.places[i] <= SEND_OPENING && Enabled(c, s, Step(Sender, i))
    ensures Inv(c, SenderStep(c, s, i))
  {
    PlaceMoves(c, Sender, s.sender, i);
    if s.sender.places[i] == GO_ON { FillIsHonest(c, s.sender, i); }
    hide MatchesFrom, Config.OpeningOf, Filled, Values, AllSet;
    PartyIsSized(c, Sender, s.sender);
    hide PartyOk;
    var t := SenderStep(c, s, i);
    assert OpeningOk(c, s, i);
    forall k: nat | k < c.n
      ensures OpeningOk(c, t, k)
    {
      assert OpeningOk(c, s, k);
    }
  }

  lemma ReceiverStepInv(c: Config, s: State, i: nat)
    requires Inv(c, s) && i < c.n && s.receiver.places[i] == GO_ON && Enabled(c, s, Step(Receiver, i))
    ensures Inv(c, ReceiverStep(c, s, i))
  {
    assert OpeningOk(c, s, i);
    PlaceMoves(c, Receiver, s.receiver, i);
    ResultIsHonest(c, s.receiver, i);
    hide MatchesFrom, Config.OpeningOf, OpenResult, Values, AllSet;
    PartyIsSized(c, Receiver, s.receiver);
    hide PartyOk;
    var t := ReceiverStep(c, s, i);
    forall k: nat | k < c.n
      ensures OpeningOk(c, t, k)
    {
      assert OpeningOk(c, s, k);
    }
  }

  /** Every step of any thread of either party keeps the invariant. */
  lemma StepInv(c: Config, s: State, step: Step)
    requires Inv(c, s) && Enabled(c, s, step)
    ensures Inv(c, Apply(c, s, step))
  {
    hide Inv, PartyStep, SenderStep, ReceiverStep;
    InvSized(c, s);
    if s.Of(step.side).places[step.i] < GO_ON {
      CommonStepInv(c, s, step);
    } else if step.side == Sender {
      SenderStepInv(c, s, step.i);
    } else {
      ReceiverStepInv(c, s, step.i);
    }
  }

  lemma InvSized(c: Config, s: State)
    requires Inv(c, s)
    ensures c.Valid() && Sized(c, s)
  {
  }

  ghost predicate IsRun(c: Config, steps: seq<Step>, states: seq<State>)
    requires c.Valid()
  {
    && |states| == |steps| + 1 && states[0] == Init(c.n)
    && forall i :: 0 <= i < |steps| ==>
         Sized(c, states[i]) && Enabled(c, states[i], steps[i]) && states[i + 1] == Apply(c, states[i], steps[i])
  }

  lemma {:induction false} RunInv(c: Config, steps: seq<Step>, states: seq<State>, k: nat)
    requires c.Valid() && IsRun(c, steps, states) && k < |states|
    ensures Inv(c, states[k])
  {
    hide Inv, Apply;
    if k == 0 {
      InitInv(c);
    } else {
      RunInv(c, steps, states, k - 1);
      StepInv(c, states[k - 1], steps[k - 1]);
    }
  }

  /**
    In every interleaving: no entry is read before it is written, no promise is set twice, an open that has finished did
    not throw, and it returned true if the receiver's input equals one of the sender's.
   */
  lemma EveryRunIsSafe(c: Config, steps: seq<Step>, states: seq<State>, k: nat, i: nat)
    requires c.Valid() && IsRun(c, steps, states) && k < |states| && i < c.n
    ensures var s := states[k];
            && !s.fault && s.receiver.barrier.promised <= 1 && s.sender.barrier.promised <= 1 && |s.results| == c.n
            && (s.results[i].Some? ==> s.results[i].value == Some(MatchesFrom(c, i, 0)))
            && (s.results[i].Some? && (exists j :: 0 <= j < c.n && c.xs[i] == c.ys[j]) ==>
                s.results[i].value == Some(true))
  {
    RunInv(c, steps, states, k);
    var s := states[k];
    assert OpeningOk(c, s, i);
    if j :| 0 <= j < c.n && c.xs[i] == c.ys[j] {
      EqualInputsMatch(c, i, j, c.wordSize);
      assert MatchesFrom(c, i, 0);
    }
  }

  // ---------------------------------------------------------------- progress

  predicate AllDone(s: State) {
    && (forall i :: 0 <= i < |s.receiver.places| ==> s.receiver.places[i] == 7)
    && (forall i :: 0 <= i < |s.sender.places| ==> s.sender.places[i] == 8)
  }

  lemma PlaceBounds(c: Config, s: State, side: Side, i: nat)
    requires Inv(c, s) && i < c.n
    ensures Sized(c, s) && s.Of(side).places[i] <= if side == Sender then 8 else 7
    ensures s.Of(side).announced[i].Some? <==> s.Of(side).places[i] > 0
    ensures s.openings[i].Some? <==> s.sender.places[i] > SEND_OPENING
  {
    assert ThreadOk(c, side, s.Of(side), i) && OpeningOk(c, s, i);
  }

  /** Once all its threads have passed their second arrival, a party's promise is set, exactly once. */
  lemma AllPassed(c: Config, side: Side, p: Party)
    requires c.Valid() && PartyOk(c, side, p) && forall i :: 0 <= i < c.n ==> p.places[i] >= GO_ON
    ensures p.barrier.promised == 1
  {
    forall i: nat | i < 2 * c.n
      ensures i in p.barrier.passedSet
    {
      assert ThreadOk(c, side, p, if i < c.n then i else i - c.n);
    }
    SetByAll(p.barrier, 2 * c.n);
  }

  /** All threads have arrived twice. */
  lemma LastSteps(c: Config, s: State) returns (step: Step)
    requires Inv(c, s) && !AllDone(s) && Sized(c, s)
    requires forall i :: 0 <= i < c.n ==> s.receiver.places[i] >= GO_ON && s.sender.places[i] >= GO_ON
    ensures Enabled(c, s, step)
  {
    forall i: nat | i < c.n
      ensures s.sender.places[i] <= 8 && s.receiver.places[i] <= 7
      ensures s.openings[i].Some? <==> s.sender.places[i] > SEND_OPENING
    {
      PlaceBounds(c, s, Sender, i);
      PlaceBounds(c, s, Receiver, i);
    }
    assert PartyOk(c, Receiver, s.receiver) && PartyOk(c, Sender, s.sender);
    hide Inv, PartyOk;
    AllPassed(c, Receiver, s.receiver);
    AllPassed(c, Sender, s.sender);
    if i :| 0 <= i < c.n && s.sender.places[i] < 8 { return Step(Sender, i); }
    var i :| 0 <= i < c.n && s.receiver.places[i] != 7;
    step := Step(Receiver, i);
  }

  /** No interleaving gets stuck: until all threads have finished, some step is enabled. */
  lemma NoDeadlock(c: Config, s: State) returns (step: Step)
    requires Inv(c, s) && !AllDone(s)
    ensures Sized(c, s) && Enabled(c, s, step)
  {
    InvSized(c, s);
    forall side: Side, i: nat | i < c.n
      ensures s.Of(side).announced[i].Some? <==> s.Of(side).places[i] > 0
    {
      PlaceBounds(c, s, side, i);
    }
    hide Inv, AllDone;
    if side: Side, i :| 0 <= i < c.n && s.Of(side).places[i] < GO_ON && s.Of(side).places[i] != RECEIVE {
      return Step(side, i);
    }
    if side: Side, i :| 0 <= i < c.n && s.Of(side).places[i] == RECEIVE {
      assert s.Of(Peer(side)).places[i] > 0;
      return Step(side, i);
    }
    forall i | 0 <= i < c.n
      ensures s.receiver.places[i] >= GO_ON && s.sender.places[i] >= GO_ON
    {
      assert s.Of(Receiver).places[i] >= GO_ON && s.Of(Sender).places[i] >= GO_ON;
    }
    step := LastSteps(c, s);
  }

  /** Every step takes its own thread one place further and moves no other, so runs are finite. */
  lemma StepAdvances(c: Config, s: State, step: Step, side: Side, k: nat)
    requires Inv(c, s) && Enabled(c, s, step) && k < c.n
    ensures Sized(c, Apply(c, s, step))
    ensures Apply(c, s, step).Of(side).places[k] ==
      s.Of(side).places[k] + if side == step.side && k == step.i then 1 else 0
  {
    StepInv(c, s, step);
    InvSized(c, Apply(c, s, step));
    PlaceBounds(c, s, step.side, step.i);
    hide PartyOk, OpeningOk, Filled, OpenResult, MatchesFrom, Config.OpeningOf, Config.Announced, Arrive, SetIfLast;
  }

  /**
    Exactly when a sender thread that waits may go on: every thread has received and arrived a second time, and the one
    that arrived last has gone on to set the promise.
   */
  lemma GoesOnIff(c: Config, s: State, i: nat)
    requires Inv(c, s) && i < c.n && s.sender.places[i] == GO_ON
    ensures Enabled(c, s, Step(Sender, i)) <==>
            forall j :: 0 <= j < c.n ==>
              && s.sender.places[j] > RECEIVE + 1
              && (s.sender.barrier.last == Some(c.n + j) ==> s.sender.places[j] >= GO_ON)
  {
    var b := s.sender.barrier;
    forall j: nat | j < c.n
      ensures ThreadOk(c, Sender, s.sender, j)
    {
    }
    if b.promised > 0 {
      OpenMeansAll(b, 2 * c.n);
      forall j: nat | j < c.n
        ensures s.sender.places[j] > RECEIVE + 1 && (b.last == Some(c.n + j) ==> s.sender.places[j] >= GO_ON)
      {
        assert ThreadOk(c, Sender, s.sender, j) && c.n + j in Range(0, 2 * c.n);
      }
    } else {
      if forall j :: 0 <= j < c.n ==> s.sender.places[j] > RECEIVE + 1 { SomeoneHasYetToSet(c, s.sender); }
    }
  }

  /** All have arrived and the promise is not set: the last to arrive has not yet set it. */
  lemma SomeoneHasYetToSet(c: Config, p: Party)
    requires c.Valid() && c.n > 0 && PartyOk(c, Sender, p) && p.barrier.promised == 0
    requires forall j :: 0 <= j < c.n ==> p.places[j] > RECEIVE + 1
    ensures exists j :: 0 <= j < c.n && p.barrier.last == Some(c.n + j) && p.places[j] < GO_ON
  {
    var b := p.barrier;
    forall i: nat | i < 2 * c.n
      ensures i in b.arrived && (i < c.n ==> i in b.passedSet)
    {
      assert ThreadOk(c, Sender, p, if i < c.n then i else i - c.n);
    }
    AllArrived(b, 2 * c.n);
    assert b.last.Some? && b.last.value !in b.passedSet by { assert 0 in b.arrived; }
    var j: nat := b.last.value - c.n;
    assert ThreadOk(c, Sender, p, j) && b.last == Some(c.n + j);
  }

  /**
    A sender thread waits until every thread has announced and received. So a single thread that serves the inputs one
    after the other, receiving for input j only after it has gone on with input i, never goes on.
   */
  lemma SerialUseIsStuck(c: Config, s: State, i: nat, j: nat)
    requires Inv(c, s) && i < c.n && j < c.n && s.sender.places[i] == GO_ON && s.sender.places[j] <= RECEIVE
    ensures !Enabled(c, s, Step(Sender, i))
  {
    assert ThreadOk(c, Sender, s.sender, j);
    assert c.n + j in Range(0, 2 * c.n) && c.n + j !in s.sender.barrier.arrived;
    if s.sender.barrier.promised > 0 { OpenMeansAll(s.sender.barrier, 2 * c.n); }
  }
}
