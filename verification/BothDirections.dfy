/**
  A bucket's online phase with both set intersections at once: each party receives in one and sends in the other, and
  between committing and opening stands the check of the output translation. A party opens its output labels once it
  holds what the other party commits to in both intersections, and it opens as a sender only when all its own threads
  have checked the labels that the other party has opened.
 */
module BothDirections {
  import opened Barriers
  import opened Blocks
  import opened Wrappers
  import Slots = SlotProtocol
  import Psi = PsiProtocol
  import Promises = OutputPromises

  datatype Party = First | Second

  function Other(x: Party): Party {
    if x == First then Second else First
  }

  /**
    What one party sees: the intersection in which it receives, with its slots and its output promise; whether it has
    opened its output labels and has been handed the other party's; and the counter of translations still to be checked.
   */
  datatype Half = Half(run: Promises.State, labelsOut: bool, labelsIn: bool, checks: Barrier)

  datatype State = State(first: Half, second: Half) {
    function Of(x: Party): Half {
      if x == First then first else second
    }

    function With(x: Party, h: Half): State {
      if x == First then this.(first := h) else this.(second := h)
    }
  }

  /** The intersections in which the first and the second party receive. */
  datatype Config = Config(first: Promises.Config, second: Promises.Config) {
    function Of(x: Party): Promises.Config {
      if x == First then first else second
    }

    ghost predicate Valid() {
      && first.Valid() && second.Valid() && first.mine == second.theirs && first.theirs == second.mine
      && first.psi.wordSize == second.psi.wordSize
    }

    ghost predicate Honest(agreed: Block)
      requires Valid()
    {
      first.Honest(agreed) && second.Honest(agreed)
    }

    function Size(): nat {
      first.psi.n
    }
  }

  /** Steps of party x: those of the threads, and the label seed's sending, arrival, and each thread's check of it. */
  datatype Step =
    | Slot(x: Party, slot: Slots.Step)
    | Intersect(x: Party, step: Psi.Step)
    | Report(x: Party, i: nat)
    | Settle(x: Party, i: nat)
    | OpenLabels(x: Party)
    | TakeLabels(x: Party)
    | Check(x: Party, i: nat)
    | SetChecked(x: Party, i: nat)

  function Init(n: nat): State {
    var h := Half(Promises.Init(n), false, false, NewBarrier(n));
    State(h, h)
  }

  /** Both halves have the same slots, each from its own side. */
  predicate Sized(c: Config, s: State) {
    && Promises.Sized(c.first, s.first.run) && Promises.Sized(c.second, s.second.run)
    && s.first.run.mine == s.second.run.theirs && s.first.run.theirs == s.second.run.mine
  }

  /** The step of x's intersection that this is, if it is one. */
  function Within(step: Step): Option<Promises.Step> {
    match step
    case Slot(_, st) => Some(Promises.Mine(st))
    case Intersect(_, st) => Some(Promises.Intersect(st))
    case Report(_, i) => Some(Promises.Report(i))
    case Settle(_, i) => Some(Promises.Settle(i))
    case _ => None
  }

  /** A receiver's open follows its own check; a sender's waits for its party's promise that all checks are done. */
  predicate MayOpen(s: State, x: Party, st: Psi.Step) {
    && (st.ROpen? ==> st.i in s.Of(x).checks.passedSet)
    && (st.SOpen? ==> s.Of(Other(x)).checks.promised > 0)
  }

  ghost predicate Enabled(c: Config, s: State, step: Step)
    requires c.Valid() && Sized(c, s)
  {
    var x, h, peer := step.x, s.Of(step.x), s.Of(Other(step.x));
    match step
    case Slot(_, st) => Promises.Enabled(c.Of(x), h.run, Promises.Mine(st))
    case Intersect(_, st) => Promises.Enabled(c.Of(x), h.run, Promises.Intersect(st)) && MayOpen(s, x, st)
    case Report(_, i) => Promises.Enabled(c.Of(x), h.run, Promises.Report(i))
    case Settle(_, i) => Promises.Enabled(c.Of(x), h.run, Promises.Settle(i))
    case OpenLabels(_) => !h.labelsOut && peer.run.psi.inputs.promised > 0 && h.run.psi.commitsIn.promised > 0
    case TakeLabels(_) => !h.labelsIn && peer.labelsOut
    case Check(_, i) => i < c.Size() && h.labelsIn && h.run.psi.rs[i] == Psi.RReady && i !in h.checks.arrived
    case SetChecked(_, i) => i in h.checks.arrived && i !in h.checks.passedSet
  }

  function Apply(c: Config, s: State, step: Step): State
    requires c.Valid() && Sized(c, s) && Enabled(c, s, step)
  {
    var x, h := step.x, s.Of(step.x);
    match step
    case OpenLabels(_) => s.With(x, h.(labelsOut := true))
    case TakeLabels(_) => s.With(x, h.(labelsIn := true))
    case Check(_, i) => s.With(x, h.(checks := Arrive(h.checks, i)))
    case SetChecked(_, i) => s.With(x, h.(checks := SetIfLast(h.checks, i)))
    case _ => Moved(s, x, Promises.Apply(c.Of(x), h.run, Within(step).value))
  }

  /** Party x's half moves to r, and the other half sees x's slots there. */
  function Moved(s: State, x: Party, r: Promises.State): State {
    var peer := s.Of(Other(x));
    s.With(x, s.Of(x).(run := r)).With(Other(x), peer.(run := peer.run.(theirs := r.mine)))
  }

  ghost predicate Fresh(c: Config, s: State, step: Step, agreed: Block)
    requires c.Valid()
  {
    step.Slot? ==> Promises.Fresh(c.Of(step.x), s.Of(step.x).run, Promises.Mine(step.slot), agreed)
  }

  // ---------------------------------------------------------------- the invariant

  /**
    Labels are opened after the other party's commitments of both intersections; a translation is checked after they
    have arrived; and an open, in either intersection, follows the checks it waits for.
   */
  ghost predicate WaitsOk(n: nat, h: Half, peer: Half)
    requires |h.run.psi.rs| == |peer.run.psi.ss| == |h.run.ends| == n
  {
    && BarrierOk(h.checks, n)
    && (h.labelsOut ==> peer.run.psi.inputs.promised > 0 && h.run.psi.commitsIn.promised > 0)
    && (h.labelsIn ==> peer.labelsOut)
    && (forall i :: i in h.checks.arrived ==> h.labelsIn && i < n && Psi.RRank(h.run.psi.rs[i]) >= 4)
    && (forall i: nat :: i < n && h.run.psi.rs[i].RDone? ==> i in h.checks.passedSet)
    && (forall i: nat :: i < n && peer.run.psi.ss[i] == Psi.SDone ==> h.checks.promised > 0)
    && (forall i: nat :: i < n && h.run.ends[i] != Promises.Pending ==> h.run.psi.rs[i].RDone?)
  }

  ghost predicate Inv(c: Config, s: State, agreed: Block) {
    && c.Valid() && c.Honest(agreed) && Sized(c, s)
    && Promises.Inv(c.first, s.first.run, agreed) && Promises.Inv(c.second, s.second.run, agreed)
    && WaitsOk(c.Size(), s.first, s.second) && WaitsOk(c.Size(), s.second, s.first)
  }

  lemma InitInv(c: Config, agreed: Block)
    requires c.Valid() && c.Honest(agreed)
    ensures Inv(c, Init(c.Size()), agreed)
  {
    Promises.InitInv(c.first, agreed);
    Promises.InitInv(c.second, agreed);
  }

  /** Both halves alike. */
  lemma HalvesOk(c: Config, s: State, agreed: Block, x: Party)
    requires Inv(c, s, agreed)
    ensures c.Valid() && Sized(c, s) && c.Of(x).psi.n == c.Size() && Promises.Inv(c.Of(x), s.Of(x).run, agreed)
    ensures |s.Of(x).run.psi.rs| == |s.Of(x).run.psi.ss| == |s.Of(Other(x)).run.psi.ss| == |s.Of(x).run.ends| ==
      c.Size()
    ensures WaitsOk(c.Size(), s.Of(x), s.Of(Other(x)))
    ensures Psi.Inv(c.Of(x).psi, s.Of(x).run.psi)
  {
    hide Promises.Bound, Promises.SlotsOk, Promises.EndsOk, Psi.Inv, WaitsOk;
  }

  lemma InvFromHalves(c: Config, s: State, agreed: Block, x: Party)
    requires c.Valid() && c.Honest(agreed) && Sized(c, s)
    requires Promises.Inv(c.Of(x), s.Of(x).run, agreed) && Promises.Inv(c.Of(Other(x)), s.Of(Other(x)).run, agreed)
    requires WaitsOk(c.Size(), s.Of(x), s.Of(Other(x))) && WaitsOk(c.Size(), s.Of(Other(x)), s.Of(x))
    ensures Inv(c, s, agreed)
  {
    hide Promises.Inv, WaitsOk;
  }

  // ---------------------------------------------------------------- every step keeps the invariant

  /** Slots and reports leave the waits alone. */
  lemma WaitsCarry(n: nat, h: Half, peer: Half, h2: Half, peer2: Half)
    requires |h.run.psi.rs| == |peer.run.psi.ss| == |h.run.ends| == |h2.run.ends| == n && WaitsOk(n, h, peer)
    requires h2.run.psi == h.run.psi && peer2.run.psi == peer.run.psi
    requires h2.checks == h.checks && h2.labelsOut == h.labelsOut && h2.labelsIn == h.labelsIn
    requires peer.labelsOut ==> peer2.labelsOut
    requires forall i: nat :: i < n && h2.run.ends[i] != h.run.ends[i] ==> h.run.psi.rs[i].RDone?
    ensures WaitsOk(n, h2, peer2)
  {
    hide BarrierOk;
  }

  /** A promise that is set stays set, and a thread gets done by its open. */
  lemma PsiMoves(c: Psi.Config, s: Psi.State, st: Psi.Step, i: nat)
    requires Psi.Inv(c, s) && Psi.Enabled(c, s, st) && i < c.n
    ensures var t := Psi.Apply(c, s, st);
            && |t.rs| == |t.ss| == c.n
            && Psi.RRank(s.rs[i]) <= Psi.RRank(t.rs[i])
            && (!s.rs[i].RDone? && t.rs[i].RDone? ==> st == Psi.ROpen(i))
            && (s.ss[i] != Psi.SDone && t.ss[i] == Psi.SDone ==> st == Psi.SOpen(i))
  {
    hide Psi.ThreadOk, BarrierOk, Psi.OpenResult, Psi.Across, Psi.ColumnFrom, Psi.CommitAll, Open;
  }

  lemma PromisesStay(c: Psi.Config, s: Psi.State, st: Psi.Step)
    requires Psi.Inv(c, s) && Psi.Enabled(c, s, st)
    ensures var t := Psi.Apply(c, s, st);
            && |t.rs| == |t.ss| == c.n && s.inputs.promised <= t.inputs.promised
            && s.commitsIn.promised <= t.commitsIn.promised
  {
    hide Psi.ThreadOk, BarrierOk, Psi.OpenResult, Psi.Across, Psi.ColumnFrom, Psi.CommitAll, Open;
  }

  /** A step of the intersection in which h receives. */
  lemma ReceivingMoves(c: Psi.Config, h: Half, peer: Half, h2: Half, peer2: Half, st: Psi.Step)
    requires |peer.run.psi.ss| == |h.run.ends| == c.n && Psi.Inv(c, h.run.psi) && Psi.Enabled(c, h.run.psi, st)
    requires |h.run.psi.rs| == c.n && WaitsOk(c.n, h, peer) && (st.ROpen? ==> st.i in h.checks.passedSet)
    requires h2 == h.(run := h.run.(psi := Psi.Apply(c, h.run.psi, st)))
    requires peer2.run.psi == peer.run.psi && peer2.labelsOut == peer.labelsOut
    ensures |h2.run.psi.rs| == c.n && WaitsOk(c.n, h2, peer2)
  {
    hide Psi.Inv, Psi.Apply, Psi.Enabled, BarrierOk;
    PromisesStay(c, h.run.psi, st);
    forall i: nat | i < c.n
      ensures Psi.RRank(h.run.psi.rs[i]) <= Psi.RRank(h2.run.psi.rs[i])
      ensures !h.run.psi.rs[i].RDone? && h2.run.psi.rs[i].RDone? ==> st == Psi.ROpen(i)
    {
      PsiMoves(c, h.run.psi, st, i);
    }
  }

  /** A step of the intersection in which peer receives and h sends. */
  lemma SendingMoves(c: Psi.Config, h: Half, peer: Half, h2: Half, peer2: Half, st: Psi.Step)
    requires |h.run.psi.rs| == |h.run.ends| == c.n && Psi.Inv(c, peer.run.psi) && Psi.Enabled(c, peer.run.psi, st)
    requires |peer.run.psi.ss| == c.n && WaitsOk(c.n, h, peer) && (st.SOpen? ==> h.checks.promised > 0)
    requires h2.run.psi == h.run.psi && h2.run.ends == h.run.ends
    requires h2.checks == h.checks && h2.labelsOut == h.labelsOut && h2.labelsIn == h.labelsIn
    requires peer2 == peer.(run := peer.run.(psi := Psi.Apply(c, peer.run.psi, st)))
    ensures |peer2.run.psi.ss| == c.n && WaitsOk(c.n, h2, peer2)
  {
    hide Psi.Inv, Psi.Apply, Psi.Enabled, BarrierOk;
    PromisesStay(c, peer.run.psi, st);
    forall i: nat | i < c.n
      ensures peer.run.psi.ss[i] != Psi.SDone && peer2.run.psi.ss[i] == Psi.SDone ==> st == Psi.SOpen(i)
    {
      PsiMoves(c, peer.run.psi, st, i);
    }
  }

  /** What a step makes of the two halves. */
  lemma HalvesAfter(c: Config, s: State, step: Step)
    requires c.Valid() && Sized(c, s) && Enabled(c, s, step) && Within(step).Some?
    ensures Promises.Enabled(c.Of(step.x), s.Of(step.x).run, Within(step).value)
    ensures var x, t := step.x, Apply(c, s, step);
            var r := Promises.Apply(c.Of(x), s.Of(x).run, Within(step).value);
            && t.Of(x) == s.Of(x).(run := r)
            && t.Of(Other(x)) == s.Of(Other(x)).(run := s.Of(Other(x)).run.(theirs := r.mine))
  {
    hide Promises.Apply, Promises.Enabled;
  }

  lemma HonestAndSized(c: Config, t: State, agreed: Block, x: Party)
    requires c.Valid() && Promises.Inv(c.Of(x), t.Of(x).run, agreed)
    requires Promises.Inv(c.Of(Other(x)), t.Of(Other(x)).run, agreed)
    requires t.Of(x).run.mine == t.Of(Other(x)).run.theirs && t.Of(x).run.theirs == t.Of(Other(x)).run.mine
    ensures c.Honest(agreed) && Sized(c, t)
  {
    hide Promises.Bound, Promises.SlotsOk, Promises.EndsOk, Psi.Inv;
  }

  lemma HalvesShareSlots(c: Config, s: State, x: Party)
    requires Sized(c, s)
    ensures s.Of(x).run.mine == s.Of(Other(x)).run.theirs && s.Of(x).run.theirs == s.Of(Other(x)).run.mine
  {
    hide Promises.Sized;
  }

  /** A slot step of x is one of the other half's too, there of its peer. */
  lemma SlotKeeps(c: Config, s: State, x: Party, st: Slots.Step, agreed: Block)
    requires Inv(c, s, agreed) && Sized(c, s) && Enabled(c, s, Slot(x, st)) && Fresh(c, s, Slot(x, st), agreed)
    ensures Inv(c, Apply(c, s, Slot(x, st)), agreed)
  {
    hide Inv, Apply, Enabled, Sized, WaitsOk, Config.Valid, Promises.Inv, Promises.Enabled, Psi.Inv;
    HalvesOk(c, s, agreed, x);
    HalvesOk(c, s, agreed, Other(x));
    HalvesShareSlots(c, s, x);
    HalvesAfter(c, s, Slot(x, st));
    SlotOfBoth(c, s, x, st, agreed);
    var y, t := Other(x), Apply(c, s, Slot(x, st));
    WaitsCarry(c.Size(), s.Of(x), s.Of(y), t.Of(x), t.Of(y));
    WaitsCarry(c.Size(), s.Of(y), s.Of(x), t.Of(y), t.Of(x));
    HonestAndSized(c, t, agreed, x);
    InvFromHalves(c, t, agreed, x);
  }

  lemma SlotOfBoth(c: Config, s: State, x: Party, st: Slots.Step, agreed: Block)
    requires Inv(c, s, agreed) && Sized(c, s) && Enabled(c, s, Slot(x, st)) && Fresh(c, s, Slot(x, st), agreed)
    ensures var r := Promises.Apply(c.Of(x), s.Of(x).run, Promises.Mine(st));
            && Promises.Inv(c.Of(x), r, agreed)
            && Promises.Inv(c.Of(Other(x)), s.Of(Other(x)).run.(theirs := r.mine), agreed)
            && r == s.Of(x).run.(mine := r.mine)
  {
    hide Inv, WaitsOk, Promises.Inv, Psi.Inv, Slots.Apply, Slots.Enabled, Promises.NewWords;
    HalvesOk(c, s, agreed, x);
    HalvesOk(c, s, agreed, Other(x));
    HalvesShareSlots(c, s, x);
    SlotsAlike(c, x);
    FreshForBoth(c, s, x, st, agreed);
    var y := Other(x);
    Promises.StepInv(c.Of(x), s.Of(x).run, Promises.Mine(st), agreed);
    Promises.StepInv(c.Of(y), s.Of(y).run, Promises.Theirs(st), agreed);
  }

  lemma FreshForBoth(c: Config, s: State, x: Party, st: Slots.Step, agreed: Block)
    requires c.Valid() && Sized(c, s) && Fresh(c, s, Slot(x, st), agreed)
    ensures c.Of(Other(x)).Valid()
    ensures Promises.Fresh(c.Of(Other(x)), s.Of(Other(x)).run, Promises.Theirs(st), agreed)
  {
    HalvesShareSlots(c, s, x);
    var d, e, r := c.Of(x), c.Of(Other(x)), s.Of(x).run;
    if st.Store? {
      SameWords(d, e, st.draws, [agreed]);
      SameWords(d, e, st.draws, r.mine.stored);
      SameWords(d, e, st.draws, r.theirs.stored);
    }
  }

  lemma SameWords(d: Promises.Config, e: Promises.Config, draws: seq<Block>, values: seq<Block>)
    requires d.psi.wordSize == e.psi.wordSize <= 128
    ensures Promises.NewWords(d, draws, values) <==> Promises.NewWords(e, draws, values)
  {
    forall v: Block
      ensures d.Word(v) == e.Word(v)
    {
    }
  }

  lemma SlotsAlike(c: Config, x: Party)
    requires c.Valid()
    ensures c.Of(x).Valid() && c.Of(Other(x)).Valid()
    ensures c.Of(x).mine == c.Of(Other(x)).theirs && c.Of(x).theirs == c.Of(Other(x)).mine
  {
  }

  lemma IntersectKeeps(c: Config, s: State, x: Party, st: Psi.Step, agreed: Block)
    requires Inv(c, s, agreed) && Sized(c, s) && Enabled(c, s, Intersect(x, st))
    ensures Inv(c, Apply(c, s, Intersect(x, st)), agreed)
  {
    hide Inv, Apply, Sized, WaitsOk, Config.Valid, Promises.Inv, Psi.Inv, Psi.Apply, Psi.Enabled;
    HalvesOk(c, s, agreed, x);
    HalvesOk(c, s, agreed, Other(x));
    HalvesShareSlots(c, s, x);
    HalvesAfter(c, s, Intersect(x, st));
    var y, t := Other(x), Apply(c, s, Intersect(x, st));
    Promises.StepInv(c.Of(x), s.Of(x).run, Promises.Intersect(st), agreed);
    ReceivingMoves(c.Of(x).psi, s.Of(x), s.Of(y), t.Of(x), t.Of(y), st);
    SendingMoves(c.Of(x).psi, s.Of(y), s.Of(x), t.Of(y), t.Of(x), st);
    HonestAndSized(c, t, agreed, x);
    InvFromHalves(c, t, agreed, x);
  }

  /** A step that leaves slots and intersection alone: a report. */
  lemma ReportKeeps(c: Config, s: State, step: Step, agreed: Block)
    requires Inv(c, s, agreed) && Sized(c, s) && Enabled(c, s, step) && (step.Report? || step.Settle?)
    ensures Inv(c, Apply(c, s, step), agreed)
  {
    hide Inv, Apply, Enabled, Sized, WaitsOk, Config.Valid, Promises.Inv, Psi.Inv;
    var x, y := step.x, Other(step.x);
    HalvesOk(c, s, agreed, x);
    HalvesOk(c, s, agreed, y);
    var t := Apply(c, s, step);
    HalvesShareSlots(c, s, x);
    HalvesAfter(c, s, step);
    ReportedIsDone(c, s, step, agreed);
    Promises.StepInv(c.Of(x), s.Of(x).run, Within(step).value, agreed);
    WaitsCarry(c.Size(), s.Of(x), s.Of(y), t.Of(x), t.Of(y));
    WaitsCarry(c.Size(), s.Of(y), s.Of(x), t.Of(y), t.Of(x));
    HonestAndSized(c, t, agreed, x);
    InvFromHalves(c, t, agreed, x);
  }

  lemma ReportedIsDone(c: Config, s: State, step: Step, agreed: Block)
    requires Inv(c, s, agreed) && Sized(c, s) && Enabled(c, s, step) && (step.Report? || step.Settle?)
    ensures |s.Of(step.x).run.psi.rs| == c.Size()
    ensures var r := Promises.Apply(c.Of(step.x), s.Of(step.x).run, Within(step).value);
            && r == s.Of(step.x).run.(ends := r.ends, outputs := r.outputs, exceptions := r.exceptions,
                                      misses := r.misses)
            && |r.ends| == c.Size()
            && forall i: nat :: i < c.Size() && r.ends[i] != s.Of(step.x).run.ends[i] ==>
               s.Of(step.x).run.psi.rs[i].RDone?
  {
    hide Inv, Promises.Inv, Psi.Inv, BarrierOk;
    HalvesOk(c, s, agreed, step.x);
  }

  /** Opening and taking labels, as the two halves see it. */
  lemma LabelsMove(n: nat, h: Half, peer: Half, h2: Half)
    requires |h.run.psi.rs| == |h.run.psi.ss| == |h.run.ends| == n
    requires |peer.run.psi.rs| == |peer.run.psi.ss| == |peer.run.ends| == n
    requires WaitsOk(n, h, peer) && WaitsOk(n, peer, h)
    requires (h2 == h.(labelsOut := true) && peer.run.psi.inputs.promised > 0 && h.run.psi.commitsIn.promised > 0)
             || (h2 == h.(labelsIn := true) && peer.labelsOut)
    ensures WaitsOk(n, h2, peer) && WaitsOk(n, peer, h2)
  {
    hide BarrierOk, Psi.RRank;
  }

  /** A thread's check, and its report of it, as the two halves see them. */
  lemma ChecksMove(n: nat, h: Half, peer: Half, h2: Half, i: nat)
    requires |h.run.psi.rs| == |h.run.psi.ss| == |h.run.ends| == n
    requires |peer.run.psi.rs| == |peer.run.psi.ss| == |peer.run.ends| == n
    requires WaitsOk(n, h, peer) && WaitsOk(n, peer, h)
    requires if i in h.checks.arrived then i !in h.checks.passedSet && h2 == h.(checks := SetIfLast(h.checks, i))
             else i < n && h.labelsIn && h.run.psi.rs[i] == Psi.RReady && h2 == h.(checks := Arrive(h.checks, i))
    ensures WaitsOk(n, h2, peer) && WaitsOk(n, peer, h2)
  {
    hide BarrierOk;
    if i in h.checks.arrived {
      SetOk(h.checks, n, i);
    } else {
      ArriveOk(h.checks, n, i);
    }
  }

  /** The steps of the translation check. */
  lemma CheckKeeps(c: Config, s: State, step: Step, agreed: Block)
    requires Inv(c, s, agreed) && Sized(c, s) && Enabled(c, s, step) && Within(step) == None
    ensures Inv(c, Apply(c, s, step), agreed)
  {
    hide Inv, Sized, WaitsOk, Config.Valid, Promises.Inv, Psi.Inv, Arrive, SetIfLast;
    var x, y := step.x, Other(step.x);
    HalvesOk(c, s, agreed, x);
    HalvesOk(c, s, agreed, y);
    HalvesShareSlots(c, s, x);
    var t := Apply(c, s, step);
    match step {
      case Check(_, i) => ChecksMove(c.Size(), s.Of(x), s.Of(y), t.Of(x), i);
      case SetChecked(_, i) => ChecksMove(c.Size(), s.Of(x), s.Of(y), t.Of(x), i);
      case _ => LabelsMove(c.Size(), s.Of(x), s.Of(y), t.Of(x));
    }
    HonestAndSized(c, t, agreed, x);
    InvFromHalves(c, t, agreed, x);
  }

  lemma StepInv(c: Config, s: State, step: Step, agreed: Block)
    requires Inv(c, s, agreed) && Sized(c, s) && Enabled(c, s, step) && Fresh(c, s, step, agreed)
    ensures Inv(c, Apply(c, s, step), agreed)
  {
    hide Inv, Apply, Enabled, Fresh;
    match step
    case Slot(x, st) => SlotKeeps(c, s, x, st, agreed);
    case Intersect(x, st) => IntersectKeeps(c, s, x, st, agreed);
    case Report(_, _) => ReportKeeps(c, s, step, agreed);
    case Settle(_, _) => ReportKeeps(c, s, step, agreed);
    case _ => CheckKeeps(c, s, step, agreed);
  }

  // ---------------------------------------------------------------- all runs

  /** An interleaving of all threads of both parties, with fresh random blocks. */
  ghost predicate IsRun(c: Config, steps: seq<Step>, states: seq<State>, agreed: Block)
    requires c.Valid()
  {
    && |states| == |steps| + 1 && states[0] == Init(c.Size())
    && forall k :: 0 <= k < |steps| ==> Goes(c, states[k], steps[k], states[k + 1], agreed)
  }

  ghost predicate Goes(c: Config, s: State, step: Step, t: State, agreed: Block)
    requires c.Valid()
  {
    Sized(c, s) && Enabled(c, s, step) && Fresh(c, s, step, agreed) && t == Apply(c, s, step)
  }

  lemma {:induction false} RunInv(c: Config, steps: seq<Step>, states: seq<State>, agreed: Block, k: nat)
    requires c.Valid() && c.Honest(agreed) && IsRun(c, steps, states, agreed) && k < |states|
    ensures Inv(c, states[k], agreed)
  {
    hide Inv, Apply, Enabled, Fresh, Config.Valid, Config.Honest;
    if k == 0 {
      InitInv(c, agreed);
    } else {
      RunInv(c, steps, states, agreed, k - 1);
      assert Goes(c, states[k - 1], steps[k - 1], states[k], agreed);
      StepInv(c, states[k - 1], steps[k - 1], agreed);
    }
  }

  /**
    In every interleaving: a party that has opened its output labels holds, for every thread, the other party's masked
    input of the one intersection and its commitments of the other, so the other party has bound itself in both.
   */
  lemma LabelsAfterCommitments(c: Config, s: State, agreed: Block, x: Party, i: nat)
    requires Inv(c, s, agreed) && s.Of(x).labelsOut && i < c.Size()
    ensures var sending, receiving := s.Of(Other(x)).run.psi, s.Of(x).run.psi;
            && c.Of(x).psi.Valid() && c.Of(Other(x)).psi.Valid() && c.Of(x).psi.n == c.Of(Other(x)).psi.n == c.Size()
            && |sending.permutes| == |receiving.commits| == c.Size()
            && sending.permutes[i] == Some(c.Of(Other(x)).psi.PermuteOf(i))
            && receiving.commits[i] == Some(c.Of(x).psi.CommitsOf(i))
  {
    hide Inv, Promises.Inv, Psi.Config.PermuteOf, Psi.Config.CommitsOf, Psi.Column, Psi.Matches;
    HalvesOk(c, s, agreed, x);
    HalvesOk(c, s, agreed, Other(x));
    var sending, receiving := s.Of(Other(x)).run.psi, s.Of(x).run.psi;
    OpenMeansAll(sending.inputs, c.Size());
    OpenMeansAll(receiving.commitsIn, c.Size());
    assert Psi.ThreadOk(c.Of(Other(x)).psi, sending, i) && Psi.ThreadOk(c.Of(x).psi, receiving, i);
    assert i in sending.inputs.arrived && i in receiving.commitsIn.arrived;
  }

  /**
    In every interleaving: once one of x's sender threads has opened, all of x's threads have checked their translation,
    and so the other party has opened its labels; and a receiver thread that is done has checked its own.
   */
  lemma OpensAfterChecks(c: Config, s: State, agreed: Block, x: Party, i: nat)
    requires Inv(c, s, agreed) && i < c.Size()
    ensures |s.Of(Other(x)).run.psi.ss| == |s.Of(x).run.psi.rs| == c.Size()
    ensures s.Of(Other(x)).run.psi.ss[i] == Psi.SDone ==>
              (forall k: nat :: k < c.Size() ==> k in s.Of(x).checks.arrived) && s.Of(Other(x)).labelsOut
    ensures s.Of(x).run.psi.rs[i].RDone? ==> i in s.Of(x).checks.arrived && s.Of(Other(x)).labelsOut
  {
    hide Inv, Promises.Inv;
    HalvesOk(c, s, agreed, x);
    if s.Of(x).checks.promised > 0 {
      OpenMeansAll(s.Of(x).checks, c.Size());
      assert i in s.Of(x).checks.arrived;
    }
  }

  predicate AllFinished(s: State) {
    Promises.AllFinished(s.first.run) && Promises.AllFinished(s.second.run)
  }

  /**
    With two honest parties, in every interleaving: each party's output promise is set at most once, by the thread that
    owns the agreed value, never to an exception; and once all threads are through it has been set, and so has the
    promise that all translations are checked, once.
   */
  lemma OutputsSetOnce(c: Config, steps: seq<Step>, states: seq<State>, agreed: Block, k: nat, x: Party)
    requires c.Valid() && c.Honest(agreed) && IsRun(c, steps, states, agreed) && k < |states|
    ensures |c.Of(x).mine.order| > 0
    ensures var h, owner := states[k].Of(x), Promises.Owner(c.Of(x));
            && (h.run.outputs == [] || h.run.outputs == [owner]) && h.run.exceptions == 0 && h.checks.promised <= 1
            && (AllFinished(states[k]) ==> h.run.outputs == [owner] && h.checks.promised == 1)
  {
    hide IsRun, Inv, Promises.SlotsOk, Psi.Inv;
    RunInv(c, steps, states, agreed, k);
    var s := states[k];
    HalvesOk(c, s, agreed, x);
    if AllFinished(s) {
      SetByAll(s.Of(x).checks, c.Size());
    }
  }

  // ---------------------------------------------------------------- progress

  /** The intersections' inputs are named after what the slots hand out. */
  ghost predicate InputsAgree(c: Config, s: State)
    requires c.Valid() && Sized(c, s)
  {
    Promises.InputsAgree(c.first, s.first.run) && Promises.InputsAgree(c.second, s.second.run)
  }

  /** When all slots are handed out, the intersection waits for none. */
  lemma SlotsAreReady(c: Promises.Config, run: Promises.State, agreed: Block, st: Psi.Step)
    requires Promises.Inv(c, run, agreed) && Promises.InputsAgree(c, run) && Psi.Enabled(c.psi, run.psi, st)
    requires Slots.AllGot(run.mine) && Slots.AllGot(run.theirs)
    ensures Promises.Enabled(c, run, Promises.Intersect(st))
  {
    hide Psi.Inv, Psi.Enabled, Promises.BoundAll, Promises.EndsOk, Promises.Config.Honest;
    StepFits(c.psi, run.psi, st);
    Promises.AllPromised(c.theirs, run.theirs, st.i);
  }

  lemma StepFits(c: Psi.Config, s: Psi.State, st: Psi.Step)
    requires Psi.Sized(c, s) && Psi.Enabled(c, s, st)
    ensures st.i < c.n
  {
  }

  /** Up to its opens an intersection goes on by itself. */
  lemma UntilReady(c: Config, s: State, agreed: Block, x: Party) returns (step: Step)
    requires Inv(c, s, agreed) && Sized(c, s) && InputsAgree(c, s)
    requires Slots.AllGot(s.first.run.mine) && Slots.AllGot(s.second.run.mine) && !Psi.AllReady(s.Of(x).run.psi)
    ensures Enabled(c, s, step)
  {
    hide Inv, Promises.Inv, Promises.InputsAgree, Promises.Enabled, Psi.Inv, Psi.AllReady, Psi.Enabled, Slots.AllGot;
    HalvesOk(c, s, agreed, x);
    HalvesShareSlots(c, s, x);
    var st := Psi.UntilReady(c.Of(x).psi, s.Of(x).run.psi);
    SlotsAreReady(c.Of(x), s.Of(x).run, agreed, st);
    step := Intersect(x, st);
  }

  /** All of a party's threads are past their check. */
  predicate Checked(h: Half, n: nat) {
    forall i: nat :: i < n ==> i in h.checks.passedSet
  }

  /**
    Party x's part in the check, when both intersections are ready to be opened: its labels, then its threads' checks.
   */
  lemma UntilChecked(c: Config, s: State, agreed: Block, x: Party) returns (step: Step)
    requires Inv(c, s, agreed) && Psi.AllReady(s.first.run.psi) && Psi.AllReady(s.second.run.psi)
    requires !Checked(s.Of(x), c.Size())
    ensures Enabled(c, s, step)
  {
    hide Inv, Promises.Inv, Psi.Inv, BarrierOk;
    HalvesOk(c, s, agreed, x);
    HalvesOk(c, s, agreed, Other(x));
    Psi.ReadyMeansSet(c.Of(x).psi, s.Of(x).run.psi);
    Psi.ReadyMeansSet(c.Of(Other(x)).psi, s.Of(Other(x)).run.psi);
    var h := s.Of(x);
    if !s.Of(Other(x)).labelsOut { return OpenLabels(Other(x)); }
    if !h.labelsIn { return TakeLabels(x); }
    var i: nat :| i < c.Size() && i !in h.checks.passedSet;
    step := if i in h.checks.arrived then SetChecked(x, i) else Check(x, i);
  }

  /** All translations are checked: x's intersection is opened, first by the senders. */
  lemma UntilOpened(c: Config, s: State, agreed: Block, x: Party) returns (step: Step)
    requires Inv(c, s, agreed) && Psi.AllReady(s.Of(x).run.psi) && !Psi.AllDone(s.Of(x).run.psi)
    requires Checked(s.Of(x), c.Size()) && Checked(s.Of(Other(x)), c.Size())
    ensures Enabled(c, s, step)
  {
    hide Inv, Promises.Inv, Psi.Inv, BarrierOk, Promises.Sized, Open;
    HalvesOk(c, s, agreed, x);
    HalvesOk(c, s, agreed, Other(x));
    var run := s.Of(x).run;
    var st := Psi.NoDeadlock(c.Of(x).psi, run.psi);
    OnlyOpens(c.Of(x).psi, run.psi, st);
    SetByAll(s.Of(Other(x)).checks, c.Size());
    step := Intersect(x, st);
  }

  lemma OnlyOpens(c: Psi.Config, s: Psi.State, st: Psi.Step)
    requires Psi.Inv(c, s) && Psi.AllReady(s) && Psi.Enabled(c, s, st)
    ensures st.i < c.n && (st.ROpen? || st.SOpen?)
  {
    hide Psi.ThreadOk, BarrierOk;
    assert s.rs[st.i] == Psi.RReady || s.rs[st.i].RDone?;
    assert s.ss[st.i] == Psi.SReadyAgain || s.ss[st.i] == Psi.SDone;
  }

  /** No thread of either party waits for ever: until all have finished, some step is enabled. */
  lemma NoDeadlock(c: Config, s: State, agreed: Block) returns (step: Step)
    requires Inv(c, s, agreed) && InputsAgree(c, s) && !AllFinished(s)
    ensures Enabled(c, s, step)
  {
    hide Inv, Psi.Inv, Psi.AllReady, Psi.AllDone, Checked, Promises.AllFinished, Slots.AllGot, InputsAgree;
    HalvesOk(c, s, agreed, First);
    HalvesOk(c, s, agreed, Second);
    if x: Party :| !Slots.AllGot(s.Of(x).run.mine) {
      var st := Slots.NoDeadlock(c.Of(x).mine, s.Of(x).run.mine);
      return Slot(x, st);
    }
    if x: Party :| !Psi.AllReady(s.Of(x).run.psi) {
      step := UntilReady(c, s, agreed, x);
      return;
    }
    if x: Party :| !Checked(s.Of(x), c.Size()) {
      step := UntilChecked(c, s, agreed, x);
      return;
    }
    if x: Party :| !Psi.AllDone(s.Of(x).run.psi) {
      step := UntilOpened(c, s, agreed, x);
      return;
    }
    var x: Party :| !Promises.AllFinished(s.Of(x).run);
    step := UntilReported(c, s, agreed, x);
  }

  /** Threads that are done report. */
  lemma UntilReported(c: Config, s: State, agreed: Block, x: Party) returns (step: Step)
    requires Inv(c, s, agreed) && Psi.AllDone(s.Of(x).run.psi) && !Promises.AllFinished(s.Of(x).run)
    ensures Enabled(c, s, step)
  {
    hide Inv, Promises.Inv, Psi.Inv;
    HalvesOk(c, s, agreed, x);
    var run := s.Of(x).run;
    var i :| 0 <= i < |run.ends| && run.ends[i] != Promises.Finished;
    Promises.DoneIsOwner(c.Of(x), run, agreed, i);
    step := if run.ends[i] == Promises.Pending then Report(x, i) else Settle(x, i);
  }
}
