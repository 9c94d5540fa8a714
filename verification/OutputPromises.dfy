/**
  From the evaluated values to the output: the slots of both parties' threads, the set intersection between
  them, and the threads' reports on the bucket's output promise, in every interleaving. The receiving party is
  the one whose promise is followed; for the other party's the two change places.
 */
module OutputPromises {
  import opened Barriers
  import opened Blocks
  import opened Counting
  import opened Wrappers
  import Slots = SlotProtocol
  import Psi = PsiProtocol

  /** A receiver thread after open: not yet reported, missed as the count-th, or finished. */
  datatype End = Pending | Missed(count: nat) | Finished

  /**
    Both parties' slots, the intersection, and the receiver's bucket: which threads have set the output promise,
    how often an exception was put there, and the miss counter.
   */
  datatype State = State(mine: Slots.State, theirs: Slots.State, psi: Psi.State, ends: seq<End>, outputs: seq<nat>,
                         exceptions: nat, misses: nat)

  datatype Config = Config(mine: Slots.Config, theirs: Slots.Config, psi: Psi.Config) {
    ghost predicate Valid() {
      mine.Valid() && theirs.Valid() && psi.Valid() && mine.n == theirs.n == psi.n && psi.wordSize <= 128
    }

    /** The low bits that the intersection compares. */
    function Word(v: Block): (w: seq<bool>)
      requires psi.wordSize <= 128
      ensures |w| == psi.wordSize
    {
      v.bits[..psi.wordSize]
    }

    /** Both parties' circuits all evaluated to one value, and no two different inputs meet in the intersection. */
    ghost predicate Honest(agreed: Block)
      requires Valid()
    {
      && (forall i :: 0 <= i < psi.n ==> mine.psi[i] == theirs.psi[i] == agreed)
      && (forall r, s :: 0 <= r < psi.n && 0 <= s < psi.n && psi.ReceiverValue(r, s) == psi.OpenedTo(r)[s] ==>
          psi.xs[r] == psi.ys[s])
    }
  }

  /** Two values are compared in their low bits alone. */
  lemma SameWordIff(c: Config, u: Block, v: Block)
    requires c.psi.wordSize <= 128
    ensures c.Word(u) == c.Word(v) <==> forall k :: 0 <= k < c.psi.wordSize ==> u.bits[k] == v.bits[k]
  {
    if c.Word(u) == c.Word(v) {
      forall k | 0 <= k < c.psi.wordSize
        ensures u.bits[k] == v.bits[k]
      {
        assert c.Word(u)[k] == c.Word(v)[k];
      }
    }
  }

  datatype Step =
    | Mine(slot: Slots.Step)
    | Theirs(slot: Slots.Step)
    | Intersect(step: Psi.Step)
    | Report(i: nat)
    | Settle(i: nat)

  function Init(n: nat): State {
    State(Slots.Init(n), Slots.Init(n), Psi.Init(n), seq(n, _ => Pending), [], 0, 0)
  }

  predicate Sized(c: Config, s: State) {
    Slots.Sized(c.mine, s.mine) && Slots.Sized(c.theirs, s.theirs) && Psi.Sized(c.psi, s.psi) && |s.ends| == c.psi.n
  }

  /** What the receiver's thread i enters: the value of its own slot. */
  predicate Entered(c: Config, s: State, i: nat)
    requires c.psi.wordSize <= 128 && i < |s.mine.places| && i < |c.psi.xs|
  {
    s.mine.places[i].Got? && c.Word(s.mine.places[i].value) == c.psi.xs[i]
  }

  /** What the sender's thread i enters: the value of its party's slot i, once that is set. */
  predicate Offered(c: Config, s: State, i: nat)
    requires c.psi.wordSize <= 128 && i < |s.theirs.values| && i < |c.psi.ys|
  {
    s.theirs.values[i].Some? && c.Word(s.theirs.values[i].value) == c.psi.ys[i]
  }

  ghost predicate Enabled(c: Config, s: State, step: Step)
    requires c.Valid() && Sized(c, s)
  {
    match step
    case Mine(st) => Slots.Enabled(c.mine, s.mine, st)
    case Theirs(st) => Slots.Enabled(c.theirs, s.theirs, st)
    case Intersect(st) =>
      && Psi.Enabled(c.psi, s.psi, st)
      && (st.RSend? ==> Entered(c, s, st.i)) && (st.SCommit? ==> Offered(c, s, st.i))
    case Report(i) => i < c.psi.n && s.ends[i] == Pending && s.psi.rs[i].RDone? && s.psi.rs[i].result.Some?
    case Settle(i) => i < c.psi.n && s.ends[i].Missed?
  }

  function Apply(c: Config, s: State, step: Step): State
    requires c.Valid() && Sized(c, s) && Enabled(c, s, step)
  {
    match step
    case Mine(st) => s.(mine := Slots.Apply(c.mine, s.mine, st))
    case Theirs(st) => s.(theirs := Slots.Apply(c.theirs, s.theirs, st))
    case Intersect(st) => s.(psi := Psi.Apply(c.psi, s.psi, st))
    case Report(i) =>
      if s.psi.rs[i].result.value then s.(ends := s.ends[i := Finished], outputs := s.outputs + [i])
      else s.(ends := s.ends[i := Missed(s.misses + 1)], misses := s.misses + 1)
    case Settle(i) =>
      s.(ends := s.ends[i := Finished], exceptions := s.exceptions + if s.ends[i].count == c.psi.n then 1 else 0)
  }

  // ---------------------------------------------------------------- the stored values

  /** No word of the draws occurs among the given values. */
  ghost predicate NewWords(c: Config, draws: seq<Block>, values: seq<Block>)
    requires c.psi.wordSize <= 128
  {
    forall k, l :: 0 <= k < |draws| && 0 <= l < |values| ==> c.Word(draws[k]) != c.Word(values[l])
  }

  /** Random blocks repeat no value that either party holds. */
  ghost predicate Fresh(c: Config, s: State, step: Step, agreed: Block)
    requires c.psi.wordSize <= 128
  {
    (step.Mine? || step.Theirs?) && step.slot.Store? ==>
      NewWords(c, step.slot.draws, [agreed]) && NewWords(c, step.slot.draws, s.mine.stored)
        && NewWords(c, step.slot.draws, s.theirs.stored)
  }

  /** The first value a party stores is the agreed one, and the others are replacements of it. */
  ghost predicate AgreedFirst(c: Config, stored: seq<Block>, agreed: Block)
    requires c.psi.wordSize <= 128
  {
    forall k :: 0 <= k < |stored| ==> if k == 0 then stored[k] == agreed else c.Word(stored[k]) != c.Word(agreed)
  }

  /** The two parties' replacements differ. */
  ghost predicate Apart(c: Config, mine: seq<Block>, theirs: seq<Block>)
    requires c.psi.wordSize <= 128
  {
    forall k, l :: 0 < k < |mine| && 0 < l < |theirs| ==> c.Word(mine[k]) != c.Word(theirs[l])
  }

  /** What a thread stores that evaluated the agreed value. */
  lemma StoredValue(c: Config, stored: seq<Block>, draws: seq<Block>, agreed: Block)
    requires c.psi.wordSize <= 128 && AgreedFirst(c, stored, agreed) && |draws| >= |stored|
    requires NewWords(c, draws, stored)
    ensures Slots.Scan(agreed, stored, draws) == if |stored| == 0 then agreed else draws[0]
  {
    forall k, l | 0 <= k < |draws| && 0 <= l < |stored|
      ensures draws[k] != stored[l]
    {
      assert c.Word(draws[k]) != c.Word(stored[l]);
    }
    Slots.FreshScan(agreed, stored, draws);
    if |stored| > 0 { assert stored[0] == agreed; }
  }

  /** Storing keeps both facts. */
  lemma StoreKeeps(c: Config, stored: seq<Block>, others: seq<Block>, draws: seq<Block>, agreed: Block)
    requires c.psi.wordSize <= 128 && AgreedFirst(c, stored, agreed) && |draws| >= |stored|
    requires NewWords(c, draws, [agreed]) && NewWords(c, draws, stored) && NewWords(c, draws, others)
    ensures var v := Slots.Scan(agreed, stored, draws);
            && AgreedFirst(c, stored + [v], agreed)
            && (Apart(c, stored, others) ==> Apart(c, stored + [v], others))
            && (Apart(c, others, stored) ==> Apart(c, others, stored + [v]))
  {
    StoredValue(c, stored, draws, agreed);
    hide Slots.Scan;
    if |stored| > 0 {
      assert c.Word(draws[0]) != c.Word([agreed][0]);
    }
  }

  // ---------------------------------------------------------------- the invariant

  predicate AllCommitted(s: Psi.State) {
    forall i :: 0 <= i < |s.ss| ==> Psi.SRank(s.ss[i]) >= 4
  }

  /**
    Thread i of the intersection has only used what its slot gave it, and a receiver that is done saw all senders
    commit.
   */
  ghost predicate Bound(c: Config, s: State, i: nat)
    requires c.Valid() && Sized(c, s) && i < c.psi.n
  {
    && (Psi.RRank(s.psi.rs[i]) >= 1 ==> Entered(c, s, i))
    && (Psi.SRank(s.psi.ss[i]) >= 4 ==> Offered(c, s, i))
    && (s.psi.rs[i].RDone? ==> Psi.SRank(s.psi.ss[i]) >= 7)
    && (Psi.SRank(s.psi.ss[i]) >= 7 ==> AllCommitted(s.psi))
  }

  ghost predicate SlotsOk(c: Config, s: State, agreed: Block)
    requires c.Valid()
  {
    && Slots.Inv(c.mine, s.mine) && Slots.Inv(c.theirs, s.theirs)
    && AgreedFirst(c, s.mine.stored, agreed) && AgreedFirst(c, s.theirs.stored, agreed)
    && Apart(c, s.mine.stored, s.theirs.stored)
  }

  /** The receiver's thread that the agreed value goes to. */
  function Owner(c: Config): nat
    requires |c.mine.order| > 0
  {
    c.mine.order[0]
  }

  /** The threads that have reported a miss. */
  ghost function Misses(c: Config, s: State): (r: set<nat>)
    requires |s.ends| == c.psi.n && |c.mine.order| > 0
  {
    set i: nat | i < c.psi.n && i != Owner(c) && s.ends[i] != Pending
  }

  ghost predicate EndOk(c: Config, s: State, i: nat)
    requires |s.ends| == c.psi.n && |c.mine.order| > 0 && i < c.psi.n
  {
    s.ends[i].Missed? ==> i != Owner(c) && s.ends[i].count <= s.misses
  }

  ghost predicate EndsOk(c: Config, s: State)
    requires |s.ends| == c.psi.n && |c.mine.order| > 0
  {
    && Owner(c) < c.psi.n && s.exceptions == 0 && s.misses == |Misses(c, s)|
    && s.outputs == (if s.ends[Owner(c)] == Pending then [] else [Owner(c)])
    && forall i: nat :: i < c.psi.n ==> EndOk(c, s, i)
  }

  ghost predicate BoundAll(c: Config, s: State)
    requires c.Valid() && Sized(c, s)
  {
    forall i: nat :: i < c.psi.n ==> Bound(c, s, i)
  }

  ghost predicate Inv(c: Config, s: State, agreed: Block) {
    && c.Valid() && c.Honest(agreed) && Sized(c, s)
    && SlotsOk(c, s, agreed) && Psi.Inv(c.psi, s.psi) && BoundAll(c, s) && EndsOk(c, s)
  }

  lemma InitInv(c: Config, agreed: Block)
    requires c.Valid() && c.Honest(agreed)
    ensures Inv(c, Init(c.psi.n), agreed)
  {
    Slots.InitInv(c.mine);
    Slots.InitInv(c.theirs);
    Psi.InitInv(c.psi);
    assert Misses(c, Init(c.psi.n)) == {};
  }

  // ---------------------------------------------------------------- what open returns

  lemma AfterOpening(c: Config, s: State, r: nat)
    requires c.Valid() && Sized(c, s) && BoundAll(c, s) && r < c.psi.n && s.psi.rs[r].RDone?
    ensures Entered(c, s, r) && forall i: nat :: i < c.psi.n ==> Offered(c, s, i)
  {
    assert Bound(c, s, r);
    forall i: nat | i < c.psi.n
      ensures Offered(c, s, i)
    {
      assert Bound(c, s, i);
    }
  }

  /** The receiver's thread that has value k of its party's. */
  lemma EnteredValue(c: Config, s: State, agreed: Block, r: nat) returns (k: nat)
    requires c.Valid() && Sized(c, s) && SlotsOk(c, s, agreed) && r < c.psi.n && Entered(c, s, r)
    ensures k < |s.mine.stored| && k < c.psi.n && c.mine.order[k] == r && c.psi.xs[r] == c.Word(s.mine.stored[k])
  {
    assert Slots.GotOk(c.mine, s.mine, r);
    k :| k < s.mine.head && c.mine.order[k] == r && s.mine.places[r].value == s.mine.stored[k];
  }

  lemma OfferedValue(c: Config, s: State, agreed: Block, i: nat) returns (l: nat)
    requires c.Valid() && Sized(c, s) && SlotsOk(c, s, agreed) && i < c.psi.n && Offered(c, s, i)
    ensures l < |s.theirs.stored| && l < c.psi.n && c.theirs.order[l] == i && c.psi.ys[i] == c.Word(s.theirs.stored[l])
  {
    l := Slots.SetBy(c.theirs, s.theirs, i);
  }

  lemma SameWordsAreFirst(c: Config, s: State, agreed: Block, k: nat, l: nat)
    requires c.Valid() && SlotsOk(c, s, agreed) && k < |s.mine.stored| && l < |s.theirs.stored|
    ensures c.Word(s.mine.stored[k]) == c.Word(s.theirs.stored[l]) <==> k == 0 && l == 0
  {
  }

  /** Once thread r's open has returned, its input equals a sender's exactly if r owns the agreed value. */
  lemma MatchIsOwner(c: Config, s: State, agreed: Block, r: nat)
    requires Inv(c, s, agreed) && r < c.psi.n && s.psi.rs[r].RDone?
    ensures Psi.Matches(c.psi, r) <==> r == Owner(c)
  {
    AfterOpening(c, s, r);
    hide Entered, Offered, SlotsOk, BoundAll, EndsOk, Psi.Inv, Config.Word;
    var k := EnteredValue(c, s, agreed, r);
    if Psi.Matches(c.psi, r) {
      var i: nat :| i < c.psi.n && c.psi.ReceiverValue(r, i) == c.psi.OpenedTo(r)[i];
      var l := OfferedValue(c, s, agreed, i);
      SameWordsAreFirst(c, s, agreed, k, l);
    }
    if r == Owner(c) {
      var i := c.theirs.order[0];
      var l := OfferedValue(c, s, agreed, i);
      SameWordsAreFirst(c, s, agreed, k, l);
      Psi.EqualInputsMatch(c.psi, r, i);
      assert c.psi.OpenedTo(r)[i] == c.psi.ReceiverValue(r, i);
    }
  }

  /** An open that has returned did not throw, and it reported a match to the owner of the agreed value alone. */
  lemma DoneIsOwner(c: Config, s: State, agreed: Block, r: nat)
    requires Inv(c, s, agreed) && r < c.psi.n && s.psi.rs[r].RDone?
    ensures s.psi.rs[r].result == Some(r == Owner(c))
  {
    MatchIsOwner(c, s, agreed, r);
    hide Psi.Matches;
    assert Psi.ThreadOk(c.psi, s.psi, r);
  }

  // ---------------------------------------------------------------- every step keeps the invariant

  lemma MineKeeps(c: Config, s: State, st: Slots.Step, agreed: Block)
    requires Inv(c, s, agreed) && Enabled(c, s, Mine(st)) && Fresh(c, s, Mine(st), agreed)
    ensures Inv(c, Apply(c, s, Mine(st)), agreed)
  {
    Slots.StepInv(c.mine, s.mine, st);
    hide Slots.Inv, Psi.Inv, Slots.Scan, AgreedFirst, Apart, NewWords;
    var t := Apply(c, s, Mine(st));
    if st.Store? { StoreKeeps(c, s.mine.stored, s.theirs.stored, st.draws, agreed); }
    forall i: nat | i < c.psi.n
      ensures Bound(c, t, i)
    {
      assert Bound(c, s, i);
    }
    EndsKept(c, s, t);
  }

  /** A value that has been promised stays. */
  lemma PromisedStays(c: Slots.Config, s: Slots.State, st: Slots.Step, i: nat)
    requires Slots.Inv(c, s) && Slots.Enabled(c, s, st) && i < c.n && s.values[i].Some?
    ensures i < |Slots.Apply(c, s, st).values| && Slots.Apply(c, s, st).values[i] == s.values[i]
  {
    if st.SetPromise? {
      var j := Slots.SlotIndex(c, s, st.i);
      assert Slots.SlotOk(c, s, j);
    }
  }

  lemma TheirsKeeps(c: Config, s: State, st: Slots.Step, agreed: Block)
    requires Inv(c, s, agreed) && Enabled(c, s, Theirs(st)) && Fresh(c, s, Theirs(st), agreed)
    ensures Inv(c, Apply(c, s, Theirs(st)), agreed)
  {
    Slots.StepInv(c.theirs, s.theirs, st);
    hide Slots.Inv, Psi.Inv, Slots.Scan, AgreedFirst, Apart, NewWords;
    var t := Apply(c, s, Theirs(st));
    if st.Store? { StoreKeeps(c, s.theirs.stored, s.mine.stored, st.draws, agreed); }
    forall i: nat | i < c.psi.n
      ensures Bound(c, t, i)
    {
      assert Bound(c, s, i);
      if s.theirs.values[i].Some? { PromisedStays(c.theirs, s.theirs, st, i); }
    }
    EndsKept(c, s, t);
  }

  lemma EndsKept(c: Config, s: State, t: State)
    requires |s.ends| == |t.ends| == c.psi.n && |c.mine.order| > 0 && EndsOk(c, s)
    requires t.ends == s.ends && t.outputs == s.outputs && t.exceptions == s.exceptions && t.misses == s.misses
    ensures EndsOk(c, t)
  {
    assert Misses(c, t) == Misses(c, s);
    forall i: nat | i < c.psi.n
      ensures EndOk(c, t, i)
    {
      assert EndOk(c, s, i);
    }
  }

  /** Threads of the intersection never go back. */
  lemma RanksGrow(c: Psi.Config, s: Psi.State, st: Psi.Step, k: nat)
    requires Psi.Inv(c, s) && Psi.Enabled(c, s, st) && k < c.n
    ensures var t := Psi.Apply(c, s, st);
            && |t.rs| == |t.ss| == c.n
            && Psi.RRank(s.rs[k]) <= Psi.RRank(t.rs[k]) && Psi.SRank(s.ss[k]) <= Psi.SRank(t.ss[k])
            && (k != st.i ==> s.rs[k] == t.rs[k] && s.ss[k] == t.ss[k])
  {
    hide Psi.ThreadOk, BarrierOk, Psi.OpenResult, Psi.Across, Psi.ColumnFrom, Psi.CommitAll, Open, Arrive, SetIfLast;
  }

  /** The second barrier: whoever opens knows that all senders have committed. */
  lemma OpenedAfterAll(c: Psi.Config, s: Psi.State)
    requires Psi.Inv(c, s) && Open(s.values)
    ensures AllCommitted(s)
  {
    OpenMeansAll(s.values, c.n);
    forall i | 0 <= i < c.n
      ensures Psi.SRank(s.ss[i]) >= 4
    {
      assert Psi.ThreadOk(c, s, i);
      assert i in s.values.arrived;
    }
  }

  lemma CommittedStays(c: Psi.Config, s: Psi.State, st: Psi.Step)
    requires Psi.Inv(c, s) && Psi.Enabled(c, s, st) && AllCommitted(s)
    ensures AllCommitted(Psi.Apply(c, s, st))
  {
    var t := Psi.Apply(c, s, st);
    hide Psi.Inv, Psi.Apply, Psi.Enabled, Psi.SRank;
    forall k | 0 <= k < |t.ss|
      ensures Psi.SRank(t.ss[k]) >= 4
    {
      RanksGrow(c, s, st, k);
    }
  }

  lemma OpeningIsLate(c: Psi.Config, s: Psi.State, i: nat)
    requires Psi.Inv(c, s) && i < c.n
    ensures s.openings[i].Some? <==> Psi.SRank(s.ss[i]) >= 7
  {
    assert Psi.ThreadOk(c, s, i);
  }

  /** How thread st.i gets past the places that Bound speaks of. */
  lemma OwnPlaces(c: Psi.Config, s: Psi.State, st: Psi.Step)
    requires Psi.Inv(c, s) && Psi.Enabled(c, s, st)
    ensures var t, i := Psi.Apply(c, s, st), st.i;
            && |t.rs| == |t.ss| == c.n
            && (Psi.RRank(s.rs[i]) == 0 && Psi.RRank(t.rs[i]) >= 1 ==> st.RSend?)
            && (Psi.SRank(s.ss[i]) < 4 && Psi.SRank(t.ss[i]) >= 4 ==> st.SCommit?)
            && (Psi.SRank(s.ss[i]) < 7 && Psi.SRank(t.ss[i]) >= 7 ==> st.SOpen?)
            && (!s.rs[i].RDone? && t.rs[i].RDone? ==> st.ROpen?)
  {
    hide Psi.ThreadOk, BarrierOk, Psi.OpenResult, Psi.Across, Psi.ColumnFrom, Psi.CommitAll, Open, Arrive, SetIfLast;
  }

  /** What thread st.i has reached after its step, and why it may. */
  lemma OwnBound(c: Config, s: State, st: Psi.Step, agreed: Block)
    requires Inv(c, s, agreed) && Enabled(c, s, Intersect(st)) && Sized(c, Apply(c, s, Intersect(st)))
    ensures Bound(c, Apply(c, s, Intersect(st)), st.i)
  {
    hide Psi.Inv, Psi.Apply, Psi.SRank, Psi.RRank, AllCommitted, SlotsOk, EndsOk, Config.Honest;
    assert Bound(c, s, st.i);
    OwnPlaces(c.psi, s.psi, st);
    RanksGrow(c.psi, s.psi, st, st.i);
    if st.ROpen? { OpeningIsLate(c.psi, s.psi, st.i); }
    if st.SOpen? { OpenedAfterAll(c.psi, s.psi); }
    if AllCommitted(s.psi) { CommittedStays(c.psi, s.psi, st); }
  }

  lemma IntersectKeeps(c: Config, s: State, st: Psi.Step, agreed: Block)
    requires Inv(c, s, agreed) && Enabled(c, s, Intersect(st))
    ensures Inv(c, Apply(c, s, Intersect(st)), agreed)
  {
    Psi.StepInv(c.psi, s.psi, st);
    var t := Apply(c, s, Intersect(st));
    assert Psi.Sized(c.psi, t.psi);
    OwnBound(c, s, st, agreed);
    if AllCommitted(s.psi) { CommittedStays(c.psi, s.psi, st); }
    hide SlotsOk, Psi.Inv, Psi.Apply, Psi.Enabled, AllCommitted;
    forall i: nat | i < c.psi.n
      ensures Bound(c, t, i)
    {
      assert Bound(c, s, i);
      RanksGrow(c.psi, s.psi, st, i);
    }
    EndsKept(c, s, t);
  }

  /** All threads but the owner can miss, so the counter stays below their number. */
  lemma MissesFit(c: Config, s: State)
    requires |s.ends| == c.psi.n && |c.mine.order| > 0 && Owner(c) < c.psi.n
    ensures |Misses(c, s)| <= c.psi.n - 1
  {
    var others := Range(0, c.psi.n) - {Owner(c)};
    assert Range(0, c.psi.n) == others + {Owner(c)};
    SubsetSize(Misses(c, s), others);
  }

  lemma ReportKeeps(c: Config, s: State, i: nat, agreed: Block)
    requires Inv(c, s, agreed) && Enabled(c, s, Report(i))
    ensures Inv(c, Apply(c, s, Report(i)), agreed)
  {
    DoneIsOwner(c, s, agreed, i);
    hide SlotsOk, Psi.Inv, Config.Honest, EndsOk, EndOk;
    var t := Apply(c, s, Report(i));
    forall j: nat | j < c.psi.n
      ensures Bound(c, t, j)
    {
      assert Bound(c, s, j);
    }
    ReportEnds(c, s, t, i);
  }

  /** A report by the owner sets the promise, any other counts a miss. */
  lemma ReportEnds(c: Config, s: State, t: State, i: nat)
    requires |s.ends| == c.psi.n && |c.mine.order| > 0 && EndsOk(c, s) && i < c.psi.n && s.ends[i] == Pending
    requires t == if i == Owner(c) then s.(ends := s.ends[i := Finished], outputs := s.outputs + [i])
                  else s.(ends := s.ends[i := Missed(s.misses + 1)], misses := s.misses + 1)
    ensures EndsOk(c, t)
  {
    forall j: nat | j < c.psi.n
      ensures EndOk(c, t, j)
    {
      assert EndOk(c, s, j);
    }
    if i == Owner(c) {
      assert Misses(c, t) == Misses(c, s);
    } else {
      assert Misses(c, t) == Misses(c, s) + {i};
    }
  }

  lemma SettleKeeps(c: Config, s: State, i: nat, agreed: Block)
    requires Inv(c, s, agreed) && Enabled(c, s, Settle(i))
    ensures Inv(c, Apply(c, s, Settle(i)), agreed)
  {
    MissesFit(c, s);
    hide SlotsOk, Psi.Inv, Config.Honest;
    var t := Apply(c, s, Settle(i));
    assert EndOk(c, s, i);
    forall j: nat | j < c.psi.n
      ensures Bound(c, t, j) && EndOk(c, t, j)
    {
      assert Bound(c, s, j) && EndOk(c, s, j);
    }
    assert Misses(c, t) == Misses(c, s);
  }

  lemma StepInv(c: Config, s: State, step: Step, agreed: Block)
    requires Inv(c, s, agreed) && Enabled(c, s, step) && Fresh(c, s, step, agreed)
    ensures Inv(c, Apply(c, s, step), agreed)
  {
    hide Inv, Apply, Enabled, Fresh;
    match step
    case Mine(st) => MineKeeps(c, s, st, agreed);
    case Theirs(st) => TheirsKeeps(c, s, st, agreed);
    case Intersect(st) => IntersectKeeps(c, s, st, agreed);
    case Report(i) => ReportKeeps(c, s, i, agreed);
    case Settle(i) => SettleKeeps(c, s, i, agreed);
  }

  // ---------------------------------------------------------------- all runs

  /** An interleaving of all threads of both parties, with fresh random blocks. */
  ghost predicate IsRun(c: Config, steps: seq<Step>, states: seq<State>, agreed: Block)
    requires c.Valid()
  {
    && |states| == |steps| + 1 && states[0] == Init(c.psi.n)
    && forall k :: 0 <= k < |steps| ==> Goes(c, states[k], steps[k], states[k + 1], agreed)
  }

  ghost predicate Goes(c: Config, s: State, step: Step, t: State, agreed: Block)
    requires c.Valid()
  {
    Sized(c, s) && Enabled(c, s, step) && Fresh(c, s, step, agreed) && t == Apply(c, s, step)
  }

  lemma {:induction false} RunInv(c: Config, steps: seq<Step>, states: seq<State>, agreed: Block, k: nat)
    requires c.Valid() && c.Honest(agreed) && IsRun(c, steps, states, agreed) && k < |states|
    ensures Inv(c, states[k], agreed)
  {
    hide Inv, Apply, Enabled, Fresh, Config.Valid, Config.Honest;
    if k == 0 {
      InitInv(c, agreed);
    } else {
      RunInv(c, steps, states, agreed, k - 1);
      assert Goes(c, states[k - 1], steps[k - 1], states[k], agreed);
      StepInv(c, states[k - 1], steps[k - 1], agreed);
    }
  }

  /**
    With two honest parties, in every interleaving: the output promise is set at most once, by the thread that owns the
    agreed value, never to an exception; and the miss counter stays below the bucket's size.
   */
  lemma OutputSetAtMostOnce(c: Config, steps: seq<Step>, states: seq<State>, agreed: Block, k: nat)
    requires c.Valid() && c.Honest(agreed) && IsRun(c, steps, states, agreed) && k < |states|
    ensures states[k].outputs == [] || states[k].outputs == [Owner(c)]
    ensures states[k].exceptions == 0 && states[k].misses < c.psi.n
  {
    RunInv(c, steps, states, agreed, k);
    MissesFit(c, states[k]);
  }

  predicate AllFinished(s: State) {
    forall i :: 0 <= i < |s.ends| ==> s.ends[i] == Finished
  }

  /** Once all threads are through, it has been set exactly once, and all the others have missed. */
  lemma OutputSetOnce(c: Config, steps: seq<Step>, states: seq<State>, agreed: Block, k: nat)
    requires c.Valid() && c.Honest(agreed) && IsRun(c, steps, states, agreed) && k < |states| && AllFinished(states[k])
    ensures states[k].outputs == [Owner(c)] && states[k].exceptions == 0 && states[k].misses == c.psi.n - 1
  {
    RunInv(c, steps, states, agreed, k);
    var others := Range(0, c.psi.n) - {Owner(c)};
    assert Range(0, c.psi.n) == others + {Owner(c)};
    assert Misses(c, states[k]) == others;
  }

  /** The intersection's inputs are named after what the slots hand out. */
  predicate InputsAgree(c: Config, s: State)
    requires c.psi.wordSize <= 128 && Sized(c, s) && |c.psi.xs| == |c.psi.ys| == c.psi.n == c.mine.n == c.theirs.n
  {
    && (forall i :: 0 <= i < c.psi.n && s.mine.places[i].Got? ==> Entered(c, s, i))
    && (forall i :: 0 <= i < c.psi.n && s.theirs.values[i].Some? ==> Offered(c, s, i))
  }

  lemma AllPromised(c: Slots.Config, s: Slots.State, i: nat)
    requires Slots.Inv(c, s) && Slots.AllGot(s) && i < c.n
    ensures s.values[i].Some?
  {
    Slots.PromisesSetOnce(c, s, i);
    Slots.Taken(c.order, c.n, i);
    var k :| 0 <= k < c.n && c.order[k] == i;
    assert Slots.SlotOk(c, s, k);
  }
}
