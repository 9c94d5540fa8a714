/**
  How the evaluation threads of a bucket exchange their values: each stores its value in a randomly
  assigned slot, replacing repeated values, and then takes the value of its own slot.
 */
module SlotProtocol {
  import opened Blocks
  import opened Counting
  import opened Wrappers

  datatype Place = Evaluated | Stored(slot: nat, value: Block) | Waiting | Got(value: Block)

  /**
    The slot counter, the promises (times set, and value), the threads, and history: which thread
    took the k-th slot, and the value it stored.
   */
  datatype State = State(head: nat, promised: seq<nat>, values: seq<Option<Block>>, places: seq<Place>, who: seq<nat>,
                         stored: seq<Block>)

  /** The slots in random order, and the value that each thread has evaluated. */
  datatype Config = Config(n: nat, order: seq<nat>, psi: seq<Block>) {
    ghost predicate Valid() {
      && |order| == |psi| == n
      && (forall k :: 0 <= k < n ==> order[k] < n)
      && (forall k, l :: 0 <= k < l < n ==> order[k] != order[l])
    }
  }

  /**
    A thread takes a slot under the lock, with what its generator would draw next; sets the slot's promise; gets its
    own.
   */
  datatype Step = Store(i: nat, draws: seq<Block>) | SetPromise(i: nat) | Get(i: nat)

  function Init(n: nat): State {
    State(0, seq(n, _ => 0), seq(n, _ => None), seq(n, _ => Evaluated), [], [])
  }

  predicate Sized(c: Config, s: State) {
    |s.promised| == |s.values| == |s.places| == c.n == |c.order| == |c.psi| && |s.stored| == |s.who| == s.head
  }

  predicate Enabled(c: Config, s: State, step: Step)
    requires Sized(c, s)
  {
    step.i < c.n &&
    match step
    case Store(i, draws) => s.places[i] == Evaluated && s.head < c.n && |draws| >= s.head
    case SetPromise(i) => s.places[i].Stored? && s.places[i].slot < c.n
    case Get(i) => s.places[i] == Waiting && s.values[i].Some?
  }

  /**
    The value a thread stores: scanning the stored values in order, it draws anew at every one that its value equals.
   */
  function Scan(value: Block, stored: seq<Block>, draws: seq<Block>): Block
    requires |draws| >= |stored|
    decreases |stored|
  {
    if stored == [] then value
    else if value == stored[0] then Scan(draws[0], stored[1..], draws[1..])
    else Scan(value, stored[1..], draws)
  }

  /** The loop over the values stored so far. */
  method ReplaceLoop(value: Block, stored: seq<Block>, draws: seq<Block>) returns (r: Block)
    requires |draws| >= |stored|
    ensures r == Scan(value, stored, draws)
  {
    r := value;
    var used := 0;
    for k := 0 to |stored|
      invariant used <= k && Scan(value, stored, draws) == Scan(r, stored[k..], draws[used..])
    {
      assert stored[k..][1..] == stored[k + 1..] && draws[used..][1..] == draws[used + 1..];
      if r == stored[k] {
        r := draws[used];
        used := used + 1;
      }
    }
  }

  /** A fresh draw is kept: then the value stored is the own one, or the first draw if the own one is there already. */
  lemma {:induction false} FreshScan(value: Block, stored: seq<Block>, draws: seq<Block>)
    requires |draws| >= |stored| && forall k :: 0 <= k < |draws| ==> draws[k] !in stored
    ensures Scan(value, stored, draws) == if value in stored then draws[0] else value
    decreases |stored|
  {
    if stored != [] {
      if value == stored[0] {
        FreshScan(draws[0], stored[1..], draws[1..]);
      } else {
        FreshScan(value, stored[1..], draws);
      }
    }
  }

  /**
    The scan value by value: values[k] is compared with the k-th stored value, and where they are equal the next draw
    takes its place; used[k] draws are used up before.
   */
  ghost predicate IsScan(value: Block, stored: seq<Block>, draws: seq<Block>, values: seq<Block>, used: seq<nat>) {
    && |values| == |used| == |stored| + 1 && values[0] == value && used[0] == 0
    && forall k: nat :: k < |stored| ==> ScanStep(stored, draws, values, used, k)
  }

  ghost predicate ScanStep(stored: seq<Block>, draws: seq<Block>, values: seq<Block>, used: seq<nat>, k: nat)
    requires k < |stored| && |values| == |used| == |stored| + 1
  {
    if values[k] == stored[k] then
      used[k] < |draws| && values[k + 1] == draws[used[k]] && used[k + 1] == used[k] + 1
    else values[k + 1] == values[k] && used[k + 1] == used[k]
  }

  /** The value stored is the last one of such a scan. */
  lemma {:induction false} ScanIsLast(value: Block, stored: seq<Block>, draws: seq<Block>, values: seq<Block>,
                                      used: seq<nat>)
    requires |draws| >= |stored| && IsScan(value, stored, draws, values, used)
    ensures Scan(value, stored, draws) == values[|stored|]
  {
    ScanFrom(stored, draws, values, used, 0);
    assert stored[0..] == stored && draws[0..] == draws;
  }

  lemma {:induction false} ScanFrom(stored: seq<Block>, draws: seq<Block>, values: seq<Block>, used: seq<nat>, k: nat)
    requires |values| == |used| == |stored| + 1 && k <= |stored| && used[k] <= k && |draws| >= |stored|
    requires forall j: nat :: j < |stored| ==> ScanStep(stored, draws, values, used, j)
    ensures Scan(values[k], stored[k..], draws[used[k]..]) == values[|stored|]
    decreases |stored| - k
  {
    if k < |stored| {
      assert ScanStep(stored, draws, values, used, k);
      ScanFrom(stored, draws, values, used, k + 1);
      assert stored[k..][1..] == stored[k + 1..] && draws[used[k]..][1..] == draws[used[k] + 1..];
    }
  }

  /**
    How many of the stored values the kept value was not compared with: those up to the last one that made the scan
    draw.
   */
  function Passed(value: Block, stored: seq<Block>, draws: seq<Block>): (n: nat)
    requires |draws| >= |stored|
    ensures n <= |stored|
    decreases |stored|
  {
    if stored == [] then 0
    else if value == stored[0] then 1 + Passed(draws[0], stored[1..], draws[1..])
    else
      var n := Passed(value, stored[1..], draws);
      if n == 0 then 0 else n + 1
  }

  /**
    The value stored is new exactly if it differs from the values before the last match: later ones it was compared
    with.
   */
  lemma {:induction false} ScanIsNewIff(value: Block, stored: seq<Block>, draws: seq<Block>)
    requires |draws| >= |stored|
    ensures var r, n := Scan(value, stored, draws), Passed(value, stored, draws);
            && r !in stored[n..] && (r !in stored <==> r !in stored[..n])
            && (n == 0 <==> value !in stored) && (n == 0 ==> r == value)
    decreases |stored|
  {
    if stored != [] {
      var rest := stored[1..];
      assert stored == [stored[0]] + rest;
      if value == stored[0] {
        ScanIsNewIff(draws[0], rest, draws[1..]);
        Shifted(stored, Scan(draws[0], rest, draws[1..]), Passed(draws[0], rest, draws[1..]));
      } else {
        ScanIsNewIff(value, rest, draws);
        Shifted(stored, Scan(value, rest, draws), Passed(value, rest, draws));
      }
    }
  }

  lemma Shifted(stored: seq<Block>, r: Block, n: nat)
    requires 0 < |stored| && n <= |stored| - 1
    ensures stored[n + 1..] == stored[1..][n..]
    ensures r !in stored[n + 1..] ==> (r !in stored <==> r !in stored[..n + 1])
  {
    assert stored == stored[..n + 1] + stored[n + 1..];
  }

  /** A draw is compared with the later values only: one that repeats an earlier value is stored all the same. */
  lemma RedrawMayRepeat(a: Block, b: Block)
    requires a != b
    ensures Scan(b, [a, b], [a, a]) == a
  {
    assert [a, b][1..] == [b] && [a, a][1..] == [a];
    assert Scan(b, [a, b], [a, a]) == Scan(b, [b], [a, a]) == Scan(a, [], [a]);
  }

  function Apply(c: Config, s: State, step: Step): State
    requires Sized(c, s) && Enabled(c, s, step)
  {
    match step
    case Store(i, draws) =>
      var v := Scan(c.psi[i], s.stored, draws);
      s.(head := s.head + 1, places := s.places[i := Stored(c.order[s.head], v)], who := s.who + [i],
         stored := s.stored + [v])
    case SetPromise(i) =>
      var slot := s.places[i].slot;
      s.(promised := s.promised[slot := s.promised[slot] + 1], values := s.values[slot := Some(s.places[i].value)],
         places := s.places[i := Waiting])
    case Get(i) => s.(places := s.places[i := Got(s.values[i].value)])
  }

  /** The k-th slot: its promise is set exactly if its thread has gone on. */
  ghost predicate SlotOk(c: Config, s: State, k: nat)
    requires c.Valid() && Sized(c, s) && k < s.head <= c.n && s.who[k] < c.n
  {
    var place, slot := s.places[s.who[k]], c.order[k];
    if place.Stored? then place == Stored(slot, s.stored[k]) && s.promised[slot] == 0 && s.values[slot] == None
    else place != Evaluated && s.promised[slot] == 1 && s.values[slot] == Some(s.stored[k])
  }

  ghost predicate GotOk(c: Config, s: State, i: nat)
    requires c.Valid() && Sized(c, s) && i < c.n && s.head <= c.n
  {
    s.places[i].Got? ==> exists k: nat :: k < s.head && c.order[k] == i && s.places[i].value == s.stored[k]
  }

  ghost predicate Inv(c: Config, s: State) {
    && c.Valid() && Sized(c, s) && s.head <= c.n
    && (forall k :: 0 <= k < s.head ==> s.who[k] < c.n)
    && (forall k, l :: 0 <= k < l < s.head ==> s.who[k] != s.who[l])
    && (forall i: nat :: i < c.n ==> (i in s.who <==> s.places[i] != Evaluated))
    && (forall k: nat :: k < s.head ==> SlotOk(c, s, k))
    && (forall k: nat :: s.head <= k < c.n ==> s.promised[c.order[k]] == 0 && s.values[c.order[k]] == None)
    && (forall i: nat :: i < c.n ==> GotOk(c, s, i))
  }

  lemma InitInv(c: Config)
    requires c.Valid()
    ensures Inv(c, Init(c.n))
  {
  }

  lemma StoreInv(c: Config, s: State, i: nat, draws: seq<Block>)
    requires Inv(c, s) && Enabled(c, s, Store(i, draws))
    ensures Inv(c, Apply(c, s, Store(i, draws)))
  {
    var t := Apply(c, s, Store(i, draws));
    assert i !in s.who;
    forall k: nat | k < t.head
      ensures SlotOk(c, t, k)
    {
      if k < s.head { assert SlotOk(c, s, k); }
    }
    forall j: nat | j < c.n
      ensures GotOk(c, t, j)
    {
      assert GotOk(c, s, j);
      if s.places[j].Got? {
        var k: nat :| k < s.head && c.order[k] == j && s.places[j].value == s.stored[k];
        assert t.stored[k] == s.stored[k];
      }
    }
  }

  /** The thread's slot in the assignment. */
  lemma SlotIndex(c: Config, s: State, i: nat) returns (j: nat)
    requires Inv(c, s) && i < c.n && s.places[i].Stored?
    ensures j < s.head && s.who[j] == i && s.places[i] == Stored(c.order[j], s.stored[j])
  {
    j :| 0 <= j < s.head && s.who[j] == i;
    assert SlotOk(c, s, j);
  }

  lemma SetInv(c: Config, s: State, i: nat)
    requires Inv(c, s) && Enabled(c, s, SetPromise(i))
    ensures Inv(c, Apply(c, s, SetPromise(i)))
  {
    var j := SlotIndex(c, s, i);
    var t := Apply(c, s, SetPromise(i));
    forall k: nat | k < t.head
      ensures SlotOk(c, t, k)
    {
      assert SlotOk(c, s, k);
    }
    forall l: nat | l < c.n
      ensures GotOk(c, t, l)
    {
      assert GotOk(c, s, l);
    }
  }

  /** The slot that carries a thread's own index has been set by someone. */
  lemma SetBy(c: Config, s: State, i: nat) returns (k: nat)
    requires Inv(c, s) && i < c.n && s.values[i].Some?
    ensures k < s.head && c.order[k] == i && s.values[i] == Some(s.stored[k])
  {
    Taken(c.order, c.n, i);
    k :| 0 <= k < c.n && c.order[k] == i;
    if k < s.head { assert SlotOk(c, s, k); }
  }

  lemma GetInv(c: Config, s: State, i: nat)
    requires Inv(c, s) && Enabled(c, s, Get(i))
    ensures Inv(c, Apply(c, s, Get(i)))
  {
    var t := Apply(c, s, Get(i));
    var j := SetBy(c, s, i);
    forall k: nat | k < t.head
      ensures SlotOk(c, t, k)
    {
      assert SlotOk(c, s, k);
    }
    forall l: nat | l < c.n
      ensures GotOk(c, t, l)
    {
      assert GotOk(c, s, l);
    }
  }

  lemma StepInv(c: Config, s: State, step: Step)
    requires Inv(c, s) && Enabled(c, s, step)
    ensures Inv(c, Apply(c, s, step))
  {
    match step
    case Store(i, draws) => StoreInv(c, s, i, draws);
    case SetPromise(i) => SetInv(c, s, i);
    case Get(i) => GetInv(c, s, i);
  }

  ghost predicate IsRun(c: Config, steps: seq<Step>, states: seq<State>) {
    && |states| == |steps| + 1 && states[0] == Init(c.n)
    && forall k :: 0 <= k < |steps| ==>
         Sized(c, states[k]) && Enabled(c, states[k], steps[k]) && states[k + 1] == Apply(c, states[k], steps[k])
  }

  lemma {:induction false} RunInv(c: Config, steps: seq<Step>, states: seq<State>, k: nat)
    requires c.Valid() && IsRun(c, steps, states) && k < |states|
    ensures Inv(c, states[k])
  {
    if k == 0 {
      InitInv(c);
    } else {
      RunInv(c, steps, states, k - 1);
      StepInv(c, states[k - 1], steps[k - 1]);
    }
  }

  predicate AllGot(s: State) {
    forall i :: 0 <= i < |s.places| ==> s.places[i].Got?
  }

  /** In every interleaving no promise is set twice. */
  lemma PromisesSetAtMostOnce(c: Config, steps: seq<Step>, states: seq<State>, k: nat, i: nat)
    requires c.Valid() && IsRun(c, steps, states) && k < |states| && i < c.n
    ensures |states[k].promised| == c.n && states[k].promised[i] <= 1
  {
    RunInv(c, steps, states, k);
    var s := states[k];
    Taken(c.order, c.n, i);
    var j :| 0 <= j < c.n && c.order[j] == i;
    if j < s.head { assert SlotOk(c, s, j); }
  }

  /** Threads that have taken a slot and not all of them: there is one more slot. */
  lemma SlotLeft(c: Config, s: State, i: nat)
    requires Inv(c, s) && i < c.n && s.places[i] == Evaluated
    ensures s.head < c.n
  {
    if s.head == c.n {
      Taken(s.who, c.n, i);
      assert false;
    }
  }

  /** n different slots below n are all slots. */
  lemma Taken(who: seq<nat>, n: nat, i: nat)
    requires |who| == n && i < n && (forall k :: 0 <= k < n ==> who[k] < n)
    requires forall k, l :: 0 <= k < l < n ==> who[k] != who[l]
    ensures i in who
  {
    AllTaken(who, 0, n);
    assert i in Elements(who);
  }

  /** No thread waits for ever: until all have their value, some step is enabled. */
  lemma NoDeadlock(c: Config, s: State) returns (step: Step)
    requires Inv(c, s) && !AllGot(s)
    ensures Enabled(c, s, step)
  {
    if i :| 0 <= i < c.n && s.places[i] == Evaluated {
      SlotLeft(c, s, i);
      return Store(i, seq(s.head, _ => ZERO_BLOCK));
    }
    if i :| 0 <= i < c.n && s.places[i].Stored? {
      var j := SlotIndex(c, s, i);
      return SetPromise(i);
    }
    var i :| 0 <= i < c.n && s.places[i] == Waiting;
    Taken(c.order, c.n, i);
    var k :| 0 <= k < c.n && c.order[k] == i;
    if k >= s.head {
      AllIn(c, s);
      assert false;
    }
    assert SlotOk(c, s, k);
    step := Get(i);
  }

  /** When every thread has taken a slot, all slots are taken. */
  lemma AllIn(c: Config, s: State)
    requires Inv(c, s) && forall i: nat :: i < c.n ==> s.places[i] != Evaluated
    ensures s.head == c.n
  {
    DistinctSize(s.who);
    assert Range(0, c.n) <= Elements(s.who);
    SubsetSize(Range(0, c.n), Elements(s.who));
  }

  /** When all threads have their value, each promise has been set exactly once. */
  lemma PromisesSetOnce(c: Config, s: State, i: nat)
    requires Inv(c, s) && AllGot(s) && i < c.n
    ensures s.promised[i] == 1 && s.head == c.n
  {
    AllIn(c, s);
    Taken(c.order, c.n, i);
    var k :| 0 <= k < c.n && c.order[k] == i;
    assert SlotOk(c, s, k);
  }

  predicate FreshDraws(draws: seq<Block>, others: seq<Block>) {
    forall k :: 0 <= k < |draws| ==> draws[k] !in others
  }

  /** The replacements drawn in a run are new: different from all evaluated values and all stored ones. */
  ghost predicate FreshRun(c: Config, steps: seq<Step>, states: seq<State>)
    requires IsRun(c, steps, states) && c.Valid()
  {
    forall k :: 0 <= k < |steps| && steps[k].Store? ==>
      FreshDraws(steps[k].draws, c.psi) && FreshDraws(steps[k].draws, states[k].stored)
  }

  /**
    Stored values are pairwise different, the values of all threads so far are among them, and the rest are
    replacements.
   */
  ghost predicate Distinct(c: Config, s: State)
    requires Sized(c, s)
  {
    && (forall k, l :: 0 <= k < l < |s.stored| ==> s.stored[k] != s.stored[l])
    && (forall k :: 0 <= k < |s.who| ==> s.who[k] < c.n && c.psi[s.who[k]] in s.stored)
  }

  lemma {:induction false} RunDistinct(c: Config, steps: seq<Step>, states: seq<State>, k: nat)
    requires c.Valid() && IsRun(c, steps, states) && FreshRun(c, steps, states) && k < |states|
    ensures Sized(c, states[k]) && Distinct(c, states[k])
  {
    hide SlotOk, GotOk, Scan, Config.Valid;
    RunInv(c, steps, states, k);
    if k > 0 {
      RunDistinct(c, steps, states, k - 1);
      RunInv(c, steps, states, k - 1);
      var s, t, step := states[k - 1], states[k], steps[k - 1];
      if step.Store? {
        FreshScan(c.psi[step.i], s.stored, step.draws);
        forall l | 0 <= l < |t.who|
          ensures c.psi[t.who[l]] in t.stored
        {
          if l < |s.who| {
            assert c.psi[s.who[l]] in s.stored;
          } else {
            assert t.stored[|s.stored|] == Scan(c.psi[step.i], s.stored, step.draws);
          }
        }
      }
    }
  }

  /** Every value evaluated by some thread is handed to exactly one thread in the end. */
  lemma EachValueHandedOnce(c: Config, steps: seq<Step>, states: seq<State>, k: nat, i: nat) returns (owner: nat)
    requires c.Valid() && IsRun(c, steps, states) && FreshRun(c, steps, states) && k < |states| && AllGot(states[k])
    requires i < c.n
    ensures |states[k].places| == c.n && owner < c.n && states[k].places[owner] == Got(c.psi[i])
    ensures forall j: nat :: j < c.n && states[k].places[j] == Got(c.psi[i]) ==> j == owner
  {
    var s := states[k];
    RunInv(c, steps, states, k);
    RunDistinct(c, steps, states, k);
    assert s.places[i] != Evaluated && i in s.who;
    var l: nat :| l < |s.stored| && s.stored[l] == c.psi[i];
    owner := c.order[l];
    assert GotOk(c, s, owner);
    forall j: nat | j < c.n && s.places[j] == Got(c.psi[i])
      ensures j == owner
    {
      assert GotOk(c, s, j);
    }
  }
}
