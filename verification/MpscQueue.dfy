/**
  The lock-free queue of many producers and one consumer, as a state machine whose steps are the
  atomic accesses of enqueue and dequeue.
 */
module MpscQueue {
  import opened Wrappers

  type Address = nat

  /** A node: its value, tagged with the producer that enqueued it, and its link. */
  datatype Node = Node(producer: nat, value: int, next: Option<Address>)

  datatype Item = Item(producer: nat, value: int)

  /** Where a producer is inside enqueue. */
  datatype Producing = Prepared(node: Address) | Exchanged(prev: Address, node: Address)

  /** Where the consumer is inside dequeue. */
  datatype Consuming = Idle | Got(next: Address) | Moved(freed: Address)

  /**
    The shared memory, the threads, and history: `chain` lists the nodes from the consumer's end to
    the head in the order of the exchanges, `exchanged` and `dequeued` the values so far. `fault`
    records a use of memory that is not allocated.
   */
  datatype State = State(heap: map<Address, Node>, head: Address, tail: Address, producers: map<nat, Producing>,
                         consumer: Consuming, chain: seq<Address>, exchanged: seq<Item>, dequeued: seq<Item>,
                         fault: bool)

  datatype Step =
    | Prepare(producer: nat, node: Address, value: int)
    | Exchange(producer: nat)
    | Link(producer: nat)
    | LoadNext
    | Take
    | Delete

  function Init(front: Address): State {
    State(map[front := Node(0, 0, None)], front, front, map[], Idle, [front], [], [], false)
  }

  /** The thread is at this step; a new node is not allocated yet, but its address may have been used before. */
  predicate Enabled(s: State, step: Step) {
    match step
    case Prepare(p, a, _) => p !in s.producers && a !in s.heap
    case Exchange(p) => p in s.producers && s.producers[p].Prepared?
    case Link(p) => p in s.producers && s.producers[p].Exchanged?
    case LoadNext => s.consumer.Idle?
    case Take => s.consumer.Got?
    case Delete => s.consumer.Moved?
  }

  function Apply(s: State, step: Step): State
    requires Enabled(s, step)
  {
    match step
    case Prepare(p, a, v) => s.(heap := s.heap[a := Node(p, v, None)], producers := s.producers[p := Prepared(a)])
    case Exchange(p) =>
      var a := s.producers[p].node;
      if a !in s.heap then s.(fault := true)
      else s.(head := a, producers := s.producers[p := Exchanged(s.head, a)], chain := s.chain + [a],
              exchanged := s.exchanged + [Item(s.heap[a].producer, s.heap[a].value)])
    case Link(p) =>
      var prev, a := s.producers[p].prev, s.producers[p].node;
      if prev !in s.heap then s.(fault := true)
      else s.(heap := s.heap[prev := s.heap[prev].(next := Some(a))], producers := s.producers - {p})
    case LoadNext =>
      if s.tail !in s.heap then s.(fault := true)
      else if s.heap[s.tail].next == None then s
      else s.(consumer := Got(s.heap[s.tail].next.value))
    case Take =>
      var n := s.consumer.next;
      if n !in s.heap || s.chain == [] then s.(fault := true)
      else s.(tail := n, consumer := Moved(s.tail), chain := s.chain[1..],
              dequeued := s.dequeued + [Item(s.heap[n].producer, s.heap[n].value)])
    case Delete =>
      if s.consumer.freed !in s.heap then s.(fault := true)
      else s.(heap := s.heap - {s.consumer.freed}, consumer := Idle)
  }

  /** A producer has exchanged the head but not yet stored the link from chain[k]. */
  predicate IsPending(s: State, p: nat, k: nat)
    requires k + 1 < |s.chain|
  {
    p in s.producers && s.producers[p] == Exchanged(s.chain[k], s.chain[k + 1])
  }

  /** The link from chain[k] to its successor is stored, or some producer still has to store it. */
  ghost predicate LinkOk(s: State, k: nat)
    requires k + 1 < |s.chain| && s.chain[k] in s.heap
  {
    || s.heap[s.chain[k]].next == Some(s.chain[k + 1])
    || (s.heap[s.chain[k]].next == None && exists p :: IsPending(s, p, k))
  }

  /** Each producer owns its own node: unlinked and outside the chain, or the target of one unset link in it. */
  ghost predicate ProducerOk(s: State, p: nat)
    requires p in s.producers
  {
    match s.producers[p]
    case Prepared(a) => a in s.heap && a !in s.chain && s.heap[a].next == None && s.heap[a].producer == p
    case Exchanged(prev, a) =>
      exists k: nat ::
        k + 1 < |s.chain| && s.chain[k] == prev && s.chain[k + 1] == a && prev in s.heap && s.heap[prev].next == None
  }

  function Remaining(s: State): seq<Item>
    requires forall k :: 0 <= k < |s.chain| ==> s.chain[k] in s.heap
  {
    seq(|s.chain|, k requires 0 <= k < |s.chain| => Item(s.heap[s.chain[k]].producer, s.heap[s.chain[k]].value))
  }

  ghost predicate Inv(s: State) {
    && !s.fault && |s.chain| > 0
    && (forall k :: 0 <= k < |s.chain| ==> s.chain[k] in s.heap)
    && (forall k, l :: 0 <= k < l < |s.chain| ==> s.chain[k] != s.chain[l])
    && s.chain[0] == s.tail && s.chain[|s.chain| - 1] == s.head && s.heap[s.head].next == None
    && (forall k: nat :: k + 1 < |s.chain| ==> LinkOk(s, k))
    && (forall p :: p in s.producers ==> ProducerOk(s, p))
    && (forall p, q :: p in s.producers && q in s.producers && p != q ==> s.producers[p].node != s.producers[q].node)
    && ConsumerOk(s)
    && s.exchanged == s.dequeued + Remaining(s)[1..]
  }

  ghost predicate ConsumerOk(s: State) {
    match s.consumer
    case Idle => true
    case Got(n) => |s.chain| > 1 && n == s.chain[1] && s.chain[0] in s.heap && s.heap[s.chain[0]].next == Some(n)
    case Moved(f) => f in s.heap && f !in s.chain && forall p :: p in s.producers ==> s.producers[p].node != f
  }

  lemma InitInv(front: Address)
    ensures Inv(Init(front))
  {
  }

  /** Every atomic step of any thread keeps the invariant. */
  lemma StepInv(s: State, step: Step)
    requires Inv(s) && Enabled(s, step)
    ensures Inv(Apply(s, step))
  {
    match step
    case Prepare(p, a, v) => PrepareInv(s, p, a, v);
    case Exchange(p) => ExchangeInv(s, p);
    case Link(p) => LinkInv(s, p);
    case LoadNext => LoadInv(s);
    case Take => TakeInv(s);
    case Delete => DeleteInv(s);
  }

  lemma PrepareInv(s: State, p: nat, a: Address, v: int)
    requires Inv(s) && Enabled(s, Prepare(p, a, v))
    ensures Inv(Apply(s, Prepare(p, a, v)))
  {
    hide LinkOk, ProducerOk;
    PrepareLinks(s, p, a, v);
    PrepareProducers(s, p, a, v);
    forall q | q in s.producers
      ensures s.producers[q].node in s.heap
    {
      NodeIsAllocated(s, q);
    }
    assert Remaining(Apply(s, Prepare(p, a, v))) == Remaining(s);
  }

  lemma NodeIsAllocated(s: State, p: nat)
    requires Inv(s) && p in s.producers
    ensures s.producers[p].node in s.heap
  {
    hide LinkOk;
    assert ProducerOk(s, p);
  }

  lemma PrepareLinks(s: State, p: nat, a: Address, v: int)
    requires Inv(s) && Enabled(s, Prepare(p, a, v))
    ensures forall k: nat :: k + 1 < |Apply(s, Prepare(p, a, v)).chain| ==> LinkOk(Apply(s, Prepare(p, a, v)), k)
  {
    hide ProducerOk;
    var t := Apply(s, Prepare(p, a, v));
    forall k: nat | k + 1 < |t.chain|
      ensures LinkOk(t, k)
    {
      assert LinkOk(s, k);
      if q :| IsPending(s, q, k) { assert IsPending(t, q, k); }
    }
  }

  lemma PrepareProducers(s: State, p: nat, a: Address, v: int)
    requires Inv(s) && Enabled(s, Prepare(p, a, v))
    ensures forall q :: q in Apply(s, Prepare(p, a, v)).producers ==> ProducerOk(Apply(s, Prepare(p, a, v)), q)
  {
    hide LinkOk;
    var t := Apply(s, Prepare(p, a, v));
    forall q | q in t.producers
      ensures ProducerOk(t, q)
    {
      if q != p { assert ProducerOk(s, q); }
    }
  }

  lemma ExchangeInv(s: State, p: nat)
    requires Inv(s) && Enabled(s, Exchange(p))
    ensures Inv(Apply(s, Exchange(p)))
  {
    assert ProducerOk(s, p);
    var a := s.producers[p].node;
    var t := Apply(s, Exchange(p));
    forall k: nat | k + 1 < |t.chain|
      ensures LinkOk(t, k)
    {
      ExchangeKeepsLink(s, t, p, k);
    }
    forall q | q in t.producers
      ensures ProducerOk(t, q)
    {
      ExchangeKeepsProducer(s, t, p, q);
    }
    assert Remaining(t) == Remaining(s) + [Item(s.heap[a].producer, s.heap[a].value)];
  }

  lemma ExchangeKeepsLink(s: State, t: State, p: nat, k: nat)
    requires Inv(s) && Enabled(s, Exchange(p)) && t == Apply(s, Exchange(p)) && k + 1 < |t.chain|
    ensures t.chain[k] in t.heap && LinkOk(t, k)
  {
    assert ProducerOk(s, p);
    if k + 1 < |s.chain| {
      assert LinkOk(s, k);
      if q :| IsPending(s, q, k) { assert IsPending(t, q, k); }
    } else {
      assert IsPending(t, p, k);
    }
  }

  lemma ExchangeKeepsProducer(s: State, t: State, p: nat, q: nat)
    requires Inv(s) && Enabled(s, Exchange(p)) && t == Apply(s, Exchange(p)) && q in t.producers
    ensures ProducerOk(t, q)
  {
    assert ProducerOk(s, p);
    var n := |s.chain|;
    if q != p {
      assert ProducerOk(s, q);
      if s.producers[q].Exchanged? {
        var k: nat :| k + 1 < n && s.chain[k] == s.producers[q].prev && s.chain[k + 1] == s.producers[q].node;
        assert t.chain[k] == s.chain[k] && t.chain[k + 1] == s.chain[k + 1];
      }
    } else {
      assert t.chain[n - 1] == s.head && t.chain[n] == s.producers[p].node;
    }
  }

  lemma LinkInv(s: State, p: nat)
    requires Inv(s) && Enabled(s, Link(p))
    ensures Inv(Apply(s, Link(p)))
  {
    assert ProducerOk(s, p);
    var prev, a := s.producers[p].prev, s.producers[p].node;
    var j: nat :| j + 1 < |s.chain| && s.chain[j] == prev && s.chain[j + 1] == a;
    var t := Apply(s, Link(p));
    forall k: nat | k + 1 < |t.chain|
      ensures LinkOk(t, k)
    {
      LinkKeepsLink(s, t, p, j, k);
    }
    forall q | q in t.producers
      ensures ProducerOk(t, q)
    {
      LinkKeepsProducer(s, t, p, j, q);
    }
    assert Remaining(t) == Remaining(s);
  }

  lemma LinkKeepsLink(s: State, t: State, p: nat, j: nat, k: nat)
    requires Inv(s) && Enabled(s, Link(p)) && t == Apply(s, Link(p)) && j + 1 < |s.chain|
    requires s.producers[p] == Exchanged(s.chain[j], s.chain[j + 1])
    requires k + 1 < |s.chain|
    ensures s.chain[k] in t.heap && LinkOk(t, k)
  {
    assert LinkOk(s, k);
    if k != j {
      if q :| IsPending(s, q, k) { assert IsPending(t, q, k); }
    }
  }

  lemma LinkKeepsProducer(s: State, t: State, p: nat, j: nat, q: nat)
    requires Inv(s) && Enabled(s, Link(p)) && t == Apply(s, Link(p)) && j + 1 < |s.chain|
    requires s.producers[p] == Exchanged(s.chain[j], s.chain[j + 1])
    requires q in t.producers
    ensures ProducerOk(t, q)
  {
    hide LinkOk;
    assert ProducerOk(s, q);
    if s.producers[q].Exchanged? {
      var k: nat :| k + 1 < |s.chain| && s.chain[k] == s.producers[q].prev && s.chain[k + 1] == s.producers[q].node;
      assert k != j;
      assert t.chain[k] == s.producers[q].prev;
    } else {
      assert s.producers[q].node != s.chain[j];
    }
  }

  lemma LoadInv(s: State)
    requires Inv(s) && Enabled(s, LoadNext)
    ensures Inv(Apply(s, LoadNext))
  {
    var t := Apply(s, LoadNext);
    if t != s {
      assert LinkOk(s, 0);
      KeepsProducers(s, t);
    }
  }

  /** Only the consumer's place changed. */
  lemma KeepsProducers(s: State, t: State)
    requires Inv(s) && t == s.(consumer := t.consumer)
    ensures forall k: nat :: k + 1 < |t.chain| ==> LinkOk(t, k)
    ensures forall p :: p in t.producers ==> ProducerOk(t, p)
  {
    forall k: nat | k + 1 < |t.chain|
      ensures LinkOk(t, k)
    {
      assert LinkOk(s, k);
      if q :| IsPending(s, q, k) { assert IsPending(t, q, k); }
    }
    forall p | p in t.producers
      ensures ProducerOk(t, p)
    {
      assert ProducerOk(s, p);
    }
  }

  lemma TakeLinks(s: State)
    requires Inv(s) && Enabled(s, Take)
    ensures forall k: nat :: k + 1 < |Apply(s, Take).chain| ==> LinkOk(Apply(s, Take), k)
  {
    var t := Apply(s, Take);
    hide ProducerOk;
    forall k: nat | k + 1 < |t.chain|
      ensures LinkOk(t, k)
    {
      var j := k + 1;
      assert LinkOk(s, j);
      if q :| IsPending(s, q, j) { assert IsPending(t, q, k); }
    }
  }

  lemma TakeProducers(s: State)
    requires Inv(s) && Enabled(s, Take)
    ensures forall p :: p in Apply(s, Take).producers ==>
      ProducerOk(Apply(s, Take), p) && Apply(s, Take).producers[p].node != s.tail
  {
    var t := Apply(s, Take);
    hide LinkOk;
    forall p | p in t.producers
      ensures ProducerOk(t, p) && t.producers[p].node != s.tail
    {
      assert ProducerOk(s, p);
      if s.producers[p].Exchanged? {
        var k: nat :| k + 1 < |s.chain| && s.chain[k] == s.producers[p].prev && s.chain[k + 1] == s.producers[p].node;
        assert k > 0;
        assert t.chain[k - 1] == s.chain[k] && t.chain[k] == s.chain[k + 1];
      }
    }
  }

  lemma TakeInv(s: State)
    requires Inv(s) && Enabled(s, Take)
    ensures Inv(Apply(s, Take))
  {
    hide LinkOk, ProducerOk;
    var t := Apply(s, Take);
    TakeLinks(s);
    TakeProducers(s);
    assert Remaining(t) == Remaining(s)[1..];
    assert Remaining(s)[1..] == [Remaining(s)[1]] + Remaining(t)[1..];
  }

  lemma DeleteInv(s: State)
    requires Inv(s) && Enabled(s, Delete)
    ensures Inv(Apply(s, Delete))
  {
    hide LinkOk, ProducerOk;
    DeleteLinks(s);
    DeleteProducers(s);
    assert Remaining(Apply(s, Delete)) == Remaining(s);
  }

  lemma DeleteLinks(s: State)
    requires Inv(s) && Enabled(s, Delete)
    ensures forall k: nat :: k + 1 < |Apply(s, Delete).chain| ==> LinkOk(Apply(s, Delete), k)
  {
    hide ProducerOk;
    var t := Apply(s, Delete);
    forall k: nat | k + 1 < |t.chain|
      ensures LinkOk(t, k)
    {
      assert LinkOk(s, k);
      if q :| IsPending(s, q, k) { assert IsPending(t, q, k); }
    }
  }

  lemma DeleteProducers(s: State)
    requires Inv(s) && Enabled(s, Delete)
    ensures forall p :: p in Apply(s, Delete).producers ==> ProducerOk(Apply(s, Delete), p)
  {
    hide LinkOk;
    var t := Apply(s, Delete);
    forall p | p in t.producers
      ensures ProducerOk(t, p)
    {
      assert ProducerOk(s, p);
      if s.producers[p].Exchanged? {
        var k: nat :| k + 1 < |s.chain| && s.chain[k] == s.producers[p].prev && s.chain[k + 1] == s.producers[p].node;
        assert t.chain[k] == s.producers[p].prev;
      }
    }
  }

  /** The state sequence of a schedule: every step is enabled where it is taken. */
  ghost predicate IsRun(front: Address, steps: seq<Step>, states: seq<State>) {
    && |states| == |steps| + 1 && states[0] == Init(front)
    && forall i :: 0 <= i < |steps| ==> Enabled(states[i], steps[i]) && states[i + 1] == Apply(states[i], steps[i])
  }

  lemma {:induction false} RunInv(front: Address, steps: seq<Step>, states: seq<State>, i: nat)
    requires IsRun(front, steps, states) && i < |states|
    ensures Inv(states[i])
  {
    if i == 0 {
      InitInv(front);
    } else {
      RunInv(front, steps, states, i - 1);
      StepInv(states[i - 1], steps[i - 1]);
    }
  }

  /**
    In every interleaving: the values dequeued are a prefix of the values in the order of the head
    exchanges, and no thread ever touches freed memory.
   */
  lemma DequeuedIsPrefix(front: Address, steps: seq<Step>, states: seq<State>, i: nat)
    requires IsRun(front, steps, states) && i < |states|
    ensures states[i].dequeued <= states[i].exchanged && !states[i].fault
  {
    RunInv(front, steps, states, i);
  }

  /** The consumer never frees a node that a producer still has to link from, or owns. */
  lemma DeletedIsUnused(front: Address, steps: seq<Step>, states: seq<State>, i: nat, p: nat)
    requires IsRun(front, steps, states) && i < |states| && states[i].consumer.Moved? && p in states[i].producers
    ensures states[i].producers[p].node != states[i].consumer.freed
    ensures states[i].producers[p].Exchanged? ==> states[i].producers[p].prev != states[i].consumer.freed
  {
    RunInv(front, steps, states, i);
    assert ProducerOk(states[i], p);
  }

  /** dequeue reports an empty queue exactly when nothing is left, or the first remaining link is still to be stored. */
  lemma EmptyIff(front: Address, steps: seq<Step>, states: seq<State>, i: nat)
    requires IsRun(front, steps, states) && i < |states| && states[i].consumer.Idle?
    ensures var s := states[i];
            s.tail in s.heap && |s.chain| > 0 &&
            (s.heap[s.tail].next == None <==>
               s.dequeued == s.exchanged || (|s.chain| > 1 && exists p :: IsPending(s, p, 0)))
  {
    RunInv(front, steps, states, i);
    var s := states[i];
    if |s.chain| > 1 {
      assert LinkOk(s, 0);
      assert |Remaining(s)[1..]| > 0;
      if p :| IsPending(s, p, 0) {
        assert ProducerOk(s, p);
      }
    }
  }

  /** What one producer enqueued, in the given order. */
  function From(items: seq<Item>, p: nat): seq<Item> {
    if items == [] then []
      else From(items[..|items| - 1], p) + if items[|items| - 1].producer == p then [items[|items| - 1]] else []
  }

  lemma {:induction false} FromPrefix(a: seq<Item>, b: seq<Item>, p: nat)
    requires a <= b
    ensures From(a, p) <= From(b, p)
  {
    if |a| < |b| {
      FromPrefix(a, b[..|b| - 1], p);
    } else {
      assert a == b;
    }
  }

  /** The items of p among the first n. */
  ghost function Own(items: seq<Item>, p: nat, n: nat): (r: set<nat>)
    requires n <= |items|
    ensures forall i: nat :: i in r <==> i < n && items[i].producer == p
  {
    set i: nat | i < n && items[i].producer == p
  }

  /** One more item. */
  lemma OwnStep(items: seq<Item>, p: nat)
    requires items != []
    ensures var n: nat := |items| - 1;
            && From(items, p) == From(items[..n], p) + (if items[n].producer == p then [items[n]] else [])
            && Own(items, p, n) == Own(items[..n], p, n)
            && |Own(items, p, n + 1)| == |Own(items, p, n)| + if items[n].producer == p then 1 else 0
  {
    var n: nat := |items| - 1;
    assert Own(items, p, n) == Own(items[..n], p, n);
    assert Own(items, p, n + 1) == if items[n].producer == p then Own(items, p, n) + {n} else Own(items, p, n);
  }

  /** Exactly p's items, each in its place. */
  lemma {:induction false} FromAt(items: seq<Item>, p: nat, j: nat)
    requires j < |items| && items[j].producer == p
    ensures |From(items, p)| == |Own(items, p, |items|)|
    ensures |Own(items, p, j)| < |From(items, p)| && From(items, p)[|Own(items, p, j)|] == items[j]
  {
    hide From;
    var n := |items| - 1;
    OwnStep(items, p);
    FromCounts(items[..n], p);
    if j < n {
      FromAt(items[..n], p, j);
      assert Own(items[..n], p, j) == Own(items, p, j);
    }
  }

  lemma {:induction false} FromCounts(items: seq<Item>, p: nat)
    ensures |From(items, p)| == |Own(items, p, |items|)|
  {
    if items == [] {
      assert Own(items, p, 0) == {};
    } else {
      OwnStep(items, p);
      FromCounts(items[..|items| - 1], p);
    }
  }

  /** Each producer's values come out in the order in which it put them in. */
  lemma ProducerOrderKept(front: Address, steps: seq<Step>, states: seq<State>, i: nat, p: nat)
    requires IsRun(front, steps, states) && i < |states|
    ensures From(states[i].dequeued, p) <= From(states[i].exchanged, p)
  {
    DequeuedIsPrefix(front, steps, states, i);
    FromPrefix(states[i].dequeued, states[i].exchanged, p);
  }

  // ---------------------------------------------------------------- what was asked for

  predicate AsksFor(step: Step, p: nat) {
    step.Prepare? && step.producer == p
  }

  /** The items that p was called to enqueue, in the order of the calls. */
  function Asked(steps: seq<Step>, p: nat): seq<Item> {
    if steps == [] then []
    else
      var n := |steps| - 1;
      Asked(steps[..n], p) + if AsksFor(steps[n], p) then [Item(p, steps[n].value)] else []
  }

  /** The calls of p among the first n steps. */
  ghost function Calls(steps: seq<Step>, p: nat, n: nat): (r: set<nat>)
    requires n <= |steps|
    ensures forall k: nat :: k in r <==> k < n && AsksFor(steps[k], p)
  {
    set k: nat | k < n && AsksFor(steps[k], p)
  }

  lemma {:induction false} AskedCounts(steps: seq<Step>, p: nat)
    ensures |Asked(steps, p)| == |Calls(steps, p, |steps|)|
  {
    if steps == [] {
      assert Calls(steps, p, 0) == {};
    } else {
      var n := |steps| - 1;
      AskedCounts(steps[..n], p);
      assert Calls(steps[..n], p, n) == Calls(steps, p, n);
      assert Calls(steps, p, n + 1) == if AsksFor(steps[n], p) then Calls(steps, p, n) + {n} else Calls(steps, p, n);
    }
  }

  /** The value of every call is there, at the number of p's calls before it. */
  lemma {:induction false} AskedAt(steps: seq<Step>, p: nat, k: nat)
    requires k < |steps| && AsksFor(steps[k], p)
    ensures |Calls(steps, p, k)| < |Asked(steps, p)|
    ensures Asked(steps, p)[|Calls(steps, p, k)|] == Item(p, steps[k].value)
  {
    var n := |steps| - 1;
    AskedCounts(steps[..n], p);
    assert Calls(steps[..n], p, n) == Calls(steps, p, n);
    if k < n {
      AskedAt(steps[..n], p, k);
      assert Calls(steps[..n], p, k) == Calls(steps, p, k);
    }
  }

  /** A call that has not exchanged the head yet owns an allocated node of its producer. */
  ghost predicate OwnsNode(s: State, p: nat)
    requires p in s.producers && s.producers[p].Prepared?
  {
    var a := s.producers[p].node;
    a in s.heap && s.heap[a].producer == p && s.consumer != Moved(a)
  }

  ghost predicate AllOwn(s: State) {
    forall p :: p in s.producers && s.producers[p].Prepared? ==> OwnsNode(s, p)
  }

  lemma InvOwns(s: State)
    requires Inv(s)
    ensures AllOwn(s) && !s.fault
  {
    forall p | p in s.producers && s.producers[p].Prepared?
      ensures OwnsNode(s, p)
    {
      assert ProducerOk(s, p);
    }
  }

  /** Its item. */
  ghost function Pending(s: State, p: nat): seq<Item>
    requires AllOwn(s)
  {
    if p in s.producers && s.producers[p].Prepared? then
      assert OwnsNode(s, p);
      [Item(p, s.heap[s.producers[p].node].value)]
    else []
  }

  lemma FromAppend(items: seq<Item>, item: Item, p: nat)
    ensures From(items + [item], p) == From(items, p) + if item.producer == p then [item] else []
  {
    assert (items + [item])[..|items|] == items;
  }

  /** What a step adds to a producer's items, exchanged and pending. */
  lemma StepAdds(s: State, step: Step, p: nat)
    requires AllOwn(s) && Enabled(s, step) && !Apply(s, step).fault && AllOwn(Apply(s, step))
    ensures From(Apply(s, step).exchanged, p) + Pending(Apply(s, step), p) ==
            From(s.exchanged, p) + Pending(s, p) + if AsksFor(step, p) then [Item(p, step.value)] else []
  {
    if step.Exchange? {
      assert OwnsNode(s, step.producer);
      var a := s.producers[step.producer].node;
      FromAppend(s.exchanged, Item(s.heap[a].producer, s.heap[a].value), p);
    }
    if p in s.producers && s.producers[p].Prepared? { assert OwnsNode(s, p); }
    hide From;
  }

  /**
    In every run a producer's items that have exchanged the head are those that it was asked to enqueue, in order and
    with their values, but for the last one while it has not exchanged the head.
   */
  lemma ExchangedAsAsked(front: Address, steps: seq<Step>, states: seq<State>, i: nat, p: nat)
    requires IsRun(front, steps, states) && i < |states|
    ensures var s, asked := states[i], Asked(steps[..i], p);
            && (p in s.producers && s.producers[p].Prepared? ==>
                  asked != [] && From(s.exchanged, p) == asked[..|asked| - 1])
            && (p !in s.producers || !s.producers[p].Prepared? ==> From(s.exchanged, p) == asked)
  {
    ExchangedAndPending(front, steps, states, i, p);
  }

  lemma {:induction false} ExchangedAndPending(front: Address, steps: seq<Step>, states: seq<State>, i: nat, p: nat)
    requires IsRun(front, steps, states) && i < |states|
    ensures AllOwn(states[i])
    ensures From(states[i].exchanged, p) + Pending(states[i], p) == Asked(steps[..i], p)
  {
    hide Inv, Apply, Enabled, OwnsNode, AllOwn, From, Pending, Asked;
    RunInv(front, steps, states, i);
    InvOwns(states[i]);
    if i == 0 {
      assert steps[..0] == [];
      NothingAsked(front, p);
    } else {
      ExchangedAndPending(front, steps, states, i - 1, p);
      RunInv(front, steps, states, i - 1);
      InvOwns(states[i - 1]);
      StepAdds(states[i - 1], steps[i - 1], p);
      AskedStep(steps, i, p);
    }
  }

  lemma NothingAsked(front: Address, p: nat)
    ensures AllOwn(Init(front)) && From(Init(front).exchanged, p) == Pending(Init(front), p) == Asked([], p) == []
  {
  }

  lemma AskedStep(steps: seq<Step>, i: nat, p: nat)
    requires 0 < i <= |steps|
    ensures Asked(steps[..i], p) ==
            Asked(steps[..i - 1], p) + if AsksFor(steps[i - 1], p) then [Item(p, steps[i - 1].value)] else []
  {
    assert steps[..i][..i - 1] == steps[..i - 1] && steps[..i][i - 1] == steps[i - 1];
  }

  /** So what is dequeued of a producer is a prefix of what it was asked to enqueue. */
  lemma DequeuedAsAsked(front: Address, steps: seq<Step>, states: seq<State>, i: nat, p: nat)
    requires IsRun(front, steps, states) && i < |states|
    ensures From(states[i].dequeued, p) <= Asked(steps[..i], p)
  {
    ProducerOrderKept(front, steps, states, i, p);
    ExchangedAsAsked(front, steps, states, i, p);
  }

  // ---------------------------------------------------------------- no leaks

  /** Some thread or the chain still holds the node. */
  ghost predicate IsHeld(s: State, a: Address) {
    a in s.chain || s.consumer == Moved(a) || exists p :: p in s.producers && s.producers[p] == Prepared(a)
  }

  lemma StepHolds(s: State, step: Step, a: Address)
    requires Inv(s) && Enabled(s, step) && a in Apply(s, step).heap && (a in s.heap ==> IsHeld(s, a))
    ensures IsHeld(Apply(s, step), a)
  {
    hide LinkOk, ProducerOk;
    var t := Apply(s, step);
    if a in s.heap {
      if p :| p in s.producers && s.producers[p] == Prepared(a) {
        if t.producers == s.producers || (p in t.producers && t.producers[p] == Prepared(a)) {
          assert t.producers[p] == Prepared(a);
        } else {
          assert step == Exchange(p);
        }
      } else if a in s.chain {
        var k :| 0 <= k < |s.chain| && s.chain[k] == a;
        if step.Take? && k > 0 { assert t.chain[k - 1] == a; }
      }
    } else {
      assert t.producers[step.producer] == Prepared(a);
    }
  }

  lemma HeldIsAllocated(s: State, a: Address)
    requires Inv(s) && IsHeld(s, a)
    ensures a in s.heap
  {
    hide LinkOk;
    if p :| p in s.producers && s.producers[p] == Prepared(a) { assert ProducerOk(s, p); }
  }

  /**
    In every run the nodes allocated are exactly those in the chain, those still to be exchanged, and one to be freed.
   */
  lemma {:induction false} AllocatedIffHeld(front: Address, steps: seq<Step>, states: seq<State>, i: nat, a: Address)
    requires IsRun(front, steps, states) && i < |states|
    ensures a in states[i].heap <==> IsHeld(states[i], a)
  {
    hide Inv, Apply, Enabled, IsHeld;
    RunInv(front, steps, states, i);
    if i == 0 {
      FrontIsHeld(front, a);
    } else {
      AllocatedIffHeld(front, steps, states, i - 1, a);
      RunInv(front, steps, states, i - 1);
      if a in states[i].heap { StepHolds(states[i - 1], steps[i - 1], a); }
    }
    if IsHeld(states[i], a) { HeldIsAllocated(states[i], a); }
  }

  lemma FrontIsHeld(front: Address, a: Address)
    ensures a in Init(front).heap ==> IsHeld(Init(front), a)
  {
  }

  // ---------------------------------------------------------------- progress

  /** No thread ever waits for another: wherever it is, it has a step. */
  lemma NobodyWaits(s: State, p: nat, a: Address, v: int)
    requires a !in s.heap
    ensures exists step :: Enabled(s, step) && (step == Prepare(p, a, v) || step == Exchange(p) || step == Link(p))
    ensures Enabled(s, LoadNext) || Enabled(s, Take) || Enabled(s, Delete)
  {
    if p !in s.producers {
      assert Enabled(s, Prepare(p, a, v));
    } else if s.producers[p].Prepared? {
      assert Enabled(s, Exchange(p));
    } else {
      assert Enabled(s, Link(p));
    }
  }

  /** A dequeue that finds a link hands out the next item in the order of the exchanges, and is idle again. */
  lemma DequeueTakesNext(s: State)
    requires Inv(s) && s.consumer.Idle? && s.tail in s.heap && s.heap[s.tail].next != None
    ensures var t := Apply(s, LoadNext);
            && Enabled(t, Take) && Enabled(Apply(t, Take), Delete)
            && |s.dequeued| < |s.exchanged| && Apply(Apply(t, Take), Delete).consumer.Idle?
            && Apply(Apply(t, Take), Delete).dequeued == s.dequeued + [s.exchanged[|s.dequeued|]]
  {
    var t := Apply(s, LoadNext);
    StepInv(s, LoadNext);
    StepInv(t, Take);
    StepInv(Apply(t, Take), Delete);
    assert ConsumerOk(t);
    hide LinkOk, ProducerOk;
    assert s.exchanged[|s.dequeued|] == Remaining(s)[1];
  }

  /**
    So once all calls of enqueue have returned, dequeues go on until everything that was enqueued has been handed out.
   */
  lemma QuietQueueDrains(s: State)
    requires Inv(s) && s.consumer.Idle? && s.producers == map[]
    ensures s.dequeued == s.exchanged || s.heap[s.tail].next != None
  {
    if |s.chain| > 1 {
      assert LinkOk(s, 0);
    }
  }
}
