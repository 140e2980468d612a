/**
 * The lock-free multi-producer single-consumer queue (src/utils/mpscq.cc). Every atomic load, store
 * and exchange is one step; any number of producers and the consumer interleave freely.
 */
module Mpscq {
  import opened Bytes

  type Node = nat
  type Thread = nat

  const STUB: Node := 0

  /** Where a producer stands in push: next cleared, or _newest exchanged and the link still to store. */
  datatype Producer = Cleared(node: Node) | Swapped(node: Node, prev: Node)

  /** Where the consumer stands in PopAndCheckEnd; the last four are its push of the stub and after. */
  datatype Consumer =
    | Resting
    | PastStub(tail: Node)
    | Compare(tail: Node)
    | ClearStub(tail: Node)
    | SwapStub(tail: Node)
    | LinkStub(tail: Node, prev: Node)
    | Recheck(tail: Node)

  datatype Queue = Queue(
    next: map<Node, Option<Node>>,
    newest: Node,
    oldest: Node,
    producers: map<Thread, Producer>,
    consumer: Consumer)

  datatype PopResult = Running | Returned(node: Node) | Nothing(empty: bool)

  datatype Event = Clear(thread: Thread, node: Node) | Exchange(thread: Thread) | Link(thread: Thread) | Pop

  function Next(q: Queue, n: Node): Option<Node>
  {
    if n in q.next then q.next[n] else None
  }

  function Init(): Queue
  {
    Queue(map[STUB := None], STUB, STUB, map[], Resting)
  }

  // ---------------------------------------------------------------- the steps

  /** The producers' steps can be taken as their program counters stand; the consumer's always can. */
  predicate Enabled(q: Queue, e: Event)
  {
    match e
    case Clear(t, n) => t !in q.producers && n != STUB
    case Exchange(t) => t in q.producers && q.producers[t].Cleared?
    case Link(t) => t in q.producers && q.producers[t].Swapped?
    case Pop => true
  }

  function ProducerStep(q: Queue, e: Event): Queue
    requires Enabled(q, e) && !e.Pop?
  {
    match e
    case Clear(t, n) => q.(next := q.next[n := None], producers := q.producers[t := Cleared(n)])
    case Exchange(t) =>
      var n := q.producers[t].node;
      q.(newest := n, producers := q.producers[t := Swapped(n, q.newest)])
    case Link(t) =>
      var p := q.producers[t];
      q.(next := q.next[p.prev := Some(p.node)], producers := q.producers - {t})
  }

  /** One atomic operation of PopAndCheckEnd, with the local work up to the next one. */
  function ConsumerStep(q: Queue): (Queue, PopResult)
  {
    match q.consumer
    case Resting =>
      var obj := Next(q, q.oldest);
      if q.oldest == STUB then
        if obj.None? then (q, Nothing(true))
        else (q.(oldest := obj.value, consumer := PastStub(obj.value)), Running)
      else TakeOr(q, q.oldest, obj, Compare(q.oldest))
    case PastStub(tail) => TakeOr(q, tail, Next(q, tail), Compare(tail))
    case Compare(tail) =>
      if tail != q.newest then (q.(consumer := Resting), Nothing(false))
      else (q.(consumer := ClearStub(tail)), Running)
    case ClearStub(tail) => (q.(next := q.next[STUB := None], consumer := SwapStub(tail)), Running)
    case SwapStub(tail) => (q.(newest := STUB, consumer := LinkStub(tail, q.newest)), Running)
    case LinkStub(tail, prev) => (q.(next := q.next[prev := Some(STUB)], consumer := Recheck(tail)), Running)
    case Recheck(tail) =>
      var obj := Next(q, tail);
      if obj.Some? then TakeOr(q, tail, obj, Resting) else (q.(consumer := Resting), Nothing(false))
  }

  /** Returns `tail` and moves _oldest on if its link is there; otherwise goes on at `otherwise`. */
  function TakeOr(q: Queue, tail: Node, obj: Option<Node>, otherwise: Consumer): (Queue, PopResult)
  {
    if obj.Some? then (q.(oldest := obj.value, consumer := Resting), Returned(tail))
    else (q.(consumer := otherwise), Running)
  }

  function Step(q: Queue, e: Event): Queue
    requires Enabled(q, e)
  {
    if e.Pop? then ConsumerStep(q).0 else ProducerStep(q, e)
  }

  // ---------------------------------------------------------------- the invariant

  /** A link from `prev` to `node` that its writer has still to store. */
  ghost predicate Pending(q: Queue, prev: Node, node: Node)
  {
    || (exists t :: t in q.producers && q.producers[t] == Swapped(node, prev))
    || (q.consumer.LinkStub? && q.consumer.prev == prev && node == STUB)
  }

  ghost predicate Follows(chain: seq<Node>, prev: Node, node: Node)
  {
    exists i :: 0 <= i < |chain| - 1 && chain[i] == prev && chain[i + 1] == node
  }

  predicate Distinct(chain: seq<Node>)
  {
    forall i, j :: 0 <= i < j < |chain| ==> chain[i] != chain[j]
  }

  /** From _oldest to _newest, in the order of the exchanges. */
  ghost predicate ChainValid(q: Queue, chain: seq<Node>)
  {
    && |chain| > 0 && chain[0] == q.oldest && chain[|chain| - 1] == q.newest
    && Distinct(chain)
    && Next(q, q.newest).None?
  }

  /** Every link of the chain is stored, or is null and has a writer that will store it. */
  ghost predicate LinksValid(q: Queue, chain: seq<Node>)
  {
    forall i :: 0 <= i < |chain| - 1 ==>
      if Next(q, chain[i]).Some? then Next(q, chain[i]).value == chain[i + 1] else Pending(q, chain[i], chain[i + 1])
  }

  ghost predicate ProducersValid(q: Queue, chain: seq<Node>)
  {
    && (forall t :: t in q.producers ==> q.producers[t].node != STUB && ProducerValid(q, chain, q.producers[t]))
    && (forall t, u :: t in q.producers && u in q.producers && t != u ==> q.producers[t].node != q.producers[u].node)
  }

  ghost predicate ProducerValid(q: Queue, chain: seq<Node>, p: Producer)
  {
    match p
    case Cleared(n) => n !in chain && Next(q, n).None?
    case Swapped(n, prev) => Follows(chain, prev, n) && Next(q, prev).None?
  }

  ghost predicate ConsumerValid(q: Queue, chain: seq<Node>)
  {
    && (!q.consumer.Resting? ==> q.consumer.tail == q.oldest && q.oldest != STUB)
    && (q.consumer.PastStub? || q.consumer.ClearStub? || q.consumer.SwapStub? ==> STUB !in chain)
    && (q.consumer.SwapStub? ==> Next(q, STUB).None?)
    && (q.consumer.Recheck? ==> |chain| > 1)
    && (q.consumer.LinkStub? ==> Follows(chain, q.consumer.prev, STUB) && Next(q, q.consumer.prev).None?)
  }

  ghost predicate Inv(q: Queue, chain: seq<Node>)
  {
    ChainValid(q, chain) && LinksValid(q, chain) && ProducersValid(q, chain) && ConsumerValid(q, chain)
  }

  /** The caller's side of the bargain: a node is not pushed again before it has been popped. */
  predicate CallerKeepsOwnership(q: Queue, chain: seq<Node>, e: Event)
  {
    e.Clear? ==> e.node !in chain && forall t :: t in q.producers ==> q.producers[t].node != e.node
  }

  /** How a step changes the chain: an exchange appends, moving _oldest drops the head. */
  function NextChain(q: Queue, chain: seq<Node>, e: Event): seq<Node>
    requires Enabled(q, e)
  {
    match e
    case Exchange(t) => chain + [q.producers[t].node]
    case Pop =>
      if q.consumer.SwapStub? then chain + [STUB]
      else if ConsumerStep(q).0.oldest != q.oldest && |chain| > 0 then chain[1..]
      else chain
    case _ => chain
  }

  lemma InitInv()
    ensures Inv(Init(), [STUB])
  {
  }

  // ---------------------------------------------------------------- each step keeps it

  lemma ClearKeeps(q: Queue, chain: seq<Node>, t: Thread, n: Node)
    requires Inv(q, chain) && Enabled(q, Clear(t, n)) && CallerKeepsOwnership(q, chain, Clear(t, n))
    ensures Inv(Step(q, Clear(t, n)), chain)
  {
    var r := Step(q, Clear(t, n));
    forall m | m in chain ensures Next(r, m) == Next(q, m) {
    }
    PendingKept(q, r, chain);
    forall u | u in r.producers ensures ProducerValid(r, chain, r.producers[u]) {
    }
  }

  /** Writers that neither went nor changed still hold their links. */
  lemma PendingKept(q: Queue, r: Queue, chain: seq<Node>)
    requires forall t :: t in q.producers && q.producers[t].Swapped? ==>
               t in r.producers && r.producers[t] == q.producers[t]
    requires q.consumer.LinkStub? ==> r.consumer == q.consumer
    ensures forall prev, n :: Pending(q, prev, n) ==> Pending(r, prev, n)
  {
    forall prev, n | Pending(q, prev, n) ensures Pending(r, prev, n) {
      if t :| t in q.producers && q.producers[t] == Swapped(n, prev) {
        assert r.producers[t] == Swapped(n, prev);
      }
    }
  }

  lemma ExchangeKeeps(q: Queue, chain: seq<Node>, t: Thread)
    requires Inv(q, chain) && Enabled(q, Exchange(t))
    ensures Inv(Step(q, Exchange(t)), chain + [q.producers[t].node])
  {
    var n := q.producers[t].node;
    var r, longer := Step(q, Exchange(t)), chain + [n];
    PendingKept(q, r, chain);
    assert r.producers[t] == Swapped(n, q.newest);
    AppendKeeps(q, r, chain, n);
    assert Follows(longer, q.newest, n) by {
      assert longer[|chain| - 1] == q.newest && longer[|chain|] == n;
    }
    forall u | u in r.producers ensures ProducerValid(r, longer, r.producers[u]) {
      assert u == t || ProducerValid(q, chain, q.producers[u]);
    }
  }

  /** Appending the node that _newest was set to, with the link to it pending. */
  lemma AppendKeeps(q: Queue, r: Queue, chain: seq<Node>, n: Node)
    requires ChainValid(q, chain) && LinksValid(q, chain) && n !in chain && Next(q, n).None?
    requires r.next == q.next && r.newest == n && r.oldest == q.oldest
    requires Pending(r, q.newest, n) && forall a, b :: Pending(q, a, b) ==> Pending(r, a, b)
    ensures ChainValid(r, chain + [n]) && LinksValid(r, chain + [n])
    ensures forall a, b :: Follows(chain, a, b) ==> Follows(chain + [n], a, b)
  {
    var longer := chain + [n];
    forall i | 0 <= i < |longer| - 1
      ensures if Next(r, longer[i]).Some? then Next(r, longer[i]).value == longer[i + 1]
              else Pending(r, longer[i], longer[i + 1])
    {
      assert longer[i] == chain[i];
    }
    forall a, b | Follows(chain, a, b) ensures Follows(longer, a, b) {
      var i :| 0 <= i < |chain| - 1 && chain[i] == a && chain[i + 1] == b;
      assert longer[i] == a && longer[i + 1] == b;
    }
  }

  lemma FollowsUnique(chain: seq<Node>, prev: Node, a: Node, b: Node)
    requires Distinct(chain) && Follows(chain, prev, a) && Follows(chain, prev, b)
    ensures a == b
  {
  }

  lemma OnlyWriter(q: Queue, chain: seq<Node>, prev: Node, n: Node, p: Producer)
    requires Distinct(chain) && Follows(chain, prev, n) && ProducerValid(q, chain, p)
    ensures p.Swapped? && p.prev == prev ==> p.node == n
  {
    if p.Swapped? && p.prev == prev {
      FollowsUnique(chain, prev, n, p.node);
    }
  }

  lemma LinkKeeps(q: Queue, chain: seq<Node>, t: Thread)
    requires Inv(q, chain) && Enabled(q, Link(t))
    ensures Inv(Step(q, Link(t)), chain)
  {
    var r := Step(q, Link(t));
    var p := q.producers[t];
    assert ProducerValid(q, chain, p);
    forall a, b | Pending(q, a, b) && a != p.prev ensures Pending(r, a, b) {
      if u :| u in q.producers && q.producers[u] == Swapped(b, a) {
        assert r.producers[u] == Swapped(b, a);
      }
    }
    StoreKeeps(q, r, chain, p.prev, p.node);
    forall u | u in r.producers ensures ProducerValid(r, chain, r.producers[u]) {
      OnlyWriter(q, chain, p.prev, p.node, q.producers[u]);
    }
    if q.consumer.LinkStub? && q.consumer.prev == p.prev {
      FollowsUnique(chain, p.prev, p.node, STUB);
    }
  }

  /** Storing a pending link: all other writers keep theirs. */
  lemma StoreKeeps(q: Queue, r: Queue, chain: seq<Node>, prev: Node, node: Node)
    requires ChainValid(q, chain) && LinksValid(q, chain) && Follows(chain, prev, node)
    requires r.next == q.next[prev := Some(node)] && r.newest == q.newest && r.oldest == q.oldest
    requires forall a, b :: Pending(q, a, b) && a != prev ==> Pending(r, a, b)
    ensures ChainValid(r, chain) && LinksValid(r, chain)
  {
    forall i | 0 <= i < |chain| - 1
      ensures if Next(r, chain[i]).Some? then Next(r, chain[i]).value == chain[i + 1]
              else Pending(r, chain[i], chain[i + 1])
    {
      if chain[i] == prev {
        assert Follows(chain, prev, chain[i + 1]);
        FollowsUnique(chain, prev, node, chain[i + 1]);
      }
    }
  }

  /** Dropping the head, once its link is stored, with nothing but _oldest and the consumer changed. */
  lemma DropKeeps(q: Queue, r: Queue, chain: seq<Node>)
    requires Inv(q, chain) && Next(q, q.oldest).Some? && !q.consumer.LinkStub?
    requires r == q.(oldest := Next(q, q.oldest).value, consumer := r.consumer)
    ensures |chain| > 1 && r.oldest == chain[1] && r.oldest != q.oldest
    ensures ChainValid(r, chain[1..]) && LinksValid(r, chain[1..]) && ProducersValid(r, chain[1..])
    ensures HeadIsFree(r, chain[1..], chain[0])
  {
    assert |chain| > 1;
    var rest := chain[1..];
    PendingKept(q, r, chain);
    forall i | 0 <= i < |rest| - 1
      ensures if Next(r, rest[i]).Some? then Next(r, rest[i]).value == rest[i + 1] else Pending(r, rest[i], rest[i + 1])
    {
      assert rest[i] == chain[i + 1];
    }
    forall t | t in q.producers
      ensures ProducerValid(r, rest, q.producers[t]) && q.producers[t].node != chain[0]
    {
      var p := q.producers[t];
      assert ProducerValid(q, chain, p);
      if p.Swapped? {
        var i :| 0 <= i < |chain| - 1 && chain[i] == p.prev && chain[i + 1] == p.node;
        assert rest[i - 1] == p.prev && rest[i] == p.node;
      }
    }
  }

  /** No producer is pushing `n`, none has its link still to store, and the queue does not reach it. */
  ghost predicate HeadIsFree(q: Queue, chain: seq<Node>, n: Node)
  {
    && n !in chain && n != q.newest && n != q.oldest
    && forall t :: t in q.producers ==>
         q.producers[t].node != n && (q.producers[t].Swapped? ==> q.producers[t].prev != n)
  }

  lemma PopKeeps(q: Queue, chain: seq<Node>)
    requires Inv(q, chain)
    ensures Inv(Step(q, Pop), NextChain(q, chain, Pop))
  {
    match q.consumer
    case Compare(_) => CompareKeeps(q, chain);
    case ClearStub(_) => ClearStubKeeps(q, chain);
    case SwapStub(_) => SwapStubKeeps(q, chain);
    case LinkStub(_, _) => LinkStubKeeps(q, chain);
    case _ => LoadKeeps(q, chain);
  }

  /** The steps that load the head's link: they drop the head or only move the consumer. */
  lemma LoadKeeps(q: Queue, chain: seq<Node>)
    requires Inv(q, chain) && (q.consumer.Resting? || q.consumer.PastStub? || q.consumer.Recheck?)
    ensures Inv(Step(q, Pop), NextChain(q, chain, Pop))
  {
    var r := ConsumerStep(q).0;
    if Next(q, q.oldest).Some? {
      DropKeeps(q, r, chain);
    } else {
      ConsumerMoves(q, r, chain);
    }
  }

  lemma CompareKeeps(q: Queue, chain: seq<Node>)
    requires Inv(q, chain) && q.consumer.Compare?
    ensures Inv(Step(q, Pop), NextChain(q, chain, Pop))
  {
    if q.oldest == q.newest {
      assert |chain| == 1;
    }
    ConsumerMoves(q, ConsumerStep(q).0, chain);
  }

  lemma ClearStubKeeps(q: Queue, chain: seq<Node>)
    requires Inv(q, chain) && q.consumer.ClearStub?
    ensures Inv(Step(q, Pop), NextChain(q, chain, Pop))
  {
    var r := ConsumerStep(q).0;
    PendingKept(q, r, chain);
    assert forall m :: m in chain ==> Next(r, m) == Next(q, m);
    forall t | t in r.producers ensures ProducerValid(r, chain, r.producers[t]) {
      assert ProducerValid(q, chain, q.producers[t]);
    }
  }

  lemma SwapStubKeeps(q: Queue, chain: seq<Node>)
    requires Inv(q, chain) && q.consumer.SwapStub?
    ensures Inv(Step(q, Pop), NextChain(q, chain, Pop))
  {
    var r, longer := ConsumerStep(q).0, chain + [STUB];
    PendingKept(q, r, chain);
    AppendKeeps(q, r, chain, STUB);
    assert Follows(longer, q.newest, STUB) by {
      assert longer[|chain| - 1] == q.newest && longer[|chain|] == STUB;
    }
    forall t | t in r.producers ensures ProducerValid(r, longer, r.producers[t]) {
      assert ProducerValid(q, chain, q.producers[t]);
    }
  }

  lemma LinkStubKeeps(q: Queue, chain: seq<Node>)
    requires Inv(q, chain) && q.consumer.LinkStub?
    ensures Inv(Step(q, Pop), NextChain(q, chain, Pop))
  {
    var r, prev := ConsumerStep(q).0, q.consumer.prev;
    StoreKeeps(q, r, chain, prev, STUB);
    forall t | t in r.producers ensures ProducerValid(r, chain, r.producers[t]) {
      OnlyWriter(q, chain, prev, STUB, q.producers[t]);
    }
  }

  /** A consumer step that only reads. */
  lemma ConsumerMoves(q: Queue, r: Queue, chain: seq<Node>)
    requires Inv(q, chain) && r == q.(consumer := r.consumer) && !q.consumer.LinkStub? && ConsumerValid(r, chain)
    ensures Inv(r, chain)
  {
    PendingKept(q, r, chain);
    forall t | t in r.producers ensures ProducerValid(r, chain, r.producers[t]) {
      assert ProducerValid(q, chain, q.producers[t]);
    }
  }

  lemma StepKeeps(q: Queue, chain: seq<Node>, e: Event)
    requires Inv(q, chain) && Enabled(q, e) && CallerKeepsOwnership(q, chain, e)
    ensures Inv(Step(q, e), NextChain(q, chain, e))
  {
    match e
    case Clear(t, n) => ClearKeeps(q, chain, t, n);
    case Exchange(t) => ExchangeKeeps(q, chain, t);
    case Link(t) => LinkKeeps(q, chain, t);
    case Pop => PopKeeps(q, chain);
  }

  // ---------------------------------------------------------------- whole runs

  /** Every step of the run can be taken, and no node is pushed before it has been popped. */
  predicate Admissible(q: Queue, chain: seq<Node>, run: seq<Event>)
    decreases |run|
  {
    run == [] ||
    (Enabled(q, run[0]) && CallerKeepsOwnership(q, chain, run[0]) &&
     Admissible(Step(q, run[0]), NextChain(q, chain, run[0]), run[1..]))
  }

  /** The nodes in the order in which pushes did their exchange. */
  function Exchanged(q: Queue, chain: seq<Node>, run: seq<Event>): seq<Node>
    requires Admissible(q, chain, run)
    decreases |run|
  {
    if run == [] then []
    else ExchangedBy(q, run[0]) + Exchanged(Step(q, run[0]), NextChain(q, chain, run[0]), run[1..])
  }

  function ExchangedBy(q: Queue, e: Event): seq<Node>
    requires Enabled(q, e)
  {
    if e.Exchange? then [q.producers[e.thread].node] else []
  }

  /** The nodes pop has returned, in order. */
  function Popped(q: Queue, chain: seq<Node>, run: seq<Event>): seq<Node>
    requires Admissible(q, chain, run)
    decreases |run|
  {
    if run == [] then []
    else PoppedBy(q, run[0]) + Popped(Step(q, run[0]), NextChain(q, chain, run[0]), run[1..])
  }

  function PoppedBy(q: Queue, e: Event): seq<Node>
  {
    if e.Pop? && ConsumerStep(q).1.Returned? then [ConsumerStep(q).1.node] else []
  }

  /** The queue and its chain after a run. */
  function After(q: Queue, chain: seq<Node>, run: seq<Event>): (Queue, seq<Node>)
    requires Admissible(q, chain, run)
    decreases |run|
  {
    if run == [] then (q, chain) else After(Step(q, run[0]), NextChain(q, chain, run[0]), run[1..])
  }

  function WithoutStub(chain: seq<Node>): (r: seq<Node>)
    ensures STUB !in r
  {
    if chain == [] then [] else (if chain[0] == STUB then [] else [chain[0]]) + WithoutStub(chain[1..])
  }

  lemma {:induction false} WithoutStubAppend(a: seq<Node>, n: Node)
    ensures WithoutStub(a + [n]) == WithoutStub(a) + (if n == STUB then [] else [n])
  {
    if a == [] {
      assert [n][1..] == [] && [] + [n] == [n];
    } else {
      WithoutStubAppend(a[1..], n);
      assert (a + [n])[1..] == a[1..] + [n] && (a + [n])[0] == a[0];
      var head := if a[0] == STUB then [] else [a[0]];
      var tail := if n == STUB then [] else [n];
      assert head + (WithoutStub(a[1..]) + tail) == head + WithoutStub(a[1..]) + tail;
    }
  }

  /** One step: what was waiting, with what it exchanges in, is what it pops and what then waits. */
  lemma StepConserves(q: Queue, chain: seq<Node>, e: Event)
    requires Inv(q, chain) && Enabled(q, e) && CallerKeepsOwnership(q, chain, e)
    ensures WithoutStub(chain) + ExchangedBy(q, e) == PoppedBy(q, e) + WithoutStub(NextChain(q, chain, e))
  {
    match e
    case Clear(_, _) =>
    case Link(_) =>
    case Exchange(t) => WithoutStubAppend(chain, q.producers[t].node);
    case Pop =>
      PopConserves(q, chain);
  }

  lemma PopConserves(q: Queue, chain: seq<Node>)
    requires Inv(q, chain)
    ensures WithoutStub(chain) == PoppedBy(q, Pop) + WithoutStub(NextChain(q, chain, Pop))
  {
    hide LinksValid, ProducersValid;
    if q.consumer.SwapStub? {
      WithoutStubAppend(chain, STUB);
    } else if (q.consumer.Resting? || q.consumer.PastStub? || q.consumer.Recheck?) && Next(q, q.oldest).Some? {
      DropKeeps(q, ConsumerStep(q).0, chain);
    }
  }

  lemma {:induction false} RunConserves(q: Queue, chain: seq<Node>, run: seq<Event>)
    requires Inv(q, chain) && Admissible(q, chain, run)
    ensures Inv(After(q, chain, run).0, After(q, chain, run).1)
    ensures WithoutStub(chain) + Exchanged(q, chain, run) ==
            Popped(q, chain, run) + WithoutStub(After(q, chain, run).1)
    decreases |run|
  {
    hide Step, NextChain, Inv, WithoutStub, PoppedBy, ExchangedBy, Enabled, CallerKeepsOwnership;
    if run != [] {
      var e := run[0];
      StepKeeps(q, chain, e);
      StepConserves(q, chain, e);
      var r, after := Step(q, e), NextChain(q, chain, e);
      RunConserves(r, after, run[1..]);
      var x := ExchangedBy(q, e);
      var later := Exchanged(r, after, run[1..]);
      assert WithoutStub(chain) + (x + later) == (WithoutStub(chain) + x) + later;
      assert PoppedBy(q, e) + WithoutStub(after) + later == PoppedBy(q, e) + (WithoutStub(after) + later);
    }
  }

  /**
   * First in, first out under every interleaving: pops return a prefix of the exchange order, what is
   * left waits in the queue, and the stub is never among them.
   */
  lemma PopsAreFifo(run: seq<Event>)
    requires Admissible(Init(), [STUB], run)
    ensures Popped(Init(), [STUB], run) <= Exchanged(Init(), [STUB], run)
    ensures Exchanged(Init(), [STUB], run) ==
            Popped(Init(), [STUB], run) + WithoutStub(After(Init(), [STUB], run).1)
    ensures STUB !in Exchanged(Init(), [STUB], run)
  {
    hide Inv, Exchanged, Popped, After, Init, Admissible;
    InitInv();
    RunConserves(Init(), [STUB], run);
    assert WithoutStub([STUB]) == [] by { assert [STUB][1..] == []; }
    NoStubExchanged(Init(), [STUB], run);
    assert [] + Exchanged(Init(), [STUB], run) == Exchanged(Init(), [STUB], run);
  }

  lemma {:induction false} NoStubExchanged(q: Queue, chain: seq<Node>, run: seq<Event>)
    requires Inv(q, chain) && Admissible(q, chain, run)
    ensures STUB !in Exchanged(q, chain, run)
    decreases |run|
  {
    if run != [] {
      StepKeeps(q, chain, run[0]);
      NoStubExchanged(Step(q, run[0]), NextChain(q, chain, run[0]), run[1..]);
    }
  }

  /** A node pop returns is out of everyone's hands: the caller may free it or push it again. */
  lemma ReturnedNodeIsFree(q: Queue, chain: seq<Node>)
    requires Inv(q, chain) && ConsumerStep(q).1.Returned?
    ensures HeadIsFree(ConsumerStep(q).0, NextChain(q, chain, Pop), ConsumerStep(q).1.node)
    ensures ConsumerStep(q).1.node != STUB && ConsumerStep(q).1.node == chain[0]
  {
    DropKeeps(q, ConsumerStep(q).0, chain);
  }

  /** The consumer pushes the stub again only when it is not queued and nobody will write its link. */
  lemma StubIsFreeWhenPushed(q: Queue, chain: seq<Node>)
    requires Inv(q, chain) && (q.consumer.ClearStub? || q.consumer.SwapStub?)
    ensures HeadIsFree(q, chain, STUB)
  {
    forall t | t in q.producers
      ensures q.producers[t].node != STUB && (q.producers[t].Swapped? ==> q.producers[t].prev != STUB)
    {
      assert ProducerValid(q, chain, q.producers[t]);
    }
  }

  /**
   * `empty` is reported only if nothing waits or the earliest waiting node's link is still to be
   * stored; the other null result only if something waits.
   */
  lemma NothingIsSound(q: Queue, chain: seq<Node>)
    requires Inv(q, chain) && ConsumerStep(q).1.Nothing?
    ensures ConsumerStep(q).1.empty ==> WithoutStub(chain) == [] || Pending(q, STUB, WithoutStub(chain)[0])
    ensures !ConsumerStep(q).1.empty ==> WithoutStub(chain) != []
  {
    assert chain == [chain[0]] + chain[1..];
    if |chain| > 1 {
      assert chain[1] != chain[0];
      assert chain[1..][0] == chain[1];
      assert Next(q, chain[0]).Some? || Pending(q, chain[0], chain[1]);
    }
  }

  // ---------------------------------------------------------------- a pop that nobody disturbs

  /** How many steps PopAndCheckEnd can still take. */
  function Remaining(c: Consumer): nat
  {
    match c
    case Resting => 0
    case Recheck(_) => 1
    case LinkStub(_, _) => 2
    case SwapStub(_) => 3
    case ClearStub(_) => 4
    case Compare(_) => 5
    case PastStub(_) => 6
  }

  /** The consumer's steps up to its return. */
  function FinishPop(q: Queue): (Queue, PopResult)
    requires !q.consumer.Resting?
    decreases Remaining(q.consumer)
  {
    var (r, result) := ConsumerStep(q);
    if result.Running? then FinishPop(r) else (r, result)
  }

  /** A whole call of PopAndCheckEnd without interference. */
  function WholePop(q: Queue): (Queue, PopResult)
  {
    var (r, result) := ConsumerStep(q);
    if result.Running? then FinishPop(r) else (r, result)
  }

  lemma {:induction false} FinishPopTakesHead(q: Queue, chain: seq<Node>) returns (after: seq<Node>)
    requires Inv(q, chain) && q.producers == map[] && !q.consumer.Resting?
    requires q.consumer.Compare? ==> |chain| == 1
    ensures FinishPop(q).1 == Returned(chain[0]) && chain[0] != STUB
    ensures Inv(FinishPop(q).0, after) && FinishPop(q).0.consumer == Resting && FinishPop(q).0.producers == map[]
    ensures WithoutStub(after) == WithoutStub(chain[1..])
    decreases Remaining(q.consumer)
  {
    var r := ConsumerStep(q).0;
    var next := NextChain(q, chain, Pop);
    PopKeeps(q, chain);
    if |chain| > 1 {
      assert Next(q, chain[0]).Some? || Pending(q, chain[0], chain[1]);
    }
    if q.consumer.SwapStub? {
      WithoutStubAppend(chain[1..], STUB);
      assert (chain + [STUB])[1..] == chain[1..] + [STUB];
    }
    if ConsumerStep(q).1.Running? {
      after := FinishPopTakesHead(r, next);
    } else {
      after := next;
    }
  }

  /** With no push under way, pop returns the oldest waiting node, and `empty` exactly when none waits. */
  lemma QuietPopReturnsOldest(q: Queue, chain: seq<Node>)
    requires Inv(q, chain) && q.producers == map[] && q.consumer.Resting?
    ensures WholePop(q).1 == if WithoutStub(chain) == [] then Nothing(true) else Returned(WithoutStub(chain)[0])
  {
    var r := ConsumerStep(q).0;
    var next := NextChain(q, chain, Pop);
    PopKeeps(q, chain);
    assert chain == [chain[0]] + chain[1..];
    if |chain| > 1 {
      assert chain[1..] == [chain[1]] + chain[2..];
    }
    if ConsumerStep(q).1.Running? {
      var after := FinishPopTakesHead(r, next);
    }
  }

  /** A drained queue is as it was built: the destructor's assertions hold. */
  lemma DrainedQueueIsInitial(q: Queue, chain: seq<Node>)
    requires Inv(q, chain) && q.producers == map[] && q.consumer.Resting? && WholePop(q).1 == Nothing(true)
    ensures q.newest == STUB && q.oldest == STUB
  {
    QuietPopReturnsOldest(q, chain);
    EmptyMeansStub(chain);
  }

  lemma EmptyMeansStub(chain: seq<Node>)
    requires Distinct(chain) && WithoutStub(chain) == [] && |chain| > 0
    ensures chain == [STUB]
  {
    forall i | 0 <= i < |chain| && chain[i] != STUB ensures chain[i] in WithoutStub(chain) {
      WithoutStubContains(chain, i);
    }
  }

  lemma {:induction false} WithoutStubContains(chain: seq<Node>, i: nat)
    requires i < |chain| && chain[i] != STUB
    ensures chain[i] in WithoutStub(chain)
  {
    if i > 0 {
      WithoutStubContains(chain[1..], i - 1);
    }
  }
}
