/**
 * The stream state machine of section 5.1 of RFC 7540 (src/http2/stream.cc), and two endpoints that
 * run it against each other over two channels that keep order.
 */
module StreamStates {
  import opened Bytes

  datatype State =
    | Idle
    | ReservedLocal
    | ReservedRemote
    | Open
    | HalfClosedLocal
    | HalfClosedRemote
    | Closed

  /** What crosses the wire about one stream. */
  datatype Message = Headers | PushPromise | EndStream | RstStream

  datatype Event = Recv(message: Message) | Send(message: Message)

  /** event_status_table; None is kDoNotUse. */
  function NextStatus(e: Event, s: State): Option<State>
  {
    match (e, s)
    case (Recv(Headers), Idle) => Some(Open)
    case (Recv(Headers), ReservedRemote) => Some(HalfClosedLocal)
    case (Send(Headers), Idle) => Some(Open)
    case (Send(Headers), ReservedLocal) => Some(HalfClosedRemote)
    case (Recv(PushPromise), Idle) => Some(ReservedRemote)
    case (Send(PushPromise), Idle) => Some(ReservedLocal)
    case (Recv(EndStream), Open) => Some(HalfClosedRemote)
    case (Recv(EndStream), HalfClosedLocal) => Some(Closed)
    case (Send(EndStream), Open) => Some(HalfClosedLocal)
    case (Send(EndStream), HalfClosedRemote) => Some(Closed)
    case (Recv(RstStream), _) => if s.Idle? || s.Closed? then None else Some(Closed)
    case (Send(RstStream), _) => if s.Idle? || s.Closed? then None else Some(Closed)
    case _ => None
  }

  /** The transition methods: an event the table does not allow leaves the state as it is. */
  function Apply(e: Event, s: State): State
  {
    match NextStatus(e, s) case None => s case Some(t) => t
  }

  lemma ClosedIsFinal(e: Event)
    ensures Apply(e, Closed) == Closed
  {
  }

  // ---------------------------------------------------------------- what the states mean

  /** One direction of a stream: headers are still to open it, it is open, or there will be nothing more. */
  datatype Half = Pending | Flowing | Over

  /** The direction this endpoint sends in, and the other. */
  datatype Halves = Halves(mine: Half, theirs: Half)

  /** The states of section 5.1: a promised stream is for its promiser to send on and for nobody else. */
  function Meaning(s: State): Halves
  {
    match s
    case Idle => Halves(Pending, Pending)
    case ReservedLocal => Halves(Pending, Over)
    case ReservedRemote => Halves(Over, Pending)
    case Open => Halves(Flowing, Flowing)
    case HalfClosedLocal => Halves(Over, Flowing)
    case HalfClosedRemote => Halves(Flowing, Over)
    case Closed => Halves(Over, Over)
  }

  function Begun(h: Half): Half
  {
    if h == Pending then Flowing else h
  }

  /**
   * What sending does to the two directions: HEADERS open what is pending, if the sender's own is; a promise ends
   * the other direction of a fresh stream; END_STREAM ends one's own; a reset ends both, unless nothing was begun
   * or nothing is left.
   */
  function Sends(m: Message, h: Halves): Option<Halves>
  {
    match m
    case Headers => if h.mine == Pending then Some(Halves(Begun(h.mine), Begun(h.theirs))) else None
    case PushPromise => if h == Halves(Pending, Pending) then Some(h.(theirs := Over)) else None
    case EndStream => if h.mine == Flowing then Some(h.(mine := Over)) else None
    case RstStream =>
      if h == Halves(Pending, Pending) || h == Halves(Over, Over) then None else Some(Halves(Over, Over))
  }

  function Swapped(h: Halves): Halves
  {
    Halves(h.theirs, h.mine)
  }

  /** Receiving is sending seen from the other side. */
  function Does(e: Event, h: Halves): Option<Halves>
  {
    match e
    case Send(m) => Sends(m, h)
    case Recv(m) => match Sends(m, Swapped(h)) case None => None case Some(r) => Some(Swapped(r))
  }

  /** The whole table is that: every entry, and kDoNotUse exactly where the event is not possible. */
  lemma TableMeansHalves(e: Event, s: State)
    ensures Does(e, Meaning(s)) == match NextStatus(e, s) case None => None case Some(t) => Some(Meaning(t))
    ensures forall t :: Meaning(s) == Meaning(t) ==> s == t
  {
  }

  // ---------------------------------------------------------------- two endpoints

  /** The other endpoint's view of a state. */
  function Mirror(s: State): State
  {
    match s
    case ReservedLocal => ReservedRemote
    case ReservedRemote => ReservedLocal
    case HalfClosedLocal => HalfClosedRemote
    case HalfClosedRemote => HalfClosedLocal
    case _ => s
  }

  /** The owner of the stream id, its peer, and what is under way in either direction. */
  datatype System = System(owner: State, peer: State, toPeer: seq<Message>, toOwner: seq<Message>)

  datatype Step = OwnerSends(m: Message) | PeerSends(m: Message) | OwnerReceives | PeerReceives

  /** An endpoint sends only what its row enables, and only the owner leaves Idle by sending. */
  predicate Allowed(y: System, step: Step)
  {
    match step
    case OwnerSends(m) => NextStatus(Send(m), y.owner).Some?
    case PeerSends(m) => NextStatus(Send(m), y.peer).Some? && y.peer != Idle
    case OwnerReceives => y.toOwner != []
    case PeerReceives => y.toPeer != []
  }

  function Take(y: System, step: Step): System
    requires Allowed(y, step)
  {
    match step
    case OwnerSends(m) => y.(owner := Apply(Send(m), y.owner), toPeer := y.toPeer + [m])
    case PeerSends(m) => y.(peer := Apply(Send(m), y.peer), toOwner := y.toOwner + [m])
    case OwnerReceives => y.(owner := Apply(Recv(y.toOwner[0]), y.owner), toOwner := y.toOwner[1..])
    case PeerReceives => y.(peer := Apply(Recv(y.toPeer[0]), y.peer), toPeer := y.toPeer[1..])
  }

  /** The state after everything under way has arrived. */
  function Settled(s: State, ms: seq<Message>): State
    decreases |ms|
  {
    if ms == [] then s else Settled(Apply(Recv(ms[0]), s), ms[1..])
  }

  /** Everything under way will be allowed on arrival, unless the stream is closed by then. */
  predicate Welcome(s: State, ms: seq<Message>)
    decreases |ms|
  {
    ms == [] || ((s == Closed || NextStatus(Recv(ms[0]), s).Some?) && Welcome(Apply(Recv(ms[0]), s), ms[1..]))
  }

  predicate Inv(y: System)
  {
    && Welcome(y.owner, y.toOwner) && Welcome(y.peer, y.toPeer)
    && Mirror(Settled(y.owner, y.toOwner)) == Settled(y.peer, y.toPeer)
    && (y.peer == Idle ==> y.toOwner == [])
    && (y.owner == Idle ==> y.peer == Idle && y.toPeer == [])
  }

  /** What one endpoint sends is, mirrored, what the other receives. */
  lemma TableIsMirrored(m: Message, s: State)
    ensures NextStatus(Recv(m), Mirror(s)) ==
            match NextStatus(Send(m), s) case None => None case Some(t) => Some(Mirror(t))
  {
  }

  /** Sending and receiving in either order ends in the same state. */
  lemma Diamond(m: Message, r: Message, s: State)
    requires s != Idle && NextStatus(Send(m), s).Some? && NextStatus(Recv(r), s).Some?
    ensures Apply(Recv(r), Apply(Send(m), s)) == Apply(Send(m), Apply(Recv(r), s))
    ensures var t := Apply(Send(m), s); t == Closed || NextStatus(Recv(r), t).Some?
    ensures var t := Apply(Recv(r), s); t == Closed || NextStatus(Send(m), t).Some?
  {
  }

  lemma {:induction false} SettledClosed(ms: seq<Message>)
    ensures Settled(Closed, ms) == Closed && Welcome(Closed, ms)
  {
    if ms != [] {
      SettledClosed(ms[1..]);
    }
  }

  /** A send commutes with everything still under way to the sender. */
  lemma {:induction false} SendCommutes(m: Message, s: State, ms: seq<Message>)
    requires Welcome(s, ms) && NextStatus(Send(m), s).Some? && (s == Idle ==> ms == [])
    ensures var t := Apply(Send(m), s);
            Welcome(t, ms) && Settled(t, ms) == Apply(Send(m), Settled(s, ms))
    ensures Settled(s, ms) == Closed || NextStatus(Send(m), Settled(s, ms)).Some?
    decreases |ms|
  {
    if ms != [] {
      Diamond(m, ms[0], s);
      var next := Apply(Recv(ms[0]), s);
      if next == Closed {
        SettledClosed(ms[1..]);
        ClosedIsFinal(Send(m));
      } else {
        SendCommutes(m, next, ms[1..]);
      }
    }
  }

  lemma {:induction false} ArriveLast(s: State, ms: seq<Message>, m: Message)
    requires Welcome(s, ms) && (Settled(s, ms) == Closed || NextStatus(Recv(m), Settled(s, ms)).Some?)
    ensures Welcome(s, ms + [m]) && Settled(s, ms + [m]) == Apply(Recv(m), Settled(s, ms))
    decreases |ms|
  {
    if ms == [] {
      assert ms + [m] == [m] && [m][1..] == [];
    } else {
      assert (ms + [m])[1..] == ms[1..] + [m];
      ArriveLast(Apply(Recv(ms[0]), s), ms[1..], m);
    }
  }

  lemma StepKeeps(y: System, step: Step)
    requires Inv(y) && Allowed(y, step)
    ensures Inv(Take(y, step))
  {
    match step
    case OwnerSends(m) => OwnerSendKeeps(y, m);
    case PeerSends(m) => PeerSendKeeps(y, m);
    case OwnerReceives =>
    case PeerReceives =>
  }

  lemma OwnerSendKeeps(y: System, m: Message)
    requires Inv(y) && Allowed(y, OwnerSends(m))
    ensures Inv(Take(y, OwnerSends(m)))
  {
    SendCommutes(m, y.owner, y.toOwner);
    TableIsMirrored(m, Settled(y.owner, y.toOwner));
    ArriveLast(y.peer, y.toPeer, m);
  }

  lemma PeerSendKeeps(y: System, m: Message)
    requires Inv(y) && Allowed(y, PeerSends(m))
    ensures Inv(Take(y, PeerSends(m)))
  {
    SendCommutes(m, y.peer, y.toPeer);
    TableIsMirrored(m, Settled(y.peer, y.toPeer));
    ArriveLast(y.owner, y.toOwner, m);
  }

  const START := System(Idle, Idle, [], [])

  predicate Possible(y: System, run: seq<Step>)
    decreases |run|
  {
    run == [] || (Allowed(y, run[0]) && Possible(Take(y, run[0]), run[1..]))
  }

  function After(y: System, run: seq<Step>): System
    requires Possible(y, run)
    decreases |run|
  {
    if run == [] then y else After(Take(y, run[0]), run[1..])
  }

  lemma {:induction false} RunKeeps(y: System, run: seq<Step>)
    requires Inv(y) && Possible(y, run)
    ensures Inv(After(y, run))
    decreases |run|
  {
    if run != [] {
      StepKeeps(y, run[0]);
      RunKeeps(Take(y, run[0]), run[1..]);
    }
  }

  /**
   * However the two endpoints' sends and receipts interleave: when nothing is under way their states
   * mirror each other, and no message ever arrives that the receiver's row forbids, unless it is Closed.
   */
  lemma EndpointsAgree(run: seq<Step>)
    requires Possible(START, run)
    ensures var y := After(START, run);
            && (y.toPeer == [] && y.toOwner == [] ==> y.peer == Mirror(y.owner))
            && (y.toPeer != [] ==> y.peer == Closed || NextStatus(Recv(y.toPeer[0]), y.peer).Some?)
            && (y.toOwner != [] ==> y.owner == Closed || NextStatus(Recv(y.toOwner[0]), y.owner).Some?)
  {
    RunKeeps(START, run);
  }

  // ---------------------------------------------------------------- promised streams

  /** A promised stream is its owner's to send on: the peer has only ever heard of it or reset it. */
  predicate OwnersOnly(y: System)
  {
    && (y.owner == ReservedLocal || y.owner == HalfClosedRemote || y.owner == Closed)
    && (y.peer == Idle || y.peer == ReservedRemote || y.peer == HalfClosedLocal || y.peer == Closed)
    && (y.peer == Idle ==> y.toPeer != [] && y.toPeer[0] == PushPromise)
    && forall i :: 0 <= i < |y.toOwner| ==> y.toOwner[i] == RstStream
  }

  lemma PromisedStepKeeps(y: System, step: Step)
    requires Inv(y) && OwnersOnly(y) && Allowed(y, step)
    ensures OwnersOnly(Take(y, step))
  {
    var z := Take(y, step);
    match step
    case OwnerSends(m) =>
    case PeerSends(m) => assert m == RstStream;
    case OwnerReceives => assert y.toOwner[0] == RstStream;
    case PeerReceives =>
  }

  lemma {:induction false} PromisedRunKeeps(y: System, run: seq<Step>)
    requires Inv(y) && OwnersOnly(y) && Possible(y, run)
    ensures OwnersOnly(After(y, run))
    decreases |run|
  {
    if run != [] {
      StepKeeps(y, run[0]);
      PromisedStepKeeps(y, run[0]);
      PromisedRunKeeps(Take(y, run[0]), run[1..]);
    }
  }

  /**
   * After the owner's PUSH_PROMISE its HEADERS are allowed, and however the two go on: the peer's HEADERS, data
   * ends and promises never are, and the owner's HEADERS are as long as it has sent none and the stream lives.
   */
  lemma {:induction false} PromiseIsForItsOwner(run: seq<Step>)
    requires run != [] && run[0] == OwnerSends(PushPromise) && Possible(START, run)
    ensures Allowed(Take(START, run[0]), OwnerSends(Headers))
    ensures var y := After(START, run);
            && (forall m :: Allowed(y, PeerSends(m)) ==> m == RstStream)
            && (Allowed(y, OwnerSends(Headers)) <==> y.owner == ReservedLocal)
            && (y.owner == ReservedLocal || y.owner == HalfClosedRemote || y.owner == Closed)
  {
    var promised := Take(START, run[0]);
    StepKeeps(START, run[0]);
    PromisedRunKeeps(promised, run[1..]);
  }
}
