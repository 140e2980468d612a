/**
 * Header blocks over whole runs: what becomes of the wait for CONTINUATION when the awaited stream is gone,
 * and where the headers of promised streams go.
 */
module HeaderBlockRuns {
  import opened Bytes
  import Coder = CompressorModel
  import opened ConnectionCodecs
  import opened ConnectionInvariant
  import opened ConnectionModel
  import opened ConnectionRuns
  import opened DynamicTable
  import opened Frames
  import opened HeaderBlocks
  import opened HeaderDecoder
  import opened Headers
  import Settings
  import StaleHandles
  import opened StreamModel
  import StreamStates
  import opened StringLiterals

  // ---------------------------------------------------------------- nothing reaches a stream

  /** Streams may leave the map and new local ones may enter it, but none has got anything from the peer. */
  predicate NothingArrived(c: Conn, d: Conn)
  {
    && d.clientSide == c.clientSide && c.nextLocalStreamId <= d.nextLocalStreamId
    && forall id :: id in d.streams ==>
         if id in c.streams
         then d.streams[id].headers == c.streams[id].headers && d.streams[id].data == c.streams[id].data
         else IsLocal(c.clientSide, id) && id >= c.nextLocalStreamId &&
              d.streams[id].headers == [] && d.streams[id].data == []
  }

  lemma NothingArrivedTwice(c: Conn, d: Conn, e: Conn)
    requires Inv(c) && NothingArrived(c, d) && NothingArrived(d, e)
    ensures NothingArrived(c, e)
  {
    hide IsLocal, Coder.WellFormed, Specials, Settings.Parameters;
    forall id | id in e.streams && id in c.streams ensures id in d.streams {
      assert KeyOk(c, id);
    }
  }

  lemma QuietBringsNothing(c: Conn, d: Conn)
    requires Quiet(c, d)
    ensures NothingArrived(c, d)
  {
    hide IsLocal, Specials, Sound;
  }

  /** A change that leaves what a stream has received. */
  ghost predicate OnlySends(change: Stream -> Stream)
  {
    forall s :: change(s).headers == s.headers && change(s).data == s.data
  }

  lemma SendsOnlySend(endStream: bool)
    ensures OnlySends(SendHeadersChange(endStream)) && OnlySends(SendDataChange(endStream))
  {
  }

  lemma RemovalBringsNothing(c: Conn, id: nat)
    ensures NothingArrived(c, DrainChecked(c.(streams := c.streams - {id})))
  {
    hide IsLocal;
  }

  lemma SettleBringsNothing(c: Conn, id: nat, s: Stream)
    requires id in c.streams && s.headers == c.streams[id].headers && s.data == c.streams[id].data
    ensures NothingArrived(c, Settle(c, id, s))
  {
    hide IsLocal, DrainChecked;
    RemovalBringsNothing(c, id);
  }

  lemma AfterSendBringsNothing(c: Conn, id: nat, handle: Holding, change: Stream -> Stream)
    requires id in c.streams && OnlySends(change)
    ensures NothingArrived(c, AfterSend(c, id, handle, change))
  {
    hide NothingArrived, Settle, DrainChecked;
    RemovalBringsNothing(c, id);
    SettleBringsNothing(c, id, change(c.streams[id]));
    UnchangedBringsNothing(c, c);
  }

  /** What the map is about. */
  datatype Holdings = Holdings(clientSide: bool, nextLocalStreamId: nat, streams: map<nat, Stream>)

  function HoldingsOf(c: Conn): Holdings
  {
    Holdings(c.clientSide, c.nextLocalStreamId, c.streams)
  }

  lemma UnchangedBringsNothing(c: Conn, d: Conn)
    requires HoldingsOf(d) == HoldingsOf(c)
    ensures NothingArrived(c, d)
  {
    hide IsLocal;
  }

  lemma UnchangedFirst(c: Conn, d: Conn, e: Conn)
    requires HoldingsOf(d) == HoldingsOf(c) && NothingArrived(d, e)
    ensures NothingArrived(c, e)
  {
    hide IsLocal;
  }

  lemma QuietHoldings(c: Conn, d: Conn)
    requires Quiet(c, d)
    ensures HoldingsOf(d) == HoldingsOf(c)
  {
    hide Specials, Sound;
  }

  lemma LogHoldings(c: Conn, s: Coder.State, o: Output)
    ensures HoldingsOf(Log(c.(compressor := s), o)) == HoldingsOf(c)
  {
  }

  lemma HeadersBringNothing(c: Conn, id: nat, handle: Holding, hs: seq<Header>, endStream: bool)
    requires Coder.WellFormed(c.compressor)
    ensures NothingArrived(c, HeadersSent(c, id, handle, hs, endStream))
  {
    hide NothingArrived, PrefaceEnsured, Log, AfterSend, SendHeadersChange, Coder.EncodeBlock, Coder.WellFormed, Quiet,
         HoldingsOf, OnlySends;
    var p := PrefaceEnsured(c);
    PrefaceIsQuiet(c);
    QuietHoldings(c, p);
    UnchangedBringsNothing(c, p);
    if id in p.streams {
      var e := Coder.EncodeBlock(c.compressor, hs, c.hash);
      var o := SentHeaders(id, e.octets, endStream);
      var sent := Log(p.(compressor := e.state), o);
      LogHoldings(p, e.state, o);
      SendsOnlySend(endStream);
      LogOnlyLogs(p.(compressor := e.state), o);
      AfterSendBringsNothing(sent, id, handle, SendHeadersChange(endStream));
      UnchangedFirst(c, sent, AfterSend(sent, id, handle, SendHeadersChange(endStream)));
    }
  }

  lemma DataBringsNothing(c: Conn, id: nat, handle: Holding, data: bytes, endStream: bool)
    ensures NothingArrived(c, DataSent(c, id, handle, data, endStream))
  {
    hide NothingArrived, PrefaceEnsured, AfterSend, SendDataChange, DataFrameSent, Quiet, HoldingsOf, OnlySends;
    var p := PrefaceEnsured(c);
    PrefaceIsQuiet(c);
    QuietHoldings(c, p);
    UnchangedBringsNothing(c, p);
    if id in p.streams {
      var sent := DataFrameSent(p, id, data, endStream);
      DataFrameIsQuiet(p, id, data, endStream);
      QuietHoldings(p, sent);
      SameStreams(p, sent);
      SendsOnlySend(endStream);
      AfterSendBringsNothing(sent, id, handle, SendDataChange(endStream));
      UnchangedFirst(c, sent, AfterSend(sent, id, handle, SendDataChange(endStream)));
    }
  }

  lemma SameStreams(c: Conn, d: Conn)
    requires HoldingsOf(d) == HoldingsOf(c)
    ensures d.streams == c.streams
  {
  }

  lemma ResetBringsNothing(c: Conn, id: nat, e: nat)
    ensures NothingArrived(c, RstStreamSent(c, id, e))
  {
    hide NothingArrived, PrefaceEnsured, Log, Settle, Quiet, HoldingsOf;
    var p := PrefaceEnsured(c);
    PrefaceIsQuiet(c);
    QuietHoldings(c, p);
    UnchangedBringsNothing(c, p);
    if id in p.streams {
      var sent := Log(p, SentRstStream(id, e));
      LogIsQuiet(p, SentRstStream(id, e));
      QuietHoldings(p, sent);
      SameStreams(p, sent);
      var s := Moved(p.streams[id], StreamStates.Send(StreamStates.RstStream));
      SettleBringsNothing(sent, id, s);
      UnchangedFirst(c, sent, Settle(sent, id, s));
    }
  }

  lemma NewBringsNothing(c: Conn, d: Conn, s: Stream)
    requires HoldingsOf(d) == Holdings(c.clientSide, c.nextLocalStreamId + 2, c.streams[c.nextLocalStreamId := s])
    requires IsLocal(c.clientSide, c.nextLocalStreamId) && c.nextLocalStreamId !in c.streams
    requires s.headers == [] && s.data == []
    ensures NothingArrived(c, d)
  {
    hide IsLocal;
  }

  lemma NextIsNew(c: Conn)
    requires Inv(c)
    ensures IsLocal(c.clientSide, c.nextLocalStreamId) && c.nextLocalStreamId !in c.streams
  {
    hide Coder.WellFormed, Specials, Settings.Parameters;
    if c.nextLocalStreamId in c.streams {
      FoundKey(c, c.nextLocalStreamId);
    }
  }

  lemma PromiseBringsNothing(c: Conn, requestId: nat, hs: seq<Header>)
    requires Inv(c)
    ensures Ready(c) && NothingArrived(c, PushPromiseSent(c, requestId, hs))
  {
    hide Inv, NothingArrived, Coder.EncodeBlock, Coder.WellFormed, IsLocal;
    ReadyByInv(c);
    NextIsNew(c);
    UnchangedBringsNothing(c, c);
    if MayPromise(c) {
      NewBringsNothing(c, PushPromiseSent(c, requestId, hs),
                       Moved(NewStream(), StreamStates.Send(StreamStates.PushPromise)));
    }
  }

  lemma CreatedBringsNothing(c: Conn)
    requires Inv(c)
    ensures NothingArrived(c, Created(c))
  {
    hide Inv, NothingArrived, IsLocal;
    NextIsNew(c);
    NewBringsNothing(c, Created(c), NewStream());
  }

  lemma PlainCallsBringNothing(c: Conn, op: Op, huffman: Huffman)
    requires Ready(c)
    requires op.VerifyPreface? || op.SendSettings? || op.SendPing? || op.SendGoAway? || op.DrainNow?
    ensures NothingArrived(c, Apply(c, op, huffman))
  {
    hide NothingArrived, NonDefault, PrefaceEnsured, Coder.WellFormed, Quiet;
    PrefaceIsQuiet(c);
    QuietHoldings(c, PrefaceEnsured(c));
    UnchangedBringsNothing(c, Apply(c, op, huffman));
  }

  /** What the application calls brings no stream anything from the peer. */
  lemma CallsBringNothing(c: Conn, op: Op, huffman: Huffman)
    requires Inv(c) && !op.Receive?
    ensures Ready(c) && NothingArrived(c, Apply(c, op, huffman))
  {
    hide Inv, NothingArrived, InitialSettingsSent, SettingsSent, PingSent, RstStreamSent, GoAwaySent, Drained,
         PushPromiseSent, WindowUpdateSent, HeadersSent, DataSent, MayCreate, Created, Coder.WellFormed, Quiet;
    ReadyByInv(c);
    match op
    case CreateStream =>
      CreatedBringsNothing(c);
      UnchangedBringsNothing(c, c);
    case SendRstStream(id, e) => ResetBringsNothing(c, id, e);
    case SendPushPromise(id, hs) => PromiseBringsNothing(c, id, hs);
    case SendWindowUpdate(id, ci, si) =>
      WindowUpdateIsQuiet(c, id, ci, si);
      QuietBringsNothing(c, WindowUpdateSent(c, id, ci, si));
    case SendHeaders(id, handle, hs, end) => HeadersBringNothing(c, id, handle, hs, end);
    case SendData(id, handle, data, end) => DataBringsNothing(c, id, handle, data, end);
    case _ => PlainCallsBringNothing(c, op, huffman);
  }

  // ---------------------------------------------------------------- the awaited stream is gone

  /** CONTINUATION is awaited for a stream that is not in the map and cannot enter it. */
  predicate Stuck(c: Conn)
  {
    c.nextFrameLimit && Gone(c, c.nextStreamIdLimit)
  }

  predicate Gone(c: Conn, id: nat)
  {
    id !in c.streams && (IsLocal(c.clientSide, id) ==> id < c.nextLocalStreamId)
  }

  /** A frame changes nothing but the outputs, which tell of a GOAWAY unless one already had it skipped. */
  ghost predicate FrameRefused(c: Conn, h: FrameHeader, d: Conn)
  {
    && d.streams == c.streams && d.table == c.table && d.sentGoAway
    && d.clientSide == c.clientSide && d.nextLocalStreamId == c.nextLocalStreamId
    && d.nextFrameLimit == c.nextFrameLimit && d.nextStreamIdLimit == c.nextStreamIdLimit
    && if Awaited(c, h) && Skipped(c, h) then d == c
       else d.log != [] && d.log[|d.log| - 1] == SentGoAway(d.lastStreamId, PROTOCOL_ERROR)
  }

  lemma GoAwayRefuses(c: Conn, t: Conn, h: FrameHeader)
    requires t == c.(lastStreamId := t.lastStreamId) && !(Awaited(c, h) && Skipped(c, h))
    ensures FrameRefused(c, h, GoAwaySent(t, PROTOCOL_ERROR, 0))
    ensures GoAwaySent(t, PROTOCOL_ERROR, 0).streams == c.streams
  {
    hide GoAwaySent, Awaited, Skipped;
    GoAwayTells(t, PROTOCOL_ERROR);
    GoAwayHoldings(t);
  }

  lemma GoAwayHoldings(c: Conn)
    ensures HoldingsOf(GoAwaySent(c, PROTOCOL_ERROR, 0)) == HoldingsOf(c)
  {
    hide NonDefault;
  }

  lemma TrackedIs(c: Conn, id: nat)
    ensures var t := Tracked(c, id); t == c.(lastStreamId := t.lastStreamId)
  {
    hide IsLocal;
    var t := Tracked(c, id);
    if t != c {
      assert t == c.(lastStreamId := id);
    }
  }

  /** While the awaited stream is gone every frame is refused or skipped. */
  lemma StuckFrame(c: Conn, h: FrameHeader, payload: bytes, huffman: Huffman)
    requires Sized(c) && |payload| == h.length && Stuck(c)
    ensures FrameRefused(c, h, Process(c, h, payload, huffman).conn)
  {
    hide GoAwaySent, Reaped, Tracked, FrameRefused, IsLocal, DecodeSpec, Skipped, Unpad, ParseSettings, ParsePriority,
         FromBe32, HasFlag;
    if !Awaited(c, h) {
      GoAwayRefuses(c, c, h);
    } else if Skipped(c, h) {
      SkippedRefuses(c, h);
    } else {
      var t := Tracked(c, h.streamId);
      TrackedIs(c, h.streamId);
      GoAwayRefuses(c, t, h);
      assert Parse(h, payload) == ContinuationPayload(payload);
      assert Find(t, h.streamId) == None;
      assert ContinuationReceived(t, h, payload, huffman) == GoAwaySent(t, PROTOCOL_ERROR, 0);
      NotReaped(GoAwaySent(t, PROTOCOL_ERROR, 0), h.streamId);
    }
  }

  lemma SkippedRefuses(c: Conn, h: FrameHeader)
    requires Awaited(c, h) && Skipped(c, h)
    ensures FrameRefused(c, h, c)
  {
  }

  lemma StuckPackage(c: Conn, package: bytes, huffman: Huffman)
    requires Sized(c) && Stuck(c)
    ensures var d := PackageProcess(c, package, huffman).conn;
            && d.streams == c.streams && d.table == c.table
            && d.clientSide == c.clientSide && d.nextLocalStreamId == c.nextLocalStreamId
            && d.nextFrameLimit == c.nextFrameLimit && d.nextStreamIdLimit == c.nextStreamIdLimit
  {
    hide Process, IsLocal;
    if |package| >= HEADER_SIZE && |package| >= UnpackHeader(package).length + HEADER_SIZE {
      var h := UnpackHeader(package);
      StuckFrame(c, h, package[HEADER_SIZE..HEADER_SIZE + h.length], huffman);
    }
  }

  lemma StuckStep(c: Conn, op: Op, huffman: Huffman)
    requires Inv(c) && Stuck(c)
    ensures Ready(c)
    ensures var d := Apply(c, op, huffman);
            Stuck(d) && d.nextStreamIdLimit == c.nextStreamIdLimit && d.table == c.table && NothingArrived(c, d)
  {
    hide Inv, PackageProcess, IsLocal, Coder.WellFormed, Events, Coded, NothingArrived;
    ReadyByInv(c);
    if op.Receive? {
      StuckPackage(c, op.package, huffman);
      UnchangedBringsNothing(c, Apply(c, op, huffman));
    } else {
      hide Apply;
      CallCodecs(c, op, huffman);
      CallsBringNothing(c, op, huffman);
      GoneStays(c, Apply(c, op, huffman), c.nextStreamIdLimit);
    }
  }

  lemma GoneStays(c: Conn, d: Conn, id: nat)
    requires Gone(c, id) && NothingArrived(c, d)
    ensures Gone(d, id)
  {
    hide IsLocal;
  }

  /**
   * Once the awaited stream is gone the connection receives nothing more: over every further run the same
   * CONTINUATION is awaited, no stream gets a header or an octet, and the table does not move.
   */
  lemma {:induction false} StuckForGood(c: Conn, ops: seq<Op>, huffman: Huffman)
    requires Inv(c) && Stuck(c)
    ensures var d := After(c, ops, huffman);
            && d.nextFrameLimit && d.nextStreamIdLimit == c.nextStreamIdLimit && d.table == c.table
            && Stuck(d) && NothingArrived(c, d)
    decreases |ops|
  {
    hide Inv, Apply, Gone, NothingArrived;
    if ops == [] {
      UnchangedBringsNothing(c, c);
    } else {
      var n := |ops| - 1;
      var before := After(c, ops[..n], huffman);
      StuckForGood(c, ops[..n], huffman);
      StuckStep(before, ops[n], huffman);
      NothingArrivedTwice(c, before, After(c, ops, huffman));
    }
  }

  /** Any call that takes the awaited stream out of the map in the middle of its block leads there. */
  lemma LeavingMidBlockIsStuck(c: Conn, id: nat, op: Op, huffman: Huffman)
    requires Inv(c) && Awaiting(c, id) && !op.Receive?
    ensures Ready(c)
    ensures id !in Apply(c, op, huffman).streams ==> Stuck(Apply(c, op, huffman))
  {
    hide Inv, Apply, IsLocal, Coder.WellFormed, Events, Coded;
    ReadyByInv(c);
    CallCodecs(c, op, huffman);
    CallsBringNothing(c, op, huffman);
    FoundKey(c, id);
  }

  /** A reset does. */
  lemma ResetMidBlockIsStuck(c: Conn, id: nat, e: nat, huffman: Huffman)
    requires Inv(c) && Awaiting(c, id)
    ensures Ready(c) && Stuck(Apply(c, SendRstStream(id, e), huffman))
  {
    hide Inv, RstStreamSent, Coder.WellFormed, Stuck;
    ReadyByInv(c);
    StaleHandles.ResetHitsCurrentIff(c, id, e);
    LeavingMidBlockIsStuck(c, id, SendRstStream(id, e), huffman);
  }

  /** HEADERS with priority that open stream 1 and leave its block to CONTINUATIONs. */
  const UNFINISHED := FrameHeader(5, HEADERS, 0x20, 1)

  lemma UnfinishedIsFirst()
    ensures FirstPiece(UNFINISHED, [0, 0, 0, 0, 0], []) && LongEnough(UNFINISHED, [])
  {
    assert HasFlag(0x20, PRIORITY_FLAG) && !HasFlag(0x20, PADDED) && !HasFlag(0x20, END_HEADERS);
  }

  lemma VerifiedMayOpen(hash: Coder.Hash, huffman: Huffman)
    ensures Ready(Init(false, hash))
    ensures MayOpen(Apply(Init(false, hash), VerifyPreface, huffman), 1)
    ensures 1 !in Apply(Init(false, hash), VerifyPreface, huffman).streams
  {
    hide NonDefault;
    Coder.InitWellFormed();
  }

  /** A run of a server that gets there: a stream is opened by an unfinished block and reset. */
  lemma StuckRun(hash: Coder.Hash, huffman: Huffman)
    ensures Inv(Init(false, hash))
    ensures var opening := Wire(UNFINISHED, [0, 0, 0, 0, 0]);
            Stuck(After(Init(false, hash), [VerifyPreface] + [opening] + [SendRstStream(1, 8)], huffman))
  {
    hide Inv, Apply, Process, Wire, After, Stuck, MayOpen, FirstPiece, LongEnough, Awaiting, DecodeSpec,
         Coder.WellFormed;
    InitInv(false, hash);
    var c := Init(false, hash);
    var opening := Wire(UNFINISHED, [0, 0, 0, 0, 0]);
    AfterOne(c, [], VerifyPreface, huffman);
    assert [] + [VerifyPreface] == [VerifyPreface];
    AfterOne(c, [VerifyPreface], opening, huffman);
    AfterOne(c, [VerifyPreface] + [opening], SendRstStream(1, 8), huffman);
    VerifiedMayOpen(hash, huffman);
    UnfinishedIsFirst();
    var c1 := After(c, [VerifyPreface], huffman);
    WireProcessed(c1, UNFINISHED, [0, 0, 0, 0, 0], huffman);
    StaleHandles.EmptyBlock(c1.table, huffman);
    FirstPieceOpens(c1, UNFINISHED, [0, 0, 0, 0, 0], [], huffman);
    ResetMidBlockIsStuck(After(c, [VerifyPreface] + [opening], huffman), 1, 8, huffman);
  }

  // ---------------------------------------------------------------- promises

  /** In every run no stream of the peer's in the map is idle. */
  lemma RemoteStreamsHaveStarted(clientSide: bool, hash: Coder.Hash, ops: seq<Op>, huffman: Huffman)
    ensures Inv(Init(clientSide, hash))
    ensures var c := After(Init(clientSide, hash), ops, huffman);
            && c.clientSide == clientSide
            && forall id :: id in c.streams && !IsLocal(clientSide, id) ==> c.streams[id].state != StreamStates.Idle
  {
    hide After, Inv, IsLocal;
    InitInv(clientSide, hash);
    var c := After(Init(clientSide, hash), ops, huffman);
    SideStays(Init(clientSide, hash), ops, huffman);
    forall id | id in c.streams && !IsLocal(clientSide, id) ensures c.streams[id].state != StreamStates.Idle {
      FoundKey(c, id);
    }
  }

  lemma {:induction false} SideStays(c: Conn, ops: seq<Op>, huffman: Huffman)
    requires Inv(c)
    ensures After(c, ops, huffman).clientSide == c.clientSide
    decreases |ops|
  {
    hide Inv, Apply, Specials, LastIds, GoAways, GoAwaySent, Drained;
    if ops != [] {
      var n := |ops| - 1;
      var (before, op) := (After(c, ops[..n], huffman), ops[n]);
      SideStays(c, ops[..n], huffman);
      ApplyKeeps(before, op, huffman);
      BaseTracks(before, op);
      if op.SendGoAway? {
        SendGoAwayIs(before, op, huffman);
        GoAwayKeeps(before, op.errorCode, op.lastStreamId, op.debug);
      } else if op.DrainNow? {
        DrainNowIs(before, huffman);
        DrainedKeeps(before);
      }
    }
  }

  lemma BlockSeenStreams(c: Conn, h: FrameHeader, id: nat)
    ensures BlockSeen(c, h, id).streams == c.streams
  {
    hide HasFlag;
  }

  /** The handler: with no idle stream under an even id, a promise touches no stream. */
  lemma PromiseTouchesNone(c: Conn, h: FrameHeader, promised: nat, fragment: bytes, padLen: nat, huffman: Huffman)
    requires Sized(c)
    requires promised % 2 == 0 && promised in c.streams ==> c.streams[promised].state != StreamStates.Idle
    ensures PushPromiseReceived(c, h, promised, fragment, padLen, huffman).streams == c.streams
  {
    hide GoAwaySent, DecodeSpec, BlockSeen, ErrorCode;
    var d := DecodeSpec(fragment, c.table, huffman);
    GoAwayTells(c, PROTOCOL_ERROR);
    GoAwayTells(c.(table := d.table), ErrorCode(d.error));
    BlockSeenStreams(c.(table := d.table), h, promised);
  }

  lemma PromiseParses(h: FrameHeader, payload: bytes)
    requires h.ftype == PUSH_PROMISE && |payload| == h.length
    ensures var p := Parse(h, payload); p.Malformed? || p.PushPromisePayload?
  {
    hide Unpad, FromBe32, HasFlag, ParseSettings, ParsePriority;
  }

  lemma PromiseReachesHandler(c: Conn, h: FrameHeader, payload: bytes, huffman: Huffman)
    requires Sized(c) && h.ftype == PUSH_PROMISE && |payload| == h.length && Admitted(c, h)
    ensures Sized(Tracked(c, h.streamId))
    ensures var t, r := Tracked(c, h.streamId), Process(c, h, payload, huffman).conn;
            match Parse(h, payload)
            case Malformed(e) => r == GoAwaySent(t, e, 0)
            case PushPromisePayload(promised, fragment, n) =>
              r == Reaped(PushPromiseReceived(t, h, promised, fragment, n, huffman), h.streamId)
            case _ => false
  {
    hide GoAwaySent, Reaped, Tracked, PushPromiseReceived, Parse;
    TrackedCodecs(c, h.streamId);
    PromiseParses(h, payload);
  }

  /** A promise whose id, if in the map, is not idle: the frame changes no stream. */
  lemma PromiseFrameTouchesNone(c: Conn, h: FrameHeader, payload: bytes, huffman: Huffman)
    requires Sized(c) && h.ftype == PUSH_PROMISE && |payload| == h.length
    requires forall id :: id in c.streams && id % 2 == 0 ==> c.streams[id].state != StreamStates.Idle
    requires forall id :: id in c.streams ==> c.streams[id].state != StreamStates.Closed
    ensures Process(c, h, payload, huffman).conn.streams == c.streams
  {
    hide GoAwaySent, Reaped, Tracked, PushPromiseReceived, Parse, Process;
    if Admitted(c, h) {
      var t := Tracked(c, h.streamId);
      TrackedCodecs(c, h.streamId);
      PromiseReachesHandler(c, h, payload, huffman);
      match Parse(h, payload)
      case Malformed(e) => GoAwayTells(t, e);
      case PushPromisePayload(promised, fragment, n) =>
        PromiseTouchesNone(t, h, promised, fragment, n, huffman);
        NotReaped(PushPromiseReceived(t, h, promised, fragment, n, huffman), h.streamId);
      case _ =>
    } else {
      NotAdmitted(c, h, payload, huffman);
    }
  }

  lemma NotAdmitted(c: Conn, h: FrameHeader, payload: bytes, huffman: Huffman)
    requires Sized(c) && |payload| == h.length && !Admitted(c, h)
    ensures Process(c, h, payload, huffman).conn.streams == c.streams
  {
    hide GoAwaySent, Handle, Parse, Reaped;
    GoAwayTells(c, PROTOCOL_ERROR);
  }

  /** So in every run of a client no PUSH_PROMISE changes any stream or puts one in the map. */
  lemma PromisesReachNoStream(hash: Coder.Hash, ops: seq<Op>, h: FrameHeader, payload: bytes, huffman: Huffman)
    requires h.ftype == PUSH_PROMISE && |payload| == h.length
    ensures Inv(Init(true, hash))
    ensures var c := After(Init(true, hash), ops, huffman);
            Sized(c) && Process(c, h, payload, huffman).conn.streams == c.streams
  {
    hide After, Inv, Process, Coder.WellFormed;
    RemoteStreamsHaveStarted(true, hash, ops, huffman);
    var c := After(Init(true, hash), ops, huffman);
    ReadyByInv(c);
    forall id | id in c.streams ensures c.streams[id].state != StreamStates.Closed {
      FoundKey(c, id);
    }
    PromiseFrameTouchesNone(c, h, payload, huffman);
  }

  /** A block is awaited on a stream of the map that has not ended for its peer, in whatever state it is. */
  predicate Expecting(c: Conn, id: nat)
  {
    && Sized(c) && c.nextFrameLimit && c.nextStreamIdLimit == id && id > 0 && id in c.streams
    && c.streams[id].state != StreamStates.Closed && (c.sentGoAway ==> id <= c.sentGoAwayStreamId)
  }

  /** An unfinished promise makes its request stream's id the awaited one, and no stream has changed. */
  lemma PromiseAwaitsRequest(c: Conn, h: FrameHeader, promised: nat, fragment: bytes, padLen: nat, huffman: Huffman)
    requires Sized(c) && !HasFlag(h.flags, END_HEADERS) && promised !in c.streams
    requires Reads(c, h, PushPromisePayload(promised, fragment, padLen))
    requires DecodeSpec(fragment, c.table, huffman).error == NoError
    ensures PushPromiseReceived(c, h, promised, fragment, padLen, huffman) ==
            c.(table := DecodeSpec(fragment, c.table, huffman).table, nextFrameLimit := true,
               nextStreamIdLimit := h.streamId)
  {
    hide GoAwaySent, DecodeSpec, HasFlag, ErrorCode;
  }

  /** Its CONTINUATIONs are taken for the request stream's own headers. */
  lemma ContinuationJoins(c: Conn, id: nat, p: Piece, huffman: Huffman)
    requires Expecting(c, id) && DecodeSpec(p.fragment, c.table, huffman).error == NoError
    requires !HasFlag(p.flags, END_STREAM)
    ensures var r := Process(c, PieceHeader(id, p), p.fragment, huffman).conn;
            && id in r.streams
            && r.streams[id].headers == c.streams[id].headers + DecodeSpec(p.fragment, c.table, huffman).headers
            && r.streams == c.streams[id := r.streams[id]]
  {
    hide DecodeSpec, HasFlag, Tracked, ContinuationReceived, Reaped, IsLocal;
    var t, h := Tracked(c, id), PieceHeader(id, p);
    TrackedIs(c, id);
    ContinuationTaken(t, id, p, huffman);
    NotReaped(ContinuationReceived(t, h, p.fragment, huffman), id);
  }

  lemma ContinuationTaken(c: Conn, id: nat, p: Piece, huffman: Huffman)
    requires Expecting(c, id) && DecodeSpec(p.fragment, c.table, huffman).error == NoError
    requires !HasFlag(p.flags, END_STREAM)
    ensures var r := ContinuationReceived(c, PieceHeader(id, p), p.fragment, huffman);
            && id in r.streams && r.streams[id].state == c.streams[id].state
            && r.streams[id].headers == c.streams[id].headers + DecodeSpec(p.fragment, c.table, huffman).headers
            && r.streams == c.streams[id := r.streams[id]]
  {
    hide DecodeSpec, HasFlag, GoAwaySent, ErrorCode, BlockSeen;
    var d := DecodeSpec(p.fragment, c.table, huffman);
    var s := c.streams[id];
    var seen := FrameSeen(s.(headers := s.headers + d.headers), CONTINUATION, p.flags);
    BlockSeenStreams(Store(c.(table := d.table), id, seen), PieceHeader(id, p), id);
  }

  /**
   * A promise in two frames: the first changes no stream, and the headers in the second join those of the
   * request stream the promise was sent on.
   */
  lemma PromiseContinuesOnRequest(c: Conn, h: FrameHeader, payload: bytes, promised: nat, fragment: bytes,
                                  padLen: nat, p: Piece, huffman: Huffman)
    requires Inv(c) && Sized(c) && c.clientSide && Admitted(c, h) && !c.nextFrameLimit
    requires h.ftype == PUSH_PROMISE && |payload| == h.length && !HasFlag(h.flags, END_HEADERS)
    requires Parse(h, payload) == PushPromisePayload(promised, fragment, padLen)
    requires Reads(c, h, PushPromisePayload(promised, fragment, padLen)) && promised !in c.streams
    requires h.streamId > 0 && h.streamId in c.streams
    requires var first := DecodeSpec(fragment, c.table, huffman);
             first.error == NoError && DecodeSpec(p.fragment, first.table, huffman).error == NoError
    requires !HasFlag(p.flags, END_STREAM)
    ensures var id := h.streamId;
            var started := Process(c, h, payload, huffman).conn;
            && Sized(started) && started.streams == c.streams
            && var r := Process(started, PieceHeader(id, p), p.fragment, huffman).conn;
               && promised !in r.streams && id in r.streams && r.streams == c.streams[id := r.streams[id]]
               && r.streams[id].headers == c.streams[id].headers +
                    DecodeSpec(p.fragment, DecodeSpec(fragment, c.table, huffman).table, huffman).headers
  {
    hide DecodeSpec, HasFlag, Process, Parse, Tracked, Reaped, Inv, PushPromiseReceived, IsLocal, Coder.WellFormed;
    var id := h.streamId;
    var t := Tracked(c, id);
    TrackedIs(c, id);
    TrackedCodecs(c, id);
    PromiseReachesHandler(c, h, payload, huffman);
    PromiseAwaitsRequest(t, h, promised, fragment, padLen, huffman);
    FoundKey(c, id);
    var started := PushPromiseReceived(t, h, promised, fragment, padLen, huffman);
    NotReaped(started, id);
    ContinuationJoins(started, id, p, huffman);
  }
}
