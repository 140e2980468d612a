/**
 * Sends through a stream object that the connection's map no longer holds. The calls look the id up and
 * write the frame under it, whoever has that id by now, but then change the object they were given, and clear
 * its id out of the map when that object is closed. A reset goes by the id alone.
 */
module StaleHandles {
  import opened Bytes
  import Coder = CompressorModel
  import opened ConnectionInvariant
  import opened ConnectionModel
  import opened ConnectionRuns
  import opened DynamicTable
  import opened Frames
  import HeaderBlocks
  import opened HeaderDecoder
  import opened Headers
  import Settings
  import opened StreamModel
  import StreamStates
  import opened StringLiterals

  /** The send leaves the handle's stream closed, as its state before the call tells. */
  predicate ClosedByHeaders(s: Stream, endStream: bool)
  {
    s.state.Closed? || (endStream && (s.state.HalfClosedRemote? || s.state.ReservedLocal?))
  }

  predicate ClosedByData(s: Stream, endStream: bool)
  {
    s.state.Closed? || (endStream && s.state.HalfClosedRemote?)
  }

  lemma StaleSendTouches(c: Conn, id: nat, s: Stream, change: Stream -> Stream)
    requires id in c.streams
    ensures AfterSend(c, id, Stale(s), change).streams ==
            if change(s).state == StreamStates.Closed then c.streams - {id} else c.streams
  {
  }

  lemma PrefaceKeepsStreams(c: Conn)
    ensures PrefaceEnsured(c).streams == c.streams && PrefaceEnsured(c).sendWindow == c.sendWindow
  {
    hide NonDefault;
  }

  lemma HeadersChangeCloses(s: Stream, endStream: bool)
    ensures SendHeadersChange(endStream)(s).state.Closed? <==> ClosedByHeaders(s, endStream)
  {
    if endStream {
      EndCloses(Moved(s, StreamStates.Send(StreamStates.Message.Headers)));
    }
  }

  lemma DataChangeCloses(s: Stream, endStream: bool)
    ensures SendDataChange(endStream)(s).state.Closed? <==> ClosedByData(s, endStream)
  {
    EndCloses(s);
  }

  lemma EndCloses(s: Stream)
    ensures EndSent(s).state.Closed? <==> s.state.Closed? || s.state.HalfClosedRemote?
  {
  }

  /** The frame is the first output after the preface. */
  predicate GoesOut(c: Conn, d: Conn, o: Output)
  {
    var n := |PrefaceEnsured(c).log|;
    n < |d.log| && d.log[n] == o
  }

  lemma AfterSendKeepsLog(c: Conn, id: nat, s: Stream, change: Stream -> Stream)
    requires id in c.streams
    ensures c.log <= AfterSend(c, id, Stale(s), change).log
  {
  }

  lemma LoggedLast(c: Conn, o: Output)
    ensures Log(c, o).log == c.log + [o] && Log(c, o).streams == c.streams
  {
  }

  /**
   * Headers through a stale handle go out under the id, without a change to the stream that has it now, and
   * leave the map alone exactly if they do not leave the handle's stream closed.
   */
  lemma StaleHeadersLeaveMapIff(c: Conn, id: nat, s: Stream, hs: seq<Header>, endStream: bool)
    requires Coder.WellFormed(c.compressor) && id in c.streams
    ensures var d := HeadersSent(c, id, Stale(s), hs, endStream);
            && GoesOut(c, d, SentHeaders(id, Coder.EncodeBlock(c.compressor, hs, c.hash).octets, endStream))
            && (d.streams == c.streams <==> !ClosedByHeaders(s, endStream))
            && (ClosedByHeaders(s, endStream) ==> d.streams == c.streams - {id})
  {
    hide PrefaceEnsured, Log, AfterSend, SendHeadersChange, ClosedByHeaders, Coder.EncodeBlock, Coder.WellFormed;
    var e := Coder.EncodeBlock(c.compressor, hs, c.hash);
    var p := PrefaceEnsured(c).(compressor := e.state);
    HeadersChangeCloses(s, endStream);
    PrefaceKeepsStreams(c);
    LoggedLast(p, SentHeaders(id, e.octets, endStream));
    var sent := Log(p, SentHeaders(id, e.octets, endStream));
    StaleSendTouches(sent, id, s, SendHeadersChange(endStream));
    AfterSendKeepsLog(sent, id, s, SendHeadersChange(endStream));
    assert id !in c.streams - {id};
  }

  /** So does data, which goes out if there is any or it ends the stream, and the window is wide enough. */
  lemma StaleDataLeavesMapIff(c: Conn, id: nat, s: Stream, data: bytes, endStream: bool)
    requires id in c.streams
    ensures var d := DataSent(c, id, Stale(s), data, endStream);
            && ((data != [] || endStream) && (data == [] || |data| <= c.sendWindow) ==>
                  GoesOut(c, d, SentData(id, data, endStream)))
            && (d.streams == c.streams <==> !ClosedByData(s, endStream))
            && (ClosedByData(s, endStream) ==> d.streams == c.streams - {id})
  {
    hide PrefaceEnsured, Log, AfterSend, SendDataChange, ClosedByData, SendHeadersChange;
    var p := PrefaceEnsured(c);
    DataChangeCloses(s, endStream);
    PrefaceKeepsStreams(c);
    var narrowed := p.(sendWindow := p.sendWindow - |data|);
    LoggedLast(narrowed, SentData(id, data, endStream));
    StaleSendTouches(DataFrameSent(p, id, data, endStream), id, s, SendDataChange(endStream));
    AfterSendKeepsLog(DataFrameSent(p, id, data, endStream), id, s, SendDataChange(endStream));
    assert id !in c.streams - {id};
  }

  /**
   * A reset through a handle, stale or not, is a reset of the id: it goes out and takes the stream that has
   * the id now out of the map, unless that one is idle.
   */
  lemma ResetHitsCurrentIff(c: Conn, id: nat, e: nat)
    requires id in c.streams && c.streams[id].state != StreamStates.Closed
    ensures var d := RstStreamSent(c, id, e);
            && GoesOut(c, d, SentRstStream(id, e))
            && (id !in d.streams <==> c.streams[id].state != StreamStates.Idle)
            && d.streams - {id} == c.streams - {id}
  {
    hide PrefaceEnsured, Log, Settle;
    var p := PrefaceEnsured(c);
    PrefaceKeepsStreams(c);
    LoggedLast(p, SentRstStream(id, e));
    var s := Moved(c.streams[id], StreamStates.Send(StreamStates.RstStream));
    SettledIs(Log(p, SentRstStream(id, e)), id, s);
  }

  lemma SettledIs(c: Conn, id: nat, s: Stream)
    requires id in c.streams
    ensures var d := Settle(c, id, s);
            && c.log <= d.log && (id !in d.streams <==> s.state == StreamStates.Closed)
            && d.streams - {id} == c.streams - {id}
  {
    hide DrainChecked, Store;
    WithoutId(c.streams, id, s);
    DrainKeepsLog(c.(streams := c.streams - {id}));
    StoreIs(c, id, s);
  }

  lemma WithoutId(m: map<nat, Stream>, id: nat, s: Stream)
    ensures m[id := s] - {id} == m - {id} && m - {id} - {id} == m - {id} && id !in m - {id}
  {
  }

  lemma StoreIs(c: Conn, id: nat, s: Stream)
    ensures Store(c, id, s).log == c.log && Store(c, id, s).streams == c.streams[id := s]
  {
  }

  lemma DrainKeepsLog(c: Conn)
    ensures c.log <= DrainChecked(c).log && DrainChecked(c).streams == c.streams
  {
  }

  // ---------------------------------------------------------------- local streams

  lemma LocalIdStaysOut(c: Conn, op: Op, huffman: Huffman, id: nat)
    requires Inv(c) && IsLocal(c.clientSide, id) && id < c.nextLocalStreamId && id !in c.streams
    ensures Ready(c)
    ensures var d := Apply(c, op, huffman);
            d.clientSide == c.clientSide && id < d.nextLocalStreamId && id !in d.streams
  {
    hide Apply, Specials, LastIds, Inv, GoAways, Shutdowns, GoAwaySent, Base, IsLocal;
    ApplyKeeps(c, op, huffman);
    BaseTracks(c, op);
    if op.SendGoAway? {
      SendGoAwayIs(c, op, huffman);
      GoAwayKeeps(c, op.errorCode, op.lastStreamId, op.debug);
    } else if op.DrainNow? {
      DrainNowIs(c, huffman);
      DrainedKeeps(c);
    }
  }

  /** The id of a stream this endpoint opened never comes back: a stale handle on it sends nothing. */
  lemma {:induction false} LocalIdsNeverReturn(clientSide: bool, hash: Coder.Hash, ops: seq<Op>, n: nat,
                                               huffman: Huffman, id: nat)
    requires Inv(Init(clientSide, hash)) && n <= |ops|
    requires var b := After(Init(clientSide, hash), ops[..n], huffman);
             b.clientSide == clientSide && IsLocal(clientSide, id) && id < b.nextLocalStreamId && id !in b.streams
    ensures var c := After(Init(clientSide, hash), ops, huffman);
            && c.clientSide == clientSide && id < c.nextLocalStreamId && id !in c.streams
            && Ready(c)
            && forall handle, hs, endStream :: HeadersSent(c, id, handle, hs, endStream) == PrefaceEnsured(c)
    decreases |ops|
  {
    hide Inv, Apply, IsLocal, PrefaceEnsured, AfterSend;
    if n == |ops| {
      assert ops[..n] == ops;
    } else {
      var k := |ops| - 1;
      assert ops[..k][..n] == ops[..n];
      LocalIdsNeverReturn(clientSide, hash, ops[..k], n, huffman, id);
      LocalIdStaysOut(After(Init(clientSide, hash), ops[..k], huffman), ops[k], huffman, id);
    }
    ReadyByInv(After(Init(clientSide, hash), ops, huffman));
    PrefaceKeepsStreams(After(Init(clientSide, hash), ops, huffman));
  }

  // ---------------------------------------------------------------- a stream taken out through an old handle

  /** HEADERS that open stream 1, with priority and no block; RST_STREAM for it; and their frames on the wire. */
  const OPENING := FrameHeader(5, HEADERS, 0x24, 1)
  const RESET := FrameHeader(4, RST_STREAM, 0, 1)

  function OpeningFrame(): bytes
  {
    PackHeader(OPENING) + [0, 0, 0, 0, 0]
  }

  function ResetFrame(): bytes
  {
    PackHeader(RESET) + [0, 0, 0, 0]
  }

  /** A server in no special state. */
  predicate Plain(c: Conn)
  {
    && |c.localSettings| == |c.remoteSettings| == Settings.COUNT
    && !c.clientSide && !c.nextFrameLimit && !c.sentGoAway && !c.draining
  }

  lemma FramesParse()
    ensures Parse(OPENING, [0, 0, 0, 0, 0]) == HeadersPayload([], 0)
    ensures Parse(RESET, [0, 0, 0, 0]) == RstStreamPayload(0)
    ensures HasFlag(OPENING.flags, END_HEADERS)
  {
    assert !HasFlag(0x24, PADDED) && HasFlag(0x24, PRIORITY_FLAG);
    assert FromBe32([0, 0, 0, 0]) == 0;
  }

  lemma TrackedIsPlain(c: Conn)
    requires Plain(c)
    ensures Plain(Tracked(c, 1)) && Tracked(c, 1).streams == c.streams && Tracked(c, 1).table == c.table
  {
  }

  lemma OpeningReachesHandler(c: Conn, huffman: Huffman)
    requires Plain(c)
    ensures Process(c, OPENING, [0, 0, 0, 0, 0], huffman).conn ==
            Reaped(HeadersFrameReceived(Tracked(c, 1), OPENING, [], 0, huffman), 1)
  {
    hide Parse, HeadersFrameReceived, Reaped, Tracked, HasFlag;
    FramesParse();
  }

  lemma ResetReachesHandler(c: Conn, huffman: Huffman)
    requires Plain(c)
    ensures Process(c, RESET, [0, 0, 0, 0], huffman).conn == Reaped(RstStreamReceived(Tracked(c, 1), RESET, 0), 1)
  {
    hide Parse, RstStreamReceived, Reaped, Tracked, HasFlag;
    FramesParse();
  }

  lemma EmptyBlock(t: Table, huffman: Huffman)
    ensures DecodeSpec([], t, huffman) == Decoded(HeaderDecoder.NoError, [], t)
  {
    hide StepSpec;
  }

  lemma OpeningStored(c: Conn, s: Stream)
    requires Plain(c)
    ensures var d := BlockSeen(Store(c.(table := c.table), 1, s), OPENING, 1);
            Plain(d) && d.streams == c.streams[1 := s]
  {
    hide HasFlag, Parse;
    FramesParse();
  }

  /** The opening frame puts stream 1 in the map, open for the server to send. */
  lemma Opens(c: Conn, huffman: Huffman)
    requires Plain(c) && 1 !in c.streams
    ensures var d := PackageProcess(c, OpeningFrame(), huffman).conn;
            Plain(d) && 1 in d.streams && (d.streams[1].state.Open? || d.streams[1].state.HalfClosedRemote?)
  {
    hide PackageProcess, Process, PackHeader, HeadersFrameReceived, Reaped, Tracked, DecodeSpec, BlockSeen, Store;
    hide HasFlag, HeaderBlocks.Opened;
    var t := Tracked(c, 1);
    WholePackage(c, OPENING, [0, 0, 0, 0, 0], huffman);
    OpeningReachesHandler(c, huffman);
    TrackedIsPlain(c);
    EmptyBlock(t.table, huffman);
    HeaderBlocks.HeadersFrameTaken(t, OPENING, [], 0, huffman);
    HeaderBlocks.OpenedIsOpen(t, OPENING, []);
    var s := HeaderBlocks.Opened(t, OPENING, []);
    OpeningStored(t, s);
    HeaderBlocks.NotReaped(BlockSeen(Store(t.(table := t.table), 1, s), OPENING, 1), 1);
  }

  /** What the reset makes of the stream, also for those who still hold it. */
  function WasReset(s: Stream): Stream
  {
    FrameSeen(RstReceived(s, 0), RST_STREAM, 0)
  }

  lemma ResetCloses(s: Stream)
    requires s.state.Open? || s.state.HalfClosedRemote?
    ensures WasReset(s).state.Closed?
  {
  }

  lemma ResetStored(c: Conn, s: Stream)
    requires Plain(c) && s.state.Closed?
    ensures var d := Reaped(Log(Store(c, 1, s), OnStreamClosed(1, 0)), 1); Plain(d) && 1 !in d.streams
  {
  }

  /** The reset closes the stream and takes it out of the map. */
  lemma Resets(c: Conn, huffman: Huffman)
    requires Plain(c) && 1 in c.streams && (c.streams[1].state.Open? || c.streams[1].state.HalfClosedRemote?)
    ensures var d := PackageProcess(c, ResetFrame(), huffman).conn;
            Plain(d) && 1 !in d.streams && WasReset(c.streams[1]).state.Closed?
  {
    hide PackageProcess, Process, PackHeader, Reaped, Tracked, Log, Store, FrameSeen, RstReceived, GoAwaySent;
    var t := Tracked(c, 1);
    WholePackage(c, RESET, [0, 0, 0, 0], huffman);
    ResetReachesHandler(c, huffman);
    TrackedIsPlain(c);
    ResetCloses(c.streams[1]);
    ResetStored(t, WasReset(c.streams[1]));
  }

  /** A server gets HEADERS for stream 1, RST_STREAM, and HEADERS for it again. */
  const REOPENING := [Receive(OpeningFrame()), Receive(ResetFrame()), Receive(OpeningFrame())]

  /**
   * A send through the handle on the first of the two streams with id 1 takes the second, which is open,
   * out of the map.
   */
  lemma StaleSendTakesAnotherStream(hash: Coder.Hash, huffman: Huffman)
    ensures Inv(Init(false, hash))
    ensures var first := After(Init(false, hash), REOPENING[..1], huffman);
            var second := After(Init(false, hash), REOPENING, huffman);
            && 1 in first.streams && 1 !in After(Init(false, hash), REOPENING[..2], huffman).streams
            && 1 in second.streams && !second.streams[1].state.Closed?
            && var handle := WasReset(first.streams[1]);
               1 !in After(Init(false, hash), REOPENING + [SendHeaders(1, Stale(handle), [], false)], huffman).streams
  {
    hide PackageProcess, OpeningFrame, ResetFrame, HeadersSent, Inv, WasReset;
    InitInv(false, hash);
    var c := Init(false, hash);
    InitIsPlain(hash);
    var (c1, c2) := (After(c, REOPENING[..1], huffman), After(c, REOPENING[..2], huffman));
    var c3 := After(c, REOPENING, huffman);
    AfterOne(c, [], Receive(OpeningFrame()), huffman);
    assert REOPENING[..1] == [] + [Receive(OpeningFrame())];
    AfterOne(c, REOPENING[..1], Receive(ResetFrame()), huffman);
    assert REOPENING[..2] == REOPENING[..1] + [Receive(ResetFrame())];
    AfterOne(c, REOPENING[..2], Receive(OpeningFrame()), huffman);
    assert REOPENING == REOPENING[..2] + [Receive(OpeningFrame())];
    Opens(c, huffman);
    Resets(c1, huffman);
    Opens(c2, huffman);
    var handle := WasReset(c1.streams[1]);
    AfterOne(c, REOPENING, SendHeaders(1, Stale(handle), [], false), huffman);
    StaleHeadersLeaveMapIff(c3, 1, handle, [], false);
  }

  lemma InitIsPlain(hash: Coder.Hash)
    ensures Plain(Init(false, hash)) && 1 !in Init(false, hash).streams
  {
  }
}
