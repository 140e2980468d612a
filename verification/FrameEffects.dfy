/**
 * What a frame that gets past the first checks of package_process (src/http2/connection.cc) does, told on its
 * octets: which frames are refused and with which error, and what the others change.
 */
module FrameEffects {
  import opened Bytes
  import Coder = CompressorModel
  import opened ConnectionInvariant
  import opened ConnectionModel
  import ConnectionCodecs
  import ConnectionOutputs
  import opened ConnectionRuns
  import DataFrames
  import DynamicTable
  import opened FrameRoundTrips
  import opened Frames
  import HeaderBlockRuns
  import opened HeaderBlocks
  import opened Headers
  import opened HeaderDecoder
  import Settings
  import StaleHandles
  import StreamLifecycle
  import opened StreamModel
  import StreamStates
  import opened StringLiterals
  import opened TransportLaws

  /** The connection after one whole frame. */
  function Take(c: Conn, h: FrameHeader, payload: bytes, huffman: Huffman): Conn
    requires Inv(c) && |payload| == h.length
  {
    ReadyByInv(c);
    Process(c, h, payload, huffman).conn
  }

  /** A whole frame of a known type and a right size that gets past the first checks. */
  predicate Proper(c: Conn, h: FrameHeader, payload: bytes)
  {
    Admitted(c, h) && h.ftype <= CONTINUATION && |payload| == h.length && RightSize(h, payload)
  }

  /** No GOAWAY has gone out. */
  predicate NotRefused(c: Conn, d: Conn)
  {
    GoAways(d) == GoAways(c) && d.sentGoAway == c.sentGoAway
  }

  /** A frame of a right size is what its handler makes of it, its stream id tracked. */
  lemma Reaches(c: Conn, h: FrameHeader, payload: bytes, huffman: Huffman)
    requires Inv(c) && Proper(c, h, payload)
    ensures var t := Tracked(c, h.streamId);
            && Inv(t) && Sized(t) && t.streams == c.streams && t.log == c.log && !Parse(h, payload).Malformed?
            && var d := Handle(t, h, Parse(h, payload), huffman);
               Take(c, h, payload, huffman) == if HandsBackStream(h.ftype) then Reaped(d, h.streamId) else d
  {
    hide Inv, Parse, Handle, Reaped, Tracked, Process, RightSize;
    ReadyByInv(c);
    RefusedForSizeIff(h, payload);
    ConnectionOutputs.FrameIsHandled(c, h, payload, huffman);
    ConnectionOutputs.TrackedIsCalm(c, h.streamId);
    TrackedKeeps(c, h.streamId);
  }

  lemma NothingIsReaped(c: Conn, id: nat)
    requires Inv(c)
    ensures Reaped(c, id) == c
  {
    hide DrainChecked, Specials, Settings.Parameters;
  }

  /** A refusal takes no stream out of the map. */
  lemma RefusalStands(c: Conn, e: nat, id: nat)
    requires Inv(c)
    ensures RefusedWith(c, e, GoAwaySent(c, e, 0)) && Reaped(GoAwaySent(c, e, 0), id) == GoAwaySent(c, e, 0)
  {
    hide Inv, GoAwaySent, RefusedWith, Reaped;
    GoAwayIsRefusal(c, e);
    GoAwayKeeps(c, e, 0);
    NothingIsReaped(GoAwaySent(c, e, 0), id);
  }

  // ---------------------------------------------------------------- size and type

  lemma WrongSizeIsRefused(c: Conn, h: FrameHeader, payload: bytes, huffman: Huffman)
    requires Inv(c) && Admitted(c, h) && h.ftype <= CONTINUATION && |payload| == h.length && !RightSize(h, payload)
    ensures RefusedWith(Tracked(c, h.streamId), 6, Take(c, h, payload, huffman))
  {
    hide Inv, Parse, Handle, Reaped, Tracked, RightSize, GoAwaySent, RefusedWith;
    ReadyByInv(c);
    RefusedForSizeIff(h, payload);
    TrackedKeeps(c, h.streamId);
    ReadyByInv(Tracked(c, h.streamId));
    MalformedHandled(Tracked(c, h.streamId), h, Parse(h, payload), huffman);
    RefusalStands(Tracked(c, h.streamId), FRAME_SIZE_ERROR, h.streamId);
  }

  lemma MalformedHandled(c: Conn, h: FrameHeader, p: Payload, huffman: Huffman)
    requires Sized(c) && p.Malformed?
    ensures Handle(c, h, p, huffman) == GoAwaySent(c, p.error, 0)
  {
  }

  /** A frame of no known type is ignored (section 4.1 of RFC 7540), but for its stream id. */
  lemma UnknownTypeIsIgnored(c: Conn, h: FrameHeader, payload: bytes, huffman: Huffman)
    requires Inv(c) && Admitted(c, h) && h.ftype >= 10 && |payload| == h.length
    ensures var d := Take(c, h, payload, huffman);
            && d.streams == c.streams && d.log == c.log && d.table == c.table
            && d == c.(lastStreamId := d.lastStreamId)
  {
    hide Inv, Parse, Handle, Reaped, GoAwaySent;
    ReadyByInv(c);
  }

  // ---------------------------------------------------------------- DATA

  lemma DataPads(h: FrameHeader, payload: bytes)
    requires |payload| == h.length && h.ftype == DATA && RightSize(h, payload)
    ensures var p := Parse(h, payload);
            p.DataPayload? && (p.padLen >= h.length <==> h.length == 0) && |p.data| == BodySize(h.flags, payload)
  {
    hide ParseSettings, ParsePriority, FromBe32, HasFlag;
  }

  /** DATA is refused exactly on stream 0 or when the frame is empty, END_STREAM or not. */
  lemma DataIsRefusedIff(c: Conn, h: FrameHeader, payload: bytes, huffman: Huffman)
    requires Inv(c) && Proper(c, h, payload) && h.ftype == DATA
    ensures var (t, d) := (Tracked(c, h.streamId), Take(c, h, payload, huffman));
            if h.streamId == 0 || h.length == 0 then RefusedWith(t, PROTOCOL_ERROR, d)
            else NotRefused(c, d) && d.table == c.table
  {
    hide Inv, Parse, Handle, Reaped, Tracked, RightSize, GoAwaySent, RefusedWith, DataReceived, Admitted, GoAways,
         Take;
    Reaches(c, h, payload, huffman);
    DataPads(h, payload);
    var t := Tracked(c, h.streamId);
    var p := Parse(h, payload);
    DataHandled(t, h, p, huffman);
    if h.streamId == 0 || h.length == 0 {
      RefusalStands(t, PROTOCOL_ERROR, h.streamId);
    } else {
      TrackedSays(c, h.streamId);
      DataIsTaken(t, h, p.data, p.padLen);
    }
  }

  lemma DataHandled(c: Conn, h: FrameHeader, p: Payload, huffman: Huffman)
    requires Sized(c) && p.DataPayload?
    ensures Handle(c, h, p, huffman) == DataReceived(c, h, p.data, p.padLen)
    ensures h.streamId == 0 || p.padLen >= h.length ==> Handle(c, h, p, huffman) == GoAwaySent(c, PROTOCOL_ERROR, 0)
  {
    hide GoAwaySent, WindowUpdateSent;
  }

  lemma TrackedSays(c: Conn, id: nat)
    ensures var t := Tracked(c, id);
            && GoAways(t) == GoAways(c) && t.sentGoAway == c.sentGoAway && t.table == c.table
            && t.clientSide == c.clientSide && t.remoteSettings == c.remoteSettings
  {
    hide GoAways, IsLocal;
    var t := Tracked(c, id);
    if t != c {
      assert t == c.(lastStreamId := id);
    }
    SameSays(c, t);
  }

  lemma DataIsTaken(c: Conn, h: FrameHeader, data: bytes, padLen: nat)
    requires Inv(c) && h.streamId > 0 && padLen < h.length
    ensures var d := DataReceived(c, h, data, padLen);
            NotRefused(c, d) && NotRefused(c, Reaped(d, h.streamId)) &&
            d.table == c.table == Reaped(d, h.streamId).table
  {
    hide Inv, WindowUpdateSent, Log, FrameSeen, GoAways, Specials, Store, Reaped, Sound;
    var d := DataReceived(c, h, data, padLen);
    if h.streamId in c.streams {
      var seen := FrameSeen(c.streams[h.streamId], h.ftype, h.flags);
      var more := Store(c, h.streamId, seen.(data := seen.data + data));
      var chunk := Log(more, OnStreamData(h.streamId, data));
      var w := WindowUpdateSent(chunk, h.streamId, |data|, |data|);
      StoreSays(c, h.streamId, seen);
      StoreSays(c, h.streamId, seen.(data := seen.data + data));
      LogSays(more, OnStreamData(h.streamId, data));
      WindowUpdateSays(chunk, h.streamId, |data|, |data|);
      LogSays(w, OnStreamClosed(h.streamId, 0));
      ConnectionCodecs.WindowUpdateCodecs(chunk, h.streamId, |data|, |data|);
    }
    ReapedSays(d, h.streamId);
  }

  lemma WindowUpdateSays(c: Conn, id: nat, ci: nat, si: nat)
    ensures NotRefused(c, WindowUpdateSent(c, id, ci, si))
  {
    hide WindowUpdateSent, Specials, LastIds, Sound;
    WindowUpdateIsQuiet(c, id, ci, si);
  }

  lemma StoreSays(c: Conn, id: nat, s: Stream)
    ensures NotRefused(c, Store(c, id, s)) && Store(c, id, s).table == c.table
  {
    hide Specials, LastIds;
  }

  lemma LogSays(c: Conn, o: Output)
    ensures !o.SentGoAway? ==> NotRefused(c, Log(c, o)) && Log(c, o).table == c.table
  {
    hide Specials, LastIds, GoAways;
    GoAwaysAppend(c, o);
  }

  lemma ReapedSays(c: Conn, id: nat)
    ensures NotRefused(c, Reaped(c, id)) && Reaped(c, id).table == c.table
  {
    hide GoAways;
    var d := c.(streams := c.streams - {id});
    SameSays(c, d);
    SameSays(d, d.(draining := false));
    LogSays(d.(draining := false), OnShutdownComplete);
  }

  lemma SameSays(c: Conn, d: Conn)
    requires d.log == c.log && d.sentGoAway == c.sentGoAway
    ensures NotRefused(c, d)
  {
    hide Specials, LastIds;
  }

  /** So a stream cannot be ended by an empty frame, which is how this endpoint ends one without data. */
  lemma EndAloneIsRefused(c: Conn, id: nat, endStream: bool, huffman: Huffman)
    requires Inv(c) && 0 < id < STREAM_ID_LIMIT
    requires var h := FrameHeader(0, DATA, if endStream then 1 else 0, id); Admitted(c, h)
    ensures var h := FrameHeader(0, DATA, if endStream then 1 else 0, id);
            && DataFrames.SplitData(h, [], 16384) == [PackHeader(h)]
            && RefusedWith(Tracked(c, id), PROTOCOL_ERROR, Take(c, h, [], huffman))
  {
    hide Inv, Admitted, Take, RefusedWith, Tracked, PackHeader;
    var h := FrameHeader(0, DATA, if endStream then 1 else 0, id);
    DataIsRefusedIff(c, h, [], huffman);
    assert DataFrames.ChunkHeader(h, 0, true) == h;
    assert PackHeader(h) + [] == PackHeader(h);
  }

  // ---------------------------------------------------------------- HEADERS

  lemma HeadersPad(h: FrameHeader, payload: bytes, block: bytes)
    requires Carries(h, payload, block) && RightSize(h, payload)
    ensures LongEnough(h, block) && Parse(h, payload).HeadersPayload? && Parse(h, payload).fragment == block
    ensures Parse(h, payload).padLen < h.length
  {
    hide Parse, CarriedBlock, RightSize;
    HeaderBlocks.HeadersParse(h, payload, block);
    RefusedForSizeIff(h, payload);
  }

  lemma HeadersRefused(c: Conn, h: FrameHeader, fragment: bytes, padLen: nat, huffman: Huffman)
    requires Sized(c) && !c.nextFrameLimit && (c.sentGoAway ==> h.streamId <= c.sentGoAwayStreamId)
    requires h.streamId > 0 && padLen < h.length && DecodeSpec(fragment, c.table, huffman).error == NoError
    requires !MayOpen(c, h.streamId)
    ensures HeadersFrameReceived(c, h, fragment, padLen, huffman) ==
            GoAwaySent(c.(table := DecodeSpec(fragment, c.table, huffman).table), PROTOCOL_ERROR, 0)
  {
    hide DecodeSpec, GoAwaySent;
  }

  lemma HeadersTakenSays(c: Conn, h: FrameHeader, table: DynamicTable.Table, s: Stream)
    ensures var d := BlockSeen(Store(c.(table := table), h.streamId, s), h, h.streamId);
            NotRefused(c, d) && d.table == table && d.streams == c.streams[h.streamId := s]
  {
    hide BlockSeen, Sound, Specials, LastIds, Store;
    BlockSeenIsQuiet(Store(c.(table := table), h.streamId, s), h, h.streamId);
    BlockSeenTable(Store(c.(table := table), h.streamId, s), h, h.streamId);
    StoreSays(c.(table := table), h.streamId, s);
    StaleHandles.StoreIs(c.(table := table), h.streamId, s);
    SameSays(c, c.(table := table));
  }

  lemma BlockSeenTable(c: Conn, h: FrameHeader, id: nat)
    ensures BlockSeen(c, h, id).table == c.table
  {
    hide HasFlag;
  }

  /**
   * HEADERS whose block decodes open a stream exactly if it is the peer's and not in the map, or idle there; on
   * any other they are refused, and no stream changes.
   */
  lemma HeadersOpenIff(c: Conn, h: FrameHeader, payload: bytes, block: bytes, huffman: Huffman)
    requires Inv(c) && Proper(c, h, payload) && Carries(h, payload, block) && h.streamId > 0
    requires DecodeSpec(block, c.table, huffman).error == NoError
    ensures var d := DecodeSpec(block, c.table, huffman);
            var (t, r) := (Tracked(c, h.streamId).(table := d.table), Take(c, h, payload, huffman));
            if MayOpen(c, h.streamId) then
              && NotRefused(c, r) && r.table == d.table && h.streamId in r.streams
              && r.streams == c.streams[h.streamId := r.streams[h.streamId]]
              && r.streams[h.streamId].headers == d.headers
            else RefusedWith(t, PROTOCOL_ERROR, r)
  {
    hide Inv, Parse, Handle, Reaped, Tracked, RightSize, GoAwaySent, RefusedWith, HeadersFrameReceived, GoAways, Take,
         DecodeSpec, CarriedBlock, Opened, BlockSeen, Store;
    var (t, id) := (Tracked(c, h.streamId), h.streamId);
    Reaches(c, h, payload, huffman);
    HeadersPad(h, payload, block);
    HeadersHandled(t, h, Parse(h, payload), huffman);
    TrackedSays(c, id);
    HeaderBlockRuns.TrackedIs(c, id);
    var d := DecodeSpec(block, c.table, huffman);
    if MayOpen(c, id) {
      HeadersFrameTaken(t, h, block, Parse(h, payload).padLen, huffman);
      OpenedIsOpen(t, h, d.headers);
      HeadersTakenSays(t, h, d.table, Opened(t, h, d.headers));
      NotReaped(BlockSeen(Store(t.(table := d.table), id, Opened(t, h, d.headers)), h, id), id);
    } else {
      HeadersRefused(t, h, block, Parse(h, payload).padLen, huffman);
      TableKeeps(t, d.table);
      RefusalStands(t.(table := d.table), PROTOCOL_ERROR, id);
    }
  }

  lemma HeadersHandled(c: Conn, h: FrameHeader, p: Payload, huffman: Huffman)
    requires Sized(c) && p.HeadersPayload?
    ensures Handle(c, h, p, huffman) == HeadersFrameReceived(c, h, p.fragment, p.padLen, huffman)
  {
  }

  lemma TableKeeps(c: Conn, table: DynamicTable.Table)
    requires Inv(c)
    ensures Inv(c.(table := table))
  {
    hide Specials;
    TableIsQuiet(c, table);
    QuietKeeps(c, c.(table := table));
  }

  /** The code of section 7 of RFC 7540 that a block's error goes out with. */
  function CodeOf(e: Error): nat
    requires e != NoError
  {
    if e == ProtocolError then 1 else 9
  }

  /** A block that does not decode is refused with its error: no stream changes, and the table is where it got to. */
  lemma BadBlockIsRefused(c: Conn, h: FrameHeader, payload: bytes, block: bytes, huffman: Huffman)
    requires Inv(c) && Proper(c, h, payload) && Carries(h, payload, block) && h.streamId > 0
    requires DecodeSpec(block, c.table, huffman).error != NoError
    ensures var d := DecodeSpec(block, c.table, huffman);
            RefusedWith(Tracked(c, h.streamId).(table := d.table), CodeOf(d.error), Take(c, h, payload, huffman))
  {
    hide Inv, Parse, Handle, Reaped, Tracked, RightSize, GoAwaySent, RefusedWith, Take, DecodeSpec, CarriedBlock,
         HeadersFrameReceived, ErrorCode, Admitted;
    var (t, d) := (Tracked(c, h.streamId), DecodeSpec(block, c.table, huffman));
    Reaches(c, h, payload, huffman);
    HeadersPad(h, payload, block);
    HeadersHandled(t, h, Parse(h, payload), huffman);
    TrackedSays(c, h.streamId);
    BlockRefused(t, h, block, Parse(h, payload).padLen, huffman);
    TableKeeps(t, d.table);
    RefusalStands(t.(table := d.table), CodeOf(d.error), h.streamId);
  }

  lemma BlockRefused(c: Conn, h: FrameHeader, block: bytes, padLen: nat, huffman: Huffman)
    requires h.streamId > 0 && padLen < h.length && DecodeSpec(block, c.table, huffman).error != NoError
    ensures var d := DecodeSpec(block, c.table, huffman);
            HeadersFrameReceived(c, h, block, padLen, huffman) ==
            GoAwaySent(c.(table := d.table), CodeOf(d.error), 0)
  {
    hide DecodeSpec, GoAwaySent;
  }

  /** An answer is such a frame: once our own headers are out on a stream, HEADERS of the peer's on it are refused. */
  lemma AnswerIsRefused(c: Conn, id: nat, hs: seq<Header>, endStream: bool, h: FrameHeader, payload: bytes,
                        block: bytes, huffman: Huffman)
    requires Inv(c) && Ready(c) && id in c.streams && c.streams[id].state.Idle?
    requires var q := HeadersSent(c, id, Live, hs, endStream);
             && Proper(q, h, payload) && Carries(h, payload, block) && h.streamId == id
             && DecodeSpec(block, q.table, huffman).error == NoError
    ensures var q := HeadersSent(c, id, Live, hs, endStream);
            && Inv(q) && id in q.streams && q.streams[id].state == OpenedBy(endStream)
            && var t := Tracked(q, id).(table := DecodeSpec(block, q.table, huffman).table);
               RefusedWith(t, PROTOCOL_ERROR, Take(q, h, payload, huffman))
  {
    hide Inv, Proper, Carries, HeadersSent, RefusedWith, Take, SendHeadersChange, Tracked, DecodeSpec, Coder.WellFormed;
    var q := HeadersSent(c, id, Live, hs, endStream);
    HeadersSentKeeps(c, id, Live, hs, endStream);
    FoundKey(c, id);
    StreamLifecycle.LiveHeaders(c, id, hs, endStream);
    FirstHeaders(c.streams[id], endStream);
    HeadersOpenIff(q, h, payload, block, huffman);
  }

  function OpenedBy(endStream: bool): StreamStates.State
  {
    if endStream then StreamStates.HalfClosedLocal else StreamStates.Open
  }

  lemma FirstHeaders(s: Stream, endStream: bool)
    requires s.state.Idle?
    ensures SendHeadersChange(endStream)(s).state == OpenedBy(endStream)
  {
  }

  // ---------------------------------------------------------------- PRIORITY and RST_STREAM

  /** The flag that is END_STREAM on DATA and HEADERS and ACK on SETTINGS and PING. */
  predicate FirstBit(h: FrameHeader)
  {
    h.flags % 2 == 1
  }

  lemma FirstBitIs(h: FrameHeader)
    ensures HasFlag(h.flags, END_STREAM) <==> FirstBit(h)
    ensures HasFlag(h.flags, ACK) <==> FirstBit(h)
  {
  }

  /** What a frame of another type does to its stream besides: a set first bit ends the peer's half. */
  function Noted(s: Stream, h: FrameHeader): (r: Stream)
  {
    var t := s.(frameType := h.ftype, frameFlags := h.flags);
    if !FirstBit(h) then t
    else
      t.(readClosed := true,
         state := match s.state
                  case Open => StreamStates.HalfClosedRemote
                  case HalfClosedLocal => StreamStates.Closed
                  case _ => s.state)
  }

  lemma NotedIs(s: Stream, h: FrameHeader)
    ensures FrameSeen(s, h.ftype, h.flags) == Noted(s, h)
  {
    FirstBitIs(h);
  }

  /** The map with a stream stored, or without it if it is closed. */
  function Kept(streams: map<nat, Stream>, id: nat, s: Stream): map<nat, Stream>
  {
    if s.state.Closed? then streams - {id} else streams[id := s]
  }

  lemma StoredThenReaped(c: Conn, id: nat, s: Stream)
    requires id > 0
    ensures var d := Reaped(Store(c, id, s), id);
            d.streams == Kept(c.streams, id, s) && d.table == c.table && NotRefused(c, d)
  {
    hide GoAways;
    StoreSays(c, id, s);
    ReapedSays(Store(c, id, s), id);
    assert c.streams[id := s] - {id} == c.streams - {id};
  }

  /**
   * A priority is kept with its stream, if the map has it, and changes no state, unless the first flag is set;
   * one on stream 0, or on the stream itself, is refused.
   */
  lemma PriorityArrives(c: Conn, h: FrameHeader, p: Priority, huffman: Huffman)
    requires Inv(c) && ProperPriority(p) && Proper(c, h, PriorityOctets(p)) && h.ftype == PRIORITY
    ensures var (id, d) := (h.streamId, Take(c, h, PriorityOctets(p), huffman));
            if id == 0 || id == p.dependStreamId then RefusedWith(Tracked(c, id), PROTOCOL_ERROR, d)
            else
              && NotRefused(c, d) && d.table == c.table
              && d.streams == if id in c.streams then Kept(c.streams, id, Noted(c.streams[id].(priority := p), h))
                              else c.streams
  {
    hide Inv, Parse, Handle, Reaped, Tracked, RightSize, GoAwaySent, RefusedWith, GoAways, Take, PriorityOctets,
         FrameSeen, Noted, Kept, Store;
    var (t, id) := (Tracked(c, h.streamId), h.streamId);
    Reaches(c, h, PriorityOctets(p), huffman);
    PriorityParses(h, p);
    PriorityHandled(t, h, p, huffman);
    TrackedSays(c, id);
    NothingIsReaped(t, id);
    if id == 0 || id == p.dependStreamId {
      RefusalStands(t, PROTOCOL_ERROR, id);
    } else if id in t.streams {
      NotedIs(t.streams[id].(priority := p), h);
      StoredThenReaped(t, id, Noted(t.streams[id].(priority := p), h));
    }
  }

  lemma PriorityHandled(c: Conn, h: FrameHeader, p: Priority, huffman: Huffman)
    requires Sized(c)
    ensures Handle(c, h, PriorityPayload(p), huffman) ==
            if h.streamId == 0 || h.streamId == p.dependStreamId then GoAwaySent(c, PROTOCOL_ERROR, 0)
            else if h.streamId !in c.streams then c
            else Store(c, h.streamId, FrameSeen(c.streams[h.streamId].(priority := p), h.ftype, h.flags))
  {
    hide GoAwaySent, FrameSeen, Store;
  }

  /** The shutdown that the end of the last stream of a draining connection completes. */
  function Completion(c: Conn, streams: map<nat, Stream>): seq<Output>
  {
    if c.draining && streams == map[] then [OnShutdownComplete] else []
  }

  lemma RemovedThen(c: Conn, id: nat)
    requires id > 0 && id in c.streams && c.streams[id].state.Closed?
    ensures var d := Reaped(c, id);
            d.streams == c.streams - {id} && d.log == c.log + Completion(c, c.streams - {id}) && d.table == c.table
  {
    hide DrainChecked;
    DrainCompletes(c.(streams := c.streams - {id}));
  }

  lemma DrainCompletes(c: Conn)
    ensures var d := DrainChecked(c);
            d.streams == c.streams && d.log == c.log + Completion(c, c.streams) && d.table == c.table
  {
    assert c.log + [] == c.log;
  }

  /**
   * A reset is reported with its error code and takes its stream out of the map, unless the stream is idle, which
   * only keeps the code; for a stream that is not in the map it is refused.
   */
  lemma ResetArrives(c: Conn, h: FrameHeader, e: nat, huffman: Huffman)
    requires Inv(c) && e < UINT32_LIMIT && Proper(c, h, Octets(e, 4)) && h.ftype == RST_STREAM
    ensures var (id, d) := (h.streamId, Take(c, h, Octets(e, 4), huffman));
            if id !in c.streams then RefusedWith(Tracked(c, id), PROTOCOL_ERROR, d)
            else if c.streams[id].state.Idle? then
              d.streams.Keys == c.streams.Keys && d.log == c.log + [OnStreamClosed(id, e)] &&
              d.streams == c.streams[id := d.streams[id]] &&
              d.streams[id].lastError == e && d.streams[id].state.Idle?
            else
              && d.streams == c.streams - {id} && d.table == c.table
              && d.log == c.log + [OnStreamClosed(id, e)] + Completion(c, c.streams - {id})
  {
    hide Inv, Parse, Handle, Reaped, Tracked, RightSize, GoAwaySent, RefusedWith, Take, Octets, RstReceived,
         FrameSeen, Noted, Store;
    var (t, id) := (Tracked(c, h.streamId), h.streamId);
    Reaches(c, h, Octets(e, 4), huffman);
    RstStreamParses(h, e);
    ResetHandled(t, h, e, huffman);
    TrackedDrains(c, id);
    if id !in t.streams {
      RefusalStands(t, PROTOCOL_ERROR, id);
    } else {
      FoundKey(t, id);
      var s := FrameSeen(RstReceived(t.streams[id], e), h.ftype, h.flags);
      ResetCloses(t.streams[id], h, e);
      StaleHandles.StoreIs(t, id, s);
      var d := Log(Store(t, id, s), OnStreamClosed(id, e));
      assert d.streams - {id} == c.streams - {id};
      StoredDrains(t, id, s, OnStreamClosed(id, e));
      if s.state.Closed? {
        RemovedThen(d, id);
      } else {
        NotReaped(d, id);
      }
    }
  }

  lemma StoredDrains(c: Conn, id: nat, s: Stream, o: Output)
    ensures var d := Log(Store(c, id, s), o); d.draining == c.draining && d.table == c.table && d.log == c.log + [o]
  {
  }

  lemma TrackedDrains(c: Conn, id: nat)
    ensures Tracked(c, id).draining == c.draining && Tracked(c, id).table == c.table
  {
    hide IsLocal;
  }

  lemma ResetCloses(s: Stream, h: FrameHeader, e: nat)
    requires !s.state.Closed?
    ensures var r := FrameSeen(RstReceived(s, e), h.ftype, h.flags);
            r.lastError == e && r.state == if s.state.Idle? then StreamStates.Idle else StreamStates.Closed
  {
  }

  lemma ResetHandled(c: Conn, h: FrameHeader, e: nat, huffman: Huffman)
    requires Inv(c) && Sized(c)
    ensures Handle(c, h, RstStreamPayload(e), huffman) ==
            if h.streamId !in c.streams then GoAwaySent(c, PROTOCOL_ERROR, 0)
            else Log(Store(c, h.streamId, FrameSeen(RstReceived(c.streams[h.streamId], e), h.ftype, h.flags)),
                     OnStreamClosed(h.streamId, e))
  {
    hide Inv, GoAwaySent, FrameSeen, Store, Log, RstReceived;
    if h.streamId in c.streams {
      FoundKey(c, h.streamId);
    }
  }

  // ---------------------------------------------------------------- GOAWAY

  /** A client's streams have odd ids and a server's even ones. */
  predicate Ours(clientSide: bool, id: nat)
  {
    id % 2 == if clientSide then 1 else 0
  }

  function GoAwayOctets(last: nat, reserved: bool, e: nat, debug: bytes): bytes
    requires last < STREAM_ID_LIMIT
  {
    Octets(last + (if reserved then 0x8000_0000 else 0), 4) + Octets(e, 4) + debug
  }

  /**
   * GOAWAY is reported, and exactly our own streams above its id can no longer be written to; nothing else about a
   * stream changes.
   */
  lemma GoAwayArrives(c: Conn, h: FrameHeader, last: nat, reserved: bool, e: nat, debug: bytes, huffman: Huffman)
    requires Inv(c) && last < STREAM_ID_LIMIT && e < UINT32_LIMIT && h.ftype == GOAWAY
    requires Proper(c, h, GoAwayOctets(last, reserved, e, debug))
    ensures var d := Take(c, h, GoAwayOctets(last, reserved, e, debug), huffman);
            if h.streamId != 0 then RefusedWith(Tracked(c, h.streamId), PROTOCOL_ERROR, d)
            else
              && d.log == c.log + [OnGoAway(last, e, debug)] && d.receivedGoAway && d.receivedGoAwayStreamId == last
              && d.table == c.table && d.sentGoAway == c.sentGoAway && d.streams.Keys == c.streams.Keys
              && forall id :: id in c.streams ==>
                   d.streams[id] == c.streams[id].(writeClosed := c.streams[id].writeClosed ||
                                                                  (Ours(c.clientSide, id) && id > last))
  {
    hide Inv, Parse, Handle, Reaped, Tracked, RightSize, GoAwaySent, RefusedWith, Take, Octets, GoAwayReceived;
    var (t, p) := (Tracked(c, h.streamId), GoAwayOctets(last, reserved, e, debug));
    Reaches(c, h, p, huffman);
    GoAwayParses(h, last, reserved, e, debug);
    GoAwayHandled(t, h, last, e, debug, huffman);
    if h.streamId != 0 {
      RefusalStands(t, PROTOCOL_ERROR, 0);
    } else {
      ConnectionCodecs.NotTracked(c);
      GoAwayMarks(c, h, last, e, debug);
    }
  }

  lemma GoAwayHandled(c: Conn, h: FrameHeader, last: nat, e: nat, debug: bytes, huffman: Huffman)
    requires Sized(c)
    ensures Handle(c, h, GoAwayPayload(last, e, debug), huffman) == GoAwayReceived(c, h, last, e, debug)
    ensures h.streamId != 0 ==> GoAwayReceived(c, h, last, e, debug) == GoAwaySent(c, PROTOCOL_ERROR, 0)
  {
    hide GoAwaySent;
  }

  lemma GoAwayMarks(c: Conn, h: FrameHeader, last: nat, e: nat, debug: bytes)
    requires h.streamId == 0
    ensures var d := GoAwayReceived(c, h, last, e, debug);
            && d.log == c.log + [OnGoAway(last, e, debug)] && d.receivedGoAway && d.receivedGoAwayStreamId == last
            && d.table == c.table && d.sentGoAway == c.sentGoAway && d.streams.Keys == c.streams.Keys
            && forall id :: id in c.streams ==>
                 d.streams[id] == c.streams[id].(writeClosed := c.streams[id].writeClosed ||
                                                                (Ours(c.clientSide, id) && id > last))
  {
  }

  /** No stream of our own is opened once GOAWAY was sent or received, over every further run. */
  lemma {:induction false} NothingOpensAfterGoAway(c: Conn, ops: seq<Op>, huffman: Huffman)
    requires Inv(c) && (c.receivedGoAway || c.sentGoAway)
    ensures var d := After(c, ops, huffman);
            && (d.receivedGoAway || d.sentGoAway) && d.nextLocalStreamId == c.nextLocalStreamId
            && d.clientSide == c.clientSide
            && forall id :: id in d.streams && Ours(c.clientSide, id) ==> id in c.streams
    decreases |ops|
  {
    hide Inv, Apply;
    if ops != [] {
      var n := |ops| - 1;
      var (before, op) := (After(c, ops[..n], huffman), ops[n]);
      NothingOpensAfterGoAway(c, ops[..n], huffman);
      StepOpensNothing(before, op, huffman);
    }
  }

  lemma StepOpensNothing(c: Conn, op: Op, huffman: Huffman)
    requires Inv(c) && (c.receivedGoAway || c.sentGoAway)
    ensures Ready(c)
    ensures var d := Apply(c, op, huffman);
            && (d.receivedGoAway || d.sentGoAway) && d.nextLocalStreamId == c.nextLocalStreamId
            && d.clientSide == c.clientSide
            && forall id :: id in d.streams && Ours(c.clientSide, id) ==> id in c.streams
  {
    hide Inv, Apply, GoAways, GoAwaySent, Drained, Shutdowns;
    ApplyKeeps(c, op, huffman);
    BaseTracks(c, op);
    if op.SendGoAway? {
      SendGoAwayIs(c, op, huffman);
      GoAwayKeeps(c, op.errorCode, op.lastStreamId, op.debug);
    } else if op.DrainNow? {
      DrainNowIs(c, huffman);
      DrainedKeeps(c);
    }
  }

  /**
   * Until then one is opened, under the next id, exactly if ids are left and the peer's MAX_CONCURRENT_STREAMS, if it
   * is not 0, has room; otherwise nothing changes.
   */
  lemma OpensIff(c: Conn, huffman: Huffman)
    requires Inv(c)
    ensures Ready(c)
    ensures var (d, id, max) := (Apply(c, CreateStream, huffman), c.nextLocalStreamId, c.remoteSettings[3]);
            if id + 1 < 0x8000_0000 && !c.receivedGoAway && !c.sentGoAway && (max == 0 || |c.streams| + 1 <= max) then
              && Ours(c.clientSide, id) && id !in c.streams && d.streams == c.streams[id := NewStream()]
              && d == c.(streams := d.streams, nextLocalStreamId := id + 2)
            else d == c
  {
    hide Inv, Coder.WellFormed, Apply, IsLocal;
    ReadyByInv(c);
    HeaderBlockRuns.NextIsNew(c);
    NextIsOurs(c);
    CreateIs(c, huffman);
  }

  lemma NextIsOurs(c: Conn)
    requires IsLocal(c.clientSide, c.nextLocalStreamId)
    ensures Ours(c.clientSide, c.nextLocalStreamId)
  {
  }

  lemma CreateIs(c: Conn, huffman: Huffman)
    requires Ready(c)
    ensures Apply(c, CreateStream, huffman) == if MayCreate(c) then Created(c) else c
  {
    hide MayCreate, Created, Coder.WellFormed;
  }

  // ---------------------------------------------------------------- PUSH_PROMISE

  /**
   * A promise is refused unless this endpoint's ENABLE_PUSH is not 0, the id promised is even and not 0, and the
   * stream under it, if there is one, is idle.
   */
  lemma PromiseRefusedIff(c: Conn, h: FrameHeader, payload: bytes, huffman: Huffman)
    requires Inv(c) && Sized(c) && Proper(c, h, payload) && h.ftype == PUSH_PROMISE
    ensures var p := Parse(h, payload);
            && p.PushPromisePayload?
            && var (t, d, id) := (Tracked(c, h.streamId), Take(c, h, payload, huffman), p.promisedStreamId);
               if c.localSettings[2] == 0 || id == 0 || id % 2 == 1 ||
                  (id in c.streams && !c.streams[id].state.Idle?)
               then RefusedWith(t, PROTOCOL_ERROR, d)
               else DecodeSpec(p.fragment, c.table, huffman).error == NoError ==> NotRefused(c, d)
  {
    hide Inv, Parse, Handle, Reaped, Tracked, RightSize, GoAwaySent, RefusedWith, GoAways, Take, PushPromiseReceived,
         DecodeSpec;
    var (t, p) := (Tracked(c, h.streamId), Parse(h, payload));
    Reaches(c, h, payload, huffman);
    PromiseParses(h, payload);
    PromiseHandled(t, h, p, huffman);
    TrackedSays(c, h.streamId);
    TrackedHears(c, h.streamId);
    if PromiseRefused(t, p.promisedStreamId) {
      RefusalStands(t, PROTOCOL_ERROR, h.streamId);
    } else if DecodeSpec(p.fragment, c.table, huffman).error == NoError {
      PromiseSays(t, h, p.promisedStreamId, p.fragment, p.padLen, huffman);
      ReapedSays(PushPromiseReceived(t, h, p.promisedStreamId, p.fragment, p.padLen, huffman), h.streamId);
    }
  }

  predicate PromiseRefused(c: Conn, id: nat)
    requires Sized(c)
  {
    c.localSettings[2] == 0 || id == 0 || id % 2 == 1 || (id in c.streams && !c.streams[id].state.Idle?)
  }

  lemma TrackedHears(c: Conn, id: nat)
    ensures Tracked(c, id).localSettings == c.localSettings && Tracked(c, id).table == c.table
  {
  }

  lemma PromiseParses(h: FrameHeader, payload: bytes)
    requires |payload| == h.length && h.ftype == PUSH_PROMISE && RightSize(h, payload)
    ensures Parse(h, payload).PushPromisePayload? && Parse(h, payload).padLen < h.length
  {
    hide ParseSettings, ParsePriority, FromBe32, HasFlag;
  }

  lemma PromiseHandled(c: Conn, h: FrameHeader, p: Payload, huffman: Huffman)
    requires Sized(c) && p.PushPromisePayload? && p.padLen < h.length
    ensures Handle(c, h, p, huffman) == PushPromiseReceived(c, h, p.promisedStreamId, p.fragment, p.padLen, huffman)
    ensures PromiseRefused(c, p.promisedStreamId) ==> Handle(c, h, p, huffman) == GoAwaySent(c, PROTOCOL_ERROR, 0)
  {
    hide GoAwaySent, PromiseDecoded;
  }

  lemma PromiseSays(c: Conn, h: FrameHeader, promised: nat, fragment: bytes, padLen: nat, huffman: Huffman)
    requires Sized(c) && !PromiseRefused(c, promised) && padLen < h.length
    requires DecodeSpec(fragment, c.table, huffman).error == NoError
    ensures NotRefused(c, PushPromiseReceived(c, h, promised, fragment, padLen, huffman))
  {
    hide DecodeSpec, GoAwaySent, BlockSeen, FrameSeen, Moved, Store, GoAways, Sound;
    var d := DecodeSpec(fragment, c.table, huffman);
    var t := c.(table := d.table);
    SameSays(c, t);
    if promised in c.streams {
      var s := FrameSeen(Moved(c.streams[promised], StreamStates.Recv(StreamStates.PushPromise)), h.ftype, h.flags);
      StoreSays(t, promised, s.(headers := s.headers + d.headers));
      BlockSays(Store(t, promised, s.(headers := s.headers + d.headers)), h, promised);
    } else {
      BlockSays(t, h, promised);
    }
  }

  lemma BlockSays(c: Conn, h: FrameHeader, id: nat)
    ensures NotRefused(c, BlockSeen(c, h, id))
  {
    hide BlockSeen, Sound, Specials, LastIds;
    BlockSeenIsQuiet(c, h, id);
  }
}
