/**
 * One endpoint of a connection (src/http2/connection.cc) as a value: every public call and every
 * received frame is a function from state to state. What it sends and the callbacks it makes are
 * recorded in `log`, header blocks as the octets the compressor made of them. Sending is taken to succeed; an
 * event handler is installed and does not call back.
 */
module ConnectionModel {
  import opened Bytes
  import Coder = CompressorModel
  import opened DynamicTable
  import opened Frames
  import opened HeaderDecoder
  import opened Headers
  import Settings
  import opened StreamModel
  import opened StreamStates
  import opened StringLiterals

  datatype Output =
    | SentPreface
    | SentSettings(settings: seq<(nat, nat)>)
    | SentSettingsAck
    | SentPing(opaqueData: bytes, ack: bool)
    | SentRstStream(id: nat, errorCode: nat)
    | SentGoAway(lastStreamId: nat, errorCode: nat, debug: bytes := [])
    | SentHeaders(id: nat, block: bytes, endStream: bool)
    | SentPushPromise(id: nat, promisedId: nat, block: bytes)
    | SentData(id: nat, data: bytes, endStream: bool)
    | SentWindowUpdate(id: nat, increment: nat)
    | OnStreamHeaders(id: nat)
    | OnStreamData(id: nat, chunk: bytes)
    | OnStreamClosed(id: nat, errorCode: nat)
    | OnSettings(settings: seq<(nat, nat)>, ack: bool)
    | OnPing(opaqueData: bytes, ack: bool)
    | OnGoAway(lastStreamId: nat, errorCode: nat, debug: bytes)
    | OnShutdownComplete

  datatype Conn = Conn(
    clientSide: bool,
    finishHandshake: bool,
    prefaceSent: bool,
    initialSettingsSent: bool,
    pingPending: bool,
    settingsPending: bool,
    requestSettings: seq<(nat, nat)>,
    localSettings: seq<nat>,
    remoteSettings: seq<nat>,
    lastStreamId: nat,
    nextLocalStreamId: nat,
    streams: map<nat, Stream>,
    receivedGoAway: bool,
    receivedGoAwayStreamId: nat,
    sentGoAway: bool,
    sentGoAwayStreamId: nat,
    draining: bool,
    nextFrameLimit: bool,
    nextStreamIdLimit: nat,
    sendWindow: int,
    hash: Coder.Hash,
    compressor: Coder.State,
    table: Table,
    log: seq<Output>)

  const INITIAL_WINDOW_SIZE := 65535
  const LOCAL_MAX_HEADER_LIST_SIZE := 8192

  /** The constructor. */
  function Init(clientSide: bool, hash: Coder.Hash): Conn
  {
    var defaults := seq(Settings.COUNT, i requires 0 <= i < Settings.COUNT => Settings.Parameters(i).defaultValue);
    Conn(clientSide, clientSide, false, false, false, false, [],
         defaults[Settings.INITIAL_WINDOW_SIZE := INITIAL_WINDOW_SIZE]
           [Settings.MAX_FRAME_SIZE := 16384][Settings.MAX_HEADER_LIST_SIZE := LOCAL_MAX_HEADER_LIST_SIZE],
         defaults, 0, if clientSide then 1 else 2, map[], false, 0, false, 0, false, false, 0,
         INITIAL_WINDOW_SIZE, hash, Coder.Init(), Table([], 4096, 4096), [])
  }

  function Log(c: Conn, o: Output): Conn
  {
    c.(log := c.log + [o])
  }

  /** The local settings that differ from their defaults, from `from` on. */
  function NonDefault(local: seq<nat>, from: nat): seq<(nat, nat)>
    decreases Settings.COUNT - from
  {
    if from >= Settings.COUNT || from >= |local| then []
    else (if local[from] != Settings.Parameters(from).defaultValue then [(from, local[from])] else []) +
         NonDefault(local, from + 1)
  }

  // ---------------------------------------------------------------- sending

  /** ensure_preface_sent */
  function PrefaceEnsured(c: Conn): Conn
  {
    if !c.clientSide || c.prefaceSent then c
    else
      var settings := NonDefault(c.localSettings, 1);
      Log(Log(c, SentPreface), SentSettings(settings)).(settingsPending := true, prefaceSent := true)
  }

  /** send_initial_settings */
  function InitialSettingsSent(c: Conn): Conn
  {
    if c.initialSettingsSent then c
    else Log(c, SentSettings(NonDefault(c.localSettings, 1))).(initialSettingsSent := true, settingsPending := true)
  }

  /** send_goaway; a last stream id of 0 means the last one processed. */
  function GoAwaySent(c: Conn, errorCode: nat, lastStreamId: nat, debug: bytes := []): Conn
  {
    var p := PrefaceEnsured(c);
    var last := if lastStreamId == 0 then p.lastStreamId else lastStreamId;
    Log(p, SentGoAway(last, errorCode, debug)).(sentGoAwayStreamId := last, sentGoAway := true)
  }

  /** check_drain_complete */
  function DrainChecked(c: Conn): Conn
  {
    if c.draining && c.streams == map[] then Log(c.(draining := false), OnShutdownComplete) else c
  }

  function Drained(c: Conn): Conn
  {
    if c.sentGoAway then c
    else DrainChecked(GoAwaySent(c, NO_ERROR, c.lastStreamId).(draining := true))
  }

  /** create_stream: the new id, if a stream may be opened. */
  predicate MayCreate(c: Conn)
    requires |c.remoteSettings| == Settings.COUNT
  {
    var max := c.remoteSettings[Settings.MAX_CONCURRENT_STREAMS];
    && c.nextLocalStreamId < STREAM_ID_LIMIT - 1 && !c.receivedGoAway && !c.sentGoAway
    && (max == 0 || |c.streams| < max)
  }

  function Created(c: Conn): Conn
  {
    var id := c.nextLocalStreamId;
    c.(streams := c.streams[id := NewStream()], nextLocalStreamId := id + 2)
  }

  function SettingsSent(c: Conn, settings: seq<(nat, nat)>): Conn
  {
    var p := PrefaceEnsured(c);
    if settings == [] || p.settingsPending then p
    else Log(p, SentSettings(settings)).(settingsPending := true, requestSettings := settings)
  }

  function PingSent(c: Conn, opaqueData: bytes): Conn
  {
    var p := PrefaceEnsured(c);
    if p.pingPending then p else Log(p, SentPing(opaqueData, false)).(pingPending := true)
  }

  /** Writes `s` back under its id, or takes it out of the map once it is closed. */
  function Settle(c: Conn, id: nat, s: Stream): Conn
  {
    if s.state == Closed then DrainChecked(c.(streams := c.streams - {id})) else Store(c, id, s)
  }

  /** send_rst_stream */
  function RstStreamSent(c: Conn, id: nat, errorCode: nat): Conn
  {
    var p := PrefaceEnsured(c);
    if id !in p.streams then p
    else Settle(Log(p, SentRstStream(id, errorCode)), id, Moved(p.streams[id], Send(RstStream)))
  }

  /** Only a server whose own settings allow it promises a stream, and only if it may open one. */
  predicate MayPromise(c: Conn)
    requires |c.localSettings| == |c.remoteSettings| == Settings.COUNT
  {
    !c.clientSide && c.localSettings[Settings.ENABLE_PUSH] != 0 && MayCreate(c)
  }

  /** send_push_promise; the request stream only lends its id to the frame. */
  function PushPromiseSent(c: Conn, requestId: nat, headers: seq<Header>): Conn
    requires |c.localSettings| == |c.remoteSettings| == Settings.COUNT && Coder.WellFormed(c.compressor)
  {
    if !MayPromise(c) then c
    else
      var id := c.nextLocalStreamId;
      var e := Coder.EncodeBlock(c.compressor, headers, c.hash);
      var d := Created(c).(compressor := e.state);
      Store(Log(d, SentPushPromise(requestId, id, e.octets)), id, Moved(NewStream(), Send(PushPromise)))
  }

  /** send_window_update, with 31-bit increments; an unknown stream gets none. */
  function WindowUpdateSent(c: Conn, id: nat, connectionIncrement: nat, streamIncrement: nat): Conn
  {
    var p := PrefaceEnsured(c);
    var forStream := if id in p.streams then streamIncrement % STREAM_ID_LIMIT else 0;
    var forConnection := connectionIncrement % STREAM_ID_LIMIT;
    var q := if forStream > 0 then Log(p, SentWindowUpdate(id, forStream)) else p;
    if forConnection > 0 then Log(q, SentWindowUpdate(0, forConnection)) else q
  }

  /** The stream an application holds: the one in the map, or one no longer there that had its id. */
  datatype Holding = Live | Stale(stream: Stream)

  /**
   * The end of the stream_send_* calls: the frame went out because the map knows the id, but it is the
   * handle's stream that changes, and its closing that clears the id out of the map.
   */
  function AfterSend(c: Conn, id: nat, handle: Holding, change: Stream -> Stream): Conn
    requires id in c.streams
  {
    match handle
    case Live => Settle(c, id, change(c.streams[id]))
    case Stale(s) => if change(s).state == Closed then DrainChecked(c.(streams := c.streams - {id})) else c
  }

  function SendHeadersChange(endStream: bool): Stream -> Stream
  {
    (s: Stream) => var t := Moved(s, Send(Message.Headers)); if endStream then EndSent(t) else t
  }

  function SendDataChange(endStream: bool): Stream -> Stream
  {
    (s: Stream) => if endStream then EndSent(s) else s
  }

  /** stream_send_headers, and stream_send_trailing_headers with `endStream` */
  function HeadersSent(c: Conn, id: nat, handle: Holding, headers: seq<Header>, endStream: bool): Conn
    requires Coder.WellFormed(c.compressor)
  {
    var p := PrefaceEnsured(c);
    if id !in p.streams then p
    else
      var e := Coder.EncodeBlock(c.compressor, headers, c.hash);
      var sent := Log(p.(compressor := e.state), SentHeaders(id, e.octets, endStream));
      AfterSend(sent, id, handle, SendHeadersChange(endStream))
  }

  /** send_binary_in_data_frame without a flow control handler: a short window defers the frame. */
  function DataFrameSent(c: Conn, id: nat, data: bytes, endStream: bool): Conn
  {
    if |data| == 0 && !endStream then c
    else if |data| > 0 && |data| > c.sendWindow then c
    else Log(c.(sendWindow := c.sendWindow - |data|), SentData(id, data, endStream))
  }

  /** stream_send_data; the stream is ended also when the frame was deferred. */
  function DataSent(c: Conn, id: nat, handle: Holding, data: bytes, endStream: bool): Conn
  {
    var p := PrefaceEnsured(c);
    if id !in p.streams then p
    else AfterSend(DataFrameSent(p, id, data, endStream), id, handle, SendDataChange(endStream))
  }

  // ---------------------------------------------------------------- receiving

  function Find(c: Conn, id: nat): Option<Stream>
  {
    if id > 0 && id in c.streams then Some(c.streams[id]) else None
  }

  function Store(c: Conn, id: nat, s: Stream): Conn
  {
    c.(streams := c.streams[id := s])
  }

  function ErrorCode(e: HeaderDecoder.Error): nat
  {
    match e
    case NoError => NO_ERROR
    case ProtocolError => PROTOCOL_ERROR
    case CompressionError => COMPRESSION_ERROR
    case ReadsPastEnd => COMPRESSION_ERROR
  }

  /** The end of a header block, or the wait for its continuation. */
  function BlockSeen(c: Conn, h: FrameHeader, id: nat): Conn
  {
    if HasFlag(h.flags, END_HEADERS) then Log(c.(nextFrameLimit := false, nextStreamIdLimit := 0), OnStreamHeaders(id))
    else c.(nextFrameLimit := true, nextStreamIdLimit := h.streamId)
  }

  function DataReceived(c: Conn, h: FrameHeader, data: bytes, padLen: nat): Conn
  {
    if h.streamId == 0 || padLen >= h.length then GoAwaySent(c, PROTOCOL_ERROR, 0)
    else
      match Find(c, h.streamId)
      case None => c
      case Some(s) =>
        var seen := FrameSeen(s, h.ftype, h.flags);
        if data == [] then Store(c, h.streamId, seen)
        else
          var d := Log(Store(c, h.streamId, seen.(data := seen.data + data)), OnStreamData(h.streamId, data));
          var w := WindowUpdateSent(d, h.streamId, |data|, |data|);
          if seen.state == Closed then Log(w, OnStreamClosed(h.streamId, 0)) else w
  }

  function IsLocal(clientSide: bool, id: nat): bool
  {
    if clientSide then id % 2 == 1 else id % 2 == 0
  }

  function HeadersFrameReceived(c: Conn, h: FrameHeader, fragment: bytes, padLen: nat, huffman: Huffman): Conn
  {
    if h.streamId == 0 || padLen >= h.length then GoAwaySent(c, PROTOCOL_ERROR, 0)
    else
      var d := DecodeSpec(fragment, c.table, huffman);
      var t := c.(table := d.table);
      if d.error != NoError then GoAwaySent(t, ErrorCode(d.error), 0)
      else
        match Find(c, h.streamId)
        case Some(s) =>
          if s.state != Idle then GoAwaySent(t, PROTOCOL_ERROR, 0) else HeadersTaken(t, h, s, d.headers)
        case None =>
          if IsLocal(c.clientSide, h.streamId) then GoAwaySent(t, PROTOCOL_ERROR, 0)
          else if c.sentGoAway && h.streamId > c.sentGoAwayStreamId then t
          else HeadersTaken(t, h, NewStream(), d.headers)
  }

  function HeadersTaken(c: Conn, h: FrameHeader, s: Stream, headers: seq<Header>): Conn
  {
    BlockSeen(Store(c, h.streamId, FrameSeen(HeadersReceived(s, headers), h.ftype, h.flags)), h, h.streamId)
  }

  function PriorityReceived(c: Conn, h: FrameHeader, priority: Priority): Conn
  {
    if h.streamId == 0 || h.streamId == priority.dependStreamId then GoAwaySent(c, PROTOCOL_ERROR, 0)
    else
      match Find(c, h.streamId)
      case None => c
      case Some(s) => Store(c, h.streamId, FrameSeen(s.(priority := priority), h.ftype, h.flags))
  }

  function RstStreamReceived(c: Conn, h: FrameHeader, errorCode: nat): Conn
  {
    match Find(c, h.streamId)
    case None => GoAwaySent(c, PROTOCOL_ERROR, 0)
    case Some(s) =>
      Log(Store(c, h.streamId, FrameSeen(RstReceived(s, errorCode), h.ftype, h.flags)),
          OnStreamClosed(h.streamId, errorCode))
  }

  function AckedSettings(local: seq<nat>, requested: seq<(nat, nat)>): (r: seq<nat>)
    ensures |r| == |local|
    decreases |requested|
  {
    if requested == [] then local
    else
      var (id, value) := requested[0];
      AckedSettings(if id < |local| then local[id := value] else local, requested[1..])
  }

  predicate Refused(id: nat, value: nat)
  {
    id < Settings.COUNT && !Settings.InRange(id, value) && Settings.Parameters(id).disconnect
  }

  /** One setting the peer may send: stored in range; an unknown one is let through unread. */
  function SettingApplied(c: Conn, id: nat, value: nat): (r: Conn)
    requires |c.remoteSettings| == Settings.COUNT && id < Settings.COUNT
    ensures |r.remoteSettings| == Settings.COUNT
  {
    hide Coder.WithMaxSize, Settings.Parameters, Settings.InRange;
    var v := Settings.Clamp(id, value);
    var remote := c.remoteSettings[id := v];
    var coder := if id == Settings.HEADER_TABLE_SIZE then Coder.WithMaxSize(c.compressor, v) else c.compressor;
    c.(remoteSettings := remote, compressor := coder)
  }

  /** The peer's settings applied in order, up to one whose value is refused. */
  datatype Applied = Applied(conn: Conn, seen: seq<(nat, nat)>, refused: bool)

  function ApplySettings(c: Conn, settings: seq<(nat, nat)>, seen: seq<(nat, nat)>): Applied
    requires |c.remoteSettings| == Settings.COUNT
    decreases |settings|
  {
    if settings == [] then Applied(c, seen, false)
    else
      var (id, value) := settings[0];
      if Refused(id, value) then Applied(GoAwaySent(c, Settings.Parameters(id).error, 0), seen, true)
      else if id >= Settings.COUNT then ApplySettings(c, settings[1..], seen + [(id, value)])
      else ApplySettings(SettingApplied(c, id, value), settings[1..], seen + [(id, Settings.Clamp(id, value))])
  }

  function SettingsReceived(c: Conn, h: FrameHeader, settings: seq<(nat, nat)>): Conn
    requires |c.remoteSettings| == Settings.COUNT
  {
    if h.streamId != 0 then GoAwaySent(c, PROTOCOL_ERROR, 0)
    else if HasFlag(h.flags, ACK) then
      if h.length != 0 then GoAwaySent(c, FRAME_SIZE_ERROR, 0)
      else Log(c.(localSettings := AckedSettings(c.localSettings, c.requestSettings),
                  settingsPending := false, requestSettings := []), OnSettings([], true))
    else
      var a := ApplySettings(c, settings, []);
      if a.refused then a.conn else Log(Log(a.conn, OnSettings(a.seen, false)), SentSettingsAck)
  }

  /** received_push_promise: a promised stream that is not in the map is not put there. */
  function PushPromiseReceived(c: Conn, h: FrameHeader, promised: nat, fragment: bytes, padLen: nat,
                               huffman: Huffman): Conn
    requires |c.localSettings| == Settings.COUNT
  {
    if padLen >= h.length || promised == 0 || promised % 2 != 0 || c.localSettings[Settings.ENABLE_PUSH] == 0
    then GoAwaySent(c, PROTOCOL_ERROR, 0)
    else
      var found := Find(c, promised);
      if found.Some? && found.value.state != Idle then GoAwaySent(c, PROTOCOL_ERROR, 0)
      else PromiseDecoded(c, h, promised, fragment, huffman)
  }

  function PromiseDecoded(c: Conn, h: FrameHeader, promised: nat, fragment: bytes, huffman: Huffman): Conn
  {
    var d := DecodeSpec(fragment, c.table, huffman);
    var t := c.(table := d.table);
    if d.error != NoError then GoAwaySent(t, ErrorCode(d.error), 0)
    else
      match Find(c, promised)
      case None => BlockSeen(t, h, promised)
      case Some(found) =>
        var s := FrameSeen(Moved(found, Recv(PushPromise)), h.ftype, h.flags);
        BlockSeen(Store(t, promised, s.(headers := s.headers + d.headers)), h, promised)
  }

  function PingReceived(c: Conn, h: FrameHeader, opaqueData: bytes): Conn
  {
    if h.streamId != 0 then GoAwaySent(c, PROTOCOL_ERROR, 0)
    else if HasFlag(h.flags, ACK) then Log(c.(pingPending := false), OnPing(opaqueData, true))
    else Log(Log(c, OnPing(opaqueData, false)), SentPing(opaqueData, true))
  }

  function GoAwayReceived(c: Conn, h: FrameHeader, lastStreamId: nat, errorCode: nat, debug: bytes): Conn
  {
    if h.streamId != 0 then GoAwaySent(c, PROTOCOL_ERROR, 0)
    else
      Log(c.(receivedGoAway := true, receivedGoAwayStreamId := lastStreamId,
             streams := map id | id in c.streams ::
                          if IsLocal(c.clientSide, id) && id > lastStreamId
                          then c.streams[id].(writeClosed := true) else c.streams[id]),
          OnGoAway(lastStreamId, errorCode, debug))
  }

  function WindowUpdateReceived(c: Conn, h: FrameHeader, increment: nat): Conn
  {
    if increment < 1 then GoAwaySent(c, PROTOCOL_ERROR, 0)
    else
      match Find(c, h.streamId)
      case None => c.(sendWindow := c.sendWindow + increment)
      case Some(s) => Store(c, h.streamId, FrameSeen(s, h.ftype, h.flags))
  }

  function ContinuationReceived(c: Conn, h: FrameHeader, fragment: bytes, huffman: Huffman): Conn
  {
    if !c.nextFrameLimit || Find(c, h.streamId).None? then GoAwaySent(c, PROTOCOL_ERROR, 0)
    else
      var s := Find(c, h.streamId).value;
      var d := DecodeSpec(fragment, c.table, huffman);
      var t := c.(table := d.table);
      if d.error != NoError then GoAwaySent(t, ErrorCode(d.error), 0)
      else
        var seen := Store(t, h.streamId, FrameSeen(s.(headers := s.headers + d.headers), h.ftype, h.flags));
        if HasFlag(h.flags, END_HEADERS) then BlockSeen(seen, h, h.streamId) else seen
  }

  /** The frame's own handler; a payload that does not parse is answered with GOAWAY. */
  function Handle(c: Conn, h: FrameHeader, p: Payload, huffman: Huffman): Conn
    requires |c.localSettings| == |c.remoteSettings| == Settings.COUNT
  {
    match p
    case Malformed(e) => GoAwaySent(c, e, 0)
    case DataPayload(data, padLen) => DataReceived(c, h, data, padLen)
    case HeadersPayload(fragment, padLen) => HeadersFrameReceived(c, h, fragment, padLen, huffman)
    case PriorityPayload(priority) => PriorityReceived(c, h, priority)
    case RstStreamPayload(e) => RstStreamReceived(c, h, e)
    case SettingsPayload(settings) => SettingsReceived(c, h, settings)
    case PushPromisePayload(promised, fragment, n) => PushPromiseReceived(c, h, promised, fragment, n, huffman)
    case PingPayload(opaqueData) => PingReceived(c, h, opaqueData)
    case GoAwayPayload(last, e, debug) => GoAwayReceived(c, h, last, e, debug)
    case WindowUpdatePayload(increment) => WindowUpdateReceived(c, h, increment)
    case ContinuationPayload(fragment) => ContinuationReceived(c, h, fragment, huffman)
  }

  /** The frame types whose handler hands its stream back to package_process. */
  predicate HandsBackStream(ftype: nat)
  {
    ftype in {DATA, HEADERS, PRIORITY, RST_STREAM, PUSH_PROMISE, WINDOW_UPDATE, CONTINUATION}
  }

  /** A stream the frame closed leaves the map. */
  function Reaped(c: Conn, id: nat): Conn
  {
    if Find(c, id).Some? && c.streams[id].state == Closed then DrainChecked(c.(streams := c.streams - {id})) else c
  }

  /** The CONTINUATION limit stops every frame but the awaited one. */
  predicate Awaited(c: Conn, h: FrameHeader)
  {
    c.nextFrameLimit ==> h.ftype == CONTINUATION && h.streamId == c.nextStreamIdLimit
  }

  /** Frames above the last stream id of a GOAWAY sent are skipped. */
  predicate Skipped(c: Conn, h: FrameHeader)
  {
    c.sentGoAway && h.streamId > c.sentGoAwayStreamId
  }

  /** A frame that gets past those two checks counts towards the last stream id. */
  predicate Admitted(c: Conn, h: FrameHeader)
  {
    Awaited(c, h) && !Skipped(c, h)
  }

  function Tracked(c: Conn, id: nat): (r: Conn)
    ensures r.localSettings == c.localSettings && r.remoteSettings == c.remoteSettings
  {
    if id > 0 && !IsLocal(c.clientSide, id) && id > c.lastStreamId then c.(lastStreamId := id) else c
  }

  /** package_process on one whole frame; `ok` is false where it returns -1. */
  datatype Processed = Processed(conn: Conn, ok: bool)

  function Process(c: Conn, h: FrameHeader, payload: bytes, huffman: Huffman): Processed
    requires |c.localSettings| == |c.remoteSettings| == Settings.COUNT && |payload| == h.length
  {
    hide Handle, Parse, Reaped, GoAwaySent, Tracked;
    if !Awaited(c, h) then Processed(GoAwaySent(c, PROTOCOL_ERROR, 0), false)
    else if Skipped(c, h) then Processed(c, true)
    else
      var t := Tracked(c, h.streamId);
      if h.ftype > CONTINUATION then Processed(t, true)
      else
        var p := Parse(h, payload);
        var d := Handle(t, h, p, huffman);
        Processed(if HandsBackStream(h.ftype) && !p.Malformed? then Reaped(d, h.streamId) else d, true)
  }

  function PackageProcess(c: Conn, package: bytes, huffman: Huffman): Processed
    requires |c.localSettings| == |c.remoteSettings| == Settings.COUNT
  {
    if |package| < HEADER_SIZE then Processed(c, false)
    else
      var h := UnpackHeader(package);
      if |package| < h.length + HEADER_SIZE then Processed(c, false)
      else Process(c, h, package[HEADER_SIZE..HEADER_SIZE + h.length], huffman)
  }
}
