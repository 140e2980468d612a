/**
 * What every public call puts on the wire and reports, in order, and which streams it leaves in the map: told from
 * the state before the call and its arguments.
 */
module CallOutputs {
  import opened Bytes
  import Coder = CompressorModel
  import opened ConnectionInvariant
  import opened ConnectionModel
  import FlowControl
  import opened FrameEffects
  import opened Frames
  import HeaderBlocks
  import opened Headers
  import Settings
  import opened StaleHandles
  import opened StreamModel
  import StreamStates
  import opened StringLiterals

  // ---------------------------------------------------------------- what is said

  /** What a client says before it says anything else. */
  function Greeting(c: Conn): seq<Output>
  {
    if c.clientSide && !c.prefaceSent then [SentPreface, SentSettings(NonDefault(c.localSettings, 1))] else []
  }

  /** The stream a call changes: the one in the map, or the one its handle still has. */
  function Held(c: Conn, id: nat, handle: Holding): Stream
    requires id in c.streams
  {
    match handle case Live => c.streams[id] case Stale(s) => s
  }

  /** A stream that leaves the map completes the drain it was the last to hold up. */
  function Leaves(c: Conn, id: nat, gone: bool): seq<Output>
  {
    if gone then Completion(c, c.streams - {id}) else []
  }

  /** The octets that the compressor makes of a header list. */
  function BlockOf(c: Conn, hs: seq<Header>): bytes
    requires Coder.WellFormed(c.compressor)
  {
    Coder.EncodeBlock(c.compressor, hs, c.hash).octets
  }

  /** A server that has not turned pushing off, with a stream it may open. */
  predicate MayPush(c: Conn)
    requires Sized(c)
  {
    && !c.clientSide && c.localSettings[2] != 0 && c.nextLocalStreamId + 1 < 0x8000_0000
    && !c.receivedGoAway && !c.sentGoAway
    && (c.remoteSettings[3] == 0 || |c.streams| + 1 <= c.remoteSettings[3])
  }

  function Says(c: Conn, op: Op): seq<Output>
    requires Ready(c)
  {
    match op
    case Receive(_) => []
    case VerifyPreface =>
      if c.initialSettingsSent then [] else [SentSettings(NonDefault(c.localSettings, 1))]
    case CreateStream => []
    case SendSettings(settings) =>
      Greeting(c) +
      (if settings == [] || c.settingsPending || Greeting(c) != [] then [] else [SentSettings(settings)])
    case SendPing(data) => Greeting(c) + (if c.pingPending then [] else [SentPing(data, false)])
    case SendRstStream(id, e) =>
      Greeting(c) +
      (if id in c.streams then [SentRstStream(id, e)] + Leaves(c, id, !c.streams[id].state.Idle?) else [])
    case SendGoAway(e, last, debug) =>
      Greeting(c) + [SentGoAway(if last == 0 then c.lastStreamId else last, e, debug)]
    case DrainNow =>
      if c.sentGoAway then []
      else Greeting(c) + [SentGoAway(c.lastStreamId, 0)] + (if c.streams == map[] then [OnShutdownComplete] else [])
    case SendPushPromise(requestId, hs) =>
      if MayPush(c) then [SentPushPromise(requestId, c.nextLocalStreamId, BlockOf(c, hs))] else []
    case SendWindowUpdate(_, _, _) => Greeting(c) + FlowControl.AskedUpdates(c, op)
    case SendHeaders(id, handle, hs, end) =>
      Greeting(c) +
      (if id in c.streams
       then [SentHeaders(id, BlockOf(c, hs), end)] + Leaves(c, id, ClosedByHeaders(Held(c, id, handle), end)) else [])
    case SendData(id, handle, data, end) =>
      Greeting(c) + FlowControl.AcceptedData(c, op) +
      (if id in c.streams then Leaves(c, id, ClosedByData(Held(c, id, handle), end)) else [])
  }

  // ---------------------------------------------------------------- the streams afterwards

  /** A stream after its owner's headers, or data, with END_STREAM or without. */
  function AfterHeaders(s: Stream, end: bool): Stream
  {
    var state := match s.state
      case Idle => if end then StreamStates.HalfClosedLocal else StreamStates.Open
      case Open => if end then StreamStates.HalfClosedLocal else StreamStates.Open
      case ReservedLocal => if end then StreamStates.Closed else StreamStates.HalfClosedRemote
      case HalfClosedRemote => if end then StreamStates.Closed else StreamStates.HalfClosedRemote
      case _ => s.state;
    s.(state := state, writeClosed := s.writeClosed || end)
  }

  function AfterData(s: Stream, end: bool): Stream
  {
    var state := match s.state
      case Open => if end then StreamStates.HalfClosedLocal else StreamStates.Open
      case HalfClosedRemote => if end then StreamStates.Closed else StreamStates.HalfClosedRemote
      case _ => s.state;
    s.(state := state, writeClosed := s.writeClosed || end)
  }

  function StreamsAfter(c: Conn, op: Op): map<nat, Stream>
    requires Ready(c)
  {
    match op
    case SendRstStream(id, _) =>
      if id in c.streams && !c.streams[id].state.Idle? then c.streams - {id} else c.streams
    case SendPushPromise(_, _) =>
      if MayPush(c) then c.streams[c.nextLocalStreamId := NewStream().(state := StreamStates.ReservedLocal)]
      else c.streams
    case SendHeaders(id, handle, _, end) =>
      if id !in c.streams then c.streams
      else if handle.Live? then Kept(c.streams, id, AfterHeaders(c.streams[id], end))
      else if ClosedByHeaders(handle.stream, end) then c.streams - {id}
      else c.streams
    case SendData(id, handle, _, end) =>
      if id !in c.streams then c.streams
      else if handle.Live? then Kept(c.streams, id, AfterData(c.streams[id], end))
      else if ClosedByData(handle.stream, end) then c.streams - {id}
      else c.streams
    case _ => c.streams
  }

  // ---------------------------------------------------------------- every call does that

  /** The call said this and left these streams. */
  predicate Did(c: Conn, d: Conn, said: seq<Output>, streams: map<nat, Stream>)
  {
    d.log == c.log + said && d.streams == streams
  }

  lemma Greets(c: Conn)
    ensures var p := PrefaceEnsured(c);
            && Did(c, p, Greeting(c), c.streams)
            && p.draining == c.draining && p.lastStreamId == c.lastStreamId && p.sendWindow == c.sendWindow
            && p.pingPending == c.pingPending && p.settingsPending == (c.settingsPending || Greeting(c) != [])
  {
    hide NonDefault;
    assert c.log + [] == c.log;
  }

  /** A stream settled, after something was said. */
  lemma Settles(c: Conn, id: nat, s: Stream)
    ensures var d := Settle(c, id, s);
            Did(c, d, Leaves(c, id, s.state.Closed?), Kept(c.streams, id, s))
  {
    hide DrainChecked, Store;
    DrainCompletes(c.(streams := c.streams - {id}));
    StoreIs(c, id, s);
    assert c.log + [] == c.log;
  }

  lemma Ends(c: Conn, id: nat, handle: Holding, change: Stream -> Stream)
    requires id in c.streams
    ensures var d := AfterSend(c, id, handle, change);
            Did(c, d, Leaves(c, id, change(Held(c, id, handle)).state.Closed?),
                if handle.Live? then Kept(c.streams, id, change(c.streams[id]))
                else if change(handle.stream).state.Closed? then c.streams - {id} else c.streams)
  {
    hide DrainChecked, Settle;
    match handle
    case Live => Settles(c, id, change(c.streams[id]));
    case Stale(s) =>
      DrainCompletes(c.(streams := c.streams - {id}));
      assert c.log + [] == c.log;
  }

  lemma ResetDoes(c: Conn, id: nat, e: nat)
    requires id in c.streams ==> !c.streams[id].state.Closed?
    ensures var streams := if id in c.streams && !c.streams[id].state.Idle? then c.streams - {id} else c.streams;
            var said := if id in c.streams then [SentRstStream(id, e)] + Leaves(c, id, !c.streams[id].state.Idle?)
                        else [];
            Did(c, RstStreamSent(c, id, e), Greeting(c) + said, streams)
  {
    hide PrefaceEnsured, Settle, Log;
    Greets(c);
    var p := PrefaceEnsured(c);
    if id in c.streams {
      var s := Moved(c.streams[id], StreamStates.Send(StreamStates.RstStream));
      LoggedLast(p, SentRstStream(id, e));
      Logs(p, SentRstStream(id, e));
      Settles(Log(p, SentRstStream(id, e)), id, s);
      assert s.state.Closed? || s == c.streams[id];
      assert c.streams[id := c.streams[id]] == c.streams;
    } else {
      assert c.log + Greeting(c) + [] == c.log + (Greeting(c) + []);
    }
  }

  lemma Logs(c: Conn, o: Output)
    ensures Log(c, o).draining == c.draining
  {
  }

  lemma GoAwayDoes(c: Conn, e: nat, last: nat, debug: bytes)
    ensures Did(c, GoAwaySent(c, e, last, debug),
                Greeting(c) + [SentGoAway(if last == 0 then c.lastStreamId else last, e, debug)], c.streams)
  {
    hide PrefaceEnsured;
    Greets(c);
  }

  lemma DrainDoes(c: Conn)
    ensures var said := Greeting(c) + [SentGoAway(c.lastStreamId, 0)] +
                        if c.streams == map[] then [OnShutdownComplete] else [];
            Did(c, Drained(c), if c.sentGoAway then [] else said, c.streams)
  {
    hide GoAwaySent, DrainChecked;
    GoAwayDoes(c, NO_ERROR, c.lastStreamId, []);
    DrainCompletes(GoAwaySent(c, NO_ERROR, c.lastStreamId).(draining := true));
    assert c.log + [] == c.log;
  }

  lemma PushDoes(c: Conn, requestId: nat, hs: seq<Header>)
    requires Ready(c)
    ensures Did(c, PushPromiseSent(c, requestId, hs),
                if MayPush(c) then [SentPushPromise(requestId, c.nextLocalStreamId, BlockOf(c, hs))] else [],
                StreamsAfter(c, SendPushPromise(requestId, hs)))
  {
    hide Coder.EncodeBlock, Coder.WellFormed;
    assert MayPromise(c) == MayPush(c);
    assert c.log + [] == c.log;
  }

  lemma UpdatesDo(c: Conn, id: nat, ci: nat, si: nat)
    ensures Did(c, WindowUpdateSent(c, id, ci, si),
                Greeting(c) + FlowControl.AskedUpdates(c, SendWindowUpdate(id, ci, si)), c.streams)
  {
    hide PrefaceEnsured, Log, Greeting;
    Greets(c);
    var p := PrefaceEnsured(c);
    var (first, second) := (SentWindowUpdate(id, si % STREAM_ID_LIMIT), SentWindowUpdate(0, ci % STREAM_ID_LIMIT));
    LoggedLast(p, first);
    LoggedLast(p, second);
    LoggedLast(Log(p, first), second);
    var (a, b) := (if id in c.streams && si % STREAM_ID_LIMIT > 0 then [first] else [],
                   if ci % STREAM_ID_LIMIT > 0 then [second] else []);
    assert c.log + Greeting(c) + a + b == c.log + (Greeting(c) + (a + b));
  }

  lemma HeadersDo(c: Conn, id: nat, handle: Holding, hs: seq<Header>, end: bool)
    requires Ready(c)
    ensures var op := SendHeaders(id, handle, hs, end);
            Did(c, HeadersSent(c, id, handle, hs, end), Says(c, op), StreamsAfter(c, op))
  {
    hide PrefaceEnsured, AfterSend, SendHeadersChange, Log, Coder.EncodeBlock, Coder.WellFormed, AfterHeaders,
         ClosedByHeaders;
    Greets(c);
    var p := PrefaceEnsured(c);
    if id in c.streams {
      var e := Coder.EncodeBlock(c.compressor, hs, c.hash);
      var sent := Log(p.(compressor := e.state), SentHeaders(id, e.octets, end));
      LoggedLast(p.(compressor := e.state), SentHeaders(id, e.octets, end));
      Logs(p.(compressor := e.state), SentHeaders(id, e.octets, end));
      Ends(sent, id, handle, SendHeadersChange(end));
      HeadersChangeCloses(Held(c, id, handle), end);
      HeadersChangeIs(c.streams[id], end);
    } else {
      assert c.log + Greeting(c) + [] == c.log + (Greeting(c) + []);
    }
  }

  lemma HeadersChangeIs(s: Stream, end: bool)
    ensures SendHeadersChange(end)(s) == AfterHeaders(s, end)
  {
  }

  lemma DataChangeIs(s: Stream, end: bool)
    ensures SendDataChange(end)(s) == AfterData(s, end)
  {
  }

  lemma DataFrameDoes(c: Conn, id: nat, handle: Holding, data: bytes, end: bool)
    requires id in c.streams
    ensures var d := DataFrameSent(c, id, data, end);
            Did(c, d, FlowControl.AcceptedData(c, SendData(id, handle, data, end)), c.streams) &&
            d.draining == c.draining
  {
    hide Log, DataFrameSent, FlowControl.AcceptedData;
    FlowControl.GoesOutIf(c, id, data, end);
    FlowControl.AcceptedAlike(c, c, id, handle, data, end);
    var narrowed := c.(sendWindow := c.sendWindow - |data|);
    LoggedLast(narrowed, SentData(id, data, end));
    Logs(narrowed, SentData(id, data, end));
    assert c.log + [] == c.log;
  }

  lemma AcceptedDoes(c: Conn, p: Conn, id: nat, handle: Holding, data: bytes, end: bool)
    requires p.streams == c.streams && p.sendWindow == c.sendWindow
    ensures FlowControl.AcceptedData(p, SendData(id, handle, data, end)) ==
            FlowControl.AcceptedData(c, SendData(id, handle, data, end))
  {
  }

  lemma DataDoes(c: Conn, id: nat, handle: Holding, data: bytes, end: bool)
    requires Ready(c)
    ensures var op := SendData(id, handle, data, end);
            Did(c, DataSent(c, id, handle, data, end), Says(c, op), StreamsAfter(c, op))
  {
    hide PrefaceEnsured, AfterSend, SendDataChange, DataFrameSent, AfterData, ClosedByData, Coder.WellFormed, Greeting,
         FlowControl.AcceptedData, Kept;
    Greets(c);
    var p := PrefaceEnsured(c);
    FlowControl.AcceptedAlike(c, c, id, handle, data, end);
    if id in c.streams {
      var sent := DataFrameSent(p, id, data, end);
      AcceptedDoes(c, p, id, handle, data, end);
      DataFrameDoes(p, id, handle, data, end);
      Ends(sent, id, handle, SendDataChange(end));
      DataChangeCloses(Held(c, id, handle), end);
      DataChangeIs(c.streams[id], end);
    } else {
      assert c.log + Greeting(c) + [] == c.log + (Greeting(c) + [] + []);
    }
  }

  lemma AsksDo(c: Conn, op: Op, huffman: Huffman)
    requires Ready(c) && (op.SendSettings? || op.SendPing? || op.VerifyPreface?)
    ensures Did(c, Apply(c, op, huffman), Says(c, op), c.streams)
  {
    hide PrefaceEnsured, NonDefault, Coder.WellFormed;
    Greets(c);
    assert c.log + [] == c.log;
  }

  /** Every call says exactly this, in this order, and leaves exactly these streams. */
  lemma EveryCallDoes(c: Conn, op: Op, huffman: Huffman)
    requires Inv(c) && !op.Receive? && !op.CreateStream?
    ensures Ready(c) && Did(c, Apply(c, op, huffman), Says(c, op), StreamsAfter(c, op))
  {
    hide Inv, Coder.WellFormed, RstStreamSent, GoAwaySent, Drained, PushPromiseSent, WindowUpdateSent, HeadersSent,
         DataSent, SettingsSent, PingSent, InitialSettingsSent, FlowControl.AskedUpdates, FlowControl.AcceptedData,
         Greeting, BlockOf, MayPush, Completion, ClosedByHeaders, ClosedByData, AfterHeaders, AfterData;
    ReadyByInv(c);
    match op
    case SendRstStream(id, e) =>
      if id in c.streams {
        FoundKey(c, id);
      }
      ResetDoes(c, id, e);
    case SendGoAway(e, last, debug) => GoAwayDoes(c, e, last, debug);
    case DrainNow => DrainDoes(c);
    case SendPushPromise(id, hs) => PushDoes(c, id, hs);
    case SendWindowUpdate(id, ci, si) => UpdatesDo(c, id, ci, si);
    case SendHeaders(id, handle, hs, end) => HeadersDo(c, id, handle, hs, end);
    case SendData(id, handle, data, end) => DataDoes(c, id, handle, data, end);
    case _ => AsksDo(c, op, huffman);
  }
}
