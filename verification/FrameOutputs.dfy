/**
 * What a received frame that is not refused puts on the wire and reports, in order, and what becomes of its stream:
 * DATA with its window updates, HEADERS, PUSH_PROMISE, PING and WINDOW_UPDATE. FrameEffects and SettingsLaws have the
 * other types.
 */
module FrameOutputs {
  import opened Bytes
  import opened CallOutputs
  import opened ConnectionCodecs
  import opened ConnectionInvariant
  import opened ConnectionModel
  import DynamicTable
  import FlowControl
  import opened FrameEffects
  import opened FrameRoundTrips
  import opened Frames
  import HeaderBlockRuns
  import HeaderBlocks
  import opened HeaderDecoder
  import opened Headers
  import Settings
  import StaleHandles
  import opened StreamModel
  import StreamStates
  import opened StringLiterals
  import opened TransportLaws

  /** The stream a frame arrives on, if it is closed, leaves the map and may complete a drain. */
  lemma ReapedDoes(c: Conn, d: Conn, id: nat, said: seq<Output>, s: Stream)
    requires id > 0 && id in c.streams && d.draining == c.draining
    requires Did(c, d, said, c.streams[id := s])
    ensures Did(c, Reaped(d, id), said + Leaves(c, id, s.state.Closed?), Kept(c.streams, id, s))
  {
    hide DrainChecked;
    DrainCompletes(d.(streams := d.streams - {id}));
    assert c.streams[id := s] - {id} == c.streams - {id};
    assert c.log + said + Completion(c, c.streams - {id}) == c.log + (said + Completion(c, c.streams - {id}));
    assert c.log + said + [] == c.log + (said + []);
  }

  lemma TrackedDoes(c: Conn, id: nat)
    ensures var t := Tracked(c, id);
            && t.draining == c.draining && t.table == c.table && t.streams == c.streams && t.log == c.log
            && Greeting(t) == Greeting(c)
  {
    hide IsLocal, NonDefault;
    HeaderBlockRuns.TrackedIs(c, id);
  }

  lemma WindowKeepsDrain(c: Conn, id: nat, ci: nat, si: nat)
    ensures WindowUpdateSent(c, id, ci, si).draining == c.draining
  {
    hide PrefaceEnsured, Log;
    Greets(c);
    var p := PrefaceEnsured(c);
    var (first, second) := (SentWindowUpdate(id, si % STREAM_ID_LIMIT), SentWindowUpdate(0, ci % STREAM_ID_LIMIT));
    Logs(p, first);
    Logs(p, second);
    Logs(Log(p, first), second);
  }

  // ---------------------------------------------------------------- DATA

  /** The stream with the payload at the end of its data. */
  function Grown(s: Stream, h: FrameHeader, body: bytes): Stream
  {
    Noted(s, h).(data := s.data + body)
  }

  /** What DATA says on a stream of the map: the payload, the window given back, and the end of the stream. */
  function DataSays(c: Conn, id: nat, body: bytes, closes: bool): seq<Output>
  {
    if body == [] then []
    else
      [OnStreamData(id, body)] + Greeting(c) + [SentWindowUpdate(id, |body|), SentWindowUpdate(0, |body|)] +
      (if closes then [OnStreamClosed(id, 0)] else [])
  }

  /** Without a body only the frame is noted; with one the calls follow one another. */
  lemma DataIs(c: Conn, h: FrameHeader, body: bytes, padLen: nat)
    requires h.streamId > 0 && h.streamId in c.streams && padLen < h.length
    ensures var (id, s) := (h.streamId, Grown(c.streams[h.streamId], h, body));
            DataReceived(c, h, body, padLen) ==
            if body == [] then Store(c, id, s)
            else
              var w := WindowUpdateSent(Log(Store(c, id, s), OnStreamData(id, body)), id, |body|, |body|);
              if s.state.Closed? then Log(w, OnStreamClosed(id, 0)) else w
  {
    hide WindowUpdateSent, FrameSeen, Noted, Log, Store;
    NotedIs(c.streams[h.streamId], h);
    NotedData(c.streams[h.streamId], h);
    assert body == [] ==> Grown(c.streams[h.streamId], h, body) == Noted(c.streams[h.streamId], h);
  }

  /** The window of `n` octets given to a stream of the map and to the connection. */
  lemma GivesBack(c: Conn, id: nat, n: nat)
    requires id in c.streams && 0 < n < STREAM_ID_LIMIT
    ensures var w := WindowUpdateSent(c, id, n, n);
            Did(c, w, Greeting(c) + [SentWindowUpdate(id, n), SentWindowUpdate(0, n)], c.streams) &&
            w.draining == c.draining
  {
    hide WindowUpdateSent, Greeting;
    UpdatesDo(c, id, n, n);
    WindowKeepsDrain(c, id, n, n);
    assert FlowControl.AskedUpdates(c, SendWindowUpdate(id, n, n)) ==
           [SentWindowUpdate(id, n), SentWindowUpdate(0, n)];
  }

  lemma DataSaid(c: Conn, h: FrameHeader, body: bytes, padLen: nat)
    requires h.streamId > 0 && h.streamId in c.streams && padLen < h.length && |body| < STREAM_ID_LIMIT
    ensures var (d, s) := (DataReceived(c, h, body, padLen), Grown(c.streams[h.streamId], h, body));
            && Did(c, d, DataSays(c, h.streamId, body, s.state.Closed?), c.streams[h.streamId := s])
            && d.draining == c.draining
  {
    hide DataReceived, WindowUpdateSent, Grown, Log, Greeting, Store;
    var (id, s) := (h.streamId, Grown(c.streams[h.streamId], h, body));
    DataIs(c, h, body, padLen);
    DidStore(c, id, s);
    if body != [] {
      StoredLogged(c, id, s, OnStreamData(id, body));
      var chunk := Log(Store(c, id, s), OnStreamData(id, body));
      GreetsAlike(c, chunk);
      GivesBack(chunk, id, |body|);
      var w := WindowUpdateSent(chunk, id, |body|, |body|);
      StaleHandles.LoggedLast(w, OnStreamClosed(id, 0));
      Logs(w, OnStreamClosed(id, 0));
      assert c.log + [OnStreamData(id, body)] +
             (Greeting(c) + [SentWindowUpdate(id, |body|), SentWindowUpdate(0, |body|)]) ==
             c.log + ([OnStreamData(id, body)] + Greeting(c) +
                      [SentWindowUpdate(id, |body|), SentWindowUpdate(0, |body|)]);
    }
  }

  lemma StoredLogged(c: Conn, id: nat, s: Stream, o: Output)
    ensures Log(Store(c, id, s), o) == c.(log := c.log + [o], streams := c.streams[id := s])
  {
  }

  lemma NotedData(s: Stream, h: FrameHeader)
    ensures Noted(s, h).data == s.data
  {
  }

  lemma GreetsAlike(c: Conn, d: Conn)
    requires d == c.(log := d.log, streams := d.streams)
    ensures Greeting(d) == Greeting(c)
  {
    hide NonDefault;
  }

  /**
   * A DATA frame, padded or not, on a stream of the map: its body joins the stream's data and is reported, then the
   * window of exactly its octets is given back, and the stream's end is reported; a stream that both sides have
   * ended is gone. On any other stream nothing happens.
   */
  lemma DataDoesThis(c: Conn, h: FrameHeader, body: bytes, pad: bytes, huffman: Huffman)
    requires Inv(c) && h.ftype == DATA && |pad| < 256 && Proper(c, h, WithPadding(h.flags, body, pad))
    requires h.streamId > 0 && 0 < h.length < 0x100_0000
    ensures var (id, d) := (h.streamId, Take(c, h, WithPadding(h.flags, body, pad), huffman));
            if id !in c.streams then Did(c, d, [], c.streams)
            else
              var s := Grown(c.streams[id], h, body);
              Did(c, d, DataSays(c, id, body, s.state.Closed?) + Leaves(c, id, s.state.Closed?),
                  Kept(c.streams, id, s))
  {
    hide Inv, Parse, Handle, Reaped, Tracked, RightSize, Take, DataReceived, Grown, DataSays, Leaves, Kept, Did,
         Admitted;
    var (t, id) := (Tracked(c, h.streamId), h.streamId);
    Reaches(c, h, WithPadding(h.flags, body, pad), huffman);
    DataParses(h, body, pad);
    PadsWithin(h, body, pad);
    DataHandled(t, h, DataPayload(body, PadLength(h.flags, pad)), huffman);
    TrackedDoes(c, id);
    if id in c.streams {
      DataSaid(t, h, body, PadLength(h.flags, pad));
      var s := Grown(c.streams[id], h, body);
      ReapedDoes(t, DataReceived(t, h, body, PadLength(h.flags, pad)), id, DataSays(t, id, body, s.state.Closed?), s);
      SaysAlike(c, t, id, body, s);
    } else {
      UnknownData(t, h, body, PadLength(h.flags, pad));
      NothingIsReaped(t, id);
      DidNothing(c, t);
    }
  }

  lemma PadsWithin(h: FrameHeader, body: bytes, pad: bytes)
    requires |pad| < 256 && h.length == |WithPadding(h.flags, body, pad)| && 0 < h.length < 0x100_0000
    ensures PadLength(h.flags, pad) < h.length && |body| < STREAM_ID_LIMIT
  {
    hide HasFlag;
  }

  lemma UnknownData(c: Conn, h: FrameHeader, body: bytes, padLen: nat)
    requires h.streamId > 0 && h.streamId !in c.streams && padLen < h.length
    ensures DataReceived(c, h, body, padLen) == c
  {
  }

  lemma DidNothing(c: Conn, d: Conn)
    requires d.log == c.log && d.streams == c.streams
    ensures Did(c, d, [], c.streams)
  {
    assert c.log + [] == c.log;
  }

  /** What is said depends on the log, the streams and the flags only. */
  lemma SaysAlike(c: Conn, t: Conn, id: nat, body: bytes, s: Stream)
    requires t.draining == c.draining && t.streams == c.streams && t.log == c.log && Greeting(t) == Greeting(c)
    ensures DataSays(t, id, body, s.state.Closed?) == DataSays(c, id, body, s.state.Closed?)
    ensures Leaves(t, id, s.state.Closed?) == Leaves(c, id, s.state.Closed?)
    ensures forall d, said, streams :: Did(t, d, said, streams) ==> Did(c, d, said, streams)
  {
    hide Greeting;
  }

  // ---------------------------------------------------------------- PING and WINDOW_UPDATE

  /** A PING is reported; an answer ends the wait for one, and a question is answered with the same octets. */
  lemma PingDoesThis(c: Conn, h: FrameHeader, data: bytes, huffman: Huffman)
    requires Inv(c) && h.ftype == PING && Proper(c, h, data)
    ensures var d := Take(c, h, data, huffman);
            if h.streamId != 0 then RefusedWith(Tracked(c, h.streamId), PROTOCOL_ERROR, d)
            else
              && d.pingPending == (c.pingPending && !FirstBit(h))
              && Did(c, d, if FirstBit(h) then [OnPing(data, true)] else [OnPing(data, false), SentPing(data, true)],
                     c.streams)
  {
    hide Inv, Parse, Handle, Reaped, Tracked, Take, GoAwaySent, RefusedWith, Admitted, PingReceived;
    var t := Tracked(c, h.streamId);
    Reaches(c, h, data, huffman);
    PingParses(h, data);
    PingHandled(t, h, data, huffman);
    FirstBitIs(h);
    if h.streamId != 0 {
      RefusalStands(t, PROTOCOL_ERROR, 0);
    } else {
      NotTracked(c);
    }
  }

  lemma PingHandled(c: Conn, h: FrameHeader, data: bytes, huffman: Huffman)
    requires Sized(c)
    ensures var d := Handle(c, h, PingPayload(data), huffman);
            if h.streamId != 0 then d == GoAwaySent(c, PROTOCOL_ERROR, 0)
            else
              && d.pingPending == (c.pingPending && !HasFlag(h.flags, ACK)) && d.streams == c.streams
              && d.log == c.log + if HasFlag(h.flags, ACK) then [OnPing(data, true)]
                                  else [OnPing(data, false), SentPing(data, true)]
  {
    hide GoAwaySent, HasFlag, Log;
    var answered := c.(pingPending := false);
    Pends(answered, OnPing(data, true));
    Pends(c, OnPing(data, false));
    Pends(Log(c, OnPing(data, false)), SentPing(data, true));
  }

  lemma Pends(c: Conn, o: Output)
    ensures var d := Log(c, o); d.pingPending == c.pingPending && d.streams == c.streams && d.log == c.log + [o]
  {
  }

  /**
   * An increment of 0 is refused. Any other widens the connection's window, however wide it is, unless its stream is
   * in the map: then it changes no window at all.
   */
  lemma IncrementDoesThis(c: Conn, h: FrameHeader, n: nat, reserved: bool, huffman: Huffman)
    requires Inv(c) && h.ftype == WINDOW_UPDATE && n < STREAM_ID_LIMIT
    requires Proper(c, h, Octets(n + (if reserved then 0x8000_0000 else 0), 4))
    ensures var (id, d) := (h.streamId, Take(c, h, Octets(n + (if reserved then 0x8000_0000 else 0), 4), huffman));
            if n == 0 then RefusedWith(Tracked(c, id), PROTOCOL_ERROR, d)
            else if id !in c.streams then d.sendWindow == c.sendWindow + n && Did(c, d, [], c.streams)
            else
              var s := Noted(c.streams[id], h);
              d.sendWindow == c.sendWindow && Did(c, d, Leaves(c, id, s.state.Closed?), Kept(c.streams, id, s))
  {
    hide Inv, Parse, Handle, Reaped, Tracked, RightSize, Take, Octets, GoAwaySent, RefusedWith, Admitted, Noted,
         Leaves, Kept, WindowUpdateReceived;
    var (t, id) := (Tracked(c, h.streamId), h.streamId);
    Reaches(c, h, Octets(n + (if reserved then 0x8000_0000 else 0), 4), huffman);
    WindowUpdateParses(h, n, reserved);
    IncrementHandled(t, h, n, huffman);
    TrackedDoes(c, id);
    TrackedWindow(c, id);
    if n == 0 {
      RefusalStands(t, PROTOCOL_ERROR, id);
    } else if id in c.streams {
      FoundKey(t, id);
      NotedIs(c.streams[id], h);
      NotedDoes(t, id, Noted(c.streams[id], h));
      SaysAlike(c, t, id, [], Noted(c.streams[id], h));
    } else {
      NotReapedHere(WindowUpdateReceived(t, h, n), id);
      assert c.log + [] == c.log;
    }
  }

  lemma NotedDoes(c: Conn, id: nat, s: Stream)
    requires id > 0 && id in c.streams
    ensures var d := Reaped(Store(c, id, s), id);
            d.sendWindow == c.sendWindow && Did(c, d, Leaves(c, id, s.state.Closed?), Kept(c.streams, id, s))
  {
    hide Store, Reaped, Leaves, Kept;
    DidStore(c, id, s);
    ReapedDoes(c, Store(c, id, s), id, [], s);
    ReapedWindow(Store(c, id, s), id);
    assert [] + Leaves(c, id, s.state.Closed?) == Leaves(c, id, s.state.Closed?);
  }

  lemma NotReapedHere(c: Conn, id: nat)
    requires id !in c.streams
    ensures Reaped(c, id) == c
  {
  }

  lemma TrackedWindow(c: Conn, id: nat)
    ensures Tracked(c, id).sendWindow == c.sendWindow
  {
    hide IsLocal;
  }

  lemma DidStore(c: Conn, id: nat, s: Stream)
    ensures Did(c, Store(c, id, s), [], c.streams[id := s]) && Store(c, id, s).draining == c.draining
    ensures Store(c, id, s).sendWindow == c.sendWindow
  {
    assert c.log + [] == c.log;
  }

  lemma ReapedWindow(c: Conn, id: nat)
    ensures Reaped(c, id).sendWindow == c.sendWindow
  {
  }

  lemma IncrementHandled(c: Conn, h: FrameHeader, n: nat, huffman: Huffman)
    requires Inv(c) && Sized(c)
    ensures var d := Handle(c, h, WindowUpdatePayload(n), huffman);
            && d == WindowUpdateReceived(c, h, n)
            && if n == 0 then d == GoAwaySent(c, PROTOCOL_ERROR, 0)
               else if h.streamId !in c.streams then d == c.(sendWindow := c.sendWindow + n)
               else d == Store(c, h.streamId, FrameSeen(c.streams[h.streamId], h.ftype, h.flags))
  {
    hide Inv, GoAwaySent, FrameSeen, Store;
    if h.streamId in c.streams {
      FoundKey(c, h.streamId);
    }
  }

  // ---------------------------------------------------------------- HEADERS and PUSH_PROMISE

  /** The end of a block is reported under an id; without it the rest is awaited on the frame's stream. */
  predicate BlockEnds(h: FrameHeader, d: Conn)
  {
    if h.flags / 4 % 2 == 1 then !d.nextFrameLimit else d.nextFrameLimit && d.nextStreamIdLimit == h.streamId
  }

  function Heard(h: FrameHeader, id: nat): seq<Output>
  {
    if h.flags / 4 % 2 == 1 then [OnStreamHeaders(id)] else []
  }

  lemma BlockSaid(c: Conn, h: FrameHeader, id: nat)
    ensures var d := BlockSeen(c, h, id);
            Did(c, d, Heard(h, id), c.streams) && BlockEnds(h, d) && d.table == c.table && d.draining == c.draining
  {
    hide HasFlag, Log;
    FlagBits(h.flags);
    var ended := c.(nextFrameLimit := false, nextStreamIdLimit := 0);
    StaleHandles.LoggedLast(ended, OnStreamHeaders(id));
    Logs(ended, OnStreamHeaders(id));
    LogKeepsTable(ended, OnStreamHeaders(id));
    assert c.log + [] == c.log;
  }

  lemma LogKeepsTable(c: Conn, o: Output)
    ensures Log(c, o).table == c.table && Log(c, o).nextFrameLimit == c.nextFrameLimit
  {
  }

  /** A stream that HEADERS open: in its new state, with the block's headers and no others. */
  function OpenedBy(s: Stream, h: FrameHeader, headers: seq<Header>): Stream
  {
    Noted(s.(state := StreamStates.Open, headers := headers), h)
  }

  lemma OpenedIs(s: Stream, h: FrameHeader, headers: seq<Header>)
    requires s.state.Idle?
    ensures FrameSeen(HeadersReceived(s, headers), h.ftype, h.flags) == OpenedBy(s, h, headers)
    ensures !OpenedBy(s, h, headers).state.Closed?
  {
    NotedIs(HeadersReceived(s, headers), h);
  }

  /** HEADERS that open a stream: it gets the block's headers and its first state, and the block's end is reported. */
  lemma HeadersDoThis(c: Conn, h: FrameHeader, payload: bytes, block: bytes, huffman: Huffman)
    requires Inv(c) && Proper(c, h, payload) && HeaderBlocks.Carries(h, payload, block)
    requires HeaderBlocks.MayOpen(c, h.streamId) && DecodeSpec(block, c.table, huffman).error == NoError
    ensures var (id, d, r) := (h.streamId, DecodeSpec(block, c.table, huffman), Take(c, h, payload, huffman));
            var before := if id in c.streams then c.streams[id] else NewStream();
            && Did(c, r, Heard(h, id), c.streams[id := OpenedBy(before, h, d.headers)])
            && BlockEnds(h, r) && r.table == d.table
  {
    hide Inv, Parse, Handle, Reaped, Tracked, RightSize, Take, DecodeSpec, FrameEffects.OpenedBy, OpenedBy, BlockSeen,
         HeadersFrameReceived, FrameSeen, HeadersReceived, CarriedBlock, Admitted, BlockEnds, Heard;
    var (t, id, d) := (Tracked(c, h.streamId), h.streamId, DecodeSpec(block, c.table, huffman));
    Reaches(c, h, payload, huffman);
    HeadersPad(h, payload, block);
    HeadersHandled(t, h, Parse(h, payload), huffman);
    TrackedDoes(c, id);
    HeaderBlocks.TrackedMayOpen(c, id);
    HeaderBlocks.HeadersFrameTaken(t, h, block, Parse(h, payload).padLen, huffman);
    var before := if id in c.streams then c.streams[id] else NewStream();
    OpenedIs(before, h, d.headers);
    DidStore(t.(table := d.table), id, OpenedBy(before, h, d.headers));
    var stored := Store(t.(table := d.table), id, OpenedBy(before, h, d.headers));
    BlockSaid(stored, h, id);
    HeaderBlocks.NotReaped(BlockSeen(stored, h, id), id);
    StoreKeepsTable(t.(table := d.table), id, OpenedBy(before, h, d.headers));
  }

  lemma StoreKeepsTable(c: Conn, id: nat, s: Stream)
    ensures Store(c, id, s).table == c.table
  {
  }

  /** A stream that is idle here and promised by the peer. */
  function PromisedBy(s: Stream, h: FrameHeader, headers: seq<Header>): Stream
  {
    Noted(s.(state := StreamStates.ReservedRemote, headers := s.headers + headers), h)
  }

  lemma PromisedIs(s: Stream, h: FrameHeader, headers: seq<Header>)
    requires s.state.Idle?
    ensures var r := FrameSeen(Moved(s, StreamStates.Recv(StreamStates.PushPromise)), h.ftype, h.flags);
            r.(headers := r.headers + headers) == PromisedBy(s, h, headers) && !PromisedBy(s, h, headers).state.Closed?
  {
    NotedIs(Moved(s, StreamStates.Recv(StreamStates.PushPromise)), h);
  }

  /** What a promise makes of the map: at most the promised stream changes, and only if it is there. */
  function StreamsPromised(c: Conn, h: FrameHeader, id: nat, headers: seq<Header>): map<nat, Stream>
  {
    if id in c.streams then c.streams[id := PromisedBy(c.streams[id], h, headers)] else c.streams
  }

  lemma PromiseSaid(c: Conn, h: FrameHeader, id: nat, fragment: bytes, padLen: nat, huffman: Huffman)
    requires Sized(c) && !PromiseRefused(c, id) && padLen < h.length
    requires DecodeSpec(fragment, c.table, huffman).error == NoError
    ensures var (d, r) := (DecodeSpec(fragment, c.table, huffman),
                           PushPromiseReceived(c, h, id, fragment, padLen, huffman));
            Did(c, r, Heard(h, id), StreamsPromised(c, h, id, d.headers)) && BlockEnds(h, r) && r.table == d.table
  {
    hide DecodeSpec, GoAwaySent, BlockSeen, FrameSeen, Moved, Store, PromisedBy, BlockEnds, Heard;
    var d := DecodeSpec(fragment, c.table, huffman);
    var t := c.(table := d.table);
    if id in c.streams {
      PromisedIs(c.streams[id], h, d.headers);
      DidStore(t, id, PromisedBy(c.streams[id], h, d.headers));
      StoreKeepsTable(t, id, PromisedBy(c.streams[id], h, d.headers));
      BlockSaid(Store(t, id, PromisedBy(c.streams[id], h, d.headers)), h, id);
    } else {
      BlockSaid(t, h, id);
    }
  }

  /** A promise that is not refused and decodes: reported under the promised id, and kept only with a stream there. */
  lemma PromiseDoesThis(c: Conn, h: FrameHeader, payload: bytes, huffman: Huffman)
    requires Inv(c) && Sized(c) && Proper(c, h, payload) && h.ftype == PUSH_PROMISE
    requires var p := Parse(h, payload);
             p.PushPromisePayload? ==> !PromiseRefused(c, p.promisedStreamId) &&
                                       DecodeSpec(p.fragment, c.table, huffman).error == NoError
    ensures var (p, r) := (Parse(h, payload), Take(c, h, payload, huffman));
            && p.PushPromisePayload?
            && var (id, d) := (p.promisedStreamId, DecodeSpec(p.fragment, c.table, huffman));
               Did(c, r, Heard(h, id), StreamsPromised(c, h, id, d.headers)) && BlockEnds(h, r) && r.table == d.table
  {
    hide Inv, Parse, Handle, Reaped, Tracked, RightSize, Take, DecodeSpec, PushPromiseReceived, BlockEnds, Heard,
         PromisedBy;
    var (t, p) := (Tracked(c, h.streamId), Parse(h, payload));
    Reaches(c, h, payload, huffman);
    PromiseParses(h, payload);
    PromiseHandled(t, h, p, huffman);
    TrackedDoes(c, h.streamId);
    TrackedHears(c, h.streamId);
    var (id, d) := (p.promisedStreamId, DecodeSpec(p.fragment, c.table, huffman));
    PromiseSaid(t, h, id, p.fragment, p.padLen, huffman);
    if h.streamId in c.streams {
      FoundKey(c, h.streamId);
    }
    if id in c.streams {
      PromisedIs(c.streams[id], h, d.headers);
    }
    HeaderBlocks.NotReaped(PushPromiseReceived(t, h, id, p.fragment, p.padLen, huffman), h.streamId);
  }
}
