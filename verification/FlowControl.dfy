/**
 * Flow control without a handler (section 6.9 of RFC 7540): over every run, what DATA went out and how the send
 * window stands to it, and what is given back for the DATA that comes in.
 */
module FlowControl {
  import opened Bytes
  import Coder = CompressorModel
  import opened ConnectionInvariant
  import opened ConnectionModel
  import opened ConnectionOutputs
  import opened ConnectionRuns
  import opened FrameRoundTrips
  import opened Frames
  import Settings
  import opened StreamModel
  import opened StringLiterals

  // ---------------------------------------------------------------- the five types of frame that count

  /** What is given back for data of a stream: the same to the stream and to the connection. */
  lemma GivesBack(c: Conn, id: nat, n: nat)
    requires Known(c, id) && 0 < n < STREAM_ID_LIMIT
    ensures var d := WindowUpdateSent(c, id, n, n);
            && Adds(c, d, {OfPreface, OfSettings, OfWindow}) && FlagsOf(d) == Opened(FlagsOf(c)) && ClientStep(c, d)
            && Only(d.log, OfWindow) == Only(c.log, OfWindow) + [SentWindowUpdate(id, n), SentWindowUpdate(0, n)]
  {
    hide PrefaceEnsured, Log, FlagsOf, Only, Adds, ClientStep;
    var p := PrefaceEnsured(c);
    Opens(c);
    VoiceOpens(c);
    AddsKeeps(c, p, OPENING, OfWindow);
    var first := Log(p, SentWindowUpdate(id, n));
    LogsOne(p, SentWindowUpdate(id, n));
    LogsOne(first, SentWindowUpdate(0, n));
    VoiceTwice(c, p, first);
    VoiceTwice(c, first, Log(first, SentWindowUpdate(0, n)));
    AddsTwice(c, p, first, OPENING, {OfWindow});
    AddsTwice(c, first, Log(first, SentWindowUpdate(0, n)), OPENING + {OfWindow}, {OfWindow});
    AddsWithin(c, Log(first, SentWindowUpdate(0, n)), OPENING + {OfWindow} + {OfWindow},
               {OfPreface, OfSettings, OfWindow});
    assert Only(c.log, OfWindow) + [SentWindowUpdate(id, n)] + [SentWindowUpdate(0, n)] ==
           Only(c.log, OfWindow) + [SentWindowUpdate(id, n), SentWindowUpdate(0, n)];
  }

  /** The octets of a DATA frame that reach a stream. */
  function Delivered(c: Conn, h: FrameHeader, data: bytes, padLen: nat): bytes
  {
    if h.streamId > 0 && h.streamId in c.streams && padLen < h.length then data else []
  }

  /** A DATA frame reports what reaches a stream, if it is anything, and gives it back. */
  lemma DataHandled(c: Conn, h: FrameHeader, data: bytes, padLen: nat)
    requires |data| < STREAM_ID_LIMIT
    ensures var (d, chunk, id) := (DataReceived(c, h, data, padLen), Delivered(c, h, data, padLen), h.streamId);
            && Adds(c, d, ON_DATA) && Steady(c, d) && ClientStep(c, d)
            && Only(d.log, OfChunk) ==
               Only(c.log, OfChunk) + (if chunk == [] then [] else [OnStreamData(id, chunk)])
            && Only(d.log, OfWindow) ==
               Only(c.log, OfWindow) +
               (if chunk == [] then [] else [SentWindowUpdate(id, |chunk|), SentWindowUpdate(0, |chunk|)])
  {
    hide GoAwaySent, WindowUpdateSent, FrameSeen, Log, Store, Only, FlagsOf, KindOf, ClientStep;
    var id := h.streamId;
    if h.streamId == 0 || padLen >= h.length {
      GoAwayIsCalm(c, PROTOCOL_ERROR, 0);
      CalmIsQuiet(c, GoAwaySent(c, PROTOCOL_ERROR, 0));
    } else if !Known(c, id) {
      CalmByFields(c, c);
      CalmIsQuiet(c, c);
    } else {
      var seen := FrameSeen(c.streams[id], h.ftype, h.flags);
      StoreIsCalm(c, id, seen);
      CalmIsQuiet(c, Store(c, id, seen));
      if data != [] {
        ChunkHandled(c, id, seen.(data := seen.data + data), data);
      }
    }
  }

  /** Data stored, reported and given back, and the closing told. */
  lemma ChunkHandled(c: Conn, id: nat, s: Stream, chunk: bytes)
    requires id > 0 && chunk != [] && |chunk| < STREAM_ID_LIMIT
    ensures var w := WindowUpdateSent(Log(Store(c, id, s), OnStreamData(id, chunk)), id, |chunk|, |chunk|);
            var d := Log(w, OnStreamClosed(id, 0));
            && ChunkGone(c, w, id, chunk) && ChunkGone(c, d, id, chunk)
  {
    hide WindowUpdateSent, Log, Store, Only, FlagsOf, Adds, ClientStep;
    var stored := Store(c, id, s);
    var told := Log(stored, OnStreamData(id, chunk));
    var w := WindowUpdateSent(told, id, |chunk|, |chunk|);
    StoreIsCalm(c, id, s);
    CalmIsQuiet(c, stored);
    LogsOne(stored, OnStreamData(id, chunk));
    assert Known(told, id) by { StoredIsKnown(c, id, s); }
    GivesBack(told, id, |chunk|);
    AddsKeeps(told, w, {OfPreface, OfSettings, OfWindow}, OfChunk);
    VoiceTwice(c, stored, told);
    VoiceTwice(c, told, w);
    AddsTwice(c, stored, told, REFUSAL, {OfChunk});
    AddsTwice(c, told, w, REFUSAL + {OfChunk}, {OfPreface, OfSettings, OfWindow});
    AddsWithin(c, w, REFUSAL + {OfChunk} + {OfPreface, OfSettings, OfWindow}, ON_DATA);
    ClosingLogged(c, w, id, chunk);
  }

  lemma StoredIsKnown(c: Conn, id: nat, s: Stream)
    requires id > 0
    ensures id in Store(c, id, s).streams
  {
  }

  ghost predicate ChunkGone(c: Conn, d: Conn, id: nat, chunk: bytes)
  {
    && Adds(c, d, ON_DATA) && Steady(c, d) && ClientStep(c, d)
    && Only(d.log, OfChunk) == Only(c.log, OfChunk) + [OnStreamData(id, chunk)]
    && Only(d.log, OfWindow) ==
       Only(c.log, OfWindow) + [SentWindowUpdate(id, |chunk|), SentWindowUpdate(0, |chunk|)]
  }

  lemma ClosingLogged(c: Conn, w: Conn, id: nat, chunk: bytes)
    requires ChunkGone(c, w, id, chunk)
    ensures ChunkGone(c, Log(w, OnStreamClosed(id, 0)), id, chunk)
  {
    hide Only, FlagsOf, ClientStep;
    var d := Log(w, OnStreamClosed(id, 0));
    VoiceLogged(w, OnStreamClosed(id, 0));
    VoiceTwice(c, w, d);
    Logs(w, OnStreamClosed(id, 0));
    OnlyAppend(w.log, OnStreamClosed(id, 0), OfChunk);
    OnlyAppend(w.log, OnStreamClosed(id, 0), OfWindow);
    AddsTwice(c, w, d, ON_DATA, {OfOthers});
    AddsWithin(c, d, ON_DATA + {OfOthers}, ON_DATA);
  }

  // ---------------------------------------------------------------- one frame

  /** The octets of window that a frame grants, read off its own octets: a proper WINDOW_UPDATE of no known stream. */
  function FrameGrant(c: Conn, h: FrameHeader, payload: bytes): nat
    requires |payload| == h.length
  {
    if Admitted(c, h) && h.ftype == WINDOW_UPDATE && |payload| == 4 && !Known(c, h.streamId)
    then Number(payload) % 0x8000_0000
    else 0
  }

  /** The data that a frame delivers to a stream, read off its octets, without the padding. */
  function FrameChunk(c: Conn, h: FrameHeader, payload: bytes): bytes
    requires |payload| == h.length
  {
    if Admitted(c, h) && h.ftype == DATA && BodySize(h.flags, payload) > 0 && Known(c, h.streamId)
    then if HasFlag(h.flags, PADDED) then payload[1..|payload| - payload[0]] else payload
    else []
  }

  lemma DataPayloadIs(h: FrameHeader, payload: bytes)
    requires |payload| == h.length && h.ftype == DATA && Parse(h, payload).DataPayload?
    ensures var DataPayload(data, padLen) := Parse(h, payload);
            && |data| == BodySize(h.flags, payload) && (data != [] ==> padLen < h.length)
            && data == if HasFlag(h.flags, PADDED) then payload[1..|payload| - payload[0]] else payload
  {
    hide ParseSettings, ParsePriority, FromBe32, HasFlag;
  }

  /** What one frame does to the two windows. */
  ghost predicate Flows(c: Conn, d: Conn, grant: nat, id: nat, chunk: bytes)
  {
    && Only(d.log, OfData) == Only(c.log, OfData)
    && d.sendWindow == c.sendWindow + grant
    && Only(d.log, OfChunk) == Only(c.log, OfChunk) + (if chunk == [] then [] else [OnStreamData(id, chunk)])
    && Only(d.log, OfWindow) ==
       Only(c.log, OfWindow) +
       (if chunk == [] then [] else [SentWindowUpdate(id, |chunk|), SentWindowUpdate(0, |chunk|)])
  }

  lemma CalmFlows(c: Conn, d: Conn, id: nat)
    requires Calm(c, d)
    ensures Flows(c, d, 0, id, [])
  {
    hide Only;
    CalmIsQuiet(c, d);
  }

  /** The same before and behind: the id tracked, and a closed stream gone. */
  lemma FlowsAround(c: Conn, t: Conn, d: Conn, e: Conn, grant: nat, id: nat, chunk: bytes)
    requires t.log == c.log && t.sendWindow == c.sendWindow && Flows(t, d, grant, id, chunk) && Calm(d, e)
    ensures Flows(c, e, grant, id, chunk)
  {
    hide Only;
    CalmIsQuiet(d, e);
  }

  lemma SameFlags(c: Conn, d: Conn)
    requires Steady(c, d)
    ensures d.sendWindow == c.sendWindow
  {
  }

  lemma DataFlows(c: Conn, h: FrameHeader, payload: bytes, huffman: Huffman)
    requires Sized(c) && |payload| == h.length < 0x100_0000 && Admitted(c, h) && h.ftype == DATA
    requires Parse(h, payload).DataPayload?
    ensures Flows(c, Process(c, h, payload, huffman).conn, 0, h.streamId, FrameChunk(c, h, payload))
  {
    hide Handle, Parse, Reaped, Tracked, Only, Steady, Adds, DataReceived, Calm, HasFlag;
    var DataPayload(data, padLen) := Parse(h, payload);
    DataPayloadIs(h, payload);
    FrameIsHandled(c, h, payload, huffman);
    TrackedIsCalm(c, h.streamId);
    var t := Tracked(c, h.streamId);
    var d := DataReceived(t, h, data, padLen);
    HandlesData(t, h, Parse(h, payload), huffman);
    DataHandled(t, h, data, padLen);
    AddsKeeps(t, d, ON_DATA, OfData);
    SameFlags(t, d);
    SameFlags(c, t) by { CalmIsSteady(c, t); }
    ReapedIsCalm(d, h.streamId);
    FlowsAround(c, t, d, Reaped(d, h.streamId), 0, h.streamId, FrameChunk(c, h, payload));
  }

  lemma HandlesData(c: Conn, h: FrameHeader, p: Payload, huffman: Huffman)
    requires Sized(c) && p.DataPayload?
    ensures Handle(c, h, p, huffman) == DataReceived(c, h, p.data, p.padLen)
  {
  }

  lemma UpdateFlows(c: Conn, h: FrameHeader, payload: bytes, huffman: Huffman)
    requires Sized(c) && |payload| == h.length && Admitted(c, h) && h.ftype == WINDOW_UPDATE
    requires Parse(h, payload).WindowUpdatePayload?
    ensures Flows(c, Process(c, h, payload, huffman).conn, FrameGrant(c, h, payload), h.streamId, [])
  {
    hide Handle, Parse, Reaped, Tracked, Only, Adds, WindowUpdateReceived, Calm, FlagsOf;
    var n := Parse(h, payload).increment;
    IncrementIs(h, payload);
    FrameIsHandled(c, h, payload, huffman);
    TrackedIsCalm(c, h.streamId);
    var t := Tracked(c, h.streamId);
    var d := WindowUpdateReceived(t, h, n);
    HandlesUpdate(t, h, Parse(h, payload), huffman);
    IncrementHandled(t, h, n);
    WindowOf(c, t);
    WindowMoves(t, d, if Known(c, h.streamId) then 0 else n);
    UpdateIsFlow(t, d, h.streamId, FrameGrant(c, h, payload));
    ReapedIsCalm(d, h.streamId);
    FlowsAround(c, t, d, Reaped(d, h.streamId), FrameGrant(c, h, payload), h.streamId, []);
  }

  lemma IncrementIs(h: FrameHeader, payload: bytes)
    requires |payload| == h.length && h.ftype == WINDOW_UPDATE && Parse(h, payload).WindowUpdatePayload?
    ensures |payload| == 4 && Parse(h, payload).increment == Number(payload) % 0x8000_0000
  {
    hide Unpad, ParseSettings, ParsePriority, HasFlag, FromBe32, Number;
    FromBeIsNumber(payload);
    assert |payload| == 4 ==> payload[..4] == payload;
  }

  lemma WindowOf(c: Conn, d: Conn)
    requires FlagsOf(d) == FlagsOf(c)
    ensures d.sendWindow == c.sendWindow
  {
  }

  lemma WindowMoves(c: Conn, d: Conn, n: nat)
    requires || FlagsOf(d) == FlagsOf(c).(sendWindow := c.sendWindow + n)
             || (n == 0 && (FlagsOf(d) == FlagsOf(c) || FlagsOf(d) == Opened(FlagsOf(c))))
    ensures d.sendWindow == c.sendWindow + n
  {
  }

  lemma UpdateIsFlow(c: Conn, d: Conn, id: nat, grant: nat)
    requires Adds(c, d, REFUSAL) && d.sendWindow == c.sendWindow + grant
    ensures Flows(c, d, grant, id, [])
  {
    hide Only, Adds;
    AddsKeeps(c, d, REFUSAL, OfData);
    AddsKeeps(c, d, REFUSAL, OfChunk);
    AddsKeeps(c, d, REFUSAL, OfWindow);
  }

  lemma HandlesUpdate(c: Conn, h: FrameHeader, p: Payload, huffman: Huffman)
    requires Sized(c) && p.WindowUpdatePayload?
    ensures Handle(c, h, p, huffman) == WindowUpdateReceived(c, h, p.increment)
  {
  }

  /** SETTINGS, PING and GOAWAY have no part in it. */
  lemma ControlFlows(c: Conn, h: FrameHeader, payload: bytes, huffman: Huffman)
    requires Sized(c) && |payload| == h.length && Admitted(c, h) && h.ftype <= CONTINUATION
    requires var p := Parse(h, payload); p.SettingsPayload? || p.PingPayload? || p.GoAwayPayload?
    ensures Flows(c, Process(c, h, payload, huffman).conn, 0, h.streamId, [])
  {
    hide Handle, Parse, Reaped, Tracked, Only, Adds, Calm, FlagsOf, KindOf;
    var p := Parse(h, payload);
    FrameIsHandled(c, h, payload, huffman);
    ParseFits(h, payload);
    TrackedIsCalm(c, h.streamId);
    var t := Tracked(c, h.streamId);
    WindowOf(c, t);
    ControlHandled(t, h, p, huffman);
  }

  lemma ControlHandled(c: Conn, h: FrameHeader, p: Payload, huffman: Huffman)
    requires Sized(c) && (p.SettingsPayload? || p.PingPayload? || p.GoAwayPayload?)
    ensures Flows(c, Handle(c, h, p, huffman), 0, h.streamId, [])
  {
    hide Only, Adds, Calm, KindOf, SettingsReceived, PingReceived, GoAwayReceived, HasFlag, ApplySettings;
    var d := Handle(c, h, p, huffman);
    match p
    case SettingsPayload(settings) =>
      if h.streamId == 0 && HasFlag(h.flags, ACK) && h.length == 0 {
        AckHandled(c, h, settings);
      } else {
        SettingsHandled(c, h, settings);
      }
      ApartFlows(c, d, h.streamId, ON_SETTINGS);
    case PingPayload(data) =>
      PingHandled(c, h, data);
      if h.streamId != 0 {
        CalmFlows(c, d, h.streamId);
      } else {
        ApartFlows(c, d, h.streamId, ON_PING);
      }
    case GoAwayPayload(last, e, debug) =>
      GoAwayHandled(c, h, last, e, debug);
      ApartFlows(c, d, h.streamId, REFUSAL);
  }

  lemma ApartFlows(c: Conn, d: Conn, id: nat, kinds: set<Kind>)
    requires Adds(c, d, kinds) && {OfData, OfChunk, OfWindow} !! kinds && d.sendWindow == c.sendWindow
    ensures Flows(c, d, 0, id, [])
  {
    hide Only, Adds;
    AddsKeeps(c, d, kinds, OfData);
    AddsKeeps(c, d, kinds, OfChunk);
    AddsKeeps(c, d, kinds, OfWindow);
  }

  /** Every frame: the grant and the data are read off its octets. */
  lemma FrameFlows(c: Conn, h: FrameHeader, payload: bytes, huffman: Huffman)
    requires Sized(c) && |payload| == h.length < 0x100_0000
    ensures var d := Process(c, h, payload, huffman).conn;
            Flows(c, d, FrameGrant(c, h, payload), h.streamId, FrameChunk(c, h, payload))
  {
    hide Process, Flows, Calm, Admitted, Known, Number, HasFlag, Parse;
    if Reaching(c, h, payload).None? || Plain(Parse(h, payload)) {
      FrameIsCalm(c, h, payload, huffman);
      CalmFlows(c, Process(c, h, payload, huffman).conn, h.streamId);
      PlainHasNone(c, h, payload);
    } else {
      var p := Parse(h, payload);
      OfItsType(h, payload);
      match p
      case DataPayload(_, _) => DataFlows(c, h, payload, huffman);
      case WindowUpdatePayload(_) => UpdateFlows(c, h, payload, huffman);
      case SettingsPayload(_) => ControlFlows(c, h, payload, huffman);
      case PingPayload(_) => ControlFlows(c, h, payload, huffman);
      case GoAwayPayload(_, _, _) => ControlFlows(c, h, payload, huffman);
    }
  }

  lemma PlainHasNone(c: Conn, h: FrameHeader, payload: bytes)
    requires |payload| == h.length
    requires Reaching(c, h, payload).None? || Plain(Parse(h, payload))
    ensures FrameGrant(c, h, payload) == 0 && FrameChunk(c, h, payload) == []
  {
    hide ParseSettings, ParsePriority, FromBe32, HasFlag, Admitted, Number;
  }

  lemma OfItsType(h: FrameHeader, payload: bytes)
    requires |payload| == h.length && h.ftype <= CONTINUATION
    ensures var p := Parse(h, payload);
            && (p.DataPayload? ==> h.ftype == DATA) && (p.WindowUpdatePayload? ==> h.ftype == WINDOW_UPDATE)
            && (p.SettingsPayload? ==> h.ftype == SETTINGS) && (p.PingPayload? ==> h.ftype == PING)
            && (p.GoAwayPayload? ==> h.ftype == GOAWAY)
  {
    hide Unpad, ParseSettings, ParsePriority, FromBe32, HasFlag;
  }

  // ---------------------------------------------------------------- one call

  /** The DATA frame that a call sends: for a stream of the map, if it carries or ends anything, and fits the window. */
  function AcceptedData(c: Conn, op: Op): seq<Output>
  {
    match op
    case SendData(id, _, data, endStream) =>
      if id in c.streams && (data != [] || endStream) && (data == [] || |data| <= c.sendWindow)
      then [SentData(id, data, endStream)] else []
    case _ => []
  }

  function Octets(outputs: seq<Output>): nat
  {
    if outputs == [] then 0
    else
      var n := |outputs| - 1;
      Octets(outputs[..n]) + (if outputs[n].SentData? then |outputs[n].data| else 0)
  }

  lemma OctetsAppend(outputs: seq<Output>, o: Output)
    ensures Octets(outputs + [o]) == Octets(outputs) + (if o.SentData? then |o.data| else 0)
  {
    assert (outputs + [o])[..|outputs|] == outputs;
  }

  lemma DataFrameFlows(c: Conn, id: nat, data: bytes, endStream: bool)
    requires id in c.streams
    ensures var d := DataFrameSent(c, id, data, endStream);
            var sent := AcceptedData(c, SendData(id, Live, data, endStream));
            && Adds(c, d, {OfData}) && d.streams == c.streams
            && (c.prefaceSent || !c.clientSide ==> ClientStep(c, d))
            && Only(d.log, OfData) == Only(c.log, OfData) + sent
            && FlagsOf(d) == FlagsOf(c).(sendWindow := c.sendWindow - Octets(sent))
  {
    hide Log, Only, FlagsOf, Adds, Octets, ClientStep, DataFrameSent, AcceptedData;
    GoesOutIf(c, id, data, endStream);
    if AcceptedData(c, SendData(id, Live, data, endStream)) == [] {
      SameWindow(c);
      NoOctets();
      AddsNothing(c, c, {OfData});
      VoiceByFields(c, c);
    } else {
      FrameGoesOut(c, id, data, endStream);
    }
  }

  lemma GoesOutIf(c: Conn, id: nat, data: bytes, endStream: bool)
    requires id in c.streams
    ensures var sent := AcceptedData(c, SendData(id, Live, data, endStream));
            DataFrameSent(c, id, data, endStream) ==
            if sent == [] then c else Log(c.(sendWindow := c.sendWindow - |data|), SentData(id, data, endStream))
    ensures var sent := AcceptedData(c, SendData(id, Live, data, endStream));
            sent != [] ==> sent == [SentData(id, data, endStream)]
  {
    hide Log;
  }

  lemma SameWindow(c: Conn)
    ensures FlagsOf(c) == FlagsOf(c).(sendWindow := c.sendWindow - 0)
  {
  }

  /** The frame goes out and narrows the window by its octets. */
  lemma FrameGoesOut(c: Conn, id: nat, data: bytes, endStream: bool)
    ensures var (d, o) := (Log(c.(sendWindow := c.sendWindow - |data|), SentData(id, data, endStream)),
                           SentData(id, data, endStream));
            && Adds(c, d, {OfData}) && d.streams == c.streams
            && (c.prefaceSent || !c.clientSide ==> ClientStep(c, d))
            && Only(d.log, OfData) == Only(c.log, OfData) + [o] && Octets([o]) == |data|
            && FlagsOf(d) == FlagsOf(c).(sendWindow := c.sendWindow - |data|)
  {
    hide Log, Only, FlagsOf, Adds, Octets, ClientStep;
    var o := SentData(id, data, endStream);
    var narrowed := c.(sendWindow := c.sendWindow - |data|);
    Narrowed(c, |data|);
    LogsOne(narrowed, o);
    NoOctets();
    OctetsAppend([], o);
    assert [] + [o] == [o];
    VoiceByFields(c, narrowed);
    if c.prefaceSent || !c.clientSide {
      VoiceTwice(c, narrowed, Log(narrowed, o));
    }
    AddsNothing(c, narrowed, {});
    AddsTwice(c, narrowed, Log(narrowed, o), {}, {OfData});
    AddsWithin(c, Log(narrowed, o), {} + {OfData}, {OfData});
  }

  lemma Narrowed(c: Conn, n: nat)
    ensures var d := c.(sendWindow := c.sendWindow - n);
            && d.log == c.log && d.streams == c.streams
            && FlagsOf(d) == FlagsOf(c).(sendWindow := c.sendWindow - n)
  {
  }

  /** What a call that sends DATA, or nothing, makes of the outputs and the window. */
  ghost predicate DataGone(c: Conn, d: Conn, accepted: seq<Output>)
  {
    && Only(d.log, OfData) == Only(c.log, OfData) + accepted && d.sendWindow == c.sendWindow - Octets(accepted)
    && Only(d.log, OfChunk) == Only(c.log, OfChunk) && Only(d.log, OfWindow) == Only(c.log, OfWindow)
    && Adds(c, d, REFUSAL + {OfData}) && ClientStep(c, d)
    && FlagsOf(d) == Opened(FlagsOf(c)).(sendWindow := d.sendWindow)
  }

  lemma DataSentFlows(c: Conn, id: nat, handle: Holding, data: bytes, endStream: bool)
    ensures DataGone(c, DataSent(c, id, handle, data, endStream),
                     AcceptedData(c, SendData(id, handle, data, endStream)))
  {
    hide PrefaceEnsured, DataFrameSent, AfterSend, SendDataChange, Only, Adds, FlagsOf, Octets, Calm, Opened,
         ClientStep, AcceptedData, DataGone;
    var p := PrefaceEnsured(c);
    Opens(c);
    OpensIsCalm(c);
    VoiceOpens(c);
    OpenedWindow(c, p);
    AcceptedAlike(c, p, id, handle, data, endStream);
    if id in p.streams {
      DataFrameFlows(p, id, data, endStream);
      SentThenSettled(c, p, DataFrameSent(p, id, data, endStream), id, handle, SendDataChange(endStream),
                      AcceptedData(c, SendData(id, handle, data, endStream)));
    } else {
      OnlyOpened(c);
    }
  }

  lemma OnlyOpened(c: Conn)
    ensures DataGone(c, PrefaceEnsured(c), [])
  {
    hide PrefaceEnsured, Only, Adds, FlagsOf, Octets, Calm, Opened, ClientStep;
    var p := PrefaceEnsured(c);
    Opens(c);
    OpensIsCalm(c);
    CalmIsQuiet(c, p);
    OpenedWindow(c, p);
    AddsWithin(c, p, OPENING, REFUSAL + {OfData});
    NoOctets();
  }

  lemma AcceptedAlike(c: Conn, p: Conn, id: nat, handle: Holding, data: bytes, endStream: bool)
    requires p.streams == c.streams && p.sendWindow == c.sendWindow
    ensures AcceptedData(p, SendData(id, Live, data, endStream)) ==
            AcceptedData(c, SendData(id, handle, data, endStream))
    ensures id !in c.streams ==> AcceptedData(c, SendData(id, handle, data, endStream)) == []
  {
  }

  /** The frame, and then what becomes of the handle's stream. */
  lemma SentThenSettled(c: Conn, p: Conn, sent: Conn, id: nat, handle: Holding, change: Stream -> Stream,
                        accepted: seq<Output>)
    requires Adds(c, p, OPENING) && Calm(c, p) && FlagsOf(p) == Opened(FlagsOf(c)) && id in sent.streams
    requires ClientStep(p, sent)
    requires Adds(p, sent, {OfData}) && FlagsOf(sent) == FlagsOf(p).(sendWindow := p.sendWindow - Octets(accepted))
    requires Only(sent.log, OfData) == Only(p.log, OfData) + accepted
    ensures DataGone(c, AfterSend(sent, id, handle, change), accepted)
  {
    hide AfterSend, Only, Adds, FlagsOf, Octets, Calm, Opened, ClientStep;
    var d := AfterSend(sent, id, handle, change);
    CalmIsQuiet(c, p);
    OpenedWindow(c, p);
    AddsKeeps(p, sent, {OfData}, OfChunk);
    AddsKeeps(p, sent, {OfData}, OfWindow);
    AfterSendIsCalm(sent, id, handle, change);
    CalmIsQuiet(sent, d);
    WindowSaid(p, sent, Octets(accepted));
    WindowOf(sent, d);
    VoiceTwice(c, p, sent);
    VoiceTwice(c, sent, d);
    AddsTwice(c, p, sent, OPENING, {OfData});
    AddsOfCalm(sent, d);
    AddsTwice(c, sent, d, OPENING + {OfData}, REFUSAL);
    AddsWithin(c, d, OPENING + {OfData} + REFUSAL, REFUSAL + {OfData});
  }

  lemma AddsOfCalm(c: Conn, d: Conn)
    requires Calm(c, d)
    ensures Adds(c, d, REFUSAL)
  {
  }

  lemma NoOctets()
    ensures Octets([]) == 0
  {
  }

  lemma OpenedWindow(c: Conn, p: Conn)
    requires FlagsOf(p) == Opened(FlagsOf(c))
    ensures p.sendWindow == c.sendWindow && FlagsOf(p) == Opened(FlagsOf(c)).(sendWindow := p.sendWindow)
  {
  }

  lemma WindowSaid(c: Conn, d: Conn, n: nat)
    requires FlagsOf(d) == FlagsOf(c).(sendWindow := c.sendWindow - n)
    ensures d.sendWindow == c.sendWindow - n
  {
  }

  /** The window updates that a call sends: of 31 bits, for a stream of the map and for the connection. */
  function AskedUpdates(c: Conn, op: Op): seq<Output>
  {
    match op
    case SendWindowUpdate(id, forConnection, forStream) =>
      (if id in c.streams && forStream % 0x8000_0000 > 0 then [SentWindowUpdate(id, forStream % 0x8000_0000)] else []) +
      (if forConnection % 0x8000_0000 > 0 then [SentWindowUpdate(0, forConnection % 0x8000_0000)] else [])
    case _ => []
  }

  lemma UpdateCallFlows(c: Conn, id: nat, ci: nat, si: nat)
    ensures var d := WindowUpdateSent(c, id, ci, si);
            && Adds(c, d, {OfPreface, OfSettings, OfWindow}) && FlagsOf(d) == Opened(FlagsOf(c)) && ClientStep(c, d)
            && Only(d.log, OfWindow) == Only(c.log, OfWindow) + AskedUpdates(c, SendWindowUpdate(id, ci, si))
  {
    hide PrefaceEnsured, Log, FlagsOf, Only, Adds, ClientStep;
    var p := PrefaceEnsured(c);
    var (x, y) := (si % STREAM_ID_LIMIT, ci % STREAM_ID_LIMIT);
    Opens(c);
    VoiceOpens(c);
    AddsKeeps(c, p, OPENING, OfWindow);
    AddsWithin(c, p, OPENING, {OfPreface, OfSettings, OfWindow});
    var q := if id in p.streams && x > 0 then Log(p, SentWindowUpdate(id, x)) else p;
    LogsOne(p, SentWindowUpdate(id, x));
    VoiceTwice(c, p, Log(p, SentWindowUpdate(id, x)));
    AddsTwice(c, p, Log(p, SentWindowUpdate(id, x)), OPENING, {OfWindow});
    AddsWithin(c, Log(p, SentWindowUpdate(id, x)), OPENING + {OfWindow}, {OfPreface, OfSettings, OfWindow});
    LogsOne(q, SentWindowUpdate(0, y));
    VoiceTwice(c, q, Log(q, SentWindowUpdate(0, y)));
    AddsTwice(c, q, Log(q, SentWindowUpdate(0, y)), {OfPreface, OfSettings, OfWindow}, {OfWindow});
    AddsWithin(c, Log(q, SentWindowUpdate(0, y)), {OfPreface, OfSettings, OfWindow} + {OfWindow},
               {OfPreface, OfSettings, OfWindow});
  }

  // ---------------------------------------------------------------- one operation

  /** The frame that an operation receives whole, if it does. */
  predicate Whole(op: Op)
  {
    op.Receive? && |op.package| >= HEADER_SIZE && |op.package| >= UnpackHeader(op.package).length + HEADER_SIZE
  }

  function PayloadOf(op: Op): bytes
    requires Whole(op)
  {
    op.package[HEADER_SIZE..HEADER_SIZE + UnpackHeader(op.package).length]
  }

  /** What an operation grants to send, and what data it brings. */
  function Grant(c: Conn, op: Op): nat
  {
    if Whole(op) then FrameGrant(c, UnpackHeader(op.package), PayloadOf(op)) else 0
  }

  function Brings(c: Conn, op: Op): bytes
  {
    if Whole(op) then FrameChunk(c, UnpackHeader(op.package), PayloadOf(op)) else []
  }

  function BringsTo(op: Op): nat
  {
    if Whole(op) then UnpackHeader(op.package).streamId else 0
  }

  /** The window updates an operation sends: those asked for by a call, or what is given back for data. */
  function Updates(c: Conn, op: Op): seq<Output>
  {
    var n := |Brings(c, op)|;
    if n == 0 then AskedUpdates(c, op) else [SentWindowUpdate(BringsTo(op), n), SentWindowUpdate(0, n)]
  }

  function Reported(c: Conn, op: Op): seq<Output>
  {
    if Brings(c, op) == [] then [] else [OnStreamData(BringsTo(op), Brings(c, op))]
  }

  /** Everything an operation does to the two windows. */
  ghost predicate FlowsBy(c: Conn, op: Op, d: Conn)
  {
    && Only(d.log, OfData) == Only(c.log, OfData) + AcceptedData(c, op)
    && d.sendWindow == c.sendWindow - Octets(AcceptedData(c, op)) + Grant(c, op)
    && Only(d.log, OfChunk) == Only(c.log, OfChunk) + Reported(c, op)
    && Only(d.log, OfWindow) == Only(c.log, OfWindow) + Updates(c, op)
  }

  lemma ReceiveFlows(c: Conn, op: Op, huffman: Huffman)
    requires Ready(c) && op.Receive?
    ensures FlowsBy(c, op, Apply(c, op, huffman))
  {
    hide Process, Coder.WellFormed, FrameGrant, FrameChunk, Only;
    NoOctets();
    if Whole(op) {
      FrameFlows(c, UnpackHeader(op.package), PayloadOf(op), huffman);
    }
  }

  lemma StillFlows(c: Conn, op: Op, d: Conn, kinds: set<Kind>)
    requires !op.Receive? && !op.SendData? && !op.SendWindowUpdate?
    requires Adds(c, d, kinds) && {OfData, OfChunk, OfWindow} !! kinds && d.sendWindow == c.sendWindow
    ensures FlowsBy(c, op, d)
  {
    hide Only, Adds;
    NoOctets();
    AddsKeeps(c, d, kinds, OfData);
    AddsKeeps(c, d, kinds, OfChunk);
    AddsKeeps(c, d, kinds, OfWindow);
  }

  lemma CallFlows(c: Conn, op: Op, huffman: Huffman)
    requires Ready(c) && !op.Receive?
    ensures FlowsBy(c, op, Apply(c, op, huffman))
  {
    hide Only, Adds, Calm, InitialSettingsSent, SettingsSent, PingSent, DataSent, WindowUpdateSent, Coder.WellFormed,
         KindOf, AcceptedData, AskedUpdates;
    var d := Apply(c, op, huffman);
    if PlainCall(op) {
      hide Apply;
      CallIsCalm(c, op, huffman);
      AddsOfCalm(c, d);
      SameFlags(c, d) by { CalmIsSteady(c, d); }
      StillFlows(c, op, d, REFUSAL);
    } else {
      hide PlainCall;
      match op
      case VerifyPreface =>
        VerifyHandled(c);
        StillFlows(c, op, d, {OfSettings});
      case SendSettings(settings) =>
        RequestHandled(c, settings);
        StillFlows(c, op, d, OPENING);
      case SendPing(data) =>
        PingSentHandled(c, data);
        StillFlows(c, op, d, {OfPreface, OfSettings, OfPing});
      case SendData(id, handle, data, endStream) =>
        DataSentFlows(c, id, handle, data, endStream);
        NothingAsked(c, op);
      case SendWindowUpdate(id, ci, si) =>
        UpdateCallFlows(c, id, ci, si);
        AddsKeeps(c, d, {OfPreface, OfSettings, OfWindow}, OfData);
        AddsKeeps(c, d, {OfPreface, OfSettings, OfWindow}, OfChunk);
        OpenedWindow(c, d);
        NothingAccepted(c, op);
      case _ =>
    }
  }

  lemma NothingAsked(c: Conn, op: Op)
    requires op.SendData?
    ensures AskedUpdates(c, op) == []
  {
  }

  lemma NothingAccepted(c: Conn, op: Op)
    requires op.SendWindowUpdate?
    ensures AcceptedData(c, op) == [] && Octets(AcceptedData(c, op)) == 0
  {
  }

  lemma OperationFlows(c: Conn, op: Op, huffman: Huffman)
    requires Ready(c)
    ensures FlowsBy(c, op, Apply(c, op, huffman))
  {
    hide Apply, FlowsBy, Coder.WellFormed;
    if op.Receive? {
      ReceiveFlows(c, op, huffman);
    } else {
      CallFlows(c, op, huffman);
    }
  }

  // ---------------------------------------------------------------- runs

  /** All that was granted in a run, and the DATA frames of the calls it accepted, in order. */
  function TotalGrant(c: Conn, ops: seq<Op>, huffman: Huffman): nat
    requires Inv(c)
    decreases |ops|
  {
    if ops == [] then 0
    else
      var n := |ops| - 1;
      TotalGrant(c, ops[..n], huffman) + Grant(After(c, ops[..n], huffman), ops[n])
  }

  function AllAccepted(c: Conn, ops: seq<Op>, huffman: Huffman): seq<Output>
    requires Inv(c)
    decreases |ops|
  {
    if ops == [] then []
    else
      var n := |ops| - 1;
      AllAccepted(c, ops[..n], huffman) + AcceptedData(After(c, ops[..n], huffman), ops[n])
  }

  lemma {:induction false} OctetsAdd(a: seq<Output>, b: seq<Output>)
    ensures Octets(a + b) == Octets(a) + Octets(b)
    decreases |b|
  {
    if b == [] {
      assert a + b == a;
    } else {
      var n := |b| - 1;
      OctetsAdd(a, b[..n]);
      assert a + b == a + b[..n] + [b[n]] && b == b[..n] + [b[n]];
      OctetsAppend(a + b[..n], b[n]);
      OctetsAppend(b[..n], b[n]);
    }
  }

  lemma AcceptedFits(c: Conn, op: Op)
    ensures c.sendWindow >= 0 ==> Octets(AcceptedData(c, op)) <= c.sendWindow
  {
    var sent := AcceptedData(c, op);
    NoOctets();
    if sent != [] {
      OctetsAppend([], sent[0]);
      assert [] + [sent[0]] == sent;
    }
  }

  lemma StartFlows(clientSide: bool, hash: Coder.Hash)
    ensures var c := Init(clientSide, hash); c.sendWindow == 65535 && Only(c.log, OfData) == []
    ensures Only(Init(clientSide, hash).log, OfChunk) == [] && Only(Init(clientSide, hash).log, OfWindow) == []
  {
  }

  /**
   * Over every run the DATA frames sent are those of the calls it accepted, in order. The window and the octets sent
   * together are the initial window and what was granted; the window is never negative, so no more is sent than
   * was granted.
   */
  lemma {:induction false} EveryRunConservesTheWindow(clientSide: bool, hash: Coder.Hash, ops: seq<Op>,
                                                      huffman: Huffman)
    ensures Inv(Init(clientSide, hash))
    ensures var (c, start) := (After(Init(clientSide, hash), ops, huffman), Init(clientSide, hash));
            && Only(c.log, OfData) == AllAccepted(start, ops, huffman)
            && c.sendWindow + Octets(Only(c.log, OfData)) == 65535 + TotalGrant(start, ops, huffman)
            && 0 <= c.sendWindow && Octets(Only(c.log, OfData)) <= 65535 + TotalGrant(start, ops, huffman)
    decreases |ops|
  {
    hide Inv, Apply, Only, Octets, AcceptedData, Grant;
    InitInv(clientSide, hash);
    var start := Init(clientSide, hash);
    if ops == [] {
      StartFlows(clientSide, hash);
      NoOctets();
    } else {
      var n := |ops| - 1;
      var before := After(start, ops[..n], huffman);
      EveryRunConservesTheWindow(clientSide, hash, ops[..n], huffman);
      ReadyByInv(before);
      OperationFlows(before, ops[n], huffman);
      AcceptedFits(before, ops[n]);
      OctetsAdd(Only(before.log, OfData), AcceptedData(before, ops[n]));
    }
  }

  // ---------------------------------------------------------------- what is given back

  /** The octets of window that some outputs give to a stream, or with id 0 to the connection. */
  function Given(outputs: seq<Output>, id: nat): nat
  {
    if outputs == [] then 0
    else
      var n := |outputs| - 1;
      Given(outputs[..n], id) +
      (if outputs[n].SentWindowUpdate? && outputs[n].id == id then outputs[n].increment else 0)
  }

  /** The octets of data reported for a stream, or with id 0 for all of them. */
  function Taken(outputs: seq<Output>, id: nat): nat
  {
    if outputs == [] then 0
    else
      var n := |outputs| - 1;
      Taken(outputs[..n], id) +
      (if outputs[n].OnStreamData? && (id == 0 || outputs[n].id == id) then |outputs[n].chunk| else 0)
  }

  lemma {:induction false} GivenAdds(a: seq<Output>, b: seq<Output>, id: nat)
    ensures Given(a + b, id) == Given(a, id) + Given(b, id) && Taken(a + b, id) == Taken(a, id) + Taken(b, id)
    decreases |b|
  {
    if b == [] {
      assert a + b == a;
    } else {
      var n := |b| - 1;
      GivenAdds(a, b[..n], id);
      assert (a + b)[..|a| + n] == a + b[..n];
    }
  }

  lemma OneGiven(o: Output, id: nat)
    ensures Given([o], id) == if o.SentWindowUpdate? && o.id == id then o.increment else 0
    ensures Taken([o], id) == if o.OnStreamData? && (id == 0 || o.id == id) then |o.chunk| else 0
    ensures Given([], id) == Taken([], id) == 0
  {
    assert [o][..0] == [];
  }

  /** The window that the calls of a run ask to be given. */
  function TotalAsked(c: Conn, ops: seq<Op>, id: nat, huffman: Huffman): nat
    requires Inv(c)
    decreases |ops|
  {
    if ops == [] then 0
    else
      var n := |ops| - 1;
      TotalAsked(c, ops[..n], id, huffman) + Given(AskedUpdates(After(c, ops[..n], huffman), ops[n]), id)
  }

  lemma ChunkIsKnown(c: Conn, op: Op)
    requires Brings(c, op) != []
    ensures op.Receive? && BringsTo(op) > 0
  {
    hide Number, HasFlag;
  }

  /** One operation gives what it reports and what it was asked for. */
  lemma UpdatesBalance(c: Conn, op: Op, id: nat)
    ensures Given(Updates(c, op), id) == Taken(Reported(c, op), id) + Given(AskedUpdates(c, op), id)
  {
    hide Brings, BringsTo, Given, Taken;
    var (k, chunk) := (BringsTo(op), Brings(c, op));
    OneGiven(SentPreface, id);
    if chunk != [] {
      ChunkIsKnown(c, op);
      var (first, second) := (SentWindowUpdate(k, |chunk|), SentWindowUpdate(0, |chunk|));
      OneGiven(first, id);
      OneGiven(second, id);
      OneGiven(OnStreamData(k, chunk), id);
      GivenAdds([first], [second], id);
      assert [first] + [second] == Updates(c, op);
    }
  }

  /**
   * Over every run each stream, and the connection, has been given exactly the window of the data reported for it
   * and what the application asked for.
   */
  lemma {:induction false} WhatIsReportedIsGivenBack(clientSide: bool, hash: Coder.Hash, ops: seq<Op>, id: nat,
                                                     huffman: Huffman)
    ensures Inv(Init(clientSide, hash))
    ensures var (c, start) := (After(Init(clientSide, hash), ops, huffman), Init(clientSide, hash));
            Given(Only(c.log, OfWindow), id) == Taken(Only(c.log, OfChunk), id) + TotalAsked(start, ops, id, huffman)
    decreases |ops|
  {
    hide Inv, Apply, Only, Given, Taken, AskedUpdates, Updates, Reported;
    InitInv(clientSide, hash);
    var start := Init(clientSide, hash);
    if ops == [] {
      StartFlows(clientSide, hash);
      OneGiven(SentPreface, id);
    } else {
      var n := |ops| - 1;
      var before := After(start, ops[..n], huffman);
      WhatIsReportedIsGivenBack(clientSide, hash, ops[..n], id, huffman);
      ReadyByInv(before);
      OperationFlows(before, ops[n], huffman);
      UpdatesBalance(before, ops[n], id);
      GivenAdds(Only(before.log, OfWindow), Updates(before, ops[n]), id);
      GivenAdds(Only(before.log, OfChunk), Reported(before, ops[n]), id);
    }
  }

  /**
   * Of a DATA frame all octets count against the windows (section 6.9.1 of RFC 7540). They are given back to the
   * connection exactly if the frame has no padding and its stream is in the map.
   */
  lemma FrameIsGivenBackIff(c: Conn, h: FrameHeader, payload: bytes, huffman: Huffman)
    requires Sized(c) && |payload| == h.length < 0x100_0000 && Admitted(c, h) && h.ftype == DATA && payload != []
    ensures var d := Process(c, h, payload, huffman).conn;
            Given(Only(d.log, OfWindow), 0) == Given(Only(c.log, OfWindow), 0) + |payload| <==>
            Known(c, h.streamId) && !HasFlag(h.flags, PADDED)
  {
    hide Process, Only, Given, Taken, HasFlag;
    var chunk := FrameChunk(c, h, payload);
    FrameFlows(c, h, payload, huffman);
    ChunkIsWholeIff(c, h, payload);
    var before := Only(c.log, OfWindow);
    OneGiven(SentPreface, 0);
    if chunk != [] {
      var (first, second) := (SentWindowUpdate(h.streamId, |chunk|), SentWindowUpdate(0, |chunk|));
      OneGiven(first, 0);
      OneGiven(second, 0);
      GivenAdds([first], [second], 0);
      assert [first] + [second] == [first, second];
      GivenAdds(before, [first, second], 0);
      OnlyKnownBrings(c, h, payload);
    } else {
      assert before + [] == before;
    }
  }

  lemma ChunkIsWholeIff(c: Conn, h: FrameHeader, payload: bytes)
    requires |payload| == h.length && Admitted(c, h) && h.ftype == DATA && payload != []
    ensures |FrameChunk(c, h, payload)| == |payload| <==> Known(c, h.streamId) && !HasFlag(h.flags, PADDED)
  {
    hide HasFlag, Admitted;
  }

  lemma OnlyKnownBrings(c: Conn, h: FrameHeader, payload: bytes)
    requires |payload| == h.length && FrameChunk(c, h, payload) != []
    ensures h.streamId > 0
  {
    hide HasFlag, Admitted;
  }
}
