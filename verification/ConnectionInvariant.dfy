/** The invariant of a connection, and that every sending call and every frame handler keeps it. */
module ConnectionInvariant {
  import opened Bytes
  import Coder = CompressorModel
  import opened ConnectionModel
  import opened Frames
  import opened HeaderDecoder
  import Settings
  import opened StreamModel
  import opened StreamStates
  import opened StringLiterals

  // ---------------------------------------------------------------- operations

  datatype Op =
    | Receive(package: bytes)
    | VerifyPreface
    | CreateStream
    | SendSettings(settings: seq<(nat, nat)>)
    | SendPing(opaqueData: bytes)
    | SendRstStream(id: nat, errorCode: nat)
    | SendGoAway(errorCode: nat, lastStreamId: nat, debug: bytes)
    | DrainNow
    | SendPushPromise(requestId: nat, headers: seq<Headers.Header>)
    | SendWindowUpdate(id: nat, connectionIncrement: nat, streamIncrement: nat)
    | SendHeaders(id: nat, handle: Holding, headers: seq<Headers.Header>, endStream: bool)
    | SendData(id: nat, handle: Holding, data: bytes, endStream: bool)

  function Apply(c: Conn, op: Op, huffman: Huffman): Conn
    requires Ready(c)
  {
    match op
    case Receive(package) => PackageProcess(c, package, huffman).conn
    case VerifyPreface => InitialSettingsSent(c.(finishHandshake := true))
    case CreateStream => if MayCreate(c) then Created(c) else c
    case SendSettings(settings) => SettingsSent(c, settings)
    case SendPing(d) => PingSent(c, d)
    case SendRstStream(id, e) => RstStreamSent(c, id, e)
    case SendGoAway(e, last, debug) => GoAwaySent(c, e, last, debug)
    case DrainNow => Drained(c)
    case SendPushPromise(id, hs) => PushPromiseSent(c, id, hs)
    case SendWindowUpdate(id, ci, si) => WindowUpdateSent(c, id, ci, si)
    case SendHeaders(id, handle, hs, end) => HeadersSent(c, id, handle, hs, end)
    case SendData(id, handle, data, end) => DataSent(c, id, handle, data, end)
  }

  predicate Sized(c: Conn)
  {
    |c.localSettings| == |c.remoteSettings| == Settings.COUNT
  }

  /** What the operations need to be defined. */
  ghost predicate Ready(c: Conn)
  {
    Sized(c) && Coder.WellFormed(c.compressor)
  }

  // ---------------------------------------------------------------- the invariant

  /** No stream in the map is closed, but perhaps the one being handled, and none of the peer's is idle. */
  predicate OpenBut(c: Conn, x: nat)
  {
    forall id :: id in c.streams ==>
      (id != x ==> c.streams[id].state != Closed) && (!IsLocal(c.clientSide, id) ==> c.streams[id].state != Idle)
  }

  /** Each key is a local id already handed out or a remote id already seen. */
  predicate KeyOk(c: Conn, id: nat)
  {
    id > 0 && if IsLocal(c.clientSide, id) then id < c.nextLocalStreamId else id <= c.lastStreamId
  }

  predicate KeysOk(c: Conn)
  {
    && IsLocal(c.clientSide, c.nextLocalStreamId) && c.nextLocalStreamId > 0
    && forall id :: id in c.streams ==> KeyOk(c, id)
  }

  /** Outputs the properties speak of. */
  predicate Special(o: Output)
  {
    o.SentGoAway? || o.OnShutdownComplete?
  }

  /** The special outputs of a log, in order. */
  function Specials(log: seq<Output>): seq<Output>
  {
    if log == [] then []
    else
      var n := |log| - 1;
      Specials(log[..n]) + (if Special(log[n]) then [log[n]] else [])
  }

  lemma SpecialsAppend(log: seq<Output>, o: Output)
    ensures Specials(log + [o]) == Specials(log) + (if Special(o) then [o] else [])
  {
    assert (log + [o])[..|log|] == log;
  }

  function Shutdowns(c: Conn): nat
  {
    multiset(Specials(c.log))[OnShutdownComplete]
  }

  /** The last stream ids of the GOAWAY frames among some outputs. */
  function LastIds(outputs: seq<Output>): seq<nat>
  {
    if outputs == [] then []
    else
      var n := |outputs| - 1;
      LastIds(outputs[..n]) + (if outputs[n].SentGoAway? then [outputs[n].lastStreamId] else [])
  }

  function GoAways(c: Conn): seq<nat>
  {
    LastIds(Specials(c.log))
  }

  lemma GoAwaysAppend(c: Conn, o: Output)
    ensures GoAways(Log(c, o)) == GoAways(c) + (if o.SentGoAway? then [o.lastStreamId] else [])
    ensures Shutdowns(Log(c, o)) == Shutdowns(c) + (if o.OnShutdownComplete? then 1 else 0)
  {
    hide Specials;
    SpecialsAppend(c.log, o);
    var before, after := Specials(c.log), Specials(Log(c, o).log);
    if Special(o) {
      assert after[..|after| - 1] == before;
    } else {
      assert after == before;
    }
  }

  /** Draining waits for a stream, and shutdown completes at most once, after draining. */
  predicate DrainOk(c: Conn)
  {
    && (c.draining ==> c.streams != map[] && c.sentGoAway && Shutdowns(c) == 0)
    && Shutdowns(c) <= 1 && (Shutdowns(c) == 1 ==> c.sentGoAway)
  }

  /** The compressor's maximum is the size the peer announced last, but no more than it may use. */
  ghost predicate LimitsOk(s: Coder.State, announced: nat)
  {
    && Coder.WellFormed(s) && s.maxUsable == Coder.INITIAL_TABLE_SIZE
    && s.maxSize == if announced < s.maxUsable then announced else s.maxUsable
  }

  ghost predicate Sound(c: Conn)
  {
    Sized(c) && LimitsOk(c.compressor, c.remoteSettings[Settings.HEADER_TABLE_SIZE])
  }

  predicate RangesOk(c: Conn)
  {
    Sized(c) && forall i :: 0 <= i < Settings.COUNT ==> Settings.InRange(i, c.remoteSettings[i])
  }

  ghost predicate InvBut(c: Conn, x: nat)
  {
    OpenBut(c, x) && KeysOk(c) && DrainOk(c) && RangesOk(c) && Sound(c)
  }

  ghost predicate Inv(c: Conn)
  {
    InvBut(c, 0)
  }

  lemma InitInv(clientSide: bool, hash: Coder.Hash)
    ensures Inv(Init(clientSide, hash))
  {
    Coder.InitWellFormed();
  }

  // ---------------------------------------------------------------- building blocks

  /** Nothing the properties speak of has changed, except perhaps the streams. */
  ghost predicate QuietButStreams(c: Conn, d: Conn)
  {
    && (Sound(c) ==> Sound(d))
    && Specials(d.log) == Specials(c.log) && (c.finishHandshake ==> d.finishHandshake)
    && d.clientSide == c.clientSide && d.lastStreamId == c.lastStreamId && d.nextLocalStreamId == c.nextLocalStreamId
    && d.draining == c.draining && d.sentGoAway == c.sentGoAway && d.sentGoAwayStreamId == c.sentGoAwayStreamId
    && d.receivedGoAway == c.receivedGoAway
    && d.remoteSettings == c.remoteSettings && |d.localSettings| == |c.localSettings|
  }

  ghost predicate Quiet(c: Conn, d: Conn)
  {
    QuietButStreams(c, d) && d.streams == c.streams
  }

  lemma QuietTwice(c: Conn, d: Conn, e: Conn)
    requires Quiet(c, d) && Quiet(d, e)
    ensures Quiet(c, e)
  {
  }

  lemma LogIsQuiet(c: Conn, o: Output)
    requires !Special(o)
    ensures Quiet(c, Log(c, o))
  {
    hide Specials;
    SpecialsAppend(c.log, o);
  }

  lemma PrefaceIsQuiet(c: Conn)
    ensures Quiet(c, PrefaceEnsured(c))
  {
    hide Specials, Log, NonDefault;
    var settings := SentSettings(NonDefault(c.localSettings, 1));
    LogIsQuiet(c, SentPreface);
    LogIsQuiet(Log(c, SentPreface), settings);
  }

  lemma WindowUpdateIsQuiet(c: Conn, id: nat, ci: nat, si: nat)
    ensures Quiet(c, WindowUpdateSent(c, id, ci, si))
  {
    hide Specials, PrefaceEnsured, Log;
    PrefaceIsQuiet(c);
    var p := PrefaceEnsured(c);
    var forStream := SentWindowUpdate(id, si % STREAM_ID_LIMIT);
    LogIsQuiet(p, forStream);
    LogIsQuiet(p, SentWindowUpdate(0, ci % STREAM_ID_LIMIT));
    LogIsQuiet(Log(p, forStream), SentWindowUpdate(0, ci % STREAM_ID_LIMIT));
  }

  lemma BlockSeenIsQuiet(c: Conn, h: FrameHeader, id: nat)
    ensures Quiet(c, BlockSeen(c, h, id))
  {
    hide Specials, Log, HasFlag;
    var done := c.(nextFrameLimit := false, nextStreamIdLimit := 0);
    LogIsQuiet(done, OnStreamHeaders(id));
    assert Quiet(c, c.(nextFrameLimit := true, nextStreamIdLimit := h.streamId));
    assert Quiet(c, done);
    QuietTwice(c, done, Log(done, OnStreamHeaders(id)));
  }

  /** Quiet changes keep the invariant, complete no shutdown and leave the streams alone. */
  lemma QuietKeeps(c: Conn, d: Conn)
    requires Inv(c) && Quiet(c, d)
    ensures Inv(d) && Advances(c, d)
  {
    hide Specials;
    forall id | id in d.streams ensures KeyOk(d, id) {
      assert KeyOk(c, id);
    }
  }

  /**
   * At most one GOAWAY, naming the last id processed, and only streams registered that may be: none of our own once
   * GOAWAY was sent or received.
   */
  predicate Announced(c: Conn, d: Conn)
  {
    && d.lastStreamId == c.lastStreamId && d.clientSide == c.clientSide && (c.finishHandshake ==> d.finishHandshake)
    && (if GoAways(d) == GoAways(c)
        then d.sentGoAway == c.sentGoAway && d.sentGoAwayStreamId == c.sentGoAwayStreamId
        else GoAways(d) == GoAways(c) + [c.lastStreamId] && d.sentGoAway && d.sentGoAwayStreamId == c.lastStreamId)
    && c.nextLocalStreamId <= d.nextLocalStreamId && (c.receivedGoAway ==> d.receivedGoAway)
    && (c.receivedGoAway || c.sentGoAway ==> d.nextLocalStreamId == c.nextLocalStreamId)
    && (forall id :: id in d.streams && id !in c.streams ==> Registrable(c, id))
  }

  /** A local id is new and handed out before any GOAWAY; a remote id is one that the GOAWAY sent, if any, covers. */
  predicate Registrable(c: Conn, id: nat)
  {
    if IsLocal(c.clientSide, id) then id >= c.nextLocalStreamId && !c.sentGoAway && !c.receivedGoAway
    else c.sentGoAway ==> id <= c.sentGoAwayStreamId
  }

  /** The invariant but for the stream with id `x`, with no shutdown completed on the way. */
  ghost predicate HandlerKeeps(c: Conn, d: Conn, x: nat)
  {
    InvBut(d, x) && Shutdowns(d) == Shutdowns(c) && d.draining == c.draining && Announced(c, d)
  }

  lemma InvIsInvBut(c: Conn, x: nat)
    requires Inv(c)
    ensures InvBut(c, x)
  {
    assert forall id :: id in c.streams ==> KeyOk(c, id);
  }

  lemma QuietHandler(c: Conn, d: Conn, x: nat)
    requires Inv(c) && Quiet(c, d)
    ensures HandlerKeeps(c, d, x) && Inv(d)
  {
    hide Inv, InvBut;
    QuietKeeps(c, d);
    InvIsInvBut(d, x);
  }

  /** A stream stored under a proper key, with quiet changes around it. */
  lemma StoredKeeps(c: Conn, d: Conn, id: nat, s: Stream)
    requires Inv(c) && QuietButStreams(c, d) && d.streams == c.streams[id := s] && KeyOk(c, id)
    requires id in c.streams || Registrable(c, id)
    requires s.state == Idle ==> IsLocal(c.clientSide, id)
    ensures HandlerKeeps(c, d, id)
    ensures s.state != Closed ==> Inv(d)
  {
    hide Specials;
    assert id in d.streams;
    forall k | k in d.streams ensures KeyOk(d, k) {
      assert k == id || KeyOk(c, k);
    }
  }

  /** GOAWAY leaves the streams alone and the invariant as it was. */
  lemma GoAwayKeeps(c: Conn, e: nat, last: nat, debug: bytes := [])
    requires Inv(c)
    ensures var g := GoAwaySent(c, e, last, debug);
            var named := if last == 0 then c.lastStreamId else last;
            && Inv(g) && g.streams == c.streams && g.draining == c.draining && g.clientSide == c.clientSide
            && g.lastStreamId == c.lastStreamId && g.sentGoAway && g.sentGoAwayStreamId == named
            && g.nextLocalStreamId == c.nextLocalStreamId && g.receivedGoAway == c.receivedGoAway
            && Shutdowns(g) == Shutdowns(c) && GoAways(g) == GoAways(c) + [named]
            && (c.finishHandshake ==> g.finishHandshake)
  {
    hide Specials, PrefaceEnsured, Settings.Parameters;
    var p, g := PrefaceEnsured(c), GoAwaySent(c, e, last, debug);
    PrefaceIsQuiet(c);
    GoAwaysAppend(p, g.log[|p.log|]);
    forall id | id in g.streams ensures KeyOk(g, id) {
      assert KeyOk(c, id);
    }
  }

  lemma RefusalKeeps(c: Conn, e: nat, x: nat)
    requires Inv(c)
    ensures HandlerKeeps(c, GoAwaySent(c, e, 0), x) && Inv(GoAwaySent(c, e, 0))
  {
    hide Inv, InvBut, GoAwaySent;
    GoAwayKeeps(c, e, 0);
    InvIsInvBut(GoAwaySent(c, e, 0), x);
  }

  /** What a whole step does: shutdown completes exactly if the connection was draining and its map is now empty. */
  predicate Advances(c: Conn, d: Conn)
  {
    Announced(c, d) && Shutdowns(d) == Shutdowns(c) + (if c.draining && d.streams == map[] then 1 else 0)
  }

  /** check_drain_complete, when draining may have come to its end. */
  lemma DrainCheckedKeeps(c: Conn)
    requires OpenBut(c, 0) && KeysOk(c) && RangesOk(c) && Sound(c)
    requires c.draining ==> c.sentGoAway && Shutdowns(c) == 0
    requires Shutdowns(c) <= 1 && (Shutdowns(c) == 1 ==> c.sentGoAway)
    ensures Inv(DrainChecked(c)) && DrainChecked(c).streams == c.streams
    ensures Advances(c, DrainChecked(c)) && GoAways(DrainChecked(c)) == GoAways(c)
  {
    hide Specials, Settings.Parameters, LastIds;
    GoAwaysAppend(c.(draining := false), OnShutdownComplete);
    forall id | id in c.streams ensures KeyOk(DrainChecked(c), id) {
      assert KeyOk(c, id);
    }
  }

  /** A closed stream leaves the map; if it was the last and the connection drains, shutdown completes. */
  lemma RemoveKeeps(c: Conn, id: nat)
    requires InvBut(c, id)
    ensures Inv(DrainChecked(c.(streams := c.streams - {id})))
    ensures Advances(c, DrainChecked(c.(streams := c.streams - {id})))
    ensures GoAways(DrainChecked(c.(streams := c.streams - {id}))) == GoAways(c)
    ensures DrainChecked(c.(streams := c.streams - {id})).streams == c.streams - {id}
  {
    hide Specials, DrainChecked, Inv, Settings.Parameters;
    var r := c.(streams := c.streams - {id});
    forall k | k in r.streams
      ensures KeyOk(r, k) && r.streams[k].state != Closed
      ensures !IsLocal(c.clientSide, k) ==> r.streams[k].state != Idle
    {
      assert k in c.streams && KeyOk(c, k);
    }
    DrainCheckedKeeps(r);
  }

  lemma SettleKeeps(c: Conn, id: nat, s: Stream)
    requires Inv(c) && id in c.streams && (s.state == Idle ==> c.streams[id].state == Idle)
    ensures Inv(Settle(c, id, s)) && Advances(c, Settle(c, id, s))
  {
    hide InvBut, Inv, Specials;
    FoundKey(c, id);
    if s.state == Closed {
      InvIsInvBut(c, id);
      RemoveKeeps(c, id);
    } else {
      StoredKeeps(c, Store(c, id, s), id, s);
      assert id in Store(c, id, s).streams;
    }
  }

  lemma FoundKey(c: Conn, id: nat)
    requires Inv(c) && id in c.streams
    ensures KeyOk(c, id) && c.streams[id].state != Closed
    ensures c.streams[id].state == Idle ==> IsLocal(c.clientSide, id)
  {
  }

  // ---------------------------------------------------------------- sending calls

  lemma LoggedKeeps(c: Conn, o: Output)
    requires Inv(c) && !Special(o)
    ensures Inv(Log(c, o)) && Advances(c, Log(c, o))
  {
    hide Inv, Log;
    LogIsQuiet(c, o);
    QuietKeeps(c, Log(c, o));
  }

  lemma PrefaceKeeps(c: Conn)
    requires Inv(c)
    ensures Inv(PrefaceEnsured(c)) && Advances(c, PrefaceEnsured(c))
    ensures Quiet(c, PrefaceEnsured(c)) && PrefaceEnsured(c).compressor == c.compressor
  {
    hide Inv, PrefaceEnsured;
    PrefaceKeepsCompressor(c);
    PrefaceIsQuiet(c);
    QuietKeeps(c, PrefaceEnsured(c));
  }

  lemma PrefaceKeepsCompressor(c: Conn)
    ensures PrefaceEnsured(c).compressor == c.compressor
  {
    hide NonDefault;
  }

  lemma RstStreamSentKeeps(c: Conn, id: nat, e: nat)
    requires Inv(c)
    ensures Inv(RstStreamSent(c, id, e)) && Advances(c, RstStreamSent(c, id, e))
  {
    hide Inv, PrefaceEnsured, Settle, Specials;
    var p := PrefaceEnsured(c);
    PrefaceKeeps(c);
    if id in p.streams {
      LoggedKeeps(p, SentRstStream(id, e));
      LogIsQuiet(p, SentRstStream(id, e));
      SettleKeeps(Log(p, SentRstStream(id, e)), id, Moved(p.streams[id], Send(RstStream)));
    }
  }

  lemma AfterSendKeeps(c: Conn, id: nat, handle: Holding, change: Stream -> Stream)
    requires Inv(c) && id in c.streams && forall s :: change(s).state == Idle ==> s.state == Idle
    ensures Inv(AfterSend(c, id, handle, change)) && Advances(c, AfterSend(c, id, handle, change))
  {
    hide Inv, InvBut, Settle, Specials, DrainChecked;
    match handle
    case Live => SettleKeeps(c, id, change(c.streams[id]));
    case Stale(s) =>
      InvIsInvBut(c, id);
      RemoveKeeps(c, id);
  }

  lemma HeadersSentKeeps(c: Conn, id: nat, handle: Holding, hs: seq<Headers.Header>, endStream: bool)
    requires Inv(c)
    ensures Ready(c)
    ensures Inv(HeadersSent(c, id, handle, hs, endStream)) && Advances(c, HeadersSent(c, id, handle, hs, endStream))
  {
    hide Inv, PrefaceEnsured, AfterSend, Log, Advances, SendHeadersChange, Quiet, Coder.EncodeBlock, Coder.WellFormed;
    var p := PrefaceEnsured(c);
    PrefaceKeeps(c);
    ReadyByInv(c);
    if id in p.streams {
      var e := Coder.EncodeBlock(c.compressor, hs, c.hash);
      Coder.EncodeBlockWellFormed(c.compressor, hs, c.hash);
      var o := SentHeaders(id, e.octets, endStream);
      var logged := Log(p.(compressor := e.state), o);
      HeadersLogged(c, p, e.state, o);
      SendsStartStreams();
      AfterSendKeeps(logged, id, handle, SendHeadersChange(endStream));
      AdvancesAfterQuiet(c, logged, AfterSend(logged, id, handle, SendHeadersChange(endStream)));
    }
  }

  /** A block goes out: the compressor moves on and the frame is logged. */
  lemma HeadersLogged(c: Conn, p: Conn, s: Coder.State, o: Output)
    requires Inv(c) && Quiet(c, p) && CodedFrom(p.compressor, s) && !Special(o)
    ensures var r := Log(p.(compressor := s), o); Inv(r) && Quiet(c, r) && r.streams == p.streams
  {
    hide Inv, Log, Advances, Quiet, CodedFrom;
    var coded := p.(compressor := s);
    CodedIsQuiet(p, s);
    LogIsQuiet(coded, o);
    QuietTwice(c, p, coded);
    QuietTwice(c, coded, Log(coded, o));
    QuietKeeps(c, Log(coded, o));
    LogOnlyLogs(coded, o);
  }

  /** A compressor that went over more headers: its limits are what they were. */
  ghost predicate CodedFrom(before: Coder.State, s: Coder.State)
  {
    Coder.WellFormed(s) && s.maxSize == before.maxSize && s.maxUsable == before.maxUsable
  }

  lemma CodedIsQuiet(c: Conn, s: Coder.State)
    requires CodedFrom(c.compressor, s)
    ensures Quiet(c, c.(compressor := s))
  {
    hide Coder.WellFormed;
  }

  /** No send puts a stream back to idle. */
  lemma SendsStartStreams()
    ensures forall end, s :: SendHeadersChange(end)(s).state == Idle ==> s.state == Idle
    ensures forall end, s :: SendDataChange(end)(s).state == Idle ==> s.state == Idle
  {
  }

  lemma LogOnlyLogs(c: Conn, o: Output)
    ensures Log(c, o).streams == c.streams
  {
  }

  lemma AdvancesAfterQuiet(c: Conn, d: Conn, e: Conn)
    requires Quiet(c, d) && Advances(d, e)
    ensures Advances(c, e)
  {
  }

  lemma DataFrameIsQuiet(c: Conn, id: nat, data: bytes, endStream: bool)
    ensures Quiet(c, DataFrameSent(c, id, data, endStream))
  {
    hide Specials, Log;
    LogIsQuiet(c.(sendWindow := c.sendWindow - |data|), SentData(id, data, endStream));
  }

  lemma DataSentKeeps(c: Conn, id: nat, handle: Holding, data: bytes, endStream: bool)
    requires Inv(c)
    ensures Inv(DataSent(c, id, handle, data, endStream)) && Advances(c, DataSent(c, id, handle, data, endStream))
  {
    hide Inv, PrefaceEnsured, AfterSend, Specials, DataFrameSent, SendDataChange, SendHeadersChange;
    var p := PrefaceEnsured(c);
    PrefaceKeeps(c);
    if id in p.streams {
      var d := DataFrameSent(p, id, data, endStream);
      DataFrameIsQuiet(p, id, data, endStream);
      QuietKeeps(p, d);
      SendsStartStreams();
      AfterSendKeeps(d, id, handle, SendDataChange(endStream));
    }
  }

  /** A fresh local id, with a stream that is not closed. */
  lemma LocalStreamKeeps(c: Conn, d: Conn, s: Stream)
    requires Inv(c) && s.state != Closed && !c.sentGoAway && !c.receivedGoAway
    requires QuietButStreams(c.(nextLocalStreamId := c.nextLocalStreamId + 2), d)
    requires d.streams == c.streams[c.nextLocalStreamId := s]
    ensures Inv(d) && Advances(c, d)
  {
    hide Specials;
    assert c.nextLocalStreamId in d.streams;
    forall id | id in d.streams ensures KeyOk(d, id) {
      assert id == c.nextLocalStreamId || KeyOk(c, id);
    }
  }

  lemma PushPromiseSentKeeps(c: Conn, requestId: nat, hs: seq<Headers.Header>)
    requires Inv(c)
    ensures Ready(c)
    ensures Inv(PushPromiseSent(c, requestId, hs)) && Advances(c, PushPromiseSent(c, requestId, hs))
  {
    hide Inv, Specials, Log, Advances, Coder.EncodeBlock, Coder.WellFormed;
    ReadyByInv(c);
    if MayPromise(c) {
      var e := Coder.EncodeBlock(c.compressor, hs, c.hash);
      Coder.EncodeBlockWellFormed(c.compressor, hs, c.hash);
      LogIsQuiet(Created(c).(compressor := e.state), SentPushPromise(requestId, c.nextLocalStreamId, e.octets));
      LocalStreamKeeps(c, PushPromiseSent(c, requestId, hs), Moved(NewStream(), Send(PushPromise)));
    } else {
      QuietKeeps(c, c);
    }
  }

  lemma DrainedKeeps(c: Conn)
    requires Inv(c)
    ensures Inv(Drained(c)) && Drained(c).streams == c.streams && Announced(c, Drained(c))
    ensures Shutdowns(Drained(c)) == Shutdowns(c) + (if !c.sentGoAway && c.streams == map[] then 1 else 0)
  {
    hide Specials, GoAwaySent, DrainChecked, LastIds;
    if !c.sentGoAway {
      var sent := GoAwaySent(c, NO_ERROR, c.lastStreamId);
      var g := sent.(draining := true);
      assert GoAways(g) == GoAways(sent) && Shutdowns(g) == Shutdowns(sent);
      GoAwayKeeps(c, NO_ERROR, c.lastStreamId);
      forall id | id in g.streams ensures KeyOk(g, id) {
        assert KeyOk(c, id);
      }
      DrainCheckedKeeps(g);
    }
  }

  lemma InitialSettingsKeep(c: Conn)
    requires Inv(c)
    ensures Inv(InitialSettingsSent(c)) && Advances(c, InitialSettingsSent(c))
  {
    hide Inv, Specials, Log, NonDefault, Advances;
    LogIsQuiet(c, SentSettings(NonDefault(c.localSettings, 1)));
    QuietKeeps(c, InitialSettingsSent(c));
  }

  lemma SettingsSentKeeps(c: Conn, settings: seq<(nat, nat)>)
    requires Inv(c)
    ensures Inv(SettingsSent(c, settings)) && Advances(c, SettingsSent(c, settings))
  {
    hide Inv, Specials, Log, PrefaceEnsured, Advances;
    PrefaceIsQuiet(c);
    LogIsQuiet(PrefaceEnsured(c), SentSettings(settings));
    QuietKeeps(c, SettingsSent(c, settings));
  }

  lemma PingSentKeeps(c: Conn, d: bytes)
    requires Inv(c)
    ensures Inv(PingSent(c, d)) && Advances(c, PingSent(c, d))
  {
    hide Inv, Specials, Log, PrefaceEnsured, Advances;
    PrefaceIsQuiet(c);
    LogIsQuiet(PrefaceEnsured(c), SentPing(d, false));
    QuietKeeps(c, PingSent(c, d));
  }

  lemma CreatedKeeps(c: Conn)
    requires Inv(c)
    ensures Sized(c) && var d := if MayCreate(c) then Created(c) else c; Inv(d) && Advances(c, d)
  {
    hide Inv, Specials, Advances;
    ReadyByInv(c);
    if MayCreate(c) {
      LocalStreamKeeps(c, Created(c), NewStream());
    } else {
      QuietKeeps(c, c);
    }
  }

  // ---------------------------------------------------------------- received frames

  /** No frame puts a stream back to idle, and HEADERS take it out of idle. */
  lemma SeenStarts(s: Stream, ftype: nat, flags: nat)
    ensures FrameSeen(s, ftype, flags).state == Idle ==> s.state == Idle
  {
  }

  lemma FramesStart(s: Stream, headers: seq<Headers.Header>, e: nat)
    ensures HeadersReceived(s, headers).state != Idle || s.state != Idle
    ensures HeadersReceived(s, headers).state == Idle ==> s.state == Idle
    ensures RstReceived(s, e).state == Idle ==> s.state == Idle
    ensures Moved(s, Recv(PushPromise)).state == Idle ==> s.state == Idle
  {
  }

  lemma DataReceivedKeeps(c: Conn, h: FrameHeader, data: bytes, padLen: nat)
    requires Inv(c)
    ensures HandlerKeeps(c, DataReceived(c, h, data, padLen), h.streamId)
  {
    hide Inv, InvBut, Specials, GoAwaySent, WindowUpdateSent, Log, FrameSeen, HandlerKeeps;
    var id := h.streamId;
    RefusalKeeps(c, PROTOCOL_ERROR, id);
    QuietHandler(c, c, id);
    if Find(c, id).Some? {
      FoundKey(c, id);
      SeenStarts(c.streams[id], h.ftype, h.flags);
      var seen := FrameSeen(c.streams[id], h.ftype, h.flags);
      var s := seen.(data := seen.data + data);
      var d := Log(Store(c, id, s), OnStreamData(id, data));
      LogIsQuiet(Store(c, id, s), OnStreamData(id, data));
      WindowUpdateIsQuiet(d, id, |data|, |data|);
      var w := WindowUpdateSent(d, id, |data|, |data|);
      LogIsQuiet(w, OnStreamClosed(id, 0));
      StoredKeeps(c, Store(c, id, seen), id, seen);
      StoredKeeps(c, w, id, s);
      StoredKeeps(c, Log(w, OnStreamClosed(id, 0)), id, s);
    }
  }

  lemma TableIsQuiet(c: Conn, table: DynamicTable.Table)
    ensures Quiet(c, c.(table := table))
  {
  }

  /** A header block adds to a stream of the map, or puts one there. */
  lemma BlockStoredKeeps(c: Conn, t: Conn, h: FrameHeader, id: nat, s: Stream)
    requires Inv(c) && Quiet(c, t) && KeyOk(c, id) && (id in c.streams || Registrable(c, id))
    requires s.state == Idle ==> IsLocal(c.clientSide, id)
    ensures HandlerKeeps(c, BlockSeen(Store(t, id, s), h, id), id) && HandlerKeeps(c, Store(t, id, s), id)
    ensures s.state != Closed ==> Inv(BlockSeen(Store(t, id, s), h, id))
  {
    hide Inv, Specials, BlockSeen, HandlerKeeps, KeyOk;
    BlockSeenIsQuiet(Store(t, id, s), h, id);
    StoredKeeps(c, Store(t, id, s), id, s);
    StoredKeeps(c, BlockSeen(Store(t, id, s), h, id), id, s);
  }

  /** An error found after the block changed the table. */
  lemma LateRefusalKeeps(c: Conn, t: Conn, e: nat, x: nat)
    requires Inv(c) && Quiet(c, t)
    ensures HandlerKeeps(c, GoAwaySent(t, e, 0), x) && HandlerKeeps(c, t, x)
  {
    hide Inv, InvBut, GoAwaySent;
    QuietHandler(c, t, x);
    RefusalKeeps(t, e, x);
  }

  lemma HeadersReceivedKeeps(c: Conn, h: FrameHeader, fragment: bytes, padLen: nat, huffman: Huffman)
    requires Inv(c) && (h.streamId > 0 && !IsLocal(c.clientSide, h.streamId) ==> h.streamId <= c.lastStreamId)
    ensures HandlerKeeps(c, HeadersFrameReceived(c, h, fragment, padLen, huffman), h.streamId)
  {
    hide DecodeSpec, Inv, Specials, GoAwaySent, HandlerKeeps, BlockSeen, Store, FrameSeen, HeadersReceived, Quiet;
    var id := h.streamId;
    var d := DecodeSpec(fragment, c.table, huffman);
    var t := c.(table := d.table);
    RefusalKeeps(c, PROTOCOL_ERROR, id);
    TableIsQuiet(c, d.table);
    LateRefusalKeeps(c, t, PROTOCOL_ERROR, id);
    LateRefusalKeeps(c, t, ErrorCode(d.error), id);
    if Find(c, id).Some? || (id != 0 && !IsLocal(c.clientSide, id) && Registrable(c, id)) {
      if Find(c, id).Some? { FoundKey(c, id); }
      var s := if Find(c, id).Some? then c.streams[id] else NewStream();
      FramesStart(s, d.headers, 0);
      SeenStarts(HeadersReceived(s, d.headers), h.ftype, h.flags);
      BlockStoredKeeps(c, t, h, id, FrameSeen(HeadersReceived(s, d.headers), h.ftype, h.flags));
    }
  }

  /** The frames that only mark their stream. */
  lemma MarkedKeeps(c: Conn, h: FrameHeader, s: Stream)
    requires Inv(c) && Find(c, h.streamId).Some? && (s.state == Idle ==> c.streams[h.streamId].state == Idle)
    ensures HandlerKeeps(c, Store(c, h.streamId, s), h.streamId)
  {
    hide Inv, Specials, HandlerKeeps;
    FoundKey(c, h.streamId);
    StoredKeeps(c, Store(c, h.streamId, s), h.streamId, s);
  }

  lemma PriorityReceivedKeeps(c: Conn, h: FrameHeader, priority: Priority)
    requires Inv(c)
    ensures HandlerKeeps(c, PriorityReceived(c, h, priority), h.streamId)
  {
    hide Inv, HandlerKeeps, GoAwaySent, Specials, FrameSeen;
    RefusalKeeps(c, PROTOCOL_ERROR, h.streamId);
    QuietHandler(c, c, h.streamId);
    if Find(c, h.streamId).Some? {
      SeenStarts(c.streams[h.streamId].(priority := priority), h.ftype, h.flags);
      MarkedKeeps(c, h, FrameSeen(c.streams[h.streamId].(priority := priority), h.ftype, h.flags));
    }
  }

  lemma WindowUpdateReceivedKeeps(c: Conn, h: FrameHeader, increment: nat)
    requires Inv(c)
    ensures HandlerKeeps(c, WindowUpdateReceived(c, h, increment), h.streamId)
  {
    hide Inv, HandlerKeeps, GoAwaySent, Specials, FrameSeen;
    RefusalKeeps(c, PROTOCOL_ERROR, h.streamId);
    QuietHandler(c, c.(sendWindow := c.sendWindow + increment), h.streamId);
    if Find(c, h.streamId).Some? {
      SeenStarts(c.streams[h.streamId], h.ftype, h.flags);
      MarkedKeeps(c, h, FrameSeen(c.streams[h.streamId], h.ftype, h.flags));
    }
  }

  lemma RstStreamReceivedKeeps(c: Conn, h: FrameHeader, e: nat)
    requires Inv(c)
    ensures HandlerKeeps(c, RstStreamReceived(c, h, e), h.streamId)
  {
    hide Inv, HandlerKeeps, GoAwaySent, Specials, FrameSeen, Log;
    var id := h.streamId;
    RefusalKeeps(c, PROTOCOL_ERROR, id);
    if Find(c, id).Some? {
      FoundKey(c, id);
      FramesStart(c.streams[id], [], e);
      SeenStarts(RstReceived(c.streams[id], e), h.ftype, h.flags);
      var s := FrameSeen(RstReceived(c.streams[id], e), h.ftype, h.flags);
      LogIsQuiet(Store(c, id, s), OnStreamClosed(id, e));
      StoredKeeps(c, RstStreamReceived(c, h, e), id, s);
    }
  }

  lemma RemoteSettingsKeep(c: Conn, d: Conn)
    requires Inv(c) && RangesOk(d) && Sound(d)
    requires Quiet(c.(remoteSettings := d.remoteSettings, compressor := d.compressor), d)
    ensures HandlerKeeps(c, d, 0) && Inv(d) && GoAways(d) == GoAways(c)
  {
    hide Specials, RangesOk;
    forall id | id in d.streams ensures KeyOk(d, id) {
      assert KeyOk(c, id);
    }
  }

  /** What one setting changes. */
  lemma SettingFields(c: Conn, id: nat, value: nat)
    requires Sized(c) && id < Settings.COUNT
    ensures var d, v := SettingApplied(c, id, value), Settings.Clamp(id, value);
            && d == c.(remoteSettings := d.remoteSettings, compressor := d.compressor)
            && d.remoteSettings == c.remoteSettings[id := v]
            && d.compressor ==
               if id == Settings.HEADER_TABLE_SIZE then Coder.WithMaxSize(c.compressor, v) else c.compressor
  {
    hide Settings.Parameters, Settings.Clamp, Coder.WithMaxSize;
  }

  lemma SettingKeepsSound(c: Conn, id: nat, value: nat)
    requires Sound(c) && id < Settings.COUNT
    ensures Sound(SettingApplied(c, id, value))
  {
    hide Settings.Clamp, Coder.WellFormed, Coder.WithMaxSize, SettingApplied;
    SettingFields(c, id, value);
    Coder.WithMaxSizeWellFormed(c.compressor, Settings.Clamp(id, value));
  }

  lemma SettingAppliedKeeps(c: Conn, id: nat, value: nat)
    requires Inv(c) && id < Settings.COUNT
    ensures Sized(c) && HandlerKeeps(c, SettingApplied(c, id, value), 0) && Inv(SettingApplied(c, id, value))
    ensures GoAways(SettingApplied(c, id, value)) == GoAways(c)
  {
    hide Specials, Settings.Clamp, Settings.InRange, Inv, HandlerKeeps, SettingApplied, Sound;
    RangesByInv(c);
    SettingFields(c, id, value);
    SettingKeepsSound(c, id, value);
    RemoteSettingsKeep(c, SettingApplied(c, id, value));
  }

  lemma RangesByInv(c: Conn)
    requires Inv(c)
    ensures RangesOk(c) && Sound(c)
  {
  }

  lemma ReadyByInv(c: Conn)
    requires Inv(c)
    ensures Ready(c)
  {
  }

  lemma {:induction false} ApplySettingsKeeps(c: Conn, settings: seq<(nat, nat)>, seen: seq<(nat, nat)>)
    requires Inv(c)
    ensures Sized(c) && HandlerKeeps(c, ApplySettings(c, settings, seen).conn, 0)
    ensures Inv(ApplySettings(c, settings, seen).conn)
    decreases |settings|
  {
    hide Inv, InvBut, GoAwaySent, SettingApplied, Specials, Settings.Parameters, HandlerKeeps;
    ReadyByInv(c);
    if settings == [] {
      QuietHandler(c, c, 0);
    } else {
      var (id, value) := settings[0];
      if Refused(id, value) {
        RefusalKeeps(c, Settings.Parameters(id).error, 0);
      } else if id >= Settings.COUNT {
        ApplySettingsKeeps(c, settings[1..], seen + [(id, value)]);
      } else {
        SettingAppliedKeeps(c, id, value);
        var applied := SettingApplied(c, id, value);
        ApplySettingsKeeps(applied, settings[1..], seen + [(id, Settings.Clamp(id, value))]);
        HandlersCompose(c, applied, ApplySettings(c, settings, seen).conn);
      }
    }
  }

  lemma SettingsReceivedKeeps(c: Conn, h: FrameHeader, settings: seq<(nat, nat)>)
    requires Inv(c)
    ensures Sized(c) && HandlerKeeps(c, SettingsReceived(c, h, settings), 0)
  {
    hide ApplySettings, AckedSettings, Inv, InvBut, GoAwaySent, Log, HasFlag, HandlerKeeps, Quiet, LastIds, Specials;
    ReadyByInv(c);
    RefusalKeeps(c, PROTOCOL_ERROR, 0);
    RefusalKeeps(c, FRAME_SIZE_ERROR, 0);
    AckKeeps(c);
    ApplySettingsKeeps(c, settings, []);
    var a := ApplySettings(c, settings, []);
    TwoLogsKeep(a.conn, OnSettings(a.seen, false), SentSettingsAck);
    HandlersCompose(c, a.conn, Log(Log(a.conn, OnSettings(a.seen, false)), SentSettingsAck));
  }

  lemma HandlersCompose(c: Conn, d: Conn, e: Conn)
    requires HandlerKeeps(c, d, 0) && HandlerKeeps(d, e, 0)
    requires GoAways(d) == GoAways(c) || (GoAways(e) == GoAways(d) && e.streams == d.streams)
    ensures HandlerKeeps(c, e, 0)
  {
    hide InvBut, Specials, LastIds, Shutdowns;
  }

  lemma AckKeeps(c: Conn)
    requires Inv(c)
    ensures var acked := c.(localSettings := AckedSettings(c.localSettings, c.requestSettings),
                            settingsPending := false, requestSettings := []);
            HandlerKeeps(c, Log(acked, OnSettings([], true)), 0)
  {
    hide AckedSettings, Inv, InvBut, Specials, Log, HandlerKeeps;
    var acked := c.(localSettings := AckedSettings(c.localSettings, c.requestSettings),
                    settingsPending := false, requestSettings := []);
    LogIsQuiet(acked, OnSettings([], true));
    QuietHandler(c, Log(acked, OnSettings([], true)), 0);
  }

  lemma PushPromiseReceivedKeeps(c: Conn, h: FrameHeader, promised: nat, fragment: bytes, padLen: nat, huffman: Huffman)
    requires Inv(c)
    ensures Sized(c) && HandlerKeeps(c, PushPromiseReceived(c, h, promised, fragment, padLen, huffman), h.streamId)
  {
    hide DecodeSpec, Inv, InvBut, GoAwaySent, Specials, BlockSeen, FrameSeen, Store, Quiet, HandlerKeeps;
    ReadyByInv(c);
    var id := h.streamId;
    var d := DecodeSpec(fragment, c.table, huffman);
    var t := c.(table := d.table);
    RefusalKeeps(c, PROTOCOL_ERROR, id);
    TableIsQuiet(c, d.table);
    LateRefusalKeeps(c, t, ErrorCode(d.error), id);
    BlockSeenKeeps(c, t, h, promised, id);
    if Find(c, promised).Some? && c.streams[promised].state == Idle {
      PromiseStoredKeeps(c, t, h, promised, d.headers);
    }
  }

  lemma BlockSeenKeeps(c: Conn, t: Conn, h: FrameHeader, id: nat, x: nat)
    requires Inv(c) && Quiet(c, t)
    ensures HandlerKeeps(c, BlockSeen(t, h, id), x)
  {
    hide Inv, Specials, BlockSeen, HandlerKeeps;
    BlockSeenIsQuiet(t, h, id);
    QuietHandler(c, BlockSeen(t, h, id), x);
  }

  lemma PromiseStoredKeeps(c: Conn, t: Conn, h: FrameHeader, promised: nat, headers: seq<Headers.Header>)
    requires Inv(c) && Quiet(c, t) && Find(c, promised).Some? && c.streams[promised].state == Idle
    ensures var s := FrameSeen(Moved(c.streams[promised], Recv(PushPromise)), h.ftype, h.flags);
            HandlerKeeps(c, BlockSeen(Store(t, promised, s.(headers := s.headers + headers)), h, promised), h.streamId)
  {
    hide Inv, InvBut, Specials, BlockSeen, Store, KeyOk, HasFlag;
    FoundKey(c, promised);
    var s := FrameSeen(Moved(c.streams[promised], Recv(PushPromise)), h.ftype, h.flags);
    var changed := s.(headers := s.headers + headers);
    FramesStart(c.streams[promised], [], 0);
    SeenStarts(Moved(c.streams[promised], Recv(PushPromise)), h.ftype, h.flags);
    BlockStoredKeeps(c, t, h, promised, changed);
    InvIsInvBut(BlockSeen(Store(t, promised, changed), h, promised), h.streamId);
  }

  lemma GoAwayReceivedKeeps(c: Conn, h: FrameHeader, last: nat, e: nat, debug: bytes)
    requires Inv(c)
    ensures HandlerKeeps(c, GoAwayReceived(c, h, last, e, debug), 0)
  {
    hide Specials, GoAwaySent, LastIds, Settings.Parameters;
    if h.streamId != 0 {
      RefusalKeeps(c, PROTOCOL_ERROR, 0);
    } else {
      var d := GoAwayReceived(c, h, last, e, debug);
      GoAwaysAppend(c, OnGoAway(last, e, debug));
      assert d.log == Log(c, OnGoAway(last, e, debug)).log;
      assert d.streams.Keys == c.streams.Keys;
      forall id | id in d.streams ensures KeyOk(d, id) && d.streams[id].state != Closed {
        assert KeyOk(c, id);
      }
    }
  }

  lemma ContinuationReceivedKeeps(c: Conn, h: FrameHeader, fragment: bytes, huffman: Huffman)
    requires Inv(c)
    ensures HandlerKeeps(c, ContinuationReceived(c, h, fragment, huffman), h.streamId)
  {
    hide DecodeSpec, Inv, GoAwaySent, BlockSeen, FrameSeen, HandlerKeeps, HasFlag, KeyOk, Quiet, Store;
    var id := h.streamId;
    var d := DecodeSpec(fragment, c.table, huffman);
    var t := c.(table := d.table);
    RefusalKeeps(c, PROTOCOL_ERROR, id);
    TableIsQuiet(c, d.table);
    LateRefusalKeeps(c, t, ErrorCode(d.error), id);
    if Find(c, id).Some? {
      FoundKey(c, id);
      var before := c.streams[id];
      SeenStarts(before.(headers := before.headers + d.headers), h.ftype, h.flags);
      BlockStoredKeeps(c, t, h, id, FrameSeen(before.(headers := before.headers + d.headers), h.ftype, h.flags));
    }
  }

  lemma PingReceivedKeeps(c: Conn, h: FrameHeader, d: bytes)
    requires Inv(c)
    ensures HandlerKeeps(c, PingReceived(c, h, d), 0)
  {
    hide Inv, InvBut, GoAwaySent, Specials, HandlerKeeps, HasFlag, Log;
    RefusalKeeps(c, PROTOCOL_ERROR, 0);
    LogIsQuiet(c.(pingPending := false), OnPing(d, true));
    QuietHandler(c, Log(c.(pingPending := false), OnPing(d, true)), 0);
    TwoLogsKeep(c, OnPing(d, false), SentPing(d, true));
  }

  lemma TwoLogsKeep(c: Conn, o: Output, p: Output)
    requires Inv(c) && !Special(o) && !Special(p)
    ensures var d := Log(Log(c, o), p); HandlerKeeps(c, d, 0) && GoAways(d) == GoAways(c) && d.streams == c.streams
  {
    hide Inv, InvBut, Specials, HandlerKeeps, Log;
    LogIsQuiet(c, o);
    LogIsQuiet(Log(c, o), p);
    QuietHandler(c, Log(Log(c, o), p), 0);
  }
}
