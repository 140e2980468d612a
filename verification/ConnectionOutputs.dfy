/**
 * Which kinds of output each call and each frame may add to the log, and which flags and counters of the
 * connection it moves. Laws about one kind of output follow from the few operations that add it.
 */
module ConnectionOutputs {
  import opened Bytes
  import Coder = CompressorModel
  import opened ConnectionInvariant
  import opened ConnectionModel
  import opened ConnectionRuns
  import opened DynamicTable
  import opened Frames
  import opened HeaderDecoder
  import opened Headers
  import Settings
  import opened StreamModel
  import StreamStates
  import opened StringLiterals

  datatype Kind =
    | OfPreface
    | OfSettings
    | OfAck
    | OfPing
    | OfData
    | OfWindow
    | OfChunk
    | OfReport
    | OfPong
    | OfOthers

  function KindOf(o: Output): Kind
  {
    match o
    case SentPreface => OfPreface
    case SentSettings(_) => OfSettings
    case SentSettingsAck => OfAck
    case SentPing(_, _) => OfPing
    case SentData(_, _, _) => OfData
    case SentWindowUpdate(_, _) => OfWindow
    case OnStreamData(_, _) => OfChunk
    case OnSettings(_, _) => OfReport
    case OnPing(_, _) => OfPong
    case _ => OfOthers
  }

  /** What may go out before anything else, and around every refusal. */
  const OPENING := {OfPreface, OfSettings}
  const REFUSAL := {OfPreface, OfSettings, OfOthers}

  /** Only outputs of these kinds were added. */
  predicate Adds(c: Conn, d: Conn, kinds: set<Kind>)
  {
    c.log <= d.log && forall i :: |c.log| <= i < |d.log| ==> KindOf(d.log[i]) in kinds
  }

  /** The outputs of one kind, in order. */
  function Only(log: seq<Output>, kind: Kind): seq<Output>
  {
    if log == [] then []
    else
      var n := |log| - 1;
      Only(log[..n], kind) + (if KindOf(log[n]) == kind then [log[n]] else [])
  }

  lemma OnlyAppend(log: seq<Output>, o: Output, kind: Kind)
    ensures Only(log + [o], kind) == Only(log, kind) + (if KindOf(o) == kind then [o] else [])
  {
    assert (log + [o])[..|log|] == log;
  }

  lemma {:induction false} OnlyKept(log: seq<Output>, more: seq<Output>, kind: Kind)
    requires log <= more && forall i :: |log| <= i < |more| ==> KindOf(more[i]) != kind
    ensures Only(more, kind) == Only(log, kind)
    decreases |more|
  {
    if log != more {
      var n := |more| - 1;
      OnlyKept(log, more[..n], kind);
    }
  }

  lemma AddsKeeps(c: Conn, d: Conn, kinds: set<Kind>, kind: Kind)
    requires Adds(c, d, kinds) && kind !in kinds
    ensures Only(d.log, kind) == Only(c.log, kind)
  {
    hide KindOf;
    OnlyKept(c.log, d.log, kind);
  }

  lemma AddsTwice(c: Conn, d: Conn, e: Conn, first: set<Kind>, second: set<Kind>)
    requires Adds(c, d, first) && Adds(d, e, second)
    ensures Adds(c, e, first + second)
  {
    hide KindOf;
  }

  lemma AddsNothing(c: Conn, d: Conn, kinds: set<Kind>)
    requires d.log == c.log
    ensures Adds(c, d, kinds)
  {
  }

  // ---------------------------------------------------------------- flags and counters

  datatype Flags = Flags(clientSide: bool, prefaceSent: bool, initialSettingsSent: bool, pingPending: bool,
                         settingsPending: bool, requestSettings: seq<(nat, nat)>, localSettings: seq<nat>,
                         receivedGoAway: bool, sendWindow: int)

  function FlagsOf(c: Conn): Flags
  {
    Flags(c.clientSide, c.prefaceSent, c.initialSettingsSent, c.pingPending, c.settingsPending, c.requestSettings,
          c.localSettings, c.receivedGoAway, c.sendWindow)
  }

  /** What the first thing a client sends does to them. */
  function Opened(f: Flags): Flags
  {
    if !f.clientSide || f.prefaceSent then f else f.(settingsPending := true, prefaceSent := true)
  }

  /** As they were, but perhaps that the preface has gone out. */
  predicate Steady(c: Conn, d: Conn)
  {
    FlagsOf(d) == FlagsOf(c) || FlagsOf(d) == Opened(FlagsOf(c))
  }

  lemma SteadyTwice(c: Conn, d: Conn, e: Conn)
    requires Steady(c, d) && Steady(d, e)
    ensures Steady(c, e)
  {
    hide FlagsOf;
  }

  // ---------------------------------------------------------------- what a client says first

  /** An output that goes to the peer and is not an answer to SETTINGS or PING. */
  predicate Speaks(o: Output)
  {
    match o
    case SentPreface => true
    case SentSettings(_) => true
    case SentPing(_, ack) => !ack
    case SentRstStream(_, _) => true
    case SentGoAway(_, _, _) => true
    case SentHeaders(_, _, _) => true
    case SentPushPromise(_, _, _) => true
    case SentData(_, _, _) => true
    case SentWindowUpdate(_, _) => true
    case _ => false
  }

  function Voice(log: seq<Output>): seq<Output>
  {
    if log == [] then []
    else
      var n := |log| - 1;
      Voice(log[..n]) + (if Speaks(log[n]) then [log[n]] else [])
  }

  lemma VoiceAppend(log: seq<Output>, o: Output)
    ensures Voice(log + [o]) == Voice(log) + (if Speaks(o) then [o] else [])
  {
    assert (log + [o])[..|log|] == log;
  }

  /**
   * A client that has sent its preface goes on; one that has not says nothing, or the preface first, with the
   * settings behind it.
   */
  ghost predicate VoiceStep(c: Conn, d: Conn)
  {
    && d.clientSide == c.clientSide && Voice(c.log) <= Voice(d.log)
    && if c.prefaceSent then d.prefaceSent && Only(d.log, OfPreface) == Only(c.log, OfPreface)
       else if !d.prefaceSent then Voice(d.log) == Voice(c.log) && Only(d.log, OfPreface) == Only(c.log, OfPreface)
       else
         && Only(d.log, OfPreface) == Only(c.log, OfPreface) + [SentPreface]
         && |Voice(d.log)| >= |Voice(c.log)| + 2
         && Voice(d.log)[|Voice(c.log)|] == SentPreface && Voice(d.log)[|Voice(c.log)| + 1].SentSettings?
  }

  ghost predicate ClientStep(c: Conn, d: Conn)
  {
    c.clientSide ==> VoiceStep(c, d)
  }

  lemma VoiceTwice(c: Conn, d: Conn, e: Conn)
    requires ClientStep(c, d) && ClientStep(d, e)
    ensures ClientStep(c, e)
  {
    hide Voice, Only;
  }

  lemma VoiceByFields(c: Conn, d: Conn)
    requires d.log == c.log && d.prefaceSent == c.prefaceSent && d.clientSide == c.clientSide
    ensures ClientStep(c, d)
  {
  }

  lemma VoiceLogged(c: Conn, o: Output)
    requires (Speaks(o) ==> c.prefaceSent || !c.clientSide) && o != SentPreface
    ensures ClientStep(c, Log(c, o))
  {
    hide Voice, Only;
    VoiceAppend(c.log, o);
    OnlyAppend(c.log, o, OfPreface);
  }

  lemma VoiceOpens(c: Conn)
    ensures var p := PrefaceEnsured(c);
            ClientStep(c, p) && p.clientSide == c.clientSide && (p.prefaceSent || !p.clientSide)
  {
    hide Voice, Only, NonDefault;
    var settings := SentSettings(NonDefault(c.localSettings, 1));
    VoiceAppend(c.log, SentPreface);
    VoiceAppend(c.log + [SentPreface], settings);
    OnlyAppend(c.log, SentPreface, OfPreface);
    OnlyAppend(c.log + [SentPreface], settings, OfPreface);
  }

  // ---------------------------------------------------------------- building blocks

  lemma Logs(c: Conn, o: Output)
    ensures Adds(c, Log(c, o), {KindOf(o)}) && FlagsOf(Log(c, o)) == FlagsOf(c) && Log(c, o).streams == c.streams
    ensures Log(c, o).log == c.log + [o]
    ensures Log(c, o).prefaceSent == c.prefaceSent && Log(c, o).clientSide == c.clientSide
  {
  }

  lemma Opens(c: Conn)
    ensures var p := PrefaceEnsured(c);
            Adds(c, p, OPENING) && FlagsOf(p) == Opened(FlagsOf(c)) && p.streams == c.streams
  {
    hide NonDefault;
  }

  /** What only sends the preface if need be and adds others. */
  ghost predicate Calm(c: Conn, d: Conn)
  {
    Adds(c, d, REFUSAL) && Steady(c, d) && ClientStep(c, d)
  }

  lemma CalmTwice(c: Conn, d: Conn, e: Conn)
    requires Calm(c, d) && Calm(d, e)
    ensures Calm(c, e)
  {
    hide KindOf, FlagsOf, ClientStep;
    SteadyTwice(c, d, e);
    VoiceTwice(c, d, e);
  }

  lemma CalmByFields(c: Conn, d: Conn)
    requires d.log == c.log && FlagsOf(d) == FlagsOf(c)
    ensures Calm(c, d)
  {
    hide ClientStep;
    VoiceByFields(c, d);
  }

  lemma LogIsCalm(c: Conn, o: Output)
    requires KindOf(o) == OfOthers && (Speaks(o) ==> c.prefaceSent || !c.clientSide)
    ensures Calm(c, Log(c, o))
  {
    hide ClientStep;
    VoiceLogged(c, o);
  }

  lemma GoAwayIsCalm(c: Conn, e: nat, last: nat, debug: bytes := [])
    ensures Calm(c, GoAwaySent(c, e, last, debug)) && FlagsOf(GoAwaySent(c, e, last, debug)) == Opened(FlagsOf(c))
  {
    hide PrefaceEnsured, Log, FlagsOf, Calm;
    var p := PrefaceEnsured(c);
    var o := SentGoAway(if last == 0 then p.lastStreamId else last, e, debug);
    Opens(c);
    OpensIsCalm(c);
    VoiceOpens(c);
    Logs(p, o);
    LogIsCalm(p, o);
    CalmTwice(c, p, Log(p, o));
    Announcing(Log(p, o), if last == 0 then p.lastStreamId else last);
    CalmTwice(c, Log(p, o), GoAwaySent(c, e, last, debug));
  }

  lemma Announcing(c: Conn, last: nat)
    ensures var d := c.(sentGoAwayStreamId := last, sentGoAway := true); Calm(c, d) && FlagsOf(d) == FlagsOf(c)
  {
    hide ClientStep;
    VoiceByFields(c, c.(sentGoAwayStreamId := last, sentGoAway := true));
  }

  lemma OpensIsCalm(c: Conn)
    ensures Calm(c, PrefaceEnsured(c))
  {
    hide PrefaceEnsured, KindOf, FlagsOf, ClientStep;
    Opens(c);
    VoiceOpens(c);
  }

  lemma StoreIsCalm(c: Conn, id: nat, s: Stream)
    ensures Calm(c, Store(c, id, s)) && FlagsOf(Store(c, id, s)) == FlagsOf(c)
  {
  }

  lemma DrainCheckedIsCalm(c: Conn)
    ensures Calm(c, DrainChecked(c)) && FlagsOf(DrainChecked(c)) == FlagsOf(c)
  {
  }

  lemma RemovalIsCalm(c: Conn, id: nat)
    ensures var d := DrainChecked(c.(streams := c.streams - {id})); Calm(c, d) && FlagsOf(d) == FlagsOf(c)
  {
    hide DrainChecked, KindOf;
    DrainCheckedIsCalm(c.(streams := c.streams - {id}));
  }

  lemma SettleIsCalm(c: Conn, id: nat, s: Stream)
    ensures Calm(c, Settle(c, id, s)) && FlagsOf(Settle(c, id, s)) == FlagsOf(c)
  {
    hide DrainChecked, Store, Calm, FlagsOf;
    RemovalIsCalm(c, id);
    StoreIsCalm(c, id, s);
  }

  lemma AfterSendIsCalm(c: Conn, id: nat, handle: Holding, change: Stream -> Stream)
    requires id in c.streams
    ensures Calm(c, AfterSend(c, id, handle, change)) && FlagsOf(AfterSend(c, id, handle, change)) == FlagsOf(c)
  {
    hide DrainChecked, Settle, Calm, FlagsOf;
    RemovalIsCalm(c, id);
    SettleIsCalm(c, id, change(c.streams[id]));
    CalmByFields(c, c);
  }

  lemma WaitIsCalm(c: Conn, awaiting: bool, id: nat)
    ensures var d := c.(nextFrameLimit := awaiting, nextStreamIdLimit := id); Calm(c, d) && FlagsOf(d) == FlagsOf(c)
  {
  }

  lemma BlockSeenIsCalm(c: Conn, h: FrameHeader, id: nat)
    ensures Calm(c, BlockSeen(c, h, id)) && FlagsOf(BlockSeen(c, h, id)) == FlagsOf(c)
  {
    hide HasFlag, Calm, FlagsOf, Log;
    var done := c.(nextFrameLimit := false, nextStreamIdLimit := 0);
    WaitIsCalm(c, false, 0);
    WaitIsCalm(c, true, h.streamId);
    Logs(done, OnStreamHeaders(id));
    LogIsCalm(done, OnStreamHeaders(id));
    CalmTwice(c, done, Log(done, OnStreamHeaders(id)));
  }

  // ---------------------------------------------------------------- calls

  lemma ResetIsCalm(c: Conn, id: nat, e: nat)
    ensures Calm(c, RstStreamSent(c, id, e)) && FlagsOf(RstStreamSent(c, id, e)) == Opened(FlagsOf(c))
  {
    hide PrefaceEnsured, Log, Settle, Calm, FlagsOf;
    var p := PrefaceEnsured(c);
    Opens(c);
    OpensIsCalm(c);
    VoiceOpens(c);
    if id in p.streams {
      var (sent, s) := (Log(p, SentRstStream(id, e)), Moved(p.streams[id], StreamStates.Send(StreamStates.RstStream)));
      Logs(p, SentRstStream(id, e));
      LogIsCalm(p, SentRstStream(id, e));
      SettleIsCalm(sent, id, s);
      CalmTwice(c, p, sent);
      CalmTwice(c, sent, Settle(sent, id, s));
    }
  }

  lemma HeadersSentIsCalm(c: Conn, id: nat, handle: Holding, hs: seq<Header>, endStream: bool)
    requires Coder.WellFormed(c.compressor)
    ensures var d := HeadersSent(c, id, handle, hs, endStream); Calm(c, d) && FlagsOf(d) == Opened(FlagsOf(c))
  {
    hide PrefaceEnsured, Log, AfterSend, SendHeadersChange, Calm, FlagsOf, Coder.EncodeBlock, Coder.WellFormed;
    var p := PrefaceEnsured(c);
    Opens(c);
    OpensIsCalm(c);
    VoiceOpens(c);
    if id in p.streams {
      var e := Coder.EncodeBlock(c.compressor, hs, c.hash);
      var o := SentHeaders(id, e.octets, endStream);
      var coded := p.(compressor := e.state);
      CodedIsCalm(p, e.state);
      Logs(coded, o);
      LogIsCalm(coded, o);
      CalmTwice(c, p, coded);
      CalmTwice(c, coded, Log(coded, o));
      AfterSendIsCalm(Log(coded, o), id, handle, SendHeadersChange(endStream));
      CalmTwice(c, Log(coded, o), AfterSend(Log(coded, o), id, handle, SendHeadersChange(endStream)));
    }
  }

  lemma CodedIsCalm(c: Conn, s: Coder.State)
    ensures var d := c.(compressor := s); Calm(c, d) && FlagsOf(d) == FlagsOf(c) && d.streams == c.streams
  {
    hide ClientStep;
    VoiceByFields(c, c.(compressor := s));
  }

  lemma PromiseSentIsCalm(c: Conn, requestId: nat, hs: seq<Header>)
    requires Ready(c)
    ensures var d := PushPromiseSent(c, requestId, hs); Calm(c, d) && FlagsOf(d) == FlagsOf(c)
  {
    hide Coder.EncodeBlock, Coder.WellFormed, MayCreate, NewStream, Moved;
  }

  lemma DrainedIsCalm(c: Conn)
    ensures Calm(c, Drained(c)) && Steady(c, Drained(c))
  {
    hide GoAwaySent, DrainChecked, Calm, FlagsOf;
    if c.sentGoAway {
      CalmByFields(c, c);
    } else {
      var sent := GoAwaySent(c, NO_ERROR, c.lastStreamId);
      var g := sent.(draining := true);
      GoAwayIsCalm(c, NO_ERROR, c.lastStreamId);
      DrainingIsCalm(sent);
      DrainCheckedIsCalm(g);
      CalmTwice(c, sent, g);
      CalmTwice(c, g, DrainChecked(g));
    }
    CalmIsSteady(c, Drained(c));
  }

  lemma DrainingIsCalm(c: Conn)
    ensures Calm(c, c.(draining := true))
  {
  }

  lemma CalmIsSteady(c: Conn, d: Conn)
    requires Calm(c, d)
    ensures Steady(c, d)
  {
  }

  // ---------------------------------------------------------------- frames

  lemma TableIsCalm(c: Conn, table: Table)
    ensures Calm(c, c.(table := table)) && FlagsOf(c.(table := table)) == FlagsOf(c)
  {
  }

  /** A block stored on a stream, or not, and seen. */
  lemma StoredBlockIsCalm(c: Conn, table: Table, h: FrameHeader, id: nat, s: Stream)
    ensures var t := c.(table := table);
            && Calm(c, t) && Calm(c, Store(t, id, s)) && Calm(c, BlockSeen(t, h, id))
            && Calm(c, BlockSeen(Store(t, id, s), h, id))
  {
    hide Calm, FlagsOf, Store, BlockSeen;
    var t := c.(table := table);
    TableIsCalm(c, table);
    StoreIsCalm(t, id, s);
    BlockSeenIsCalm(t, h, id);
    BlockSeenIsCalm(Store(t, id, s), h, id);
    CalmTwice(c, t, Store(t, id, s));
    CalmTwice(c, t, BlockSeen(t, h, id));
    CalmTwice(c, Store(t, id, s), BlockSeen(Store(t, id, s), h, id));
  }

  lemma LateRefusalIsCalm(c: Conn, table: Table, e: nat)
    ensures Calm(c, GoAwaySent(c.(table := table), e, 0))
  {
    hide Calm, FlagsOf, GoAwaySent;
    TableIsCalm(c, table);
    GoAwayIsCalm(c.(table := table), e, 0);
    CalmTwice(c, c.(table := table), GoAwaySent(c.(table := table), e, 0));
  }

  lemma HeadersAreCalm(c: Conn, h: FrameHeader, fragment: bytes, padLen: nat, huffman: Huffman)
    ensures Calm(c, HeadersFrameReceived(c, h, fragment, padLen, huffman))
  {
    hide GoAwaySent, DecodeSpec, FrameSeen, ErrorCode, BlockSeen, HeadersReceived, IsLocal, NewStream, Store, Calm,
         FlagsOf;
    var d := DecodeSpec(fragment, c.table, huffman);
    GoAwayIsCalm(c, PROTOCOL_ERROR, 0);
    LateRefusalIsCalm(c, d.table, PROTOCOL_ERROR);
    LateRefusalIsCalm(c, d.table, ErrorCode(d.error));
    var s := if Find(c, h.streamId).Some? then c.streams[h.streamId] else NewStream();
    StoredBlockIsCalm(c, d.table, h, h.streamId, FrameSeen(HeadersReceived(s, d.headers), h.ftype, h.flags));
  }

  lemma PromiseIsCalm(c: Conn, h: FrameHeader, promised: nat, fragment: bytes, padLen: nat, huffman: Huffman)
    requires Sized(c)
    ensures Calm(c, PushPromiseReceived(c, h, promised, fragment, padLen, huffman))
  {
    hide GoAwaySent, DecodeSpec, FrameSeen, ErrorCode, BlockSeen, Moved, NewStream, Store, Calm, FlagsOf;
    var d := DecodeSpec(fragment, c.table, huffman);
    GoAwayIsCalm(c, PROTOCOL_ERROR, 0);
    LateRefusalIsCalm(c, d.table, ErrorCode(d.error));
    var found := if Find(c, promised).Some? then c.streams[promised] else NewStream();
    var s := FrameSeen(Moved(found, StreamStates.Recv(StreamStates.PushPromise)), h.ftype, h.flags);
    StoredBlockIsCalm(c, d.table, h, promised, s.(headers := s.headers + d.headers));
  }

  lemma ContinuationIsCalm(c: Conn, h: FrameHeader, fragment: bytes, huffman: Huffman)
    ensures Calm(c, ContinuationReceived(c, h, fragment, huffman))
  {
    hide GoAwaySent, DecodeSpec, FrameSeen, ErrorCode, BlockSeen, NewStream, Store, Calm, FlagsOf, HasFlag;
    var d := DecodeSpec(fragment, c.table, huffman);
    GoAwayIsCalm(c, PROTOCOL_ERROR, 0);
    LateRefusalIsCalm(c, d.table, ErrorCode(d.error));
    var s := if Find(c, h.streamId).Some? then c.streams[h.streamId] else NewStream();
    StoredBlockIsCalm(c, d.table, h, h.streamId, FrameSeen(s.(headers := s.headers + d.headers), h.ftype, h.flags));
  }

  lemma PriorityIsCalm(c: Conn, h: FrameHeader, priority: Priority)
    ensures Calm(c, PriorityReceived(c, h, priority))
  {
    hide GoAwaySent, FrameSeen, Store, Calm, FlagsOf;
    GoAwayIsCalm(c, PROTOCOL_ERROR, 0);
    CalmByFields(c, c);
    if Find(c, h.streamId).Some? {
      StoreIsCalm(c, h.streamId, FrameSeen(c.streams[h.streamId].(priority := priority), h.ftype, h.flags));
    }
  }

  lemma RstFrameIsCalm(c: Conn, h: FrameHeader, e: nat)
    ensures Calm(c, RstStreamReceived(c, h, e))
  {
    hide GoAwaySent, FrameSeen, RstReceived, Store, Calm, FlagsOf, Log;
    GoAwayIsCalm(c, PROTOCOL_ERROR, 0);
    if Find(c, h.streamId).Some? {
      var t := Store(c, h.streamId, FrameSeen(RstReceived(c.streams[h.streamId], e), h.ftype, h.flags));
      StoreIsCalm(c, h.streamId, FrameSeen(RstReceived(c.streams[h.streamId], e), h.ftype, h.flags));
      LogIsCalm(t, OnStreamClosed(h.streamId, e));
      CalmTwice(c, t, Log(t, OnStreamClosed(h.streamId, e)));
    }
  }

  // What the frames that count add, besides what any refusal may.
  const ON_DATA := {OfPreface, OfSettings, OfOthers, OfChunk, OfWindow}
  const ON_SETTINGS := {OfPreface, OfSettings, OfOthers, OfReport, OfAck}
  const ON_PING := {OfPreface, OfSettings, OfOthers, OfPong, OfPing}

  lemma AddsWithin(c: Conn, d: Conn, kinds: set<Kind>, wider: set<Kind>)
    requires Adds(c, d, kinds) && kinds <= wider
    ensures Adds(c, d, wider)
  {
    hide KindOf;
  }

  lemma CalmIsQuiet(c: Conn, d: Conn)
    requires Calm(c, d)
    ensures Adds(c, d, ON_DATA) && Adds(c, d, ON_SETTINGS) && Adds(c, d, ON_PING)
    ensures Steady(c, d) && ClientStep(c, d)
    ensures forall kind :: kind !in REFUSAL ==> Only(d.log, kind) == Only(c.log, kind)
  {
    hide Only, FlagsOf, KindOf;
    forall kind | kind !in REFUSAL ensures Only(d.log, kind) == Only(c.log, kind) {
      AddsKeeps(c, d, REFUSAL, kind);
    }
  }

  /** One more output of a kind of its own. */
  lemma LogsOne(c: Conn, o: Output)
    ensures var (d, kind) := (Log(c, o), KindOf(o));
            && Adds(c, d, {kind}) && FlagsOf(d) == FlagsOf(c) && d.streams == c.streams
            && Only(d.log, kind) == Only(c.log, kind) + [o]
            && (forall other :: other != kind ==> Only(d.log, other) == Only(c.log, other))
            && d.prefaceSent == c.prefaceSent && d.clientSide == c.clientSide
            && (o != SentPreface && (Speaks(o) ==> c.prefaceSent || !c.clientSide) ==> ClientStep(c, d))
  {
    hide Only, KindOf, FlagsOf, ClientStep, Log, Speaks, Adds;
    if o != SentPreface && (Speaks(o) ==> c.prefaceSent || !c.clientSide) {
      VoiceLogged(c, o);
    }
    Logs(c, o);
    OnlyAppend(c.log, o, KindOf(o));
    forall other | other != KindOf(o) ensures Only(Log(c, o).log, other) == Only(c.log, other) {
      OnlyAppend(c.log, o, other);
    }
  }

  // ---------------------------------------------------------------- PING

  lemma PingFlag(c: Conn)
    ensures var d := c.(pingPending := false);
            d.log == c.log && FlagsOf(d) == FlagsOf(c).(pingPending := false)
  {
  }

  /** A PING is reported and answered with its octets; an answer is reported and ends the wait. */
  lemma PingHandled(c: Conn, h: FrameHeader, data: bytes)
    ensures var d := PingReceived(c, h, data);
            && Adds(c, d, ON_PING) && ClientStep(c, d)
            && if h.streamId != 0 then Calm(c, d)
               else if HasFlag(h.flags, ACK) then
                 && FlagsOf(d) == FlagsOf(c).(pingPending := false)
                 && Only(d.log, OfPong) == Only(c.log, OfPong) + [OnPing(data, true)]
                 && Only(d.log, OfPing) == Only(c.log, OfPing)
               else
                 && FlagsOf(d) == FlagsOf(c)
                 && Only(d.log, OfPong) == Only(c.log, OfPong) + [OnPing(data, false)]
                 && Only(d.log, OfPing) == Only(c.log, OfPing) + [SentPing(data, true)]
  {
    hide GoAwaySent, HasFlag, Log, Only, FlagsOf, Adds, Calm, ClientStep;
    if h.streamId != 0 {
      GoAwayIsCalm(c, PROTOCOL_ERROR, 0);
      CalmIsQuiet(c, PingReceived(c, h, data));
    } else if HasFlag(h.flags, ACK) {
      var t := c.(pingPending := false);
      PingFlag(c);
      LogsOne(t, OnPing(data, true));
      AddsNothing(c, t, {});
      VoiceByFields(c, t);
      VoiceTwice(c, t, Log(t, OnPing(data, true)));
      AddsTwice(c, t, Log(t, OnPing(data, true)), {}, {OfPong});
      AddsWithin(c, Log(t, OnPing(data, true)), {} + {OfPong}, ON_PING);
    } else {
      var told := Log(c, OnPing(data, false));
      LogsOne(c, OnPing(data, false));
      LogsOne(told, SentPing(data, true));
      VoiceTwice(c, told, Log(told, SentPing(data, true)));
      AddsTwice(c, told, Log(told, SentPing(data, true)), {OfPong}, {OfPing});
      AddsWithin(c, Log(told, SentPing(data, true)), {OfPong} + {OfPing}, ON_PING);
    }
  }

  // ---------------------------------------------------------------- SETTINGS

  lemma SettingIsCalm(c: Conn, id: nat, value: nat)
    requires Sized(c) && id < Settings.COUNT
    ensures Calm(c, SettingApplied(c, id, value)) && Sized(SettingApplied(c, id, value))
  {
    hide Settings.Clamp, Coder.WithMaxSize, SettingApplied;
    SettingFields(c, id, value);
  }

  lemma {:induction false} ApplyingIsCalm(c: Conn, settings: seq<(nat, nat)>, seen: seq<(nat, nat)>)
    requires Sized(c)
    ensures Calm(c, ApplySettings(c, settings, seen).conn)
    decreases |settings|
  {
    hide GoAwaySent, Settings.Parameters, Settings.Clamp, Settings.InRange, SettingApplied, Calm, FlagsOf;
    CalmByFields(c, c);
    if settings != [] {
      var (id, value) := settings[0];
      if Refused(id, value) {
        GoAwayIsCalm(c, Settings.Parameters(id).error, 0);
      } else if id >= Settings.COUNT {
        ApplyingIsCalm(c, settings[1..], seen + [(id, value)]);
      } else {
        var d := SettingApplied(c, id, value);
        SettingIsCalm(c, id, value);
        ApplyingIsCalm(d, settings[1..], seen + [(id, Settings.Clamp(id, value))]);
        CalmTwice(c, d, ApplySettings(c, settings, seen).conn);
      }
    }
  }

  lemma AckFlags(c: Conn)
    ensures var d := c.(localSettings := AckedSettings(c.localSettings, c.requestSettings),
                        settingsPending := false, requestSettings := []);
            d.log == c.log &&
            FlagsOf(d) == FlagsOf(c).(localSettings := AckedSettings(c.localSettings, c.requestSettings),
                                      settingsPending := false, requestSettings := [])
  {
    hide AckedSettings;
  }

  /** An acknowledgement of SETTINGS: the settings asked for become local. */
  lemma AckHandled(c: Conn, h: FrameHeader, settings: seq<(nat, nat)>)
    requires Sized(c) && h.streamId == 0 && HasFlag(h.flags, ACK) && h.length == 0
    ensures var d := SettingsReceived(c, h, settings);
            && Adds(c, d, ON_SETTINGS) && ClientStep(c, d)
            && FlagsOf(d) == FlagsOf(c).(localSettings := AckedSettings(c.localSettings, c.requestSettings),
                                         settingsPending := false, requestSettings := [])
            && Only(d.log, OfReport) == Only(c.log, OfReport) + [OnSettings([], true)]
            && Only(d.log, OfAck) == Only(c.log, OfAck)
  {
    hide AckedSettings, Log, Only, FlagsOf, Adds, HasFlag, ApplySettings, ClientStep;
    var t := c.(localSettings := AckedSettings(c.localSettings, c.requestSettings),
                settingsPending := false, requestSettings := []);
    AckFlags(c);
    LogsOne(t, OnSettings([], true));
    AddsNothing(c, t, {});
    VoiceByFields(c, t);
    VoiceTwice(c, t, Log(t, OnSettings([], true)));
    AddsTwice(c, t, Log(t, OnSettings([], true)), {}, {OfReport});
    AddsWithin(c, Log(t, OnSettings([], true)), {} + {OfReport}, ON_SETTINGS);
  }

  /** Any other SETTINGS: reported and acknowledged once, or refused. */
  lemma SettingsHandled(c: Conn, h: FrameHeader, settings: seq<(nat, nat)>)
    requires Sized(c) && !(h.streamId == 0 && HasFlag(h.flags, ACK) && h.length == 0)
    ensures var d := SettingsReceived(c, h, settings);
            && Adds(c, d, ON_SETTINGS) && Steady(c, d) && ClientStep(c, d)
            && if h.streamId == 0 && !HasFlag(h.flags, ACK) && !ApplySettings(c, settings, []).refused then
                 var seen := ApplySettings(c, settings, []).seen;
                 && Only(d.log, OfReport) == Only(c.log, OfReport) + [OnSettings(seen, false)]
                 && Only(d.log, OfAck) == Only(c.log, OfAck) + [SentSettingsAck]
               else Calm(c, d)
  {
    hide GoAwaySent, Log, Only, FlagsOf, Adds, HasFlag, ApplySettings, Calm, AckedSettings, ClientStep;
    var a := ApplySettings(c, settings, []);
    var d := SettingsReceived(c, h, settings);
    GoAwayIsCalm(c, PROTOCOL_ERROR, 0);
    GoAwayIsCalm(c, FRAME_SIZE_ERROR, 0);
    ApplyingIsCalm(c, settings, []);
    if h.streamId == 0 && !HasFlag(h.flags, ACK) && !a.refused {
      var told := Log(a.conn, OnSettings(a.seen, false));
      CalmIsQuiet(c, a.conn);
      LogsOne(a.conn, OnSettings(a.seen, false));
      LogsOne(told, SentSettingsAck);
      VoiceTwice(a.conn, told, d);
      VoiceTwice(c, a.conn, d);
      AddsTwice(a.conn, told, d, {OfReport}, {OfAck});
      AddsTwice(c, a.conn, d, ON_SETTINGS, {OfReport} + {OfAck});
      AddsWithin(c, d, ON_SETTINGS + ({OfReport} + {OfAck}), ON_SETTINGS);
    } else {
      CalmIsQuiet(c, d);
    }
  }

  // ---------------------------------------------------------------- GOAWAY and WINDOW_UPDATE

  lemma GoAwayHandled(c: Conn, h: FrameHeader, last: nat, e: nat, debug: bytes)
    ensures var d := GoAwayReceived(c, h, last, e, debug);
            && Adds(c, d, REFUSAL) && ClientStep(c, d)
            && FlagsOf(d) == if h.streamId != 0 then Opened(FlagsOf(c)) else FlagsOf(c).(receivedGoAway := true)
  {
    hide GoAwaySent, IsLocal, ClientStep;
    GoAwayIsCalm(c, PROTOCOL_ERROR, 0);
    if h.streamId == 0 {
      VoiceLogged(c, OnGoAway(last, e, debug));
      var told := Log(c, OnGoAway(last, e, debug));
      VoiceByFields(told, GoAwayReceived(c, h, last, e, debug));
      VoiceTwice(c, told, GoAwayReceived(c, h, last, e, debug));
    }
  }

  lemma Widened(c: Conn, n: nat)
    ensures var d := c.(sendWindow := c.sendWindow + n);
            d.log == c.log && FlagsOf(d) == FlagsOf(c).(sendWindow := c.sendWindow + n)
  {
  }

  /** The stream is one of the map. */
  predicate Known(c: Conn, id: nat)
  {
    id > 0 && id in c.streams
  }

  /** WINDOW_UPDATE for the connection or a stream the map does not hold widens the send window. */
  lemma IncrementHandled(c: Conn, h: FrameHeader, increment: nat)
    ensures var d := WindowUpdateReceived(c, h, increment);
            && Adds(c, d, REFUSAL) && ClientStep(c, d)
            && FlagsOf(d) == if increment == 0 then Opened(FlagsOf(c))
                             else if Known(c, h.streamId) then FlagsOf(c)
                             else FlagsOf(c).(sendWindow := c.sendWindow + increment)
  {
    hide GoAwaySent, FrameSeen, Store, FlagsOf, Opened, Adds, ClientStep;
    GoAwayIsCalm(c, PROTOCOL_ERROR, 0);
    Widened(c, increment);
    VoiceByFields(c, c.(sendWindow := c.sendWindow + increment));
    AddsNothing(c, c.(sendWindow := c.sendWindow + increment), REFUSAL);
    if Find(c, h.streamId).Some? {
      StoreIsCalm(c, h.streamId, FrameSeen(c.streams[h.streamId], h.ftype, h.flags));
    }
  }

  /** The frames that move no counter and are answered, if at all, with GOAWAY. */
  predicate Plain(p: Payload)
  {
    p.Malformed? || p.HeadersPayload? || p.PriorityPayload? || p.RstStreamPayload? || p.PushPromisePayload? ||
    p.ContinuationPayload?
  }

  lemma PlainIsCalm(c: Conn, h: FrameHeader, p: Payload, huffman: Huffman)
    requires Sized(c) && Plain(p)
    ensures Calm(c, Handle(c, h, p, huffman))
  {
    hide GoAwaySent, HeadersFrameReceived, PriorityReceived, RstStreamReceived, PushPromiseReceived,
         ContinuationReceived, Calm;
    match p
    case Malformed(e) => GoAwayIsCalm(c, e, 0);
    case HeadersPayload(fragment, padLen) => HeadersAreCalm(c, h, fragment, padLen, huffman);
    case PriorityPayload(priority) => PriorityIsCalm(c, h, priority);
    case RstStreamPayload(e) => RstFrameIsCalm(c, h, e);
    case PushPromisePayload(promised, fragment, n) => PromiseIsCalm(c, h, promised, fragment, n, huffman);
    case ContinuationPayload(fragment) => ContinuationIsCalm(c, h, fragment, huffman);
  }

  lemma TrackedIsCalm(c: Conn, id: nat)
    ensures Calm(c, Tracked(c, id)) && FlagsOf(Tracked(c, id)) == FlagsOf(c)
    ensures Tracked(c, id).streams == c.streams && Tracked(c, id).log == c.log
  {
    hide IsLocal;
    var t := Tracked(c, id);
    if t != c {
      assert t == c.(lastStreamId := id);
    }
  }

  lemma ReapedIsCalm(c: Conn, id: nat)
    ensures Calm(c, Reaped(c, id)) && FlagsOf(Reaped(c, id)) == FlagsOf(c)
  {
    hide DrainChecked, Calm, FlagsOf;
    RemovalIsCalm(c, id);
    CalmByFields(c, c);
  }

  /** The payload that reaches its handler, if the frame gets that far. */
  function Reaching(c: Conn, h: FrameHeader, payload: bytes): Option<Payload>
    requires |payload| == h.length
  {
    if Admitted(c, h) && h.ftype <= CONTINUATION then Some(Parse(h, payload)) else None
  }

  /** Every frame that does not reach the handler of one of the five types that count is calm. */
  lemma FrameIsCalm(c: Conn, h: FrameHeader, payload: bytes, huffman: Huffman)
    requires Sized(c) && |payload| == h.length
    requires match Reaching(c, h, payload) case None => true case Some(p) => Plain(p)
    ensures Calm(c, Process(c, h, payload, huffman).conn)
  {
    hide GoAwaySent, Handle, Parse, Reaped, Tracked, Calm, Plain;
    GoAwayIsCalm(c, PROTOCOL_ERROR, 0);
    CalmByFields(c, c);
    var t := Tracked(c, h.streamId);
    TrackedIsCalm(c, h.streamId);
    if Admitted(c, h) && h.ftype <= CONTINUATION {
      var d := Handle(t, h, Parse(h, payload), huffman);
      PlainIsCalm(t, h, Parse(h, payload), huffman);
      CalmTwice(c, t, d);
      ReapedIsCalm(d, h.streamId);
      CalmTwice(c, d, Reaped(d, h.streamId));
    }
  }

  /** One that does is what its handler makes of it, its stream id tracked before and a closed stream gone after. */
  lemma FrameIsHandled(c: Conn, h: FrameHeader, payload: bytes, huffman: Huffman)
    requires Sized(c) && |payload| == h.length && Reaching(c, h, payload).Some?
    requires !Reaching(c, h, payload).value.Malformed?
    ensures Sized(Tracked(c, h.streamId))
    ensures var d := Handle(Tracked(c, h.streamId), h, Parse(h, payload), huffman);
            Process(c, h, payload, huffman).conn == if HandsBackStream(h.ftype) then Reaped(d, h.streamId) else d
  {
    hide GoAwaySent, Handle, Parse, Reaped, Tracked;
  }

  // ---------------------------------------------------------------- the remaining calls

  lemma CreatedIsCalm(c: Conn)
    ensures Calm(c, Created(c))
  {
  }

  /** The calls that move no counter and send neither data, PING, SETTINGS nor WINDOW_UPDATE. */
  predicate PlainCall(op: Op)
  {
    op.CreateStream? || op.SendRstStream? || op.SendGoAway? || op.DrainNow? || op.SendPushPromise? || op.SendHeaders?
  }

  lemma CallIsCalm(c: Conn, op: Op, huffman: Huffman)
    requires Ready(c) && PlainCall(op)
    ensures Calm(c, Apply(c, op, huffman))
  {
    hide Calm, RstStreamSent, GoAwaySent, Drained, PushPromiseSent, HeadersSent, MayCreate, Created, Coder.WellFormed,
         FlagsOf;
    match op
    case CreateStream =>
      CreatedIsCalm(c);
      CalmByFields(c, c);
    case SendRstStream(id, e) => ResetIsCalm(c, id, e);
    case SendGoAway(e, last, debug) => GoAwayIsCalm(c, e, last, debug);
    case DrainNow => DrainedIsCalm(c);
    case SendPushPromise(id, hs) => PromiseSentIsCalm(c, id, hs);
    case SendHeaders(id, handle, hs, end) => HeadersSentIsCalm(c, id, handle, hs, end);
  }

  /** The server's own settings go out once. */
  lemma VerifyHandled(c: Conn)
    ensures var d := InitialSettingsSent(c.(finishHandshake := true));
            && Adds(c, d, {OfSettings})
            && FlagsOf(d) == if c.initialSettingsSent then FlagsOf(c)
                             else FlagsOf(c).(initialSettingsSent := true, settingsPending := true)
  {
    hide NonDefault;
  }

  /** Settings are asked for if there are any and no others are waited for. */
  lemma RequestHandled(c: Conn, settings: seq<(nat, nat)>)
    ensures var (d, f) := (SettingsSent(c, settings), Opened(FlagsOf(c)));
            && Adds(c, d, OPENING) && ClientStep(c, d)
            && FlagsOf(d) == if settings == [] || f.settingsPending then f
                             else f.(settingsPending := true, requestSettings := settings)
  {
    hide PrefaceEnsured, ClientStep;
    var (p, d) := (PrefaceEnsured(c), SettingsSent(c, settings));
    Opens(c);
    VoiceOpens(c);
    if settings != [] && !p.settingsPending {
      VoiceLogged(p, SentSettings(settings));
      VoiceByFields(Log(p, SentSettings(settings)), d);
      VoiceTwice(p, Log(p, SentSettings(settings)), d);
      VoiceTwice(c, p, d);
    }
  }

  /** A PING goes out unless one is waited for. */
  lemma PingSentHandled(c: Conn, data: bytes)
    ensures var (d, f) := (PingSent(c, data), Opened(FlagsOf(c)));
            && Adds(c, d, {OfPreface, OfSettings, OfPing}) && ClientStep(c, d)
            && FlagsOf(d) == f.(pingPending := true)
            && Only(d.log, OfPing) == Only(c.log, OfPing) + (if c.pingPending then [] else [SentPing(data, false)])
  {
    hide PrefaceEnsured, Only, Log, ClientStep;
    var p := PrefaceEnsured(c);
    Opens(c);
    VoiceOpens(c);
    AddsKeeps(c, p, OPENING, OfPing);
    LogsOne(p, SentPing(data, false));
    VoiceTwice(c, p, Log(p, SentPing(data, false)));
    VoiceByFields(Log(p, SentPing(data, false)), Log(p, SentPing(data, false)).(pingPending := true));
    VoiceTwice(c, Log(p, SentPing(data, false)), Log(p, SentPing(data, false)).(pingPending := true));
    AddsTwice(c, p, Log(p, SentPing(data, false)), OPENING, {OfPing});
    AddsWithin(c, Log(p, SentPing(data, false)), OPENING + {OfPing}, {OfPreface, OfSettings, OfPing});
    AddsWithin(c, p, OPENING, {OfPreface, OfSettings, OfPing});
  }
}
