/**
 * What each call and each frame does to the two ends of header compression a connection holds: the
 * compressor with the blocks it has sent, and the decoder's table with the wait for the rest of a block.
 */
module ConnectionCodecs {
  import opened Bytes
  import Coder = CompressorModel
  import opened ConnectionInvariant
  import opened ConnectionModel
  import opened ConnectionRuns
  import opened DynamicTable
  import opened Frames
  import opened HeaderDecoder
  import opened Headers
  import Settings
  import opened StreamModel
  import StreamStates
  import opened StringLiterals

  /** What the decoder at the other end acts on: a header block, or the settings its side announced and got through. */
  datatype Event = BlockSent(octets: bytes) | SizesAnnounced(settings: seq<(nat, nat)>)

  function Tells(o: Output): seq<Event>
  {
    match o
    case SentHeaders(_, block, _) => [BlockSent(block)]
    case SentPushPromise(_, _, block) => [BlockSent(block)]
    case OnSettings(settings, false) => [SizesAnnounced(settings)]
    case _ => []
  }

  /** The events among some outputs, in order. */
  function Events(log: seq<Output>): seq<Event>
  {
    if log == [] then []
    else
      var n := |log| - 1;
      Events(log[..n]) + Tells(log[n])
  }

  lemma EventsAppend(log: seq<Output>, o: Output)
    ensures Events(log + [o]) == Events(log) + Tells(o)
  {
    assert (log + [o])[..|log|] == log;
  }

  /** The sending end. */
  datatype Sender = Sender(compressor: Coder.State, hash: Coder.Hash, remoteSettings: seq<nat>, events: seq<Event>)

  /** Both ends; `awaiting` and `awaitedId` are the wait for CONTINUATION. */
  datatype Codecs = Codecs(sender: Sender, table: Table, awaiting: bool, awaitedId: nat)

  function SenderOf(c: Conn): Sender
  {
    Sender(c.compressor, c.hash, c.remoteSettings, Events(c.log))
  }

  function Of(c: Conn): Codecs
  {
    Codecs(SenderOf(c), c.table, c.nextFrameLimit, c.nextStreamIdLimit)
  }

  // ---------------------------------------------------------------- what changes neither end

  lemma LogCodecs(c: Conn, o: Output)
    requires Tells(o) == []
    ensures Of(Log(c, o)) == Of(c)
  {
    hide Events;
    EventsAppend(c.log, o);
  }

  lemma StoreCodecs(c: Conn, id: nat, s: Stream)
    ensures Of(Store(c, id, s)) == Of(c)
  {
    hide Events;
  }

  lemma PrefaceCodecs(c: Conn)
    ensures Of(PrefaceEnsured(c)) == Of(c) && PrefaceEnsured(c).streams == c.streams
  {
    hide Events, NonDefault, Log;
    var settings := SentSettings(NonDefault(c.localSettings, 1));
    LogOnlyLogs(c, SentPreface);
    LogOnlyLogs(Log(c, SentPreface), settings);
    LogCodecs(c, SentPreface);
    LogCodecs(Log(c, SentPreface), settings);
  }

  lemma GoAwayCodecs(c: Conn, e: nat, last: nat, debug: bytes := [])
    ensures Of(GoAwaySent(c, e, last, debug)) == Of(c) && GoAwaySent(c, e, last, debug).sentGoAway
  {
    hide Events, PrefaceEnsured, Log;
    var p := PrefaceEnsured(c);
    PrefaceCodecs(c);
    LogCodecs(p, SentGoAway(if last == 0 then p.lastStreamId else last, e, debug));
  }

  lemma DrainCheckedCodecs(c: Conn)
    ensures Of(DrainChecked(c)) == Of(c) && DrainChecked(c).sentGoAway == c.sentGoAway
  {
    hide Events;
    EventsAppend(c.log, OnShutdownComplete);
  }

  lemma DrainedCodecs(c: Conn)
    ensures Of(Drained(c)) == Of(c)
  {
    hide Events, GoAwaySent, DrainChecked;
    var sent := GoAwaySent(c, NO_ERROR, c.lastStreamId);
    GoAwayCodecs(c, NO_ERROR, c.lastStreamId);
    DrainCheckedCodecs(sent.(draining := true));
  }

  lemma RemovedCodecs(c: Conn, id: nat)
    ensures Of(DrainChecked(c.(streams := c.streams - {id}))) == Of(c)
    ensures DrainChecked(c.(streams := c.streams - {id})).sentGoAway == c.sentGoAway
  {
    hide Events, DrainChecked;
    DrainCheckedCodecs(c.(streams := c.streams - {id}));
  }

  lemma SettleCodecs(c: Conn, id: nat, s: Stream)
    ensures Of(Settle(c, id, s)) == Of(c)
  {
    hide Of, DrainChecked, Store;
    RemovedCodecs(c, id);
    StoreCodecs(c, id, s);
  }

  lemma AfterSendCodecs(c: Conn, id: nat, handle: Holding, change: Stream -> Stream)
    requires id in c.streams
    ensures Of(AfterSend(c, id, handle, change)) == Of(c)
  {
    hide Of, DrainChecked, Settle;
    RemovedCodecs(c, id);
    SettleCodecs(c, id, change(c.streams[id]));
  }

  lemma WindowUpdateCodecs(c: Conn, id: nat, ci: nat, si: nat)
    ensures Of(WindowUpdateSent(c, id, ci, si)) == Of(c)
  {
    hide Of, PrefaceEnsured, Log;
    var p := PrefaceEnsured(c);
    var forStream := SentWindowUpdate(id, si % STREAM_ID_LIMIT);
    var forConnection := SentWindowUpdate(0, ci % STREAM_ID_LIMIT);
    PrefaceCodecs(c);
    LogCodecs(p, forStream);
    LogCodecs(p, forConnection);
    LogCodecs(Log(p, forStream), forConnection);
  }

  lemma RstStreamSentCodecs(c: Conn, id: nat, e: nat)
    ensures Of(RstStreamSent(c, id, e)) == Of(c)
  {
    hide Of, PrefaceEnsured, Log, Settle;
    var p := PrefaceEnsured(c);
    PrefaceCodecs(c);
    LogCodecs(p, SentRstStream(id, e));
    if id in p.streams {
      SettleCodecs(Log(p, SentRstStream(id, e)), id, Moved(p.streams[id], StreamStates.Send(StreamStates.RstStream)));
    }
  }

  lemma DataSentCodecs(c: Conn, id: nat, handle: Holding, data: bytes, endStream: bool)
    ensures Of(DataSent(c, id, handle, data, endStream)) == Of(c)
  {
    hide Of, PrefaceEnsured, DataFrameSent, AfterSend, SendDataChange;
    var p := PrefaceEnsured(c);
    PrefaceCodecs(c);
    DataFrameCodecs(p, id, data, endStream);
    if id in p.streams {
      DataFrameIsQuiet(p, id, data, endStream);
      AfterSendCodecs(DataFrameSent(p, id, data, endStream), id, handle, SendDataChange(endStream));
    }
  }

  lemma DataFrameCodecs(c: Conn, id: nat, data: bytes, endStream: bool)
    ensures Of(DataFrameSent(c, id, data, endStream)) == Of(c)
  {
    hide Events, Log;
    LogCodecs(c.(sendWindow := c.sendWindow - |data|), SentData(id, data, endStream));
  }

  lemma SettingsSentCodecs(c: Conn, settings: seq<(nat, nat)>)
    ensures Of(SettingsSent(c, settings)) == Of(c)
  {
    hide Events, PrefaceEnsured, Log;
    PrefaceCodecs(c);
    LogCodecs(PrefaceEnsured(c), SentSettings(settings));
  }

  lemma PingSentCodecs(c: Conn, d: bytes)
    ensures Of(PingSent(c, d)) == Of(c)
  {
    hide Events, PrefaceEnsured, Log;
    PrefaceCodecs(c);
    LogCodecs(PrefaceEnsured(c), SentPing(d, false));
  }

  lemma InitialSettingsCodecs(c: Conn)
    ensures Of(InitialSettingsSent(c.(finishHandshake := true))) == Of(c)
  {
    hide Events, NonDefault, Log;
    LogCodecs(c.(finishHandshake := true), SentSettings(NonDefault(c.localSettings, 1)));
  }

  lemma CreatedCodecs(c: Conn)
    ensures Of(Created(c)) == Of(c)
  {
    hide Events;
  }

  // ---------------------------------------------------------------- blocks sent

  /** The sending end after one more block. */
  function Coded(s: Sender, headers: seq<Header>): Sender
    requires Coder.WellFormed(s.compressor)
  {
    var e := Coder.EncodeBlock(s.compressor, headers, s.hash);
    s.(compressor := e.state, events := s.events + [BlockSent(e.octets)])
  }

  lemma CodedCodecs(c: Conn, p: Conn, headers: seq<Header>, o: Output)
    requires Coder.WellFormed(c.compressor) && Of(p) == Of(c)
    requires Tells(o) == [BlockSent(Coder.EncodeBlock(c.compressor, headers, c.hash).octets)]
    ensures var e := Coder.EncodeBlock(c.compressor, headers, c.hash);
            Of(Log(p.(compressor := e.state), o)) == Of(c).(sender := Coded(SenderOf(c), headers))
  {
    hide Events, Coder.EncodeBlock, Coder.WellFormed;
    EventsAppend(p.log, o);
  }

  lemma HeadersSentCodecs(c: Conn, id: nat, handle: Holding, headers: seq<Header>, endStream: bool)
    requires Coder.WellFormed(c.compressor)
    ensures Of(HeadersSent(c, id, handle, headers, endStream)) ==
            if id in c.streams then Of(c).(sender := Coded(SenderOf(c), headers)) else Of(c)
  {
    hide Of, PrefaceEnsured, Log, AfterSend, SendHeadersChange, Coder.EncodeBlock, Coder.WellFormed, Coded;
    var p := PrefaceEnsured(c);
    PrefaceCodecs(c);
    if id in p.streams {
      var e := Coder.EncodeBlock(c.compressor, headers, c.hash);
      var o := SentHeaders(id, e.octets, endStream);
      CodedCodecs(c, p, headers, o);
      LogOnlyLogs(p.(compressor := e.state), o);
      AfterSendCodecs(Log(p.(compressor := e.state), o), id, handle, SendHeadersChange(endStream));
    }
  }

  lemma PushPromiseSentCodecs(c: Conn, requestId: nat, headers: seq<Header>)
    requires Ready(c)
    ensures Of(PushPromiseSent(c, requestId, headers)) ==
            if MayPromise(c) then Of(c).(sender := Coded(SenderOf(c), headers)) else Of(c)
  {
    hide Of, Log, Coder.EncodeBlock, Coder.WellFormed, Coded, Created, Store, MayPromise, NewStream, Moved;
    if MayPromise(c) {
      var e := Coder.EncodeBlock(c.compressor, headers, c.hash);
      var d := Created(c);
      var o := SentPushPromise(requestId, c.nextLocalStreamId, e.octets);
      CreatedCodecs(c);
      CodedCodecs(c, d, headers, o);
      StoreCodecs(Log(d.(compressor := e.state), o), c.nextLocalStreamId,
                  Moved(NewStream(), StreamStates.Send(StreamStates.PushPromise)));
    }
  }

  /** The header list that a call sends, if the connection accepts the call. */
  function Accepted(c: Conn, op: Op): Option<seq<Header>>
    requires Sized(c)
  {
    match op
    case SendHeaders(id, _, headers, _) => if id in c.streams then Some(headers) else None
    case SendPushPromise(_, headers) => if MayPromise(c) then Some(headers) else None
    case _ => None
  }

  /** A public call moves the compressor over the header list it sends, and nothing else at either end. */
  lemma CallCodecs(c: Conn, op: Op, huffman: Huffman)
    requires Ready(c) && !op.Receive?
    ensures Of(Apply(c, op, huffman)) ==
            match Accepted(c, op)
            case None => Of(c)
            case Some(headers) => Of(c).(sender := Coded(SenderOf(c), headers))
  {
    hide Of, SenderOf, InitialSettingsSent, SettingsSent, PingSent, RstStreamSent, GoAwaySent, Drained, Coded,
         PushPromiseSent, WindowUpdateSent, HeadersSent, DataSent, MayCreate, MayPromise, Created, Coder.WellFormed;
    match op
    case VerifyPreface => InitialSettingsCodecs(c);
    case CreateStream => CreatedCodecs(c);
    case SendSettings(settings) => SettingsSentCodecs(c, settings);
    case SendPing(d) => PingSentCodecs(c, d);
    case SendRstStream(id, e) => RstStreamSentCodecs(c, id, e);
    case SendGoAway(e, last, debug) => GoAwayCodecs(c, e, last, debug);
    case DrainNow => DrainedCodecs(c);
    case SendPushPromise(id, hs) => PushPromiseSentCodecs(c, id, hs);
    case SendWindowUpdate(id, ci, si) => WindowUpdateCodecs(c, id, ci, si);
    case SendHeaders(id, handle, hs, end) => HeadersSentCodecs(c, id, handle, hs, end);
    case SendData(id, handle, data, end) => DataSentCodecs(c, id, handle, data, end);
  }

  // ---------------------------------------------------------------- frames without a block

  lemma DataCodecs(c: Conn, h: FrameHeader, data: bytes, padLen: nat)
    ensures Of(DataReceived(c, h, data, padLen)) == Of(c)
  {
    hide Of, GoAwaySent, WindowUpdateSent, FrameSeen, Log, Store;
    GoAwayCodecs(c, PROTOCOL_ERROR, 0);
    if Find(c, h.streamId).Some? {
      var seen := FrameSeen(c.streams[h.streamId], h.ftype, h.flags);
      StoreCodecs(c, h.streamId, seen);
      var stored := Store(c, h.streamId, seen.(data := seen.data + data));
      StoreCodecs(c, h.streamId, seen.(data := seen.data + data));
      LogCodecs(stored, OnStreamData(h.streamId, data));
      var d := Log(stored, OnStreamData(h.streamId, data));
      WindowUpdateCodecs(d, h.streamId, |data|, |data|);
      LogCodecs(WindowUpdateSent(d, h.streamId, |data|, |data|), OnStreamClosed(h.streamId, 0));
    }
  }

  lemma PriorityCodecs(c: Conn, h: FrameHeader, priority: Priority)
    ensures Of(PriorityReceived(c, h, priority)) == Of(c)
  {
    hide Of, GoAwaySent, FrameSeen, Store;
    GoAwayCodecs(c, PROTOCOL_ERROR, 0);
    if Find(c, h.streamId).Some? {
      StoreCodecs(c, h.streamId, FrameSeen(c.streams[h.streamId].(priority := priority), h.ftype, h.flags));
    }
  }

  lemma RstStreamCodecs(c: Conn, h: FrameHeader, e: nat)
    ensures Of(RstStreamReceived(c, h, e)) == Of(c)
  {
    hide Of, GoAwaySent, FrameSeen, RstReceived, Store, Log;
    GoAwayCodecs(c, PROTOCOL_ERROR, 0);
    if Find(c, h.streamId).Some? {
      var s := FrameSeen(RstReceived(c.streams[h.streamId], e), h.ftype, h.flags);
      StoreCodecs(c, h.streamId, s);
      LogCodecs(Store(c, h.streamId, s), OnStreamClosed(h.streamId, e));
    }
  }

  lemma IncrementCodecs(c: Conn, h: FrameHeader, increment: nat)
    ensures Of(WindowUpdateReceived(c, h, increment)) == Of(c)
  {
    hide Events, GoAwaySent, FrameSeen, Store;
    GoAwayCodecs(c, PROTOCOL_ERROR, 0);
    if Find(c, h.streamId).Some? {
      StoreCodecs(c, h.streamId, FrameSeen(c.streams[h.streamId], h.ftype, h.flags));
    }
  }

  lemma PingCodecs(c: Conn, h: FrameHeader, opaqueData: bytes)
    ensures Of(PingReceived(c, h, opaqueData)) == Of(c)
  {
    hide Events, GoAwaySent, HasFlag, Log;
    GoAwayCodecs(c, PROTOCOL_ERROR, 0);
    LogCodecs(c.(pingPending := false), OnPing(opaqueData, true));
    LogCodecs(c, OnPing(opaqueData, false));
    LogCodecs(Log(c, OnPing(opaqueData, false)), SentPing(opaqueData, true));
  }

  lemma GoAwayFrameCodecs(c: Conn, h: FrameHeader, last: nat, e: nat, debug: bytes)
    ensures Of(GoAwayReceived(c, h, last, e, debug)) == Of(c)
  {
    hide Events, GoAwaySent, IsLocal;
    GoAwayCodecs(c, PROTOCOL_ERROR, 0);
    EventsAppend(c.log, OnGoAway(last, e, debug));
  }

  /** A compressor told to use no more than it may: sound, its window a prefix of what it was. */
  ghost predicate Shrunk(a: Coder.State, b: Coder.State)
  {
    Coder.WellFormed(b) && b.window <= a.window && b.maxUsable == a.maxUsable
  }

  /** The table sizes of SETTINGS resize the compressor; nothing else changes at either end, and nothing is told. */
  ghost predicate OnlyShrunk(c: Conn, d: Conn)
  {
    && Of(d) == Of(c).(sender := SenderOf(c).(compressor := d.compressor, remoteSettings := d.remoteSettings))
    && Shrunk(c.compressor, d.compressor)
  }

  lemma UnchangedShrinks(c: Conn, d: Conn)
    requires Coder.WellFormed(c.compressor) && Of(d) == Of(c)
    ensures OnlyShrunk(c, d)
  {
    hide Events, Coder.WellFormed;
  }

  lemma ShrunkTwice(c: Conn, d: Conn, e: Conn)
    requires OnlyShrunk(c, d) && OnlyShrunk(d, e)
    ensures OnlyShrunk(c, e)
  {
    hide Events, Coder.WellFormed;
  }

  lemma ResizedShrinks(s: Coder.State, size: nat)
    requires Coder.WellFormed(s)
    ensures Shrunk(s, Coder.WithMaxSize(s, size))
  {
    hide Coder.WellFormed;
    Coder.WithMaxSizeWellFormed(s, size);
  }

  lemma SettingStored(c: Conn, remote: seq<nat>, s: Coder.State)
    ensures Of(c.(remoteSettings := remote, compressor := s)) ==
            Of(c).(sender := SenderOf(c).(compressor := s, remoteSettings := remote))
  {
    hide Events;
  }

  lemma SettingCodecs(c: Conn, id: nat, value: nat)
    requires Ready(c) && id < Settings.COUNT
    ensures OnlyShrunk(c, SettingApplied(c, id, value)) && Ready(SettingApplied(c, id, value))
  {
    hide Of, Settings.Clamp, Coder.WellFormed, Coder.WithMaxSize, SettingApplied;
    var d := SettingApplied(c, id, value);
    ResizedShrinks(c.compressor, Settings.Clamp(id, value));
    SettingFields(c, id, value);
    SettingStored(c, d.remoteSettings, d.compressor);
  }

  lemma {:induction false} ApplySettingsCodecs(c: Conn, settings: seq<(nat, nat)>, seen: seq<(nat, nat)>)
    requires Ready(c)
    ensures OnlyShrunk(c, ApplySettings(c, settings, seen).conn)
    decreases |settings|
  {
    hide GoAwaySent, Settings.Parameters, Settings.Clamp, Settings.InRange, OnlyShrunk, Of, Coder.WellFormed,
         SettingApplied;
    UnchangedShrinks(c, c);
    if settings != [] {
      var (id, value) := settings[0];
      if Refused(id, value) {
        GoAwayCodecs(c, Settings.Parameters(id).error, 0);
        UnchangedShrinks(c, GoAwaySent(c, Settings.Parameters(id).error, 0));
      } else if id >= Settings.COUNT {
        ApplySettingsCodecs(c, settings[1..], seen + [(id, value)]);
      } else {
        var d := SettingApplied(c, id, value);
        SettingCodecs(c, id, value);
        ApplySettingsCodecs(d, settings[1..], seen + [(id, Settings.Clamp(id, value))]);
        ShrunkTwice(c, d, ApplySettings(c, settings, seen).conn);
      }
    }
  }

  /** The compressor over the table sizes among some settings. */
  function Resizes(s: Coder.State, settings: seq<(nat, nat)>): Coder.State
    decreases |settings|
  {
    if settings == [] then s
    else
      var (id, value) := settings[0];
      Resizes(if id == Settings.HEADER_TABLE_SIZE then Coder.WithMaxSize(s, value) else s, settings[1..])
  }

  /** The values kept of some settings. */
  function Stores(remote: seq<nat>, settings: seq<(nat, nat)>): (r: seq<nat>)
    ensures |r| == |remote|
    decreases |settings|
  {
    if settings == [] then remote
    else
      var (id, value) := settings[0];
      Stores(if id < |remote| then remote[id := value] else remote, settings[1..])
  }

  /** Settings let through: those that are known are in range. */
  predicate LetThrough(settings: seq<(nat, nat)>)
  {
    forall i :: 0 <= i < |settings| && settings[i].0 < Settings.COUNT ==>
      Settings.InRange(settings[i].0, settings[i].1)
  }

  /** Settings that are not refused are reported as they are kept, and the compressor goes over the reported ones. */
  lemma {:induction false} ApplySettingsTell(c: Conn, settings: seq<(nat, nat)>, seen: seq<(nat, nat)>)
    requires Sized(c)
    ensures var a := ApplySettings(c, settings, seen);
            if a.refused then a.conn.sentGoAway
            else
              && seen <= a.seen && LetThrough(a.seen[|seen|..])
              && a.conn.compressor == Resizes(c.compressor, a.seen[|seen|..])
              && a.conn.remoteSettings == Stores(c.remoteSettings, a.seen[|seen|..])
    decreases |settings|
  {
    hide GoAwaySent, Settings.Parameters, Settings.Clamp, Settings.InRange, SettingApplied, Coder.WithMaxSize,
         Resizes, Stores, LetThrough;
    var a := ApplySettings(c, settings, seen);
    if settings == [] {
      assert a.seen[|seen|..] == [];
      NothingTold(c.compressor, c.remoteSettings);
    } else {
      var (id, value) := settings[0];
      if Refused(id, value) {
        GoAwayCodecs(c, Settings.Parameters(id).error, 0);
      } else {
        var kept := (id, if id < Settings.COUNT then Settings.Clamp(id, value) else value);
        var d := if id < Settings.COUNT then SettingApplied(c, id, value) else c;
        SettingTells(c, kept.0, value, kept.1, d);
        ApplySettingsTell(d, settings[1..], seen + [kept]);
        if !a.refused {
          OneMoreSeen(seen, kept, a.seen);
          OneMoreTold(c.compressor, c.remoteSettings, kept, a.seen[|seen| + 1..]);
        }
      }
    }
  }

  /** One setting that is kept as `kept`. */
  lemma SettingTells(c: Conn, id: nat, value: nat, kept: nat, d: Conn)
    requires Sized(c) && d == if id < Settings.COUNT then SettingApplied(c, id, value) else c
    requires id < Settings.COUNT ==> kept == Settings.Clamp(id, value)
    ensures Sized(d) && (id < Settings.COUNT ==> Settings.InRange(id, kept))
    ensures d.compressor ==
            if id == Settings.HEADER_TABLE_SIZE then Coder.WithMaxSize(c.compressor, kept) else c.compressor
    ensures d.remoteSettings ==
            if id < |c.remoteSettings| then c.remoteSettings[id := kept] else c.remoteSettings
  {
    hide Settings.Clamp, Settings.InRange, SettingApplied, Coder.WithMaxSize;
    if id < Settings.COUNT {
      SettingFields(c, id, value);
    }
  }

  lemma OneMoreTold(s: Coder.State, remote: seq<nat>, kept: (nat, nat), rest: seq<(nat, nat)>)
    ensures Resizes(s, [kept] + rest) ==
            Resizes(if kept.0 == Settings.HEADER_TABLE_SIZE then Coder.WithMaxSize(s, kept.1) else s, rest)
    ensures Stores(remote, [kept] + rest) ==
            Stores(if kept.0 < |remote| then remote[kept.0 := kept.1] else remote, rest)
    ensures LetThrough(rest) && (kept.0 < Settings.COUNT ==> Settings.InRange(kept.0, kept.1)) ==>
              LetThrough([kept] + rest)
  {
    hide Coder.WithMaxSize, Settings.InRange;
    assert ([kept] + rest)[1..] == rest;
  }

  lemma NothingTold(s: Coder.State, remote: seq<nat>)
    ensures Resizes(s, []) == s && Stores(remote, []) == remote && LetThrough([])
  {
  }

  lemma OneMoreSeen(seen: seq<(nat, nat)>, kept: (nat, nat), all: seq<(nat, nat)>)
    requires seen + [kept] <= all
    ensures all[|seen|..] == [kept] + all[|seen| + 1..] && seen <= all
  {
  }

  /** What a received frame does to the sending end: nothing, unless it is refused, or what its settings say. */
  ghost predicate SenderStep(s: Sender, d: Sender, sentGoAway: bool)
  {
    && Shrunk(s.compressor, d.compressor) && d.hash == s.hash
    && if d.events == s.events then sentGoAway || d == s
       else
         var n := |s.events|;
         && |d.events| == n + 1 && d.events[..n] == s.events && d.events[n].SizesAnnounced?
         && LetThrough(d.events[n].settings) && d == WithSettings(s, d.events[n].settings)
  }

  function WithSettings(s: Sender, settings: seq<(nat, nat)>): Sender
  {
    Sender(Resizes(s.compressor, settings), s.hash, Stores(s.remoteSettings, settings),
           s.events + [SizesAnnounced(settings)])
  }

  /** At the receiving end nothing has changed. */
  ghost predicate Adjusts(c: Conn, d: Conn)
  {
    Of(d) == Of(c).(sender := SenderOf(d)) && SenderStep(SenderOf(c), SenderOf(d), d.sentGoAway)
  }

  lemma UnchangedAdjusts(c: Conn, d: Conn)
    requires Coder.WellFormed(c.compressor) && Of(d) == Of(c)
    ensures Adjusts(c, d)
  {
    hide Events, Coder.WellFormed;
  }

  lemma RefusedAdjusts(c: Conn, d: Conn)
    requires OnlyShrunk(c, d) && d.sentGoAway
    ensures Adjusts(c, d)
  {
    hide Events, Coder.WellFormed;
  }

  lemma AcceptedAdjusts(c: Conn, a: Conn, seen: seq<(nat, nat)>, d: Conn)
    requires OnlyShrunk(c, a) && LetThrough(seen)
    requires a.compressor == Resizes(c.compressor, seen) && a.remoteSettings == Stores(c.remoteSettings, seen)
    requires Of(d) == Of(a).(sender := SenderOf(a).(events := SenderOf(a).events + [SizesAnnounced(seen)]))
    ensures Adjusts(c, d)
  {
    hide Events, Coder.WellFormed, Resizes, Stores, LetThrough;
  }

  lemma AdjustsAround(c: Conn, t: Conn, d: Conn, e: Conn)
    requires Of(t) == Of(c) && Adjusts(t, d) && Of(e) == Of(d) && e.sentGoAway == d.sentGoAway
    ensures Adjusts(c, e)
  {
    hide Events, Coder.WellFormed, LetThrough, WithSettings;
  }

  /** The settings reported and acknowledged. */
  lemma ReportedCodecs(c: Conn, seen: seq<(nat, nat)>)
    ensures Of(Log(Log(c, OnSettings(seen, false)), SentSettingsAck)) ==
            Of(c).(sender := SenderOf(c).(events := SenderOf(c).events + [SizesAnnounced(seen)]))
  {
    hide Events;
    EventsAppend(c.log, OnSettings(seen, false));
    LogCodecs(Log(c, OnSettings(seen, false)), SentSettingsAck);
  }

  lemma SettingsCodecs(c: Conn, h: FrameHeader, settings: seq<(nat, nat)>)
    requires Ready(c)
    ensures Adjusts(c, SettingsReceived(c, h, settings))
  {
    hide GoAwaySent, ApplySettings, AckedSettings, HasFlag, Of, OnlyShrunk, Log, Coder.WellFormed, Adjusts, LetThrough,
         Resizes, Stores;
    GoAwayCodecs(c, PROTOCOL_ERROR, 0);
    GoAwayCodecs(c, FRAME_SIZE_ERROR, 0);
    UnchangedAdjusts(c, GoAwaySent(c, PROTOCOL_ERROR, 0));
    UnchangedAdjusts(c, GoAwaySent(c, FRAME_SIZE_ERROR, 0));
    AckCodecs(c);
    var a := ApplySettings(c, settings, []);
    ApplySettingsCodecs(c, settings, []);
    ApplySettingsTell(c, settings, []);
    if a.refused {
      RefusedAdjusts(c, a.conn);
    } else {
      assert a.seen[0..] == a.seen;
      ReportedCodecs(a.conn, a.seen);
      AcceptedAdjusts(c, a.conn, a.seen, Log(Log(a.conn, OnSettings(a.seen, false)), SentSettingsAck));
    }
  }

  lemma AckCodecs(c: Conn)
    requires Ready(c)
    ensures var acked := c.(localSettings := AckedSettings(c.localSettings, c.requestSettings),
                            settingsPending := false, requestSettings := []);
            Adjusts(c, Log(acked, OnSettings([], true)))
  {
    hide AckedSettings, Adjusts, Log, Events, Coder.WellFormed;
    var acked := c.(localSettings := AckedSettings(c.localSettings, c.requestSettings),
                    settingsPending := false, requestSettings := []);
    LogCodecs(acked, OnSettings([], true));
    UnchangedAdjusts(c, Log(acked, OnSettings([], true)));
  }

  // ---------------------------------------------------------------- frames with a block

  /** The piece of a header block in a payload. */
  function Carried(p: Payload): Option<bytes>
  {
    match p
    case HeadersPayload(fragment, _) => Some(fragment)
    case PushPromisePayload(_, fragment, _) => Some(fragment)
    case ContinuationPayload(fragment) => Some(fragment)
    case _ => None
  }

  /** The handler gets as far as decoding. */
  predicate Reads(c: Conn, h: FrameHeader, p: Payload)
    requires Sized(c)
  {
    match p
    case HeadersPayload(_, padLen) => h.streamId != 0 && padLen < h.length
    case PushPromisePayload(promised, _, padLen) =>
      && padLen < h.length && promised != 0 && promised % 2 == 0 && c.localSettings[Settings.ENABLE_PUSH] != 0
      && (promised in c.streams ==> c.streams[promised].state == StreamStates.Idle)
    case ContinuationPayload(_) => c.nextFrameLimit && Find(c, h.streamId).Some?
    case _ => false
  }

  /** What a handler with a block does: it decodes it, or answers with GOAWAY; a block that fails is answered too. */
  ghost predicate BlockRead(c: Conn, d: Conn, read: bool, fragment: bytes, huffman: Huffman)
  {
    var block := DecodeSpec(fragment, c.table, huffman);
    && SenderOf(d) == SenderOf(c) && d.table == (if read then block.table else c.table)
    && (!read || block.error != NoError ==> d.sentGoAway)
  }

  lemma RefusedBlock(c: Conn, e: nat, fragment: bytes, huffman: Huffman)
    ensures BlockRead(c, GoAwaySent(c, e, 0), false, fragment, huffman)
    ensures var block := DecodeSpec(fragment, c.table, huffman);
            BlockRead(c, GoAwaySent(c.(table := block.table), e, 0), true, fragment, huffman)
  {
    hide Events, GoAwaySent, DecodeSpec;
    GoAwayCodecs(c, e, 0);
    GoAwayCodecs(c.(table := DecodeSpec(fragment, c.table, huffman).table), e, 0);
  }

  /** A block that decodes is seen, whether a stream takes it or not. */
  lemma TakenBlock(c: Conn, t: Conn, h: FrameHeader, id: nat, fragment: bytes, huffman: Huffman)
    requires DecodeSpec(fragment, c.table, huffman).error == NoError
    requires SenderOf(t) == SenderOf(c) && t.table == DecodeSpec(fragment, c.table, huffman).table
    ensures BlockRead(c, t, true, fragment, huffman) && BlockRead(c, BlockSeen(t, h, id), true, fragment, huffman)
  {
    hide SenderOf, BlockSeen, DecodeSpec;
    SeenSender(t, h, id);
  }

  lemma SeenSender(c: Conn, h: FrameHeader, id: nat)
    ensures SenderOf(BlockSeen(c, h, id)) == SenderOf(c) && BlockSeen(c, h, id).table == c.table
  {
    hide SenderOf, HasFlag, Log;
    WaitSender(c, false, 0);
    WaitSender(c, true, h.streamId);
    LogCodecs(c.(nextFrameLimit := false, nextStreamIdLimit := 0), OnStreamHeaders(id));
  }

  lemma WaitSender(c: Conn, awaiting: bool, id: nat)
    ensures var d := c.(nextFrameLimit := awaiting, nextStreamIdLimit := id);
            SenderOf(d) == SenderOf(c) && d.table == c.table
  {
    hide Events;
  }

  lemma StoredSender(c: Conn, table: Table, id: nat, s: Stream)
    ensures var t := Store(c.(table := table), id, s); SenderOf(t) == SenderOf(c) && t.table == table
  {
    hide Events;
  }

  lemma HeadersBlock(c: Conn, h: FrameHeader, fragment: bytes, padLen: nat, huffman: Huffman)
    ensures BlockRead(c, HeadersFrameReceived(c, h, fragment, padLen, huffman), h.streamId != 0 && padLen < h.length,
                      fragment, huffman)
  {
    hide GoAwaySent, DecodeSpec, FrameSeen, ErrorCode, BlockSeen, HeadersReceived, IsLocal, NewStream, BlockRead, Store,
         Events;
    var d := DecodeSpec(fragment, c.table, huffman);
    RefusedBlock(c, PROTOCOL_ERROR, fragment, huffman);
    RefusedBlock(c, ErrorCode(d.error), fragment, huffman);
    if d.error == NoError {
      var s := if Find(c, h.streamId).Some? then c.streams[h.streamId] else NewStream();
      var seen := FrameSeen(HeadersReceived(s, d.headers), h.ftype, h.flags);
      StoredSender(c, d.table, h.streamId, seen);
      TakenBlock(c, c.(table := d.table), h, h.streamId, fragment, huffman);
      TakenBlock(c, Store(c.(table := d.table), h.streamId, seen), h, h.streamId, fragment, huffman);
    }
  }

  lemma PromiseBlock(c: Conn, h: FrameHeader, promised: nat, fragment: bytes, padLen: nat, huffman: Huffman)
    requires Sized(c)
    ensures BlockRead(c, PushPromiseReceived(c, h, promised, fragment, padLen, huffman),
                      Reads(c, h, PushPromisePayload(promised, fragment, padLen)), fragment, huffman)
  {
    hide GoAwaySent, PromiseDecoded, BlockRead;
    RefusedBlock(c, PROTOCOL_ERROR, fragment, huffman);
    PromiseDecodes(c, h, promised, fragment, huffman);
  }

  lemma PromiseDecodes(c: Conn, h: FrameHeader, promised: nat, fragment: bytes, huffman: Huffman)
    ensures BlockRead(c, PromiseDecoded(c, h, promised, fragment, huffman), true, fragment, huffman)
  {
    hide GoAwaySent, DecodeSpec, FrameSeen, ErrorCode, BlockSeen, Moved, BlockRead, Store, Events;
    var d := DecodeSpec(fragment, c.table, huffman);
    RefusedBlock(c, ErrorCode(d.error), fragment, huffman);
    if d.error == NoError {
      TakenBlock(c, c.(table := d.table), h, promised, fragment, huffman);
      if Find(c, promised).Some? {
        var s := FrameSeen(Moved(c.streams[promised], StreamStates.Recv(StreamStates.PushPromise)), h.ftype, h.flags);
        var taken := s.(headers := s.headers + d.headers);
        StoredSender(c, d.table, promised, taken);
        TakenBlock(c, Store(c.(table := d.table), promised, taken), h, promised, fragment, huffman);
      }
    }
  }

  lemma ContinuationBlock(c: Conn, h: FrameHeader, fragment: bytes, huffman: Huffman)
    ensures BlockRead(c, ContinuationReceived(c, h, fragment, huffman),
                      c.nextFrameLimit && Find(c, h.streamId).Some?, fragment, huffman)
  {
    hide GoAwaySent, DecodeSpec, FrameSeen, ErrorCode, BlockSeen, HasFlag, BlockRead, Store, Events;
    var d := DecodeSpec(fragment, c.table, huffman);
    RefusedBlock(c, PROTOCOL_ERROR, fragment, huffman);
    RefusedBlock(c, ErrorCode(d.error), fragment, huffman);
    if Find(c, h.streamId).Some? && d.error == NoError {
      var s := c.streams[h.streamId];
      var seen := FrameSeen(s.(headers := s.headers + d.headers), h.ftype, h.flags);
      StoredSender(c, d.table, h.streamId, seen);
      TakenBlock(c, Store(c.(table := d.table), h.streamId, seen), h, h.streamId, fragment, huffman);
    }
  }

  // ---------------------------------------------------------------- one frame

  /** A frame without a block leaves both ends alone, but for the compressor that SETTINGS may shrink. */
  lemma OthersCodecs(c: Conn, h: FrameHeader, p: Payload, huffman: Huffman)
    requires Ready(c) && Carried(p).None?
    ensures Adjusts(c, Handle(c, h, p, huffman))
    ensures p.Malformed? ==> Handle(c, h, p, huffman).sentGoAway
  {
    hide GoAwaySent, DataReceived, SettingsReceived, PriorityReceived, RstStreamReceived, WindowUpdateReceived,
         PingReceived, GoAwayReceived, Adjusts, Of, Coder.WellFormed;
    if p.SettingsPayload? {
      SettingsCodecs(c, h, p.settings);
    } else {
      QuietFrame(c, h, p, huffman);
      UnchangedAdjusts(c, Handle(c, h, p, huffman));
    }
  }

  lemma QuietFrame(c: Conn, h: FrameHeader, p: Payload, huffman: Huffman)
    requires Sized(c) && Carried(p).None? && !p.SettingsPayload?
    ensures Of(Handle(c, h, p, huffman)) == Of(c)
    ensures p.Malformed? ==> Handle(c, h, p, huffman).sentGoAway
  {
    hide GoAwaySent, DataReceived, PriorityReceived, RstStreamReceived, WindowUpdateReceived, PingReceived,
         GoAwayReceived, Of;
    match p
    case Malformed(e) => GoAwayCodecs(c, e, 0);
    case DataPayload(data, padLen) => DataCodecs(c, h, data, padLen);
    case PriorityPayload(priority) => PriorityCodecs(c, h, priority);
    case RstStreamPayload(e) => RstStreamCodecs(c, h, e);
    case WindowUpdatePayload(increment) => IncrementCodecs(c, h, increment);
    case PingPayload(opaqueData) => PingCodecs(c, h, opaqueData);
    case GoAwayPayload(last, e, debug) => GoAwayFrameCodecs(c, h, last, e, debug);
  }

  lemma BlockHandled(c: Conn, h: FrameHeader, p: Payload, huffman: Huffman)
    requires Sized(c) && Carried(p).Some?
    ensures BlockRead(c, Handle(c, h, p, huffman), Reads(c, h, p), Carried(p).value, huffman)
  {
    hide HeadersFrameReceived, PushPromiseReceived, ContinuationReceived, BlockRead;
    match p
    case HeadersPayload(fragment, padLen) => HeadersBlock(c, h, fragment, padLen, huffman);
    case PushPromisePayload(promised, fragment, padLen) => PromiseBlock(c, h, promised, fragment, padLen, huffman);
    case ContinuationPayload(fragment) => ContinuationBlock(c, h, fragment, huffman);
  }

  lemma ReapedCodecs(c: Conn, id: nat)
    ensures Of(Reaped(c, id)) == Of(c) && Reaped(c, id).sentGoAway == c.sentGoAway
  {
    hide Of, DrainChecked;
    RemovedCodecs(c, id);
  }

  lemma TrackedCodecs(c: Conn, id: nat)
    ensures var t := Tracked(c, id);
            && Of(t) == Of(c) && t.streams == c.streams && t.sentGoAway == c.sentGoAway
            && t.localSettings == c.localSettings && t.remoteSettings == c.remoteSettings
  {
    hide IsLocal, Events;
    var t := Tracked(c, id);
    if t != c {
      assert t == c.(lastStreamId := id);
    }
  }

  lemma NotTracked(c: Conn)
    ensures Tracked(c, 0) == c
  {
  }

  /** A frame reaches its handler's decoder exactly if it is admitted, its type known and its handler gets that far. */
  predicate ReachesDecoder(c: Conn, h: FrameHeader, payload: bytes)
    requires Sized(c) && |payload| == h.length
  {
    Admitted(c, h) && h.ftype <= CONTINUATION && Reads(c, h, Parse(h, payload))
  }

  /** A payload that parses has the block that its octets carry. */
  lemma ParseFindsBlock(h: FrameHeader, p: bytes)
    requires |p| == h.length && h.ftype <= CONTINUATION && !Parse(h, p).Malformed?
    ensures Carried(Parse(h, p)) == CarriedBlock(h, p)
  {
    hide Unpad, ParseSettings, ParsePriority, FromBe32, HasFlag;
  }

  /** What a frame with a block does to both ends. */
  lemma BlockFrame(c: Conn, h: FrameHeader, payload: bytes, huffman: Huffman)
    requires Sized(c) && |payload| == h.length && Admitted(c, h) && h.ftype <= CONTINUATION
    requires Carried(Parse(h, payload)).Some?
    ensures BlockRead(c, Process(c, h, payload, huffman).conn, ReachesDecoder(c, h, payload),
                      Carried(Parse(h, payload)).value, huffman)
  {
    hide GoAwaySent, Handle, Parse, Reaped, Tracked, DecodeSpec, Events;
    TrackedCodecs(c, h.streamId);
    var t := Tracked(c, h.streamId);
    BlockHandled(t, h, Parse(h, payload), huffman);
    ReapedCodecs(Handle(t, h, Parse(h, payload), huffman), h.streamId);
  }

  /** What a frame without one does. */
  lemma OtherFrame(c: Conn, h: FrameHeader, payload: bytes, huffman: Huffman)
    requires Ready(c) && |payload| == h.length
    requires Admitted(c, h) && h.ftype <= CONTINUATION ==> Carried(Parse(h, payload)).None?
    ensures var d := Process(c, h, payload, huffman).conn;
            && Adjusts(c, d)
            && (!Awaited(c, h) ==> d.sentGoAway)
            && (Admitted(c, h) && h.ftype <= CONTINUATION && Parse(h, payload).Malformed? ==> d.sentGoAway)
  {
    hide GoAwaySent, Handle, Parse, Reaped, Tracked, Of, Adjusts, Coder.WellFormed;
    GoAwayCodecs(c, PROTOCOL_ERROR, 0);
    UnchangedAdjusts(c, GoAwaySent(c, PROTOCOL_ERROR, 0));
    UnchangedAdjusts(c, c);
    TrackedCodecs(c, h.streamId);
    var t := Tracked(c, h.streamId);
    UnchangedAdjusts(c, t);
    if Admitted(c, h) && h.ftype <= CONTINUATION {
      var p := Parse(h, payload);
      TrackedReady(c, h.streamId);
      OthersCodecs(t, h, p, huffman);
      var d := Handle(t, h, p, huffman);
      ReapedCodecs(d, h.streamId);
      AdjustsAround(c, t, d, d);
      AdjustsAround(c, t, d, Reaped(d, h.streamId));
    }
  }

  lemma TrackedReady(c: Conn, id: nat)
    requires Ready(c)
    ensures Ready(Tracked(c, id))
  {
    hide Coder.WellFormed, IsLocal;
    TrackedCodecs(c, id);
  }

  /** A frame sends no block, and moves the compressor only as the settings in it say. */
  lemma FrameAdjustsSender(c: Conn, h: FrameHeader, payload: bytes, huffman: Huffman)
    requires Ready(c) && |payload| == h.length
    ensures var d := Process(c, h, payload, huffman).conn; SenderStep(SenderOf(c), SenderOf(d), d.sentGoAway)
  {
    hide Process, Parse, DecodeSpec, Events, Coder.WellFormed, LetThrough, WithSettings;
    if Admitted(c, h) && h.ftype <= CONTINUATION && Carried(Parse(h, payload)).Some? {
      BlockFrame(c, h, payload, huffman);
    } else {
      OtherFrame(c, h, payload, huffman);
    }
  }

  /** The table moves as the block in the frame's octets says if the frame is decoded, and otherwise not at all. */
  lemma FrameMovesTable(c: Conn, h: FrameHeader, payload: bytes, huffman: Huffman)
    requires Ready(c) && |payload| == h.length
    ensures ReachesDecoder(c, h, payload) ==> CarriedBlock(h, payload).Some?
    ensures Process(c, h, payload, huffman).conn.table ==
            if ReachesDecoder(c, h, payload) then DecodeSpec(CarriedBlock(h, payload).value, c.table, huffman).table
            else c.table
  {
    hide Process, Parse, DecodeSpec, Events, Coder.WellFormed, CarriedBlock;
    if Admitted(c, h) && h.ftype <= CONTINUATION && Carried(Parse(h, payload)).Some? {
      ParseFindsBlock(h, payload);
      BlockFrame(c, h, payload, huffman);
    } else {
      OtherFrame(c, h, payload, huffman);
    }
  }

  // ---------------------------------------------------------------- one operation

  /** The sending end over one operation: a list it accepts is encoded; settings it receives resize the compressor. */
  lemma OperationSends(c: Conn, op: Op, huffman: Huffman)
    requires Ready(c)
    ensures var d := Apply(c, op, huffman);
            match Accepted(c, op)
            case Some(headers) => SenderOf(d) == Coded(SenderOf(c), headers)
            case None => SenderStep(SenderOf(c), SenderOf(d), d.sentGoAway)
  {
    hide PackageProcess, Events, Coder.WellFormed, Coded, LetThrough, WithSettings;
    if op.Receive? {
      PackageAdjustsSender(c, op.package, huffman);
    } else {
      hide Apply;
      CallCodecs(c, op, huffman);
    }
  }

  lemma PackageAdjustsSender(c: Conn, package: bytes, huffman: Huffman)
    requires Ready(c)
    ensures var d := PackageProcess(c, package, huffman).conn;
            SenderStep(SenderOf(c), SenderOf(d), d.sentGoAway)
  {
    hide Process, Events, Coder.WellFormed, LetThrough, WithSettings;
    if |package| >= HEADER_SIZE && |package| >= UnpackHeader(package).length + HEADER_SIZE {
      var h := UnpackHeader(package);
      FrameAdjustsSender(c, h, package[HEADER_SIZE..HEADER_SIZE + h.length], huffman);
    }
  }
}
