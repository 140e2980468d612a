/**
 * http2_connection (src/http2/connection.cc) as an object: streams on the heap, shared with the
 * application, behind a map from ids. Each method does to it what its ConnectionModel function says.
 */
module ConnectionObject {
  import opened Bytes
  import Coder = CompressorModel
  import Compressor
  import opened ConnectionModel
  import opened DynamicTable
  import opened Frames
  import HeaderDecoder
  import opened Headers
  import Settings
  import StaticTable
  import opened StreamModel
  import opened StreamObject
  import opened StreamStates
  import opened StringLiterals

  lemma NonDefaultFrom(local: seq<nat>, i: nat, before: seq<(nat, nat)>)
    requires |local| == Settings.COUNT
    ensures before + NonDefault(local, i) ==
            if i >= Settings.COUNT then before
            else if local[i] != Settings.Parameters(i).defaultValue
            then before + [(i, local[i])] + NonDefault(local, i + 1)
            else before + NonDefault(local, i + 1)
  {
    hide Settings.Parameters;
    if i < Settings.COUNT {
      var rest := NonDefault(local, i + 1);
      assert before + ([(i, local[i])] + rest) == before + [(i, local[i])] + rest;
      assert [] + rest == rest;
    }
  }

  class Connection {
    const clientSide: bool
    const dynamicTable: DynamicMetadataTable
    const sendRecord: Compressor.Compressor
    var finishHandshake: bool
    var prefaceSent: bool
    var initialSettingsSent: bool
    var pingPending: bool
    var settingsPending: bool
    var requestSettings: seq<(nat, nat)>
    var localSettings: seq<nat>
    var remoteSettings: seq<nat>
    var lastStreamId: nat
    var nextLocalStreamId: nat
    var streams: map<nat, Http2Stream>
    var receivedGoAway: bool
    var receivedGoAwayStreamId: nat
    var sentGoAway: bool
    var sentGoAwayStreamId: nat
    var draining: bool
    var nextFrameLimit: bool
    var nextStreamIdLimit: nat
    var sendWindow: int
    var log: seq<Output>
    /** What the streams of the map hold. */
    ghost var held: map<nat, Stream>
    /** Those streams and their data buffers. */
    ghost var parts: set<object>
    /** What the compressor stands for. */
    ghost var coder: Coder.State

    /** Each stream is under its own id and holds what `held` says, and no two share a buffer. */
    ghost predicate StreamsValid()
      requires held.Keys == streams.Keys
      reads this`streams, this`held, this`parts, parts
    {
      && (forall id :: id in streams ==> streams[id] in parts && streams[id].dataCache in parts)
      && (forall id :: id in streams ==>
            streams[id].id == id && streams[id].Valid() && streams[id].Value() == held[id])
      && (forall i, j :: i in streams && j in streams && i != j ==> streams[i].dataCache != streams[j].dataCache)
    }

    ghost predicate CompressorValid()
      reads this`coder, sendRecord, sendRecord.tableElemSize, sendRecord.entries
    {
      sendRecord.Valid() && sendRecord.Value() == coder
    }

    ghost predicate Valid()
      reads this, dynamicTable, parts, sendRecord, sendRecord.tableElemSize, sendRecord.entries
    {
      Apart() && held.Keys == streams.Keys && StreamsValid() && RestValid()
    }

    /** The streams share nothing with the rest of the connection. */
    ghost predicate Apart()
      reads this`parts, sendRecord
    {
      && this !in parts && dynamicTable !in parts
      && sendRecord !in parts && sendRecord.tableElemSize !in parts && sendRecord.entries !in parts
    }

    ghost predicate RestValid()
      reads this, dynamicTable, sendRecord, sendRecord.tableElemSize, sendRecord.entries
    {
      dynamicTable.Valid() && CompressorValid() && |localSettings| == |remoteSettings| == Settings.COUNT
    }

    ghost function Value(): Conn
      reads this, dynamicTable
    {
      Conn(clientSide, finishHandshake, prefaceSent, initialSettingsSent, pingPending, settingsPending, requestSettings,
           localSettings, remoteSettings, lastStreamId, nextLocalStreamId, held, receivedGoAway,
           receivedGoAwayStreamId, sentGoAway, sentGoAwayStreamId, draining, nextFrameLimit, nextStreamIdLimit,
           sendWindow, sendRecord.hash, coder, dynamicTable.State(), log)
    }

    constructor (clientSide: bool, hash: Coder.Hash)
      ensures Valid() && Value() == Init(clientSide, hash) && streams == map[] && parts == {}
      ensures fresh(dynamicTable) && fresh(sendRecord) && fresh(sendRecord.tableElemSize) && fresh(sendRecord.entries)
    {
      hide Coder.WithMaxSize, Coder.Init, Compressor.Compressor.Valid, Compressor.Compressor.Value,
           DynamicMetadataTable.Valid, DynamicMetadataTable.State;
      this.clientSide := clientSide;
      var settings := seq(Settings.COUNT, i requires 0 <= i < Settings.COUNT => Settings.Parameters(i).defaultValue);
      remoteSettings := settings;
      localSettings := settings[Settings.INITIAL_WINDOW_SIZE := INITIAL_WINDOW_SIZE]
                         [Settings.MAX_FRAME_SIZE := 16384]
                         [Settings.MAX_HEADER_LIST_SIZE := LOCAL_MAX_HEADER_LIST_SIZE];
      nextLocalStreamId := if clientSide then 1 else 2;
      finishHandshake := clientSide;
      dynamicTable := new DynamicMetadataTable(4096);
      sendRecord := new Compressor.Compressor(hash);
      lastStreamId, nextFrameLimit, nextStreamIdLimit := 0, false, 0;
      receivedGoAway, receivedGoAwayStreamId, sentGoAway, sentGoAwayStreamId, draining := false, 0, false, 0, false;
      prefaceSent, initialSettingsSent, pingPending, settingsPending := false, false, false, false;
      requestSettings, streams, sendWindow, log := [], map[], INITIAL_WINDOW_SIZE, [];
      held, parts, coder := map[], {}, Coder.Init();
      new;
      Coder.InitAtMaximum();
      sendRecord.SetMaxTableSize(remoteSettings[Settings.HEADER_TABLE_SIZE]);
    }

    // -------------------------------------------------------------- sending

    /** send_http2_frame and the event handler's callbacks, as entries of the log */
    method Emit(o: Output)
      requires Valid()
      modifies this`log
      ensures Valid() && Value() == Log(old(Value()), o)
    {
      hide StreamsValid, CompressorValid, DynamicMetadataTable.Valid, DynamicMetadataTable.State;
      log := log + [o];
    }

    method NonDefaultSettings() returns (vse: seq<(nat, nat)>)
      requires |localSettings| == Settings.COUNT
      ensures vse == NonDefault(localSettings, 1)
    {
      hide Settings.Parameters, NonDefault;
      vse := [];
      var i: nat := 1;
      while i < Settings.COUNT
        invariant 1 <= i <= Settings.COUNT
        invariant vse + NonDefault(localSettings, i) == NonDefault(localSettings, 1)
      {
        NonDefaultFrom(localSettings, i, vse);
        if localSettings[i] != Settings.Parameters(i).defaultValue {
          vse := vse + [(i, localSettings[i])];
        }
        i := i + 1;
      }
      NonDefaultFrom(localSettings, i, vse);
    }

    /** Fields that decide what a call sends. */
    lemma FlagsSay()
      requires Valid()
      ensures Value().clientSide == clientSide && Value().prefaceSent == prefaceSent
      ensures Value().initialSettingsSent == initialSettingsSent && Value().settingsPending == settingsPending
      ensures Value().pingPending == pingPending && Value().lastStreamId == lastStreamId
      ensures Value().localSettings == localSettings && |localSettings| == Settings.COUNT
      ensures Value().nextLocalStreamId == nextLocalStreamId && Value().streams.Keys == streams.Keys && Apart()
    {
    }

    method EnsurePrefaceSent()
      requires Valid()
      modifies this`log, this`settingsPending, this`prefaceSent
      ensures Valid() && Value() == PrefaceEnsured(old(Value()))
    {
      hide Valid, Value, Log, NonDefault;
      FlagsSay();
      if !clientSide || prefaceSent {
        return;
      }
      Emit(SentPreface);
      var vse := NonDefaultSettings();
      Emit(SentSettings(vse));
      NotePreface();
    }

    method NotePreface()
      requires Valid()
      modifies this`settingsPending, this`prefaceSent
      ensures Valid() && Value() == old(Value()).(settingsPending := true, prefaceSent := true)
    {
      hide StreamsValid, CompressorValid, DynamicMetadataTable.Valid, DynamicMetadataTable.State;
      settingsPending := true;
      prefaceSent := true;
    }

    method SendInitialSettings()
      requires Valid()
      modifies this`log, this`settingsPending, this`initialSettingsSent
      ensures Valid() && Value() == InitialSettingsSent(old(Value()))
    {
      hide Valid, Value, NonDefault;
      FlagsSay();
      if initialSettingsSent {
        return;
      }
      NoteInitialSettings();
      var vse := NonDefaultSettings();
      Emit(SentSettings(vse));
    }

    method NoteInitialSettings()
      requires Valid()
      modifies this`settingsPending, this`initialSettingsSent
      ensures Valid() && Value() == old(Value()).(settingsPending := true, initialSettingsSent := true)
    {
      hide StreamsValid, CompressorValid, DynamicMetadataTable.Valid, DynamicMetadataTable.State;
      initialSettingsSent := true;
      settingsPending := true;
    }

    method VerifyPrefaceDone()
      requires Valid()
      modifies this`finishHandshake
      ensures Valid() && Value() == old(Value()).(finishHandshake := true)
    {
      hide StreamsValid, CompressorValid, DynamicMetadataTable.Valid, DynamicMetadataTable.State;
      finishHandshake := true;
    }

    /** send_goaway, which always succeeds */
    method SendGoAway(errorCode: nat, named: nat, debug: bytes := [])
      requires Valid()
      modifies this`log, this`settingsPending, this`prefaceSent, this`sentGoAway, this`sentGoAwayStreamId
      ensures Valid() && Value() == GoAwaySent(old(Value()), errorCode, named, debug)
    {
      hide Valid, Value, PrefaceEnsured, Log;
      EnsurePrefaceSent();
      FlagsSay();
      var last := named;
      if last == 0 {
        last := lastStreamId;
      }
      Emit(SentGoAway(last, errorCode, debug));
      NoteSentGoAway(last);
    }

    method NoteSentGoAway(last: nat)
      requires Valid()
      modifies this`sentGoAway, this`sentGoAwayStreamId
      ensures Valid() && Value() == old(Value()).(sentGoAway := true, sentGoAwayStreamId := last)
    {
      hide StreamsValid, CompressorValid, DynamicMetadataTable.Valid, DynamicMetadataTable.State;
      sentGoAwayStreamId := last;
      sentGoAway := true;
    }

    method CheckDrainComplete()
      requires Valid()
      modifies this`log, this`draining
      ensures Valid() && Value() == DrainChecked(old(Value()))
    {
      hide StreamsValid, CompressorValid, DynamicMetadataTable.Valid, DynamicMetadataTable.State;
      assert streams == map[] <==> held == map[] by {
        assert streams.Keys == {} ==> streams == map[];
        assert held.Keys == {} ==> held == map[];
      }
      if draining && streams == map[] {
        draining := false;
        Emit(OnShutdownComplete);
      }
    }

    method Drain()
      requires Valid()
      modifies this`log, this`settingsPending, this`prefaceSent, this`sentGoAway, this`sentGoAwayStreamId, this`draining
      ensures Valid() && Value() == Drained(old(Value()))
    {
      hide StreamsValid, CompressorValid, GoAwaySent, DrainChecked, DynamicMetadataTable.Valid,
           DynamicMetadataTable.State;
      if sentGoAway {
        return;
      }
      SendGoAway(NO_ERROR, lastStreamId);
      draining := true;
      CheckDrainComplete();
    }

    // -------------------------------------------------------------- the stream map

    /** As StreamsValid, but the stream under `id` may hold something else by now. */
    ghost predicate StreamsValidBut(id: nat)
      requires held.Keys == streams.Keys
      reads this`streams, this`held, this`parts, parts
    {
      && (forall k :: k in streams ==> streams[k] in parts && streams[k].dataCache in parts)
      && (forall k :: k in streams ==> streams[k].id == k && streams[k].Valid())
      && (forall k :: k in streams && k != id ==> streams[k].Value() == held[k])
      && (forall i, j :: i in streams && j in streams && i != j ==> streams[i].dataCache != streams[j].dataCache)
    }

    /** A stream of the map changed and nothing else did. */
    twostate lemma OnlyOneChanged(s: Http2Stream)
      requires old(held.Keys == streams.Keys && StreamsValid())
      requires s.id in streams && streams[s.id] == s && s.Valid()
      requires streams == old(streams) && held == old(held) && parts == old(parts)
      requires unchanged(parts - {s, s.dataCache})
      ensures StreamsValidBut(s.id)
    {
      forall k | k in streams && k != s.id ensures streams[k].Valid() && streams[k].Value() == held[k] {
        assert old(streams[k].Valid() && streams[k].Value() == held[k]);
        assert streams[k] in parts - {s, s.dataCache} && streams[k].dataCache in parts - {s, s.dataCache};
      }
    }

    twostate lemma OneHeld(s: Http2Stream)
      requires old(held.Keys == streams.Keys && s.id in streams && streams[s.id] == s && StreamsValidBut(s.id))
      requires streams == old(streams) && parts == old(parts) && unchanged(parts)
      requires held == old(held)[s.id := s.Value()]
      ensures held.Keys == streams.Keys && StreamsValid()
    {
      assert held.Keys == old(held).Keys;
      forall k | k in streams ensures streams[k].Valid() && streams[k].Value() == held[k] {
        assert old(streams[k].Valid() && (k != s.id ==> streams[k].Value() == held[k]));
        assert streams[k] in parts && streams[k].dataCache in parts;
      }
    }

    /** Makes the changed stream's new value known. */
    ghost method Hold(s: Http2Stream)
      requires held.Keys == streams.Keys && s.id in streams && streams[s.id] == s && StreamsValidBut(s.id)
      requires s.Valid() && this !in parts
      modifies this`held
      ensures held == old(held)[s.id := s.Value()] && held.Keys == streams.Keys && StreamsValid()
    {
      hide StreamsValid, CompressorValid, StreamsValidBut, DynamicMetadataTable.Valid, DynamicMetadataTable.State;
      held := held[s.id := s.Value()];
      OneHeld(s);
    }

    twostate lemma OneMore(s: Http2Stream)
      requires old(held.Keys == streams.Keys && StreamsValid())
      requires s.Valid() && s !in old(parts) && s.dataCache !in old(parts) && unchanged(old(parts))
      requires streams == old(streams)[s.id := s] && held == old(held)[s.id := s.Value()]
      requires parts == old(parts) + {s, s.dataCache}
      ensures held.Keys == streams.Keys && StreamsValid()
    {
      assert held.Keys == old(held).Keys + {s.id} && streams.Keys == old(streams).Keys + {s.id};
      forall k | k in streams && k != s.id
        ensures streams[k] in old(parts) && streams[k].dataCache in old(parts) && streams[k].id == k
        ensures streams[k].Valid() && streams[k].Value() == held[k]
      {
        assert k in old(streams) && old(streams)[k] in old(parts) && old(streams)[k].dataCache in old(parts);
        assert old(streams[k].id == k && streams[k].Valid() && streams[k].Value() == held[k]);
      }
      forall i, j | i in streams && j in streams && i != j ensures streams[i].dataCache != streams[j].dataCache {
        assert i != s.id ==> i in old(streams);
        assert j != s.id ==> j in old(streams);
      }
    }

    twostate lemma OneLess(id: nat)
      requires old(held.Keys == streams.Keys && StreamsValid())
      requires unchanged(old(parts))
      requires streams == old(streams) - {id} && held == old(held) - {id}
      requires parts == old(parts) - if id in old(streams) then {old(streams)[id], old(streams)[id].dataCache} else {}
      ensures held.Keys == streams.Keys && StreamsValid()
    {
      assert held.Keys == old(held).Keys - {id} && streams.Keys == old(streams).Keys - {id};
      forall k | k in streams
        ensures streams[k] in parts && streams[k].dataCache in parts && streams[k].id == k
        ensures streams[k].Valid() && streams[k].Value() == held[k]
      {
        assert k in old(streams) && k != id && old(streams)[k] in old(parts) && old(streams)[k].dataCache in old(parts);
        assert old(streams[k].id == k && streams[k].Valid() && streams[k].Value() == held[k]);
        assert id in old(streams) ==> old(streams)[id].id == id;
      }
    }

    /** `_streams[id] = stream` for a stream just made */
    method Register(s: Http2Stream)
      requires Valid() && s.Valid() && s !in parts && s.dataCache !in parts
      modifies this`streams, this`held, this`parts
      ensures Valid() && Value() == Store(old(Value()), s.id, s.Value())
      ensures streams == old(streams)[s.id := s] && parts == old(parts) + {s, s.dataCache}
    {
      hide Valid, DynamicMetadataTable.State, Http2Stream.Value;
      Enter(s);
    }

    method Enter(s: Http2Stream)
      requires Valid() && s.Valid() && s !in parts && s.dataCache !in parts
      modifies this`streams, this`held, this`parts
      ensures Valid() && held == old(held)[s.id := s.Value()]
      ensures streams == old(streams)[s.id := s] && parts == old(parts) + {s, s.dataCache}
    {
      hide StreamsValid, CompressorValid, Http2Stream.Value, Http2Stream.Valid, DynamicMetadataTable.Valid,
           DynamicMetadataTable.State;
      streams := streams[s.id := s];
      held, parts := held[s.id := s.Value()], parts + {s, s.dataCache};
      OneMore(s);
    }

    /** destroy_stream */
    method DestroyStream(id: nat)
      requires Valid()
      modifies this`streams, this`held, this`parts
      ensures Valid() && held == old(held) - {id}
      ensures streams == old(streams) - {id}
      ensures parts == old(parts) - if id in old(streams) then {old(streams)[id], old(streams)[id].dataCache} else {}
    {
      hide StreamsValid, CompressorValid, DynamicMetadataTable.Valid, DynamicMetadataTable.State;
      if id in streams {
        parts := parts - {streams[id], streams[id].dataCache};
      }
      streams := streams - {id};
      held := held - {id};
      OneLess(id);
    }

    /** A stream of this connection that is in its map. */
    ghost predicate Ours(s: Http2Stream)
      reads this`streams
    {
      s.id in streams && streams[s.id] == s
    }

    lemma InMap(stream: Http2Stream)
      requires Valid() && Ours(stream)
      ensures stream.Valid() && stream.id in Value().streams && stream.Value() == Value().streams[stream.id]
      ensures stream in parts && stream.dataCache in parts && Apart()
    {
      hide RestValid;
    }

    /** As Valid, but the stream under `id` may hold something else by now. */
    ghost predicate ValidBut(id: nat)
      reads this, dynamicTable, parts, sendRecord, sendRecord.tableElemSize, sendRecord.entries
    {
      Apart() && held.Keys == streams.Keys && StreamsValidBut(id) && RestValid()
    }

    /** A stream of the map changed, or its data did, and nothing else. */
    twostate lemma OneChanged(s: Http2Stream)
      requires old(Valid()) && old(Ours(s)) && s.Valid() && unchanged(this) && unchanged(parts - {s, s.dataCache})
      requires unchanged(dynamicTable) && unchanged(sendRecord)
      requires unchanged(sendRecord.tableElemSize, sendRecord.entries)
      ensures ValidBut(s.id) && Value() == old(Value())
    {
      hide StreamsValid, StreamsValidBut, CompressorValid, DynamicMetadataTable.Valid, DynamicMetadataTable.State;
      OnlyOneChanged(s);
    }

    /** What changed becomes the connection's value. */
    ghost method Keep(s: Http2Stream)
      requires ValidBut(s.id) && Ours(s) && s.Valid()
      modifies this`held
      ensures Valid() && Value() == Store(old(Value()), s.id, s.Value()) && s.Value() == Value().streams[s.id]
    {
      hide StreamsValid, StreamsValidBut, CompressorValid, DynamicMetadataTable.Valid, DynamicMetadataTable.State,
           Http2Stream.Valid, Http2Stream.Value;
      Hold(s);
    }

    /** A stream that is not in the map changed. */
    twostate lemma Elsewhere(s: Http2Stream)
      requires old(Valid()) && s !in parts && unchanged(this) && unchanged(parts)
      requires unchanged(dynamicTable) && unchanged(sendRecord)
      requires unchanged(sendRecord.tableElemSize, sendRecord.entries)
      ensures Valid() && Value() == old(Value())
    {
      hide StreamsValid, CompressorValid, DynamicMetadataTable.Valid, DynamicMetadataTable.State;
    }

    // What happens to a stream of the map, and so to the connection's value.

    method RstSent(stream: Http2Stream)
      requires Valid() && Ours(stream)
      modifies stream, this`held
      ensures Valid()
      ensures var s := old(Value()).streams[stream.id];
              Value() == Store(old(Value()), stream.id, Moved(s, Send(RstStream)))
      ensures stream.Valid() && stream.Value() == Value().streams[stream.id]
    {
      hide Valid, Value, ValidBut, Http2Stream.Valid, Http2Stream.Value;
      InMap(stream);
      stream.SendRstStream();
      OneChanged(stream);
      Keep(stream);
    }

    method PushPromised(stream: Http2Stream)
      requires Valid() && Ours(stream)
      modifies stream, this`held
      ensures Valid()
      ensures var s := old(Value()).streams[stream.id];
              Value() == Store(old(Value()), stream.id, Moved(s, Send(PushPromise)))
      ensures stream.Valid() && stream.Value() == Value().streams[stream.id]
    {
      hide Valid, Value, ValidBut, Http2Stream.Valid, Http2Stream.Value;
      InMap(stream);
      stream.SendPushPromise();
      OneChanged(stream);
      Keep(stream);
    }

    method SaveFrame(stream: Http2Stream, h: FrameHeader)
      requires Valid() && Ours(stream)
      modifies stream, this`held
      ensures Valid()
      ensures var s := old(Value()).streams[stream.id];
              Value() == Store(old(Value()), stream.id, FrameSeen(s, h.ftype, h.flags))
      ensures stream.Valid() && stream.Value() == Value().streams[stream.id]
    {
      hide Valid, Value, ValidBut, Http2Stream.Valid, Http2Stream.Value;
      InMap(stream);
      stream.SaveFrameInfo(h.ftype, h.flags);
      OneChanged(stream);
      Keep(stream);
    }

    method TakeHeaders(stream: Http2Stream, h: FrameHeader, decoded: seq<Header>)
      requires Valid() && Ours(stream)
      modifies stream, this`held
      ensures Valid()
      ensures var s := old(Value()).streams[stream.id];
              Value() == Store(old(Value()), stream.id, FrameSeen(HeadersReceived(s, decoded), h.ftype, h.flags))
      ensures stream.Valid() && stream.Value() == Value().streams[stream.id]
    {
      hide Valid, Value, ValidBut, Http2Stream.Valid, Http2Stream.Value;
      InMap(stream);
      stream.RecvHeaders(decoded);
      stream.SaveFrameInfo(h.ftype, h.flags);
      OneChanged(stream);
      Keep(stream);
    }

    method TakePriority(stream: Http2Stream, h: FrameHeader, priority: Priority)
      requires Valid() && Ours(stream)
      modifies stream, this`held
      ensures Valid()
      ensures var s := old(Value()).streams[stream.id];
              Value() == Store(old(Value()), stream.id, FrameSeen(s.(priority := priority), h.ftype, h.flags))
      ensures stream.Valid() && stream.Value() == Value().streams[stream.id]
    {
      hide Valid, Value, ValidBut, Http2Stream.Valid, Http2Stream.Value;
      InMap(stream);
      stream.SetPriorityInfo(priority);
      stream.SaveFrameInfo(h.ftype, h.flags);
      OneChanged(stream);
      Keep(stream);
    }

    method TakeRst(stream: Http2Stream, h: FrameHeader, errorCode: nat)
      requires Valid() && Ours(stream)
      modifies stream, this`held
      ensures Valid()
      ensures var s := old(Value()).streams[stream.id];
              Value() == Store(old(Value()), stream.id, FrameSeen(RstReceived(s, errorCode), h.ftype, h.flags))
      ensures stream.Valid() && stream.Value() == Value().streams[stream.id]
    {
      hide Valid, Value, ValidBut, Http2Stream.Valid, Http2Stream.Value;
      InMap(stream);
      stream.RecvRstStream(errorCode);
      stream.SaveFrameInfo(h.ftype, h.flags);
      OneChanged(stream);
      Keep(stream);
    }

    method AddHeaders(stream: Http2Stream, h: FrameHeader, decoded: seq<Header>)
      requires Valid() && Ours(stream)
      modifies stream, this`held
      ensures Valid()
      ensures var s := old(Value()).streams[stream.id];
              Value() == Store(old(Value()), stream.id, FrameSeen(s.(headers := s.headers + decoded), h.ftype, h.flags))
      ensures stream.Valid() && stream.Value() == Value().streams[stream.id]
    {
      hide Valid, Value, ValidBut, Http2Stream.Valid, Http2Stream.Value;
      InMap(stream);
      stream.AppendHeaders(decoded);
      stream.SaveFrameInfo(h.ftype, h.flags);
      OneChanged(stream);
      Keep(stream);
    }

    method AddData(stream: Http2Stream, data: bytes)
      requires Valid() && Ours(stream)
      modifies stream.dataCache, this`held
      ensures Valid()
      ensures var s := old(Value()).streams[stream.id];
              Value() == Store(old(Value()), stream.id, s.(data := s.data + data))
      ensures stream.Valid() && stream.Value() == Value().streams[stream.id]
    {
      hide Valid, Value, ValidBut, Http2Stream.Valid, Http2Stream.Value;
      InMap(stream);
      stream.AppendData(data);
      OneChanged(stream);
      Keep(stream);
    }

    method TakePromise(stream: Http2Stream, h: FrameHeader, decoded: seq<Header>)
      requires Valid() && Ours(stream)
      modifies stream, this`held
      ensures Valid()
      ensures var s := FrameSeen(Moved(old(Value()).streams[stream.id], Recv(PushPromise)), h.ftype, h.flags);
              Value() == Store(old(Value()), stream.id, s.(headers := s.headers + decoded))
      ensures stream.Valid() && stream.Value() == Value().streams[stream.id]
    {
      hide Valid, Value, ValidBut, Http2Stream.Valid, Http2Stream.Value;
      InMap(stream);
      stream.RecvPushPromise();
      stream.SaveFrameInfo(h.ftype, h.flags);
      stream.AppendHeaders(decoded);
      OneChanged(stream);
      Keep(stream);
    }

    method Unwritable(stream: Http2Stream)
      requires Valid() && Ours(stream)
      modifies stream, this`held
      ensures Valid()
      ensures var s := old(Value()).streams[stream.id];
              Value() == Store(old(Value()), stream.id, s.(writeClosed := true))
      ensures stream.Valid() && stream.Value() == Value().streams[stream.id]
    {
      hide Valid, Value, ValidBut, Http2Stream.Valid, Http2Stream.Value;
      InMap(stream);
      stream.MarkUnwritable();
      OneChanged(stream);
      Keep(stream);
    }

    /** What the stream_send_* calls do once the stream has changed. */
    method DestroyIfClosed(stream: Http2Stream)
      requires Valid()
      modifies this`streams, this`held, this`parts, this`log, this`draining
      ensures Valid() && parts <= old(parts)
      ensures Value() == if stream.state == Closed
                         then DrainChecked(old(Value()).(streams := old(Value()).streams - {stream.id}))
                         else old(Value())
      ensures stream.state != Closed ==> streams == old(streams) && parts == old(parts)
    {
      hide StreamsValid, CompressorValid, DrainChecked, DynamicMetadataTable.Valid, DynamicMetadataTable.State;
      if stream.state == Closed {
        DestroyStream(stream.id);
        CheckDrainComplete();
      }
    }

    /** The tests at the head of create_stream. */
    method StreamAllowed() returns (ok: bool)
      requires Valid()
      ensures ok <==> MayCreate(Value())
    {
      hide StreamsValid, CompressorValid, DynamicMetadataTable.Valid, DynamicMetadataTable.State;
      assert |streams| == |streams.Keys| && |held| == |held.Keys|;
      if nextLocalStreamId >= STREAM_ID_LIMIT - 1 || receivedGoAway || sentGoAway {
        return false;
      }
      var maxStreams := remoteSettings[Settings.MAX_CONCURRENT_STREAMS];
      return maxStreams == 0 || |streams| < maxStreams;
    }

    method CreateStream() returns (s: Http2Stream?)
      requires Valid()
      modifies this`streams, this`held, this`parts, this`nextLocalStreamId
      ensures Valid() && fresh(parts - old(parts))
      ensures s == null <==> !MayCreate(old(Value()))
      ensures Value() == if s != null then Created(old(Value())) else old(Value())
      ensures s != null ==>
                s.id == old(nextLocalStreamId) && Ours(s) && fresh(s) && s.Valid() && s.Value() == NewStream()
    {
      hide Valid, Value, MayCreate, Http2Stream.Value, Http2Stream.Valid;
      var ok := StreamAllowed();
      if !ok {
        return null;
      }
      FlagsSay();
      s := new Http2Stream(nextLocalStreamId);
      Register(s);
      NextId();
    }

    method NextId()
      requires Valid()
      modifies this`nextLocalStreamId
      ensures Valid() && nextLocalStreamId == old(nextLocalStreamId) + 2
      ensures Value() == old(Value()).(nextLocalStreamId := nextLocalStreamId)
    {
      hide StreamsValid, CompressorValid, DynamicMetadataTable.Valid, DynamicMetadataTable.State;
      nextLocalStreamId := nextLocalStreamId + 2;
    }

    // -------------------------------------------------------------- calls

    method SendPing(opaqueData: bytes) returns (ok: bool)
      requires Valid()
      modifies this`log, this`settingsPending, this`prefaceSent, this`pingPending
      ensures Valid() && Value() == PingSent(old(Value()), opaqueData) && (ok <==> !old(pingPending))
    {
      hide StreamsValid, CompressorValid, PrefaceEnsured, DynamicMetadataTable.Valid, DynamicMetadataTable.State;
      EnsurePrefaceSent();
      if pingPending {
        return false;
      }
      Emit(SentPing(opaqueData, false));
      pingPending := true;
      return true;
    }

    method SendSettings(settings: seq<(nat, nat)>) returns (ok: bool)
      requires Valid()
      modifies this`log, this`settingsPending, this`prefaceSent, this`requestSettings
      ensures Valid() && Value() == SettingsSent(old(Value()), settings)
      ensures ok <==> settings != [] && !PrefaceEnsured(old(Value())).settingsPending
    {
      hide Valid, Value, PrefaceEnsured;
      EnsurePrefaceSent();
      FlagsSay();
      if settings == [] {
        return false;
      }
      if settingsPending {
        return false;
      }
      NoteRequest(settings);
      Emit(SentSettings(settings));
      return true;
    }

    method NoteRequest(settings: seq<(nat, nat)>)
      requires Valid()
      modifies this`settingsPending, this`requestSettings
      ensures Valid() && Value() == old(Value()).(settingsPending := true, requestSettings := settings)
    {
      hide StreamsValid, CompressorValid, DynamicMetadataTable.Valid, DynamicMetadataTable.State;
      settingsPending := true;
      requestSettings := settings;
    }

    method SendWindowUpdate(id: nat, connectionIncrement: nat, streamIncrement: nat) returns (ok: bool)
      requires Valid()
      modifies this`log, this`settingsPending, this`prefaceSent
      ensures Valid() && Value() == WindowUpdateSent(old(Value()), id, connectionIncrement, streamIncrement)
      ensures ok <==> connectionIncrement % STREAM_ID_LIMIT > 0 ||
                      (id in old(streams) && streamIncrement % STREAM_ID_LIMIT > 0)
    {
      hide StreamsValid, CompressorValid, PrefaceEnsured, Log, DynamicMetadataTable.Valid, DynamicMetadataTable.State;
      EnsurePrefaceSent();
      var connInc := connectionIncrement % STREAM_ID_LIMIT;
      var streamInc := streamIncrement % STREAM_ID_LIMIT;
      if streamInc > 0 && id !in streams {
        streamInc := 0;
      }
      if streamInc > 0 {
        Emit(SentWindowUpdate(id, streamInc));
      }
      if connInc > 0 {
        Emit(SentWindowUpdate(0, connInc));
      }
      return streamInc > 0 || connInc > 0;
    }

    method SendRstStream(id: nat, errorCode: nat) returns (ok: bool)
      requires Valid()
      modifies this`log, this`settingsPending, this`prefaceSent, this`streams, this`held, this`parts, this`draining,
               parts
      ensures Valid() && parts <= old(parts) && Value() == RstStreamSent(old(Value()), id, errorCode)
      ensures ok <==> id in old(streams)
    {
      hide Valid, Value, PrefaceEnsured, Settle, Moved;
      EnsurePrefaceSent();
      FlagsSay();
      if id !in streams {
        return false;
      }
      Emit(SentRstStream(id, errorCode));
      FlagsSay();
      ResetStream(id);
      return true;
    }

    /** The end of send_rst_stream: the stream moves, and goes if that closed it. */
    method ResetStream(id: nat)
      requires Valid() && id in streams
      modifies this`streams, this`held, this`parts, this`draining, this`log, parts
      ensures Valid() && parts <= old(parts) && id in old(Value()).streams
      ensures Value() == Settle(old(Value()), id, Moved(old(Value()).streams[id], Send(RstStream)))
    {
      hide Valid, Value, DrainChecked, Moved, Http2Stream.Valid;
      FlagsSay();
      ghost var p := Value();
      var stream := Stored(id);
      RstSent(stream);
      DestroyIfClosed(stream);
      StoreThenRemove(p, id, Moved(p.streams[id], Send(RstStream)));
    }

    /** A handle the application may use: on a stream of the map, or on one no longer there. */
    ghost predicate Usable(stream: Http2Stream)
      reads this`streams, this`parts
    {
      Ours(stream) || (stream !in parts && stream.dataCache !in parts)
    }

    ghost function HandleOn(stream: Http2Stream): Holding
      requires stream.Valid()
      reads this`streams, stream, stream.dataCache
    {
      if Ours(stream) then Live else Stale(stream.Value())
    }

    /** The source asserts that an entry's size fits 16 bits. */
    predicate Encodable(headers: seq<Header>)
    {
      forall i :: 0 <= i < |headers| && StaticTable.KeyExists(headers[i].key) ==> EntrySize(headers[i]) < 65536
    }

    lemma CoderIsSound()
      requires Valid()
      ensures Value().compressor == coder && Value().hash == sendRecord.hash && Coder.WellFormed(coder)
    {
    }

    /** The compressor goes over a header list: the octets of its slices, merged. */
    method Encode(headers: seq<Header>) returns (block: bytes)
      requires Valid() && Encodable(headers)
      modifies this`coder, sendRecord, sendRecord.tableElemSize, sendRecord.entries
      ensures Valid() && sendRecord.tableElemSize == old(sendRecord.tableElemSize)
      ensures Coder.WellFormed(old(Value()).compressor)
      ensures var e := Coder.EncodeBlock(old(Value()).compressor, headers, old(Value()).hash);
              Value() == old(Value()).(compressor := e.state) && block == e.octets
    {
      hide StreamsValid, Coder.WellFormed, Coder.EncodeBlock, Compressor.Compressor.Valid,
           Compressor.Compressor.Value, DynamicMetadataTable.Valid, DynamicMetadataTable.State;
      CoderIsSound();
      var output := sendRecord.EncodeHeaders(headers, true);
      coder := sendRecord.Value();
      block := Concat(output);
    }

    method HandleHeadersSent(stream: Http2Stream, endStream: bool)
      requires Valid() && stream.Valid() && Usable(stream)
      modifies stream, this`held
      ensures Valid() && stream.Valid() && stream.Value() == SendHeadersChange(endStream)(old(stream.Value()))
      ensures Value() == if Ours(stream) then Store(old(Value()), stream.id, stream.Value()) else old(Value())
    {
      hide Valid, Value, ValidBut, Moved, EndSent, Http2Stream.Valid, Http2Stream.Value;
      if Ours(stream) {
        InMap(stream);
      }
      stream.SendHeaders();
      if endStream {
        stream.SendEndStream();
      }
      if Ours(stream) {
        OneChanged(stream);
        Keep(stream);
      } else {
        Elsewhere(stream);
      }
    }

    method HandleDataSent(stream: Http2Stream, endStream: bool)
      requires Valid() && stream.Valid() && Usable(stream)
      modifies stream, this`held
      ensures Valid() && stream.Valid() && stream.Value() == SendDataChange(endStream)(old(stream.Value()))
      ensures Value() == if Ours(stream) then Store(old(Value()), stream.id, stream.Value()) else old(Value())
    {
      hide Valid, Value, ValidBut, Moved, EndSent, Http2Stream.Valid, Http2Stream.Value;
      if Ours(stream) {
        InMap(stream);
      }
      if endStream {
        stream.SendEndStream();
      }
      if Ours(stream) {
        OneChanged(stream);
        Keep(stream);
      } else {
        Elsewhere(stream);
      }
    }

    /** What the map and a handle on one of its streams say of the connection's value. */
    lemma MapSays(stream: Http2Stream)
      requires Valid() && stream.Valid()
      ensures stream.id in Value().streams <==> stream.id in streams
      ensures Ours(stream) ==> stream.Value() == Value().streams[stream.id]
    {
    }

    /** stream_send_headers, and stream_send_trailing_headers with `endStream` */
    method StreamSendHeaders(stream: Http2Stream, headers: seq<Header>, endStream: bool) returns (ok: bool)
      requires Valid() && stream.Valid() && Usable(stream) && Encodable(headers)
      modifies this`log, this`settingsPending, this`prefaceSent, this`streams, this`held, this`parts, this`draining,
               this`coder, stream, sendRecord, sendRecord.tableElemSize, sendRecord.entries
      ensures Valid() && parts <= old(parts) && (ok <==> stream.id in old(streams))
      ensures Coder.WellFormed(old(Value()).compressor)
      ensures Value() == HeadersSent(old(Value()), stream.id, old(HandleOn(stream)), headers, endStream)
      ensures ok ==> stream.Valid() && stream.Value() == SendHeadersChange(endStream)(old(stream.Value()))
    {
      hide Valid, Value, PrefaceEnsured, Log, DrainChecked, SendHeadersChange, Coder.WellFormed,
           Coder.EncodeBlock, Http2Stream.Valid;
      CoderIsSound();
      EnsurePrefaceSent();
      PrefaceLeavesCoder(old(Value()));
      MapSays(stream);
      if stream.id !in streams {
        return false;
      }
      var block := Encode(headers);
      Emit(SentHeaders(stream.id, block, endStream));
      ghost var p := Value();
      MapSays(stream);
      HandleHeadersSent(stream, endStream);
      StoreThenRemove(p, stream.id, stream.Value());
      DestroyIfClosed(stream);
      return true;
    }

    /** send_binary_in_data_frame without a flow control handler */
    method SendDataFrame(id: nat, data: bytes, endStream: bool)
      requires Valid()
      modifies this`log, this`sendWindow
      ensures Valid() && Value() == DataFrameSent(old(Value()), id, data, endStream)
    {
      hide StreamsValid, CompressorValid, DynamicMetadataTable.Valid, DynamicMetadataTable.State;
      if |data| == 0 && !endStream {
        return;
      }
      if |data| > 0 && |data| > sendWindow {
        return;
      }
      sendWindow := sendWindow - |data|;
      Emit(SentData(id, data, endStream));
    }

    method StreamSendData(stream: Http2Stream, data: bytes, endStream: bool) returns (ok: bool)
      requires Valid() && stream.Valid() && Usable(stream)
      modifies this`log, this`settingsPending, this`prefaceSent, this`streams, this`held, this`parts, this`draining,
               this`sendWindow, stream
      ensures Valid() && parts <= old(parts) && (ok <==> stream.id in old(streams))
      ensures Value() == DataSent(old(Value()), stream.id, old(HandleOn(stream)), data, endStream)
      ensures ok ==> stream.Valid() && stream.Value() == SendDataChange(endStream)(old(stream.Value()))
    {
      hide Valid, Value, PrefaceEnsured, Log, DrainChecked, SendDataChange, DataFrameSent, Http2Stream.Valid;
      EnsurePrefaceSent();
      MapSays(stream);
      if stream.id !in streams {
        return false;
      }
      SendDataFrame(stream.id, data, endStream);
      ghost var p := Value();
      MapSays(stream);
      HandleDataSent(stream, endStream);
      StoreThenRemove(p, stream.id, stream.Value());
      DestroyIfClosed(stream);
      return true;
    }

    method SendPushPromise(request: Http2Stream, headers: seq<Header>) returns (promised: Http2Stream?)
      requires Valid() && Encodable(headers)
      modifies this`streams, this`held, this`parts, this`nextLocalStreamId, this`log, this`coder, sendRecord,
               sendRecord.tableElemSize, sendRecord.entries
      ensures Valid() && fresh(parts - old(parts)) && Coder.WellFormed(old(Value()).compressor)
      ensures |old(Value()).localSettings| == |old(Value()).remoteSettings| == Settings.COUNT
      ensures Value() == PushPromiseSent(old(Value()), request.id, headers)
      ensures promised == null <==> !MayPromise(old(Value()))
      ensures promised != null ==>
                && Ours(promised) && promised.id == old(nextLocalStreamId) && fresh(promised) && promised.Valid()
                && promised.Value() == Moved(NewStream(), Send(PushPromise))
    {
      hide StreamsValid, CompressorValid, MayCreate, Moved, Coder.WellFormed, Coder.EncodeBlock,
           DynamicMetadataTable.Valid, Http2Stream.Valid, Http2Stream.Value, DynamicMetadataTable.State;
      CoderIsSound();
      if clientSide {
        return null;
      }
      if localSettings[Settings.ENABLE_PUSH] == 0 {
        return null;
      }
      promised := CreateStream();
      if promised == null {
        return null;
      }
      var block := Encode(headers);
      Emit(SentPushPromise(request.id, promised.id, block));
      PushPromised(promised);
    }

    // -------------------------------------------------------------- receiving

    /** The stream a frame's handler is given: the one find_stream returns for the frame's id. */
    ghost predicate Given(stream: Http2Stream?, id: nat)
      reads this`streams
    {
      if id > 0 && id in streams then stream != null && stream == streams[id] && stream.id == id else stream == null
    }

    /** find_stream, for ids above 0 */
    method FindStream(id: nat) returns (s: Http2Stream?)
      requires Valid()
      ensures Given(s, id)
    {
      s := if id > 0 && id in streams then streams[id] else null;
    }

    lemma GivenSays(stream: Http2Stream?, id: nat)
      requires Valid() && Given(stream, id)
      ensures Apart() && (stream == null <==> Find(Value(), id).None?)
      ensures stream != null ==> Ours(stream) && stream in parts && stream.dataCache in parts && stream.Valid()
      ensures stream != null ==> id > 0 && id in Value().streams && stream.Value() == Value().streams[id]
    {
    }

    /** decode_headers on the connection's table */
    method Decode(fragment: bytes, huffman: Huffman) returns (error: HeaderDecoder.Error, headers: seq<Header>)
      requires Valid()
      modifies dynamicTable
      ensures Valid()
      ensures var d := HeaderDecoder.DecodeSpec(fragment, old(Value()).table, huffman);
              Value() == old(Value()).(table := d.table) && error == d.error && headers == d.headers
    {
      hide StreamsValid, CompressorValid, HeaderDecoder.DecodeSpec, DynamicMetadataTable.Valid,
           DynamicMetadataTable.State;
      error, headers := HeaderDecoder.DecodeHeaders(fragment, dynamicTable, huffman);
    }

    method EndOfBlock(h: FrameHeader, id: nat)
      requires Valid()
      modifies this`nextFrameLimit, this`nextStreamIdLimit, this`log
      ensures Valid() && Value() == BlockSeen(old(Value()), h, id)
    {
      hide StreamsValid, CompressorValid, HasFlag, DynamicMetadataTable.Valid, DynamicMetadataTable.State;
      if HasFlag(h.flags, END_HEADERS) {
        nextFrameLimit := false;
        nextStreamIdLimit := 0;
        Emit(OnStreamHeaders(id));
      } else {
        nextFrameLimit := true;
        nextStreamIdLimit := h.streamId;
      }
    }

    method ReceivedData(stream: Http2Stream?, h: FrameHeader, data: bytes, padLen: nat)
      requires Valid() && Given(stream, h.streamId)
      modifies this`log, this`settingsPending, this`prefaceSent, this`sentGoAway, this`sentGoAwayStreamId, this`held,
               parts
      ensures Valid() && Value() == DataReceived(old(Value()), h, data, padLen)
    {
      hide StreamsValid, CompressorValid, Value, DynamicMetadataTable.Valid, GoAwaySent, Log, FrameSeen,
           WindowUpdateSent, Http2Stream.Valid, DynamicMetadataTable.State;
      GivenSays(stream, h.streamId);
      if h.streamId == 0 || padLen >= h.length {
        SendGoAway(PROTOCOL_ERROR, 0);
        return;
      }
      ghost var before := Value();
      if stream != null {
        SaveFrame(stream, h);
      }
      if data == [] || stream == null {
        return;
      }
      ghost var seen := stream.Value();
      StoreTwice(before, stream.id, seen, seen.(data := seen.data + data));
      AddData(stream, data);
      Emit(OnStreamData(stream.id, data));
      var _ := SendWindowUpdate(stream.id, |data|, |data|);
      if stream.state == Closed {
        Emit(OnStreamClosed(stream.id, 0));
      }
    }

    /** `make_shared<http2_stream>`, into the map */
    method NewStreamFor(id: nat) returns (s: Http2Stream)
      requires Valid()
      modifies this`streams, this`held, this`parts
      ensures Valid() && fresh(parts - old(parts)) && Value() == Store(old(Value()), id, NewStream())
      ensures Ours(s) && s.id == id && fresh(s) && s.Valid() && s in parts && s.dataCache in parts
      ensures streams == old(streams)[id := s]
    {
      hide Valid, Value, Http2Stream.Value, Http2Stream.Valid;
      s := new Http2Stream(id);
      Register(s);
    }

    /** The end of received_headers: the stream takes the block. */
    method TakeBlock(stream: Http2Stream, h: FrameHeader, decoded: seq<Header>)
      requires Valid() && Ours(stream) && stream.id == h.streamId
      modifies stream, this`held, this`nextFrameLimit, this`nextStreamIdLimit, this`log
      ensures Valid() && Value() == HeadersTaken(old(Value()), h, old(Value()).streams[stream.id], decoded)
    {
      hide StreamsValid, CompressorValid, Value, DynamicMetadataTable.Valid, FrameSeen, HeadersReceived, BlockSeen,
           Http2Stream.Valid, DynamicMetadataTable.State;
      TakeHeaders(stream, h, decoded);
      EndOfBlock(h, stream.id);
    }

    method ReceivedHeaders(found: Http2Stream?, h: FrameHeader, fragment: bytes, padLen: nat, huffman: Huffman)
      returns (stream: Http2Stream?)
      requires Valid() && Given(found, h.streamId)
      modifies this, dynamicTable, parts
      ensures Valid() && fresh(parts - old(parts)) && Given(stream, h.streamId)
      ensures Value() == HeadersFrameReceived(old(Value()), h, fragment, padLen, huffman)
    {
      hide StreamsValid, CompressorValid, Value, DynamicMetadataTable.Valid, GoAwaySent, HeaderDecoder.DecodeSpec,
           HeadersTaken, Http2Stream.Valid, ErrorCode, Store, DynamicMetadataTable.State;
      stream := found;
      if h.streamId == 0 || padLen >= h.length {
        SendGoAway(PROTOCOL_ERROR, 0);
        return;
      }
      var err, decoded := Decode(fragment, huffman);
      if err != HeaderDecoder.NoError {
        SendGoAway(ErrorCode(err), 0);
        return;
      }
      GivenSays(stream, h.streamId);
      if stream != null && stream.state != Idle {
        SendGoAway(PROTOCOL_ERROR, 0);
        return;
      }
      FieldsSay();
      if stream == null {
        if IsLocal(clientSide, h.streamId) {
          SendGoAway(PROTOCOL_ERROR, 0);
          return;
        }
        if sentGoAway && h.streamId > sentGoAwayStreamId {
          return;
        }
        ghost var before := Value();
        stream := NewStreamFor(h.streamId);
        TakenByNew(before, h, decoded);
      }
      TakeBlock(stream, h, decoded);
    }

    lemma HandshakeSays()
      requires Valid()
      ensures Value().finishHandshake == finishHandshake
    {
    }

    /** Fields that decide what a frame may do. */
    lemma FieldsSay()
      requires Valid()
      ensures Value().clientSide == clientSide
      ensures Value().sentGoAway == sentGoAway && Value().sentGoAwayStreamId == sentGoAwayStreamId
      ensures Value().nextFrameLimit == nextFrameLimit && Value().nextStreamIdLimit == nextStreamIdLimit
      ensures Value().localSettings == localSettings && Value().remoteSettings == remoteSettings
      ensures |localSettings| == |remoteSettings| == Settings.COUNT
    {
    }

    method ReceivedPriority(stream: Http2Stream?, h: FrameHeader, priority: Priority)
      requires Valid() && Given(stream, h.streamId)
      modifies this`log, this`settingsPending, this`prefaceSent, this`sentGoAway, this`sentGoAwayStreamId, this`held,
               parts
      ensures Valid() && Value() == PriorityReceived(old(Value()), h, priority)
    {
      hide StreamsValid, CompressorValid, Value, DynamicMetadataTable.Valid, GoAwaySent, FrameSeen, Http2Stream.Valid,
           DynamicMetadataTable.State;
      GivenSays(stream, h.streamId);
      if h.streamId == 0 {
        SendGoAway(PROTOCOL_ERROR, 0);
        return;
      }
      if h.streamId == priority.dependStreamId {
        SendGoAway(PROTOCOL_ERROR, 0);
        return;
      }
      if stream != null {
        TakePriority(stream, h, priority);
      }
    }

    method ReceivedRstStream(stream: Http2Stream?, h: FrameHeader, errorCode: nat)
      requires Valid() && Given(stream, h.streamId)
      modifies this`log, this`settingsPending, this`prefaceSent, this`sentGoAway, this`sentGoAwayStreamId, this`held,
               parts
      ensures Valid() && Value() == RstStreamReceived(old(Value()), h, errorCode)
    {
      hide StreamsValid, CompressorValid, Value, DynamicMetadataTable.Valid, GoAwaySent, FrameSeen, Log, RstReceived,
           Http2Stream.Valid, DynamicMetadataTable.State;
      GivenSays(stream, h.streamId);
      if stream == null {
        SendGoAway(PROTOCOL_ERROR, 0);
        return;
      }
      TakeRst(stream, h, errorCode);
      Emit(OnStreamClosed(stream.id, errorCode));
    }

    /** The acknowledgement of what was asked for with send_settings. */
    method SettingsAcknowledged()
      requires Valid()
      modifies this`localSettings, this`settingsPending, this`requestSettings
      ensures Valid()
      ensures Value() == old(Value()).(localSettings := AckedSettings(old(localSettings), old(requestSettings)),
                                       settingsPending := false, requestSettings := [])
    {
      hide StreamsValid, CompressorValid, DynamicMetadataTable.Valid, DynamicMetadataTable.State, AckedSettings;
      TakeRequests();
      settingsPending := false;
      requestSettings := [];
    }

    method TakeRequests()
      requires |localSettings| == Settings.COUNT
      modifies this`localSettings
      ensures localSettings == AckedSettings(old(localSettings), requestSettings)
    {
      var i: nat := 0;
      assert requestSettings[0..] == requestSettings;
      while i < |requestSettings|
        invariant i <= |requestSettings| && |localSettings| == Settings.COUNT
        invariant AckedSettings(localSettings, requestSettings[i..]) ==
                  AckedSettings(old(localSettings), requestSettings)
      {
        var (id, value) := requestSettings[i];
        if id < Settings.COUNT {
          localSettings := localSettings[id := value];
        }
        assert requestSettings[i..][1..] == requestSettings[i + 1..];
        i := i + 1;
      }
      assert requestSettings[i..] == [];
    }

    method ApplySetting(id: nat, value: nat)
      requires Valid() && id < Settings.COUNT
      modifies this`remoteSettings, this`coder, sendRecord
      ensures Valid() && Value() == SettingApplied(old(Value()), id, value)
      ensures fresh(sendRecord.tableElemSize) || sendRecord.tableElemSize == old(sendRecord.tableElemSize)
    {
      hide StreamsValid, DynamicMetadataTable.Valid, Settings.Parameters, Coder.WithMaxSize, Coder.WellFormed,
           Compressor.Compressor.Valid, Compressor.Compressor.Value, DynamicMetadataTable.State;
      var stored := Settings.Clamp(id, value);
      remoteSettings := remoteSettings[id := stored];
      if id == Settings.HEADER_TABLE_SIZE {
        sendRecord.SetMaxTableSize(stored);
        coder := sendRecord.Value();
      }
    }

    method ReceivedSettings(h: FrameHeader, settings: seq<(nat, nat)>)
      requires Valid()
      modifies this`log, this`settingsPending, this`prefaceSent, this`sentGoAway, this`sentGoAwayStreamId,
               this`localSettings, this`remoteSettings, this`requestSettings, this`coder, sendRecord
      ensures fresh(sendRecord.tableElemSize) || sendRecord.tableElemSize == old(sendRecord.tableElemSize)
      ensures Valid() && Value() == SettingsReceived(old(Value()), h, settings)
    {
      hide StreamsValid, CompressorValid, Value, DynamicMetadataTable.Valid, GoAwaySent, Log, HasFlag, AckedSettings,
           ApplySettings, DynamicMetadataTable.State;
      FieldsSay();
      if h.streamId != 0 {
        SendGoAway(PROTOCOL_ERROR, 0);
        return;
      }
      if HasFlag(h.flags, ACK) {
        if h.length != 0 {
          SendGoAway(FRAME_SIZE_ERROR, 0);
          return;
        }
        RequestsSay();
        SettingsAcknowledged();
        Emit(OnSettings([], true));
        return;
      }
      var refused, seen := ApplyAll(settings);
      if refused {
        return;
      }
      Emit(OnSettings(seen, false));
      Emit(SentSettingsAck);
    }

    lemma RequestsSay()
      requires Valid()
      ensures Value().requestSettings == requestSettings && Value().localSettings == localSettings
    {
    }

    /** The loop of received_settings; it stops at a value that is refused. */
    method ApplyAll(settings: seq<(nat, nat)>) returns (refused: bool, seen: seq<(nat, nat)>)
      requires Valid()
      modifies this`log, this`settingsPending, this`prefaceSent, this`sentGoAway, this`sentGoAwayStreamId,
               this`remoteSettings, this`coder, sendRecord
      ensures fresh(sendRecord.tableElemSize) || sendRecord.tableElemSize == old(sendRecord.tableElemSize)
      ensures Valid() && |old(Value()).remoteSettings| == Settings.COUNT
      ensures var a := ApplySettings(old(Value()), settings, []);
              Value() == a.conn && refused == a.refused && (!refused ==> seen == a.seen)
    {
      hide StreamsValid, CompressorValid, Value, DynamicMetadataTable.Valid, GoAwaySent, SettingApplied,
           Settings.Parameters, Refused, Settings.Clamp, DynamicMetadataTable.State;
      FieldsSay();
      seen := [];
      var i: nat := 0;
      assert settings[0..] == settings;
      while i < |settings|
        invariant i <= |settings| && Valid() && |Value().remoteSettings| == Settings.COUNT
        invariant fresh(sendRecord.tableElemSize) || sendRecord.tableElemSize == old(sendRecord.tableElemSize)
        invariant ApplySettings(Value(), settings[i..], seen) == ApplySettings(old(Value()), settings, [])
      {
        assert settings[i..][1..] == settings[i + 1..];
        var (id, value) := settings[i];
        if Refused(id, value) {
          RefusedIsKnown(id, value);
          SendGoAway(Settings.Parameters(id).error, 0);
          return true, seen;
        }
        if id < Settings.COUNT {
          ApplySetting(id, value);
          seen := seen + [(id, Settings.Clamp(id, value))];
        } else {
          seen := seen + [(id, value)];
        }
        i := i + 1;
      }
      assert settings[i..] == [];
      refused := false;
    }

    lemma RefusedIsKnown(id: nat, value: nat)
      requires Refused(id, value)
      ensures id < Settings.COUNT
    {
    }

    /** A promised stream the map does not know is made, changed and dropped. */
    method LosePromise(promised: nat, h: FrameHeader, decoded: seq<Header>)
    {
      var stream := new Http2Stream(promised);
      stream.RecvPushPromise();
      stream.SaveFrameInfo(h.ftype, h.flags);
      stream.AppendHeaders(decoded);
    }

    method ReceivedPushPromise(h: FrameHeader, promised: nat, fragment: bytes, padLen: nat, huffman: Huffman)
      requires Valid()
      modifies this, dynamicTable, parts
      ensures Valid() && streams == old(streams) && parts == old(parts)
      ensures |old(Value()).localSettings| == Settings.COUNT
      ensures Value() == PushPromiseReceived(old(Value()), h, promised, fragment, padLen, huffman)
    {
      hide StreamsValid, CompressorValid, Value, DynamicMetadataTable.Valid, GoAwaySent, PromiseDecoded,
           Http2Stream.Valid, DynamicMetadataTable.State;
      FieldsSay();
      if padLen >= h.length || promised == 0 || promised % 2 != 0 || localSettings[Settings.ENABLE_PUSH] == 0 {
        SendGoAway(PROTOCOL_ERROR, 0);
        return;
      }
      var promise := FindStream(promised);
      GivenSays(promise, promised);
      if promise != null && promise.state != Idle {
        SendGoAway(PROTOCOL_ERROR, 0);
        return;
      }
      PromiseBlock(promise, h, promised, fragment, huffman);
    }

    /** The end of received_push_promise: the block is decoded whether or not there is a stream to take it. */
    method PromiseBlock(promise: Http2Stream?, h: FrameHeader, promised: nat, fragment: bytes, huffman: Huffman)
      requires Valid() && Given(promise, promised)
      modifies this, dynamicTable, parts
      ensures Valid() && streams == old(streams) && parts == old(parts)
      ensures Value() == PromiseDecoded(old(Value()), h, promised, fragment, huffman)
    {
      hide StreamsValid, CompressorValid, Value, DynamicMetadataTable.Valid, GoAwaySent, HeaderDecoder.DecodeSpec,
           FrameSeen, Moved, BlockSeen, Http2Stream.Valid, ErrorCode, Store, DynamicMetadataTable.State;
      GivenSays(promise, promised);
      var err, decoded := Decode(fragment, huffman);
      if err != HeaderDecoder.NoError {
        SendGoAway(ErrorCode(err), 0);
        return;
      }
      if promise == null {
        LosePromise(promised, h, decoded);
      } else {
        TakePromise(promise, h, decoded);
      }
      EndOfBlock(h, promised);
    }

    method ReceivedPing(h: FrameHeader, opaqueData: bytes)
      requires Valid()
      modifies this`log, this`settingsPending, this`prefaceSent, this`sentGoAway, this`sentGoAwayStreamId,
               this`pingPending
      ensures Valid() && Value() == PingReceived(old(Value()), h, opaqueData)
    {
      hide StreamsValid, CompressorValid, DynamicMetadataTable.Valid, GoAwaySent, HasFlag, DynamicMetadataTable.State;
      if h.streamId != 0 {
        SendGoAway(PROTOCOL_ERROR, 0);
        return;
      }
      if HasFlag(h.flags, ACK) {
        pingPending := false;
        Emit(OnPing(opaqueData, true));
      } else {
        Emit(OnPing(opaqueData, false));
        Emit(SentPing(opaqueData, true));
      }
    }

    method ReceivedWindowUpdate(stream: Http2Stream?, h: FrameHeader, increment: nat)
      requires Valid() && Given(stream, h.streamId)
      modifies this`log, this`settingsPending, this`prefaceSent, this`sentGoAway, this`sentGoAwayStreamId, this`held,
               this`sendWindow, parts
      ensures Valid() && Value() == WindowUpdateReceived(old(Value()), h, increment)
    {
      hide StreamsValid, CompressorValid, DynamicMetadataTable.Valid, GoAwaySent, FrameSeen, Http2Stream.Valid,
           Http2Stream.Value, DynamicMetadataTable.State;
      GivenSays(stream, h.streamId);
      if increment < 1 {
        SendGoAway(PROTOCOL_ERROR, 0);
        return;
      }
      if stream == null {
        sendWindow := sendWindow + increment;
        return;
      }
      SaveFrame(stream, h);
    }

    method ReceivedContinuation(stream: Http2Stream?, h: FrameHeader, fragment: bytes, huffman: Huffman)
      requires Valid() && Given(stream, h.streamId)
      modifies this, dynamicTable, parts
      ensures Valid() && streams == old(streams) && parts == old(parts)
      ensures Value() == ContinuationReceived(old(Value()), h, fragment, huffman)
    {
      hide StreamsValid, CompressorValid, Value, DynamicMetadataTable.Valid, GoAwaySent, HeaderDecoder.DecodeSpec,
           FrameSeen, BlockSeen, Http2Stream.Valid, ErrorCode, Store, HasFlag, DynamicMetadataTable.State;
      FieldsSay();
      GivenSays(stream, h.streamId);
      if !nextFrameLimit {
        SendGoAway(PROTOCOL_ERROR, 0);
        return;
      }
      if stream == null {
        SendGoAway(PROTOCOL_ERROR, 0);
        return;
      }
      var err, decoded := Decode(fragment, huffman);
      if err != HeaderDecoder.NoError {
        SendGoAway(ErrorCode(err), 0);
        return;
      }
      AddHeaders(stream, h, decoded);
      if HasFlag(h.flags, END_HEADERS) {
        EndOfBlock(h, stream.id);
      }
    }

    /** The streams after GOAWAY: those of `left` are still to be looked at. */
    ghost function Cut(streams: map<nat, Stream>, clientSide: bool, last: nat, left: set<nat>): map<nat, Stream>
    {
      map id | id in streams ::
        if id !in left && IsLocal(clientSide, id) && id > last then streams[id].(writeClosed := true) else streams[id]
    }

    lemma CutOne(streams: map<nat, Stream>, clientSide: bool, last: nat, left: set<nat>, id: nat)
      requires id in left && id in streams
      ensures var cut := Cut(streams, clientSide, last, left);
              id in cut &&
              Cut(streams, clientSide, last, left - {id}) ==
                if IsLocal(clientSide, id) && id > last then cut[id := cut[id].(writeClosed := true)] else cut
    {
      hide IsLocal;
    }

    lemma CutNone(streams: map<nat, Stream>, clientSide: bool, last: nat)
      ensures Cut(streams, clientSide, last, streams.Keys) == streams
    {
    }

    /** The loop of received_goaway, which may visit the streams in any order. */
    method CutOff(last: nat)
      requires Valid()
      modifies this`held, parts
      ensures Valid() && held == Cut(old(held), clientSide, last, {})
    {
      hide StreamsValid, CompressorValid, DynamicMetadataTable.Valid, Http2Stream.Valid, Http2Stream.Value, IsLocal,
           Cut, DynamicMetadataTable.State;
      ghost var all := held;
      var left := streams.Keys;
      CutNone(all, clientSide, last);
      while left != {}
        invariant left <= streams.Keys && streams == old(streams) && parts == old(parts) && Valid()
        invariant held == Cut(all, clientSide, last, left)
        decreases |left|
      {
        var id :| id in left;
        CutOne(all, clientSide, last, left, id);
        if IsLocal(clientSide, id) && id > last {
          MarkedStream(id);
        }
        left := left - {id};
      }
    }

    method MarkedStream(id: nat)
      requires Valid() && id in streams
      modifies this`held, parts
      ensures Valid() && held == old(held)[id := old(held)[id].(writeClosed := true)]
    {
      hide StreamsValid, CompressorValid, DynamicMetadataTable.Valid, DynamicMetadataTable.State;
      var stream := Stored(id);
      Unwritable(stream);
    }

    method NoteGoAway(last: nat)
      requires Valid()
      modifies this`receivedGoAway, this`receivedGoAwayStreamId, this`held, parts
      ensures Valid()
      ensures Value() == old(Value()).(receivedGoAway := true, receivedGoAwayStreamId := last,
                                       streams := Cut(old(held), clientSide, last, {}))
    {
      hide StreamsValid, CompressorValid, DynamicMetadataTable.Valid, Cut, DynamicMetadataTable.State;
      receivedGoAwayStreamId := last;
      receivedGoAway := true;
      CutOff(last);
    }

    method ReceivedGoAway(h: FrameHeader, last: nat, errorCode: nat, debug: bytes)
      requires Valid()
      modifies this`log, this`settingsPending, this`prefaceSent, this`sentGoAway, this`sentGoAwayStreamId, this`held,
               this`receivedGoAway, this`receivedGoAwayStreamId, parts
      ensures Valid() && Value() == GoAwayReceived(old(Value()), h, last, errorCode, debug)
    {
      hide StreamsValid, CompressorValid, DynamicMetadataTable.Valid, GoAwaySent, IsLocal, Log,
           DynamicMetadataTable.State;
      if h.streamId != 0 {
        SendGoAway(PROTOCOL_ERROR, 0);
        return;
      }
      NoteGoAway(last);
      CutIsGoAway(old(Value()), last);
      Emit(OnGoAway(last, errorCode, debug));
    }

    lemma CutIsGoAway(c: Conn, last: nat)
      ensures Cut(c.streams, c.clientSide, last, {}) ==
              map id | id in c.streams ::
                if IsLocal(c.clientSide, id) && id > last then c.streams[id].(writeClosed := true) else c.streams[id]
    {
      hide IsLocal;
    }

    /** The frames that are about the connection alone, and those that do not parse. */
    method HandleControl(h: FrameHeader, p: Payload, huffman: Huffman)
      requires Valid() && (p.Malformed? || p.SettingsPayload? || p.PingPayload? || p.GoAwayPayload?)
      modifies this, sendRecord, parts
      ensures Valid() && parts == old(parts)
      ensures |old(Value()).localSettings| == |old(Value()).remoteSettings| == Settings.COUNT
      ensures Value() == Handle(old(Value()), h, p, huffman)
    {
      hide StreamsValid, CompressorValid, Value, DynamicMetadataTable.Valid, GoAwaySent, SettingsReceived,
           PingReceived, GoAwayReceived, DynamicMetadataTable.State;
      FieldsSay();
      match p {
        case Malformed(e) => SendGoAway(e, 0);
        case SettingsPayload(settings) => ReceivedSettings(h, settings);
        case PingPayload(opaqueData) => ReceivedPing(h, opaqueData);
        case GoAwayPayload(last, e, debug) => ReceivedGoAway(h, last, e, debug);
      }
    }

    /** The internal_*_process functions, chosen by type: what they return is the stream the frame was for, or null. */
    method HandleFrame(h: FrameHeader, p: Payload, huffman: Huffman) returns (stream: Http2Stream?)
      requires Valid() && Fits(h, p)
      modifies this, dynamicTable, sendRecord, parts
      ensures Valid() && fresh(parts - old(parts))
      ensures |old(Value()).localSettings| == |old(Value()).remoteSettings| == Settings.COUNT
      ensures Value() == Handle(old(Value()), h, p, huffman)
      ensures if HandsBackStream(h.ftype) && !p.Malformed? then Given(stream, h.streamId) else stream == null
    {
      hide Valid, Value, Http2Stream.Valid, GoAwaySent, DataReceived, HeadersFrameReceived,
           PriorityReceived, RstStreamReceived, SettingsReceived, PushPromiseReceived, PingReceived, GoAwayReceived,
           WindowUpdateReceived, ContinuationReceived;
      FieldsSay();
      if p.Malformed? || p.SettingsPayload? || p.PingPayload? || p.GoAwayPayload? {
        HandleControl(h, p, huffman);
        return null;
      }
      stream := FindStream(h.streamId);
      GivenSays(stream, h.streamId);
      match p {
        case DataPayload(data, padLen) => ReceivedData(stream, h, data, padLen);
        case HeadersPayload(fragment, padLen) => stream := ReceivedHeaders(stream, h, fragment, padLen, huffman);
        case PriorityPayload(priority) => ReceivedPriority(stream, h, priority);
        case RstStreamPayload(e) => ReceivedRstStream(stream, h, e);
        case PushPromisePayload(promised, fragment, n) => ReceivedPushPromise(h, promised, fragment, n, huffman);
        case WindowUpdatePayload(increment) => ReceivedWindowUpdate(stream, h, increment);
        case ContinuationPayload(fragment) => ReceivedContinuation(stream, h, fragment, huffman);
      }
    }

    method Track(id: nat)
      requires Valid()
      modifies this`lastStreamId
      ensures Valid() && Value() == Tracked(old(Value()), id)
    {
      hide StreamsValid, CompressorValid, IsLocal, DynamicMetadataTable.Valid, DynamicMetadataTable.State;
      if id > 0 && !IsLocal(clientSide, id) && id > lastStreamId {
        lastStreamId := id;
      }
    }

    /** The end of package_process: a stream the frame closed goes. */
    method Reap(stream: Http2Stream?, id: nat)
      requires Valid() && Given(stream, id)
      modifies this`streams, this`held, this`parts, this`log, this`draining
      ensures Valid() && parts <= old(parts) && Value() == Reaped(old(Value()), id)
    {
      hide StreamsValid, CompressorValid, Value, DynamicMetadataTable.Valid, Http2Stream.Valid, DrainChecked,
           DynamicMetadataTable.State;
      GivenSays(stream, id);
      if stream != null {
        DestroyIfClosed(stream);
      }
    }

    /** package_process on one whole frame */
    method ProcessFrame(h: FrameHeader, payload: bytes, huffman: Huffman) returns (ok: bool)
      requires Valid() && |payload| == h.length
      modifies this, dynamicTable, sendRecord, parts
      ensures Valid() && fresh(parts - old(parts))
      ensures |old(Value()).localSettings| == |old(Value()).remoteSettings| == Settings.COUNT
      ensures Processed(Value(), ok) == Process(old(Value()), h, payload, huffman)
    {
      hide StreamsValid, CompressorValid, Value, DynamicMetadataTable.Valid, Http2Stream.Valid, GoAwaySent, Handle,
           Parse, Reaped, Tracked, DynamicMetadataTable.State;
      FieldsSay();
      if nextFrameLimit {
        if h.ftype != CONTINUATION || h.streamId != nextStreamIdLimit {
          SendGoAway(PROTOCOL_ERROR, 0);
          return false;
        }
      }
      if sentGoAway && h.streamId > sentGoAwayStreamId {
        return true;
      }
      Track(h.streamId);
      if h.ftype > CONTINUATION {
        return true;
      }
      ParseFits(h, payload);
      var p := Parse(h, payload);
      var stream := HandleFrame(h, p, huffman);
      if HandsBackStream(h.ftype) && !p.Malformed? {
        Reap(stream, h.streamId);
      }
      return true;
    }

    method PackageProcess(package: bytes, huffman: Huffman) returns (ok: bool)
      requires Valid()
      modifies this, dynamicTable, sendRecord, parts
      ensures Valid() && fresh(parts - old(parts))
      ensures |old(Value()).localSettings| == |old(Value()).remoteSettings| == Settings.COUNT
      ensures Processed(Value(), ok) == ConnectionModel.PackageProcess(old(Value()), package, huffman)
    {
      hide StreamsValid, CompressorValid, Value, DynamicMetadataTable.Valid, Http2Stream.Valid, Process,
           DynamicMetadataTable.State;
      FieldsSay();
      if |package| < HEADER_SIZE {
        return false;
      }
      var h := UnpackHeader(package);
      if |package| < h.length + HEADER_SIZE {
        return false;
      }
      ok := ProcessFrame(h, package[HEADER_SIZE..HEADER_SIZE + h.length], huffman);
    }

    /** The stream under an id of the map. */
    method Stored(id: nat) returns (s: Http2Stream)
      requires Valid() && id in streams
      ensures s == streams[id] && s.id == id && s.Valid() && s in parts && s.dataCache in parts && s.Value() == held[id]
    {
      s := streams[id];
    }

  }

  lemma PrefaceLeavesCoder(c: Conn)
    ensures PrefaceEnsured(c).compressor == c.compressor && PrefaceEnsured(c).hash == c.hash
  {
    hide NonDefault;
  }

  lemma StoreTwice(c: Conn, id: nat, s: Stream, t: Stream)
    ensures Store(Store(c, id, s), id, t) == Store(c, id, t)
  {
    assert c.streams[id := s][id := t] == c.streams[id := t];
  }

  /** Whether a new stream is put in the map before it takes its block or with it makes no difference. */
  lemma TakenByNew(c: Conn, h: FrameHeader, headers: seq<Header>)
    ensures var stored := Store(c, h.streamId, NewStream());
            && h.streamId in stored.streams && stored.streams[h.streamId] == NewStream()
            && HeadersTaken(stored, h, NewStream(), headers) == HeadersTaken(c, h, NewStream(), headers)
  {
    hide FrameSeen, HeadersReceived, BlockSeen;
    StoreTwice(c, h.streamId, NewStream(), FrameSeen(HeadersReceived(NewStream(), headers), h.ftype, h.flags));
  }

  lemma StoreThenRemove(c: Conn, id: nat, s: Stream)
    ensures var stored := Store(c, id, s); stored.(streams := stored.streams - {id}) == c.(streams := c.streams - {id})
  {
    assert c.streams[id := s] - {id} == c.streams - {id};
  }
}
