/**
 * When a stream leaves the map through what this endpoint sends on it, and that a promised stream runs its
 * course: headers and data go out on it and it is gone.
 */
module StreamLifecycle {
  import opened Bytes
  import Coder = CompressorModel
  import opened ConnectionInvariant
  import opened ConnectionModel
  import opened ConnectionRuns
  import opened Headers
  import Settings
  import StaleHandles
  import opened StreamModel
  import StreamStates

  /** The stream a send leaves behind if it does not take it out of the map. */
  predicate LeftWith(c: Conn, d: Conn, id: nat, s: Stream)
  {
    if s.state.Closed? then id !in d.streams && d.streams == c.streams - {id} else d.streams == c.streams[id := s]
  }

  lemma SettledLeaves(c: Conn, id: nat, s: Stream)
    ensures LeftWith(c, Settle(c, id, s), id, s)
  {
    hide DrainChecked, Store;
    StaleHandles.DrainKeepsLog(c.(streams := c.streams - {id}));
    StaleHandles.StoreIs(c, id, s);
  }

  lemma LiveHeaders(c: Conn, id: nat, hs: seq<Header>, endStream: bool)
    requires Coder.WellFormed(c.compressor) && id in c.streams
    ensures LeftWith(c, HeadersSent(c, id, Live, hs, endStream), id, SendHeadersChange(endStream)(c.streams[id]))
  {
    hide PrefaceEnsured, Log, Settle, SendHeadersChange, Coder.EncodeBlock, Coder.WellFormed;
    var e := Coder.EncodeBlock(c.compressor, hs, c.hash);
    var p := PrefaceEnsured(c).(compressor := e.state);
    StaleHandles.PrefaceKeepsStreams(c);
    StaleHandles.LoggedLast(p, SentHeaders(id, e.octets, endStream));
    SettledLeaves(Log(p, SentHeaders(id, e.octets, endStream)), id, SendHeadersChange(endStream)(c.streams[id]));
  }

  lemma LiveData(c: Conn, id: nat, data: bytes, endStream: bool)
    requires id in c.streams
    ensures LeftWith(c, DataSent(c, id, Live, data, endStream), id, SendDataChange(endStream)(c.streams[id]))
  {
    hide PrefaceEnsured, Log, Settle, SendDataChange;
    var p := PrefaceEnsured(c);
    StaleHandles.PrefaceKeepsStreams(c);
    StaleHandles.LoggedLast(p.(sendWindow := p.sendWindow - |data|), SentData(id, data, endStream));
    SettledLeaves(DataFrameSent(p, id, data, endStream), id, SendDataChange(endStream)(c.streams[id]));
  }

  /** Headers on a stream of the map take it out exactly if they end a stream its peer has ended, or promised by us. */
  lemma HeadersEndStreamIff(c: Conn, id: nat, hs: seq<Header>, endStream: bool)
    requires Coder.WellFormed(c.compressor) && id in c.streams && !c.streams[id].state.Closed?
    ensures id !in HeadersSent(c, id, Live, hs, endStream).streams <==>
            endStream && (c.streams[id].state.HalfClosedRemote? || c.streams[id].state.ReservedLocal?)
  {
    hide HeadersSent, SendHeadersChange, Coder.WellFormed;
    LiveHeaders(c, id, hs, endStream);
    StaleHandles.HeadersChangeCloses(c.streams[id], endStream);
  }

  /** Data does exactly if it ends a stream its peer has ended. */
  lemma DataEndsStreamIff(c: Conn, id: nat, data: bytes, endStream: bool)
    requires id in c.streams && !c.streams[id].state.Closed?
    ensures id !in DataSent(c, id, Live, data, endStream).streams <==>
            endStream && c.streams[id].state.HalfClosedRemote?
  {
    hide DataSent, SendDataChange;
    LiveData(c, id, data, endStream);
    StaleHandles.DataChangeCloses(c.streams[id], endStream);
  }

  lemma HeadersChangeOpens(s: Stream)
    requires s.state.ReservedLocal?
    ensures SendHeadersChange(false)(s).state.HalfClosedRemote?
  {
  }

  lemma Promised(c: Conn, requestId: nat, hs: seq<Header>)
    requires Ready(c) && MayPromise(c)
    ensures var p, id := PushPromiseSent(c, requestId, hs), c.nextLocalStreamId;
            && Coder.WellFormed(p.compressor) && p.streams == c.streams[id := p.streams[id]]
            && p.streams[id].state == StreamStates.ReservedLocal
  {
    hide Coder.EncodeBlock, Coder.WellFormed, MayCreate;
    Coder.EncodeBlockWellFormed(c.compressor, hs, c.hash);
  }

  /**
   * A promise, then headers that end the stream: the promised id is out of the map again. Or headers, then data
   * that ends it: likewise. Every other stream is as it was.
   */
  lemma PromisedStreamRunsItsCourse(c: Conn, requestId: nat, promise: seq<Header>, hs: seq<Header>, data: bytes)
    requires Inv(c) && Ready(c) && MayPromise(c)
    ensures var (p, id) := (PushPromiseSent(c, requestId, promise), c.nextLocalStreamId);
            && Coder.WellFormed(p.compressor) && id in p.streams
            && HeadersSent(p, id, Live, hs, true).streams == c.streams
            && var q := HeadersSent(p, id, Live, hs, false);
               id in q.streams && q.streams[id].state.HalfClosedRemote? &&
               DataSent(q, id, Live, data, true).streams == c.streams
  {
    hide Inv, PushPromiseSent, HeadersSent, DataSent, SendHeadersChange, SendDataChange, Coder.WellFormed, MayPromise;
    var p, id := PushPromiseSent(c, requestId, promise), c.nextLocalStreamId;
    Promised(c, requestId, promise);
    PushPromiseSentKeeps(c, requestId, promise);
    assert id !in c.streams by { NextIsFree(c); }
    LiveHeaders(p, id, hs, true);
    StaleHandles.HeadersChangeCloses(p.streams[id], true);
    assert p.streams - {id} == c.streams;
    LiveHeaders(p, id, hs, false);
    HeadersChangeOpens(p.streams[id]);
    var q := HeadersSent(p, id, Live, hs, false);
    LiveData(q, id, data, true);
    StaleHandles.DataChangeCloses(q.streams[id], true);
    assert q.streams - {id} == c.streams;
  }

  lemma NextIsFree(c: Conn)
    requires Inv(c)
    ensures c.nextLocalStreamId !in c.streams
  {
    hide Coder.WellFormed, Specials, Settings.Parameters;
    if c.nextLocalStreamId in c.streams {
      FoundKey(c, c.nextLocalStreamId);
    }
  }
}
