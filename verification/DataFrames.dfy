/**
 * DATA frames: the splitting of src/http2/pack.cc under the peer's frame size, and what a receiver's frame
 * loop makes of the result.
 */
module DataFrames {
  import opened Buffers
  import opened Bytes
  import Coder = CompressorModel
  import opened ConnectionInvariant
  import opened ConnectionModel
  import opened ConnectionRuns
  import opened FrameRoundTrips
  import opened Frames
  import Settings
  import opened SliceBuffer
  import opened StreamModel
  import StreamStates
  import opened StringLiterals
  import opened Transport

  function Without(flags: byte, bit: byte): (r: byte)
    requires bit > 0
    ensures r == flags || r == flags - bit
  {
    if HasFlag(flags, bit) then flags - bit else flags
  }

  /** What the frames of a payload carry: DATA, the stream, no padding, and END_STREAM on the last if at all. */
  function ChunkHeader(h: FrameHeader, length: nat, last: bool): FrameHeader
  {
    var flags := Without(h.flags, PADDED);
    h.(length := length, flags := if last then flags else Without(flags, END_STREAM))
  }

  /** The frames on the wire. */
  function SplitData(h: FrameHeader, data: bytes, max: nat): (r: seq<bytes>)
    requires max > 0
    ensures r != []
    decreases |data|
  {
    if |data| <= max then [PackHeader(ChunkHeader(h, |data|, true)) + data]
    else [PackHeader(ChunkHeader(h, max, false)) + data[..max]] + SplitData(h, data[max..], max)
  }

  lemma EmptyPayload(h: FrameHeader, max: nat)
    requires max > 0
    ensures Concat(SplitData(h, [], max)) == PackHeader(ChunkHeader(h, 0, true))
  {
    var frame := PackHeader(ChunkHeader(h, 0, true));
    assert frame + [] == frame;
    assert SplitData(h, [], max) == [frame];
    assert Concat([frame]) == frame + Concat([]);
  }

  lemma Associative(a: bytes, b: bytes, c: bytes)
    ensures a + b + c == a + (b + c)
  {
  }

  /** One chunk in a slice of its own. */
  method PackChunk(h: FrameHeader, chunk: bytes) returns (s: bytes)
    requires h.length == |chunk|
    ensures s == PackHeader(h) + chunk
  {
    var buf := new byte[HEADER_SIZE + |chunk|](_ => 0);
    PutHeader(buf, h);
    Copy(buf, HEADER_SIZE, chunk);
    s := buf[..];
  }

  /** The octets of the frames still to come once `done` octets of the payload are packed. */
  function ToCome(h: FrameHeader, data: bytes, max: nat, done: nat): bytes
    requires max > 0 && done <= |data|
  {
    if done == |data| && done > 0 then [] else Concat(SplitData(h, data[done..], max))
  }

  lemma NothingDone(h: FrameHeader, data: bytes, max: nat)
    requires max > 0 && data != []
    ensures [] + ToCome(h, data, max, 0) == Concat(SplitData(h, data, max)) && ToCome(h, data, max, |data|) == []
  {
    hide SplitData, Concat;
    assert data[0..] == data;
    assert [] + Concat(SplitData(h, data, max)) == Concat(SplitData(h, data, max));
  }

  lemma NextChunk(h: FrameHeader, data: bytes, max: nat, done: nat)
    requires max > 0 && done < |data|
    ensures var n := if |data| - done < max then |data| - done else max;
            var hdr := ChunkHeader(h, n, done + n >= |data|);
            ToCome(h, data, max, done) == PackHeader(hdr) + data[done..done + n] + ToCome(h, data, max, done + n)
  {
    hide PackHeader;
    var rest := data[done..];
    var n := if |data| - done < max then |data| - done else max;
    assert rest[..n] == data[done..done + n] && rest[n..] == data[done + n..];
    var chunk := PackHeader(ChunkHeader(h, n, done + n >= |data|)) + rest[..n];
    if |rest| <= max {
      assert rest[..n] == rest && done + n == |data|;
      ConcatSnoc([], chunk);
      assert [] + [chunk] == [chunk];
      assert chunk + [] == chunk;
      assert SplitData(h, rest, max) == [chunk];
    } else {
      assert SplitData(h, rest, max)[1..] == SplitData(h, rest[n..], max);
    }
  }

  /** `|=` */
  function With(flags: byte, bit: byte): (r: nat)
    requires bit > 0
  {
    if HasFlag(flags, bit) then flags else flags + bit
  }

  /** The header the loop carries: the frame's own but for the length and END_STREAM. */
  predicate Carried(h: FrameHeader, hdr: FrameHeader)
  {
    var flags := Without(h.flags, PADDED);
    hdr == h.(length := hdr.length, flags := hdr.flags) &&
    (hdr.flags == flags || hdr.flags == Without(flags, END_STREAM))
  }

  lemma CarriedFirst(h: FrameHeader)
    ensures var hdr := h.(flags := Without(h.flags, PADDED));
            Carried(h, hdr) && hdr.(length := 0) == ChunkHeader(h, 0, true)
  {
  }

  /** Clearing END_STREAM for the chunks before the last and setting it again gives the flags back. */
  lemma CarriedOn(h: FrameHeader, hdr: FrameHeader, n: nat)
    requires Carried(h, hdr)
    ensures var end := HasFlag(Without(h.flags, PADDED), END_STREAM);
            var flags := if end then With(hdr.flags, END_STREAM) else hdr.flags;
            flags < 256 && hdr.(length := n, flags := flags) == ChunkHeader(h, n, true)
    ensures hdr.(length := n, flags := Without(hdr.flags, END_STREAM)) == ChunkHeader(h, n, false)
    ensures Carried(h, ChunkHeader(h, n, true)) && Carried(h, ChunkHeader(h, n, false))
  {
  }

  /** One round of the loop of pack_http2_frame_data: the next header, and its frame in a slice. */
  method PackNext(h: FrameHeader, previous: FrameHeader, data: bytes, max: nat, readLength: nat)
    returns (hdr: FrameHeader, s: bytes)
    requires max > 0 && readLength < |data| && Carried(h, previous)
    ensures Carried(h, hdr) && 0 < hdr.length <= |data| - readLength
    ensures ToCome(h, data, max, readLength) == s + ToCome(h, data, max, readLength + hdr.length)
  {
    hide SplitData, PackHeader, ToCome, HasFlag, Without, With, Concat, ChunkHeader, Carried;
    NextChunk(h, data, max, readLength);
    var endStream := HasFlag(Without(h.flags, PADDED), END_STREAM);
    var remain := |data| - readLength;
    CarriedOn(h, previous, if remain < max then remain else max);
    hdr := previous.(length := if remain < max then remain else max);
    var isLast := readLength + hdr.length >= |data|;
    if isLast {
      hdr := hdr.(flags := if endStream then With(hdr.flags, END_STREAM) else hdr.flags);
    } else {
      hdr := hdr.(flags := Without(hdr.flags, END_STREAM));
    }
    s := PackChunk(hdr, data[readLength..readLength + hdr.length]);
  }

  /** pack_http2_frame_data; with a frame size of 0 its loop would not end. */
  method PackData(h: FrameHeader, data: bytes, max: nat) returns (buffer: SliceBuffer)
    requires max > 0
    ensures fresh(buffer) && buffer.Valid() && buffer.Contents() == Concat(SplitData(h, data, max))
  {
    hide SplitData, PackHeader, ToCome, HasFlag, Without, Concat, ChunkHeader, Carried;
    var hdr := h.(flags := Without(h.flags, PADDED));
    CarriedFirst(h);
    buffer := new SliceBuffer();
    if |data| == 0 {
      EmptyPayload(h, max);
      var s := PackChunk(hdr.(length := 0), []);
      Associative([], s, []);
      buffer.AddSlice(s);
      return;
    }
    var readLength: nat := 0;
    NothingDone(h, data, max);
    while readLength < |data|
      invariant readLength <= |data| && buffer.Valid() && fresh(buffer) && Carried(h, hdr)
      invariant buffer.Contents() + ToCome(h, data, max, readLength) == Concat(SplitData(h, data, max))
    {
      var s;
      hdr, s := PackNext(h, hdr, data, max, readLength);
      Associative(buffer.Contents(), s, ToCome(h, data, max, readLength + hdr.length));
      buffer.AddSlice(s);
      readLength := readLength + hdr.length;
    }
  }

  // ---------------------------------------------------------------- every frame is lawful

  /** The header and payload a frame on the wire holds. */
  predicate Whole(frame: bytes, h: FrameHeader)
  {
    |frame| >= HEADER_SIZE && UnpackHeader(frame) == h && |frame| == HEADER_SIZE + h.length
  }

  /**
   * Every frame is at most as long as the peer allows, is not padded, and is for the same stream; only the
   * last one ends the stream, and only if the payload was to end it; together they carry the payload.
   */
  lemma {:induction false} FramesAreLawful(h: FrameHeader, data: bytes, max: nat)
    requires 0 < max < 0x100_0000 && h.ftype == DATA && h.streamId < STREAM_ID_LIMIT
    ensures var fs := SplitData(h, data, max);
            && (forall i :: 0 <= i < |fs| ==>
                  && |fs[i]| >= HEADER_SIZE && Whole(fs[i], ChunkHeader(h, |fs[i]| - HEADER_SIZE, i == |fs| - 1))
                  && |fs[i]| - HEADER_SIZE <= max)
            && Payloads(fs) == data
    decreases |data|
  {
    hide PackHeader, UnpackHeader, Whole, ChunkHeader;
    var n := if |data| <= max then |data| else max;
    var last := |data| <= max;
    var frame := PackHeader(ChunkHeader(h, n, last)) + data[..n];
    ChunkIsWhole(h, data[..n], last);
    assert data == data[..n] + data[n..];
    var fs := SplitData(h, data, max);
    if last {
      assert data[..n] == data;
      assert fs == [frame] && frame[HEADER_SIZE..] == data;
      assert fs[1..] == [];
      assert Payloads(fs) == data + Payloads(fs[1..]);
    } else {
      FramesAreLawful(h, data[max..], max);
      assert fs == [frame] + SplitData(h, data[max..], max);
      assert fs[1..] == SplitData(h, data[max..], max);
      assert frame[HEADER_SIZE..] == data[..n];
    }
  }

  function Payloads(frames: seq<bytes>): bytes
  {
    if frames == [] then []
    else (if |frames[0]| >= HEADER_SIZE then frames[0][HEADER_SIZE..] else []) + Payloads(frames[1..])
  }

  lemma ChunkIsWhole(h: FrameHeader, chunk: bytes, last: bool)
    requires |chunk| < 0x100_0000 && h.streamId < STREAM_ID_LIMIT
    ensures var hdr := ChunkHeader(h, |chunk|, last); Whole(PackHeader(hdr) + chunk, hdr)
  {
    hide PackHeader, UnpackHeader, Without;
    HeaderRoundTrip(ChunkHeader(h, |chunk|, last), chunk);
  }

  /** What the flags say: no padding, and END_STREAM on the last frame exactly if the payload ends the stream. */
  lemma ChunkFlags(h: FrameHeader, n: nat, last: bool)
    ensures var flags := ChunkHeader(h, n, last).flags;
            !HasFlag(flags, PADDED) && (HasFlag(flags, END_STREAM) <==> last && HasFlag(h.flags, END_STREAM))
  {
  }

  /** In every run the peer's frame size lets the splitting end, and its frames fit the 24 bits of a length. */
  lemma SplittingEndsInEveryRun(clientSide: bool, hash: Coder.Hash, ops: seq<Op>, huffman: Huffman)
    ensures Inv(Init(clientSide, hash))
    ensures var c := After(Init(clientSide, hash), ops, huffman);
            Sized(c) && 16384 <= c.remoteSettings[Settings.MAX_FRAME_SIZE] < 0x100_0000
  {
    hide After, Inv;
    EveryRunIsSafe(clientSide, hash, ops, huffman);
    var c := After(Init(clientSide, hash), ops, huffman);
    ReadyByInv(c);
    assert Settings.InRange(Settings.MAX_FRAME_SIZE, c.remoteSettings[Settings.MAX_FRAME_SIZE]);
  }

  // ---------------------------------------------------------------- the receiver

  /** A connection past its handshake that takes DATA frames for a stream. */
  ghost predicate Receiving(c: Conn, id: nat)
  {
    && Inv(c) && c.finishHandshake && !c.nextFrameLimit && id in c.streams && id > 0
    && (c.streams[id].state == StreamStates.Open || c.streams[id].state == StreamStates.HalfClosedLocal)
    && (c.sentGoAway ==> id <= c.sentGoAwayStreamId)
  }

  /** The chunks of data reported to the application, each with its stream's id. */
  function Reports(log: seq<Output>): seq<(nat, bytes)>
  {
    if log == [] then []
    else
      var n := |log| - 1;
      Reports(log[..n]) + (if log[n].OnStreamData? then [(log[n].id, log[n].chunk)] else [])
  }

  lemma ReportsAppend(log: seq<Output>, o: Output)
    ensures Reports(log + [o]) == Reports(log) + (if o.OnStreamData? then [(o.id, o.chunk)] else [])
  {
    assert (log + [o])[..|log|] == log;
  }

  /** All the data reported for one stream. */
  function DataFor(reports: seq<(nat, bytes)>, id: nat): bytes
  {
    if reports == [] then []
    else
      var n := |reports| - 1;
      DataFor(reports[..n], id) + (if reports[n].0 == id then reports[n].1 else [])
  }

  /** What decides whether frames are taken, and what has been reported. */
  datatype Door = Door(handshake: bool, limit: bool, sentGoAway: bool, goAwayId: nat, localSettings: seq<nat>,
                       reports: seq<(nat, bytes)>)

  function DoorOf(c: Conn): Door
  {
    Door(c.finishHandshake, c.nextFrameLimit, c.sentGoAway, c.sentGoAwayStreamId, c.localSettings, Reports(c.log))
  }

  function Reported(d: Door, id: nat, chunk: bytes): Door
  {
    d.(reports := d.reports + [(id, chunk)])
  }

  lemma LogLeavesDoor(c: Conn, o: Output)
    requires !o.OnStreamData?
    ensures DoorOf(c) == DoorOf(Log(c, o)) && Log(c, o).streams == c.streams
  {
    hide Reports;
    ReportsAppend(c.log, o);
  }

  lemma ChunkReported(c: Conn, id: nat, chunk: bytes)
    ensures var d := Log(c, OnStreamData(id, chunk));
            DoorOf(d) == Reported(DoorOf(c), id, chunk) && d.streams == c.streams
  {
    hide Reports;
    ReportsAppend(c.log, OnStreamData(id, chunk));
  }

  lemma StoreLeavesDoor(c: Conn, id: nat, s: Stream)
    ensures DoorOf(Store(c, id, s)) == DoorOf(c) && Store(c, id, s).streams == c.streams[id := s]
  {
    hide Reports;
  }

  lemma PrefaceLeavesDoor(c: Conn)
    ensures DoorOf(c) == DoorOf(PrefaceEnsured(c)) && PrefaceEnsured(c).streams == c.streams
  {
    hide NonDefault, Log, Reports;
    LogLeavesDoor(c, SentPreface);
    LogLeavesDoor(Log(c, SentPreface), SentSettings(NonDefault(c.localSettings, 1)));
  }

  lemma WindowUpdateLeavesDoor(c: Conn, id: nat, ci: nat, si: nat)
    ensures var w := WindowUpdateSent(c, id, ci, si); DoorOf(c) == DoorOf(w) && w.streams == c.streams
  {
    hide PrefaceEnsured, Log, DoorOf;
    var p := PrefaceEnsured(c);
    PrefaceLeavesDoor(c);
    var forStream := SentWindowUpdate(id, si % STREAM_ID_LIMIT);
    LogLeavesDoor(p, forStream);
    LogLeavesDoor(p, SentWindowUpdate(0, ci % STREAM_ID_LIMIT));
    LogLeavesDoor(Log(p, forStream), SentWindowUpdate(0, ci % STREAM_ID_LIMIT));
  }

  function Extended(s: Stream, flags: nat, chunk: bytes): Stream
  {
    var seen := FrameSeen(s, DATA, flags);
    seen.(data := seen.data + chunk)
  }

  lemma DataTaken(c: Conn, h: FrameHeader, chunk: bytes, padLen: nat)
    requires h.ftype == DATA && h.streamId in c.streams && h.streamId > 0 && chunk != [] && padLen < h.length
    ensures var (d, id) := (DataReceived(c, h, chunk, padLen), h.streamId);
            && DoorOf(d) == Reported(DoorOf(c), id, chunk)
            && d.streams == c.streams[id := Extended(c.streams[id], h.flags, chunk)]
  {
    hide FrameSeen, WindowUpdateSent, Log, DoorOf, Store;
    var id := h.streamId;
    var stored := Store(c, id, Extended(c.streams[id], h.flags, chunk));
    StoreLeavesDoor(c, id, Extended(c.streams[id], h.flags, chunk));
    ChunkReported(stored, id, chunk);
    var d := Log(stored, OnStreamData(id, chunk));
    WindowUpdateLeavesDoor(d, id, |chunk|, |chunk|);
    LogLeavesDoor(WindowUpdateSent(d, id, |chunk|, |chunk|), OnStreamClosed(id, 0));
  }

  lemma ReachesData(c: Conn, h: FrameHeader, payload: bytes, chunk: bytes, padLen: nat, huffman: Huffman)
    requires Sized(c) && Receiving(c, h.streamId) && h.ftype == DATA && |payload| == h.length
    requires Parse(h, payload) == DataPayload(chunk, padLen)
    ensures var r := Process(c, h, payload, huffman);
            r.ok && r.conn == Reaped(DataReceived(Tracked(c, h.streamId), h, chunk, padLen), h.streamId)
  {
    hide DataReceived, Reaped, Inv, Parse, Tracked;
  }

  lemma DrainLeavesDoor(c: Conn)
    ensures DoorOf(DrainChecked(c)) == DoorOf(c) && DrainChecked(c).streams == c.streams
  {
    hide Log, Reports;
    LogLeavesDoor(c.(draining := false), OnShutdownComplete);
  }

  lemma ReapedLeavesDoor(c: Conn, id: nat)
    ensures DoorOf(c) == DoorOf(Reaped(c, id))
    ensures id > 0 && id in c.streams ==>
            Reaped(c, id).streams == if c.streams[id].state == StreamStates.Closed then c.streams - {id} else c.streams
  {
    hide DrainChecked, Reports;
    DrainLeavesDoor(c.(streams := c.streams - {id}));
  }

  lemma TrackedLeavesDoor(c: Conn, id: nat)
    ensures DoorOf(c) == DoorOf(Tracked(c, id)) && Tracked(c, id).streams == c.streams
  {
    hide Reports, IsLocal;
  }

  /** The state a DATA frame leaves its stream in. */
  lemma ExtendedState(s: Stream, flags: byte, chunk: bytes)
    requires s.state == StreamStates.Open || s.state == StreamStates.HalfClosedLocal
    ensures var r := Extended(s, flags, chunk);
            && r.data == s.data + chunk
            && r.state == if !HasFlag(flags, END_STREAM) then s.state
                          else if s.state == StreamStates.Open then StreamStates.HalfClosedRemote
                          else StreamStates.Closed
  {
    hide HasFlag;
  }

  /**
   * One DATA frame, with its padding if it has any: the payload is reported and appended; one that ends both halves
   * of the stream takes it out of the map.
   */
  lemma DataArrives(c: Conn, flags: byte, id: nat, chunk: bytes, pad: bytes, huffman: Huffman)
    requires Receiving(c, id) && chunk != [] && |pad| < 256
    ensures Sized(c)
    ensures var payload := WithPadding(flags, chunk, pad);
            var r := Process(c, FrameHeader(|payload|, DATA, flags, id), payload, huffman);
            && r.ok && Inv(r.conn) && DoorOf(r.conn) == Reported(DoorOf(c), id, chunk)
            && (if HasFlag(flags, END_STREAM) && c.streams[id].state != StreamStates.Open then id !in r.conn.streams
                else id in r.conn.streams && r.conn.streams[id].data == c.streams[id].data + chunk &&
                     r.conn.streams[id].state == if HasFlag(flags, END_STREAM) then StreamStates.HalfClosedRemote
                                                 else c.streams[id].state)
  {
    hide Inv, DataReceived, Reaped, HasFlag, Tracked, Process, DoorOf, Extended, Reported, WithPadding, Parse,
         PadLength;
    ReadyByInv(c);
    var payload := WithPadding(flags, chunk, pad);
    var h := FrameHeader(|payload|, DATA, flags, id);
    var padLen := PadLength(flags, pad);
    DataParses(h, chunk, pad);
    PaddingFits(flags, chunk, pad);
    ProcessKeeps(c, h, payload, huffman);
    ReachesData(c, h, payload, chunk, padLen, huffman);
    var t := Tracked(c, id);
    TrackedLeavesDoor(c, id);
    DataTaken(t, h, chunk, padLen);
    ExtendedState(c.streams[id], flags, chunk);
    ReapedLeavesDoor(DataReceived(t, h, chunk, padLen), id);
  }

  lemma PaddingFits(flags: byte, chunk: bytes, pad: bytes)
    requires chunk != [] && |pad| < 256
    ensures PadLength(flags, pad) < |WithPadding(flags, chunk, pad)|
    ensures !HasFlag(flags, PADDED) ==> WithPadding(flags, chunk, pad) == chunk
  {
    hide HasFlag;
  }

  /** The chunks reported on the way add up to exactly the payload, all of them for this stream. */
  ghost predicate Told(c: Conn, id: nat, data: bytes, d: Conn)
  {
    forall k: nat :: DataFor(Reports(d.log), k) == DataFor(Reports(c.log), k) + (if k == id then data else [])
  }

  lemma ToldOnce(c: Conn, id: nat, chunk: bytes, d: Conn)
    requires DoorOf(d) == Reported(DoorOf(c), id, chunk)
    ensures Told(c, id, chunk, d)
  {
    var before := Reports(c.log);
    assert (before + [(id, chunk)])[..|before|] == before;
  }

  lemma ToldTwice(c: Conn, id: nat, chunk: bytes, d: Conn, rest: bytes, e: Conn)
    requires Told(c, id, chunk, d) && Told(d, id, rest, e)
    ensures Told(c, id, chunk + rest, e)
  {
    hide Reports, DataFor;
    forall k: nat
      ensures DataFor(Reports(e.log), k) == DataFor(Reports(c.log), k) + (if k == id then chunk + rest else [])
    {
      assert DataFor(Reports(c.log), k) + chunk + rest == DataFor(Reports(c.log), k) + (chunk + rest);
    }
  }

  /**
   * What the receiver makes of a payload: it is reported, and appended to the stream, which leaves the map once
   * both halves have ended.
   */
  ghost predicate Arrived(c: Conn, id: nat, data: bytes, end: bool, d: Conn)
    requires id in c.streams
  {
    Told(c, id, data, d) &&
    if end && c.streams[id].state != StreamStates.Open then id !in d.streams
    else id in d.streams && d.streams[id].data == c.streams[id].data + data &&
         d.streams[id].state == if end then StreamStates.HalfClosedRemote else c.streams[id].state
  }

  /** One frame at the front of what comes in. */
  lemma FrontFrame(c: Conn, h: FrameHeader, chunk: bytes, last: bool, rest: bytes, huffman: Huffman)
    requires Receiving(c, h.streamId) && h.ftype == DATA && h.streamId < STREAM_ID_LIMIT && 0 < |chunk| < 0x100_0000
    requires Sized(c) && |chunk| <= c.localSettings[Settings.MAX_FRAME_SIZE]
    ensures var hdr := ChunkHeader(h, |chunk|, last);
            var frame := PackHeader(hdr) + chunk;
            var p := Process(c, hdr, chunk, huffman);
            p.ok && Inv(p.conn) &&
            FeedFrames(c, frame + rest, huffman) == Further(|frame|, FeedFrames(p.conn, rest, huffman))
  {
    hide PackHeader, UnpackHeader, Inv, Process, FeedFrames, HasFlag, WithPadding;
    var hdr := ChunkHeader(h, |chunk|, last);
    var frame := PackHeader(hdr) + chunk;
    HeaderRoundTrip(hdr, chunk);
    HeaderRoundTrip(hdr, chunk + rest);
    assert PackHeader(hdr) + (chunk + rest) == frame + rest;
    assert (frame + rest)[..|frame|] == frame && (frame + rest)[|frame|..] == rest;
    assert frame[HEADER_SIZE..HEADER_SIZE + hdr.length] == chunk;
    OneFrame(c, frame + rest, huffman);
    ChunkFlags(h, |chunk|, last);
    assert hdr == FrameHeader(|chunk|, DATA, hdr.flags, h.streamId);
    PaddingFits(hdr.flags, chunk, []);
    DataArrives(c, hdr.flags, h.streamId, chunk, [], huffman);
  }

  /**
   * Splitting and the receiver's frame loop undo each other: the frames of a non-empty payload, fed to a
   * connection that takes frames that long, are reported as exactly the payload, add it to the stream, and
   * end the stream if it was to end.
   */
  lemma {:induction false} DataRoundTrip(c: Conn, h: FrameHeader, data: bytes, max: nat, huffman: Huffman)
    requires Receiving(c, h.streamId) && h.ftype == DATA && h.streamId < STREAM_ID_LIMIT
    requires Sized(c) && data != [] && 0 < max < 0x100_0000 && max <= c.localSettings[Settings.MAX_FRAME_SIZE]
    ensures var wire := Concat(SplitData(h, data, max));
            var r := Feed(c, wire, huffman);
            r.ok && r.consumed == |wire| && Arrived(c, h.streamId, data, HasFlag(h.flags, END_STREAM), r.conn)
    decreases |data|
  {
    hide PackHeader, UnpackHeader, Inv, Process, FeedFrames, HasFlag, Further, Told, Reports, WithPadding;
    var id := h.streamId;
    var n := if |data| <= max then |data| else max;
    var last := |data| <= max;
    var (chunk, rest) := (data[..n], data[n..]);
    assert data == chunk + rest;
    var hdr := ChunkHeader(h, n, last);
    var frame := PackHeader(hdr) + chunk;
    ChunkFlags(h, n, last);
    PaddingFits(hdr.flags, chunk, []);
    DataArrives(c, hdr.flags, id, chunk, [], huffman);
    assert hdr == FrameHeader(n, DATA, hdr.flags, id);
    var d := Process(c, hdr, chunk, huffman).conn;
    ToldOnce(c, id, chunk, d);
    if last {
      assert data == chunk && SplitData(h, data, max) == [frame];
      OnlyPart(frame);
      FrontFrame(c, h, chunk, last, [], huffman);
      NoFrame(d, [], huffman);
      FurtherEnds(|frame|, d);
    } else {
      var wire := Concat(SplitData(h, rest, max));
      assert SplitData(h, data, max) == [frame] + SplitData(h, rest, max);
      FirstPart(frame, SplitData(h, rest, max));
      FrontFrame(c, h, chunk, last, wire, huffman);
      ReadyByInv(d);
      DataRoundTrip(d, h, rest, max, huffman);
      ToldTwice(c, id, chunk, d, rest, Feed(d, wire, huffman).conn);
      assert c.streams[id].data + chunk + rest == c.streams[id].data + data;
      FurtherAdds(|frame|, FeedFrames(d, wire, huffman));
    }
  }

  lemma OnlyPart(x: bytes)
    ensures Concat([x]) == x && x + [] == x
  {
    ConcatSnoc([], x);
    assert [] + [x] == [x];
  }

  lemma FirstPart(x: bytes, rest: seq<bytes>)
    ensures Concat([x] + rest) == x + Concat(rest)
  {
    ConcatAppend([x], rest);
    OnlyPart(x);
  }

  lemma FurtherEnds(n: nat, c: Conn)
    ensures Further(n, Fed(c, 0, true)) == Fed(c, n, true)
  {
  }

  lemma FurtherAdds(n: nat, rest: Fed)
    requires rest.ok
    ensures Further(n, rest) == Fed(rest.conn, n + rest.consumed, true)
  {
  }
}
