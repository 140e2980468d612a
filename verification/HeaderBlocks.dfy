/**
 * Header blocks in pieces (section 4.3 of RFC 7540): a HEADERS frame and CONTINUATION frames cut at
 * representation boundaries leave the stream with the headers of the whole block.
 */
module HeaderBlocks {
  import opened Bytes
  import opened ConnectionModel
  import opened DynamicTable
  import opened Frames
  import opened HeaderDecoder
  import opened Headers
  import Settings
  import opened StreamModel
  import opened StreamStates
  import opened StringLiterals

  /** One CONTINUATION frame: its flags and its piece of the block. */
  datatype Piece = Piece(flags: byte, fragment: bytes)

  function PieceHeader(id: nat, p: Piece): FrameHeader
  {
    FrameHeader(|p.fragment|, CONTINUATION, p.flags, id)
  }

  function Block(pieces: seq<Piece>): bytes
  {
    if pieces == [] then [] else pieces[0].fragment + Block(pieces[1..])
  }

  /**
   * Only the last piece ends the block, and each piece before it decodes from the table the ones before it left:
   * HeaderBlockCuts.BoundariesIff shows that these are cuts between representations of the whole block.
   */
  predicate WellCut(pieces: seq<Piece>, table: Table, huffman: Huffman)
  {
    && pieces != []
    && (HasFlag(pieces[0].flags, END_HEADERS) <==> |pieces| == 1)
    && (|pieces| > 1 ==>
          var d := DecodeSpec(pieces[0].fragment, table, huffman);
          d.error == NoError && WellCut(pieces[1..], d.table, huffman))
  }

  /** The pieces processed one frame after the other. */
  function Continue(c: Conn, id: nat, pieces: seq<Piece>, huffman: Huffman): Conn
    requires |c.localSettings| == |c.remoteSettings| == Settings.COUNT
    decreases |pieces|
  {
    if pieces == [] then c
    else
      var d := Process(c, PieceHeader(id, pieces[0]), pieces[0].fragment, huffman).conn;
      if |d.localSettings| == |d.remoteSettings| == Settings.COUNT then Continue(d, id, pieces[1..], huffman) else d
  }

  /** A block is under way on stream `id`, which cannot close before it ends. */
  predicate Awaiting(c: Conn, id: nat)
  {
    && |c.localSettings| == |c.remoteSettings| == Settings.COUNT
    && c.nextFrameLimit && c.nextStreamIdLimit == id && id > 0 && id in c.streams
    && (IsLocal(c.clientSide, id) || id <= c.lastStreamId)
    && (c.streams[id].state == Open || c.streams[id].state == HalfClosedRemote)
    && (c.sentGoAway ==> id <= c.sentGoAwayStreamId)
  }

  /** The block ended well: its headers are on the stream, once reported, and nothing is awaited any more. */
  predicate Ended(c: Conn, id: nat, headers: seq<Header>, table: Table, d: Conn)
  {
    && !d.nextFrameLimit && d.table == table
    && id in d.streams && d.streams[id].headers == headers
    && d.streams == c.streams[id := d.streams[id]]
    && d.log == c.log + [OnStreamHeaders(id)]
  }

  /** A piece did not decode: its error went out in a GOAWAY, and the wait for the block goes on all the same. */
  predicate ErrorTold(c: Conn, e: Error, table: Table, d: Conn)
  {
    && d.table == table && d.streams.Keys == c.streams.Keys
    && d.nextFrameLimit == c.nextFrameLimit && d.nextStreamIdLimit == c.nextStreamIdLimit
    && d.sentGoAway && d.sentGoAwayStreamId == d.lastStreamId
    && d.log != [] && d.log[|d.log| - 1] == SentGoAway(d.lastStreamId, ErrorCode(e))
  }

  /** An awaited CONTINUATION frame reaches its handler with nothing else changed. */
  lemma ReachesHandler(c: Conn, id: nat, p: Piece, huffman: Huffman)
    requires Awaiting(c, id)
    ensures Process(c, PieceHeader(id, p), p.fragment, huffman).conn ==
            Reaped(ContinuationReceived(c, PieceHeader(id, p), p.fragment, huffman), id)
  {
    hide ContinuationReceived, Reaped, HasFlag;
    assert Tracked(c, id) == c;
  }

  lemma NotReaped(c: Conn, id: nat)
    requires id in c.streams ==> c.streams[id].state != Closed
    ensures Reaped(c, id) == c
  {
  }

  lemma GoAwayTells(c: Conn, e: nat)
    ensures var g := GoAwaySent(c, e, 0);
            && c.log < g.log && g.log[|g.log| - 1] == SentGoAway(c.lastStreamId, e)
            && g.sentGoAway && g.sentGoAwayStreamId == g.lastStreamId == c.lastStreamId
            && g.table == c.table && g.streams == c.streams && g.clientSide == c.clientSide
            && g.nextFrameLimit == c.nextFrameLimit && g.nextStreamIdLimit == c.nextStreamIdLimit
            && g.localSettings == c.localSettings && g.remoteSettings == c.remoteSettings
  {
    hide NonDefault;
  }

  /** END_STREAM seen on the way does not close a stream its owner has not ended. */
  lemma SeenStaysOpen(s: Stream, ftype: nat, flags: nat)
    requires s.state == Open || s.state == HalfClosedRemote
    ensures var r := FrameSeen(s, ftype, flags);
            r.headers == s.headers && (r.state == Open || r.state == HalfClosedRemote)
  {
  }

  /** The handler on an awaited piece that does not decode, and on one that does. */
  lemma PieceRefused(c: Conn, id: nat, p: Piece, huffman: Huffman)
    requires Awaiting(c, id) && DecodeSpec(p.fragment, c.table, huffman).error != NoError
    ensures var d := DecodeSpec(p.fragment, c.table, huffman);
            var r := ContinuationReceived(c, PieceHeader(id, p), p.fragment, huffman);
            r == GoAwaySent(c.(table := d.table), ErrorCode(d.error), 0) && ErrorTold(c, d.error, d.table, r) &&
            r.streams == c.streams
  {
    hide DecodeSpec, HasFlag, GoAwaySent, FrameSeen, ErrorCode, BlockSeen;
    var d := DecodeSpec(p.fragment, c.table, huffman);
    GoAwayTells(c.(table := d.table), ErrorCode(d.error));
  }

  lemma PieceTaken(c: Conn, id: nat, p: Piece, huffman: Huffman)
    requires Awaiting(c, id) && DecodeSpec(p.fragment, c.table, huffman).error == NoError
    ensures var d := DecodeSpec(p.fragment, c.table, huffman);
            var s := c.streams[id];
            var seen := Store(c.(table := d.table), id,
                              FrameSeen(s.(headers := s.headers + d.headers), CONTINUATION, p.flags));
            ContinuationReceived(c, PieceHeader(id, p), p.fragment, huffman) ==
              if HasFlag(p.flags, END_HEADERS) then BlockSeen(seen, PieceHeader(id, p), id) else seen
  {
    hide DecodeSpec, HasFlag, GoAwaySent, FrameSeen, ErrorCode, BlockSeen, Store;
  }

  /** Storing a stream that is still open leaves the rest of the state, and ends the block if told to. */
  lemma Stored(c: Conn, id: nat, table: Table, s: Stream)
    requires Awaiting(c, id) && (s.state == Open || s.state == HalfClosedRemote)
    ensures var t := Store(c.(table := table), id, s);
            Awaiting(t, id) && t.log == c.log && t.table == table && t.streams == c.streams[id := s]
  {
  }

  lemma LastStored(c: Conn, id: nat, table: Table, s: Stream, h: FrameHeader)
    requires HasFlag(h.flags, END_HEADERS)
    ensures var r := BlockSeen(Store(c.(table := table), id, s), h, id);
            Ended(c, id, s.headers, table, r) && r.streams[id] == s
  {
    hide HasFlag;
    assert c.streams[id := s][id] == s;
  }

  /** One awaited piece: its headers join the stream's and the table moves on, or a GOAWAY tells its error. */
  lemma OnePiece(c: Conn, id: nat, p: Piece, huffman: Huffman)
    requires Awaiting(c, id)
    ensures var d := DecodeSpec(p.fragment, c.table, huffman);
            var r := Process(c, PieceHeader(id, p), p.fragment, huffman).conn;
            if d.error != NoError
            then r == GoAwaySent(c.(table := d.table), ErrorCode(d.error), 0) && ErrorTold(c, d.error, d.table, r)
            else if HasFlag(p.flags, END_HEADERS) then Ended(c, id, c.streams[id].headers + d.headers, d.table, r)
            else Awaiting(r, id) && r.log == c.log && r.table == d.table &&
                 r.streams[id].headers == c.streams[id].headers + d.headers &&
                 r.streams == c.streams[id := r.streams[id]]
  {
    hide DecodeSpec, HasFlag, Process, Reaped, ContinuationReceived, GoAwaySent;
    hide FrameSeen, BlockSeen, Ended, Awaiting, Store;
    ReachesHandler(c, id, p, huffman);
    AwaitsOpen(c, id);
    var d := DecodeSpec(p.fragment, c.table, huffman);
    if d.error != NoError {
      PieceRefused(c, id, p, huffman);
    } else {
      PieceTaken(c, id, p, huffman);
      var s := c.streams[id];
      var seen := FrameSeen(s.(headers := s.headers + d.headers), CONTINUATION, p.flags);
      SeenStaysOpen(s.(headers := s.headers + d.headers), CONTINUATION, p.flags);
      Stored(c, id, d.table, seen);
      if HasFlag(p.flags, END_HEADERS) {
        LastStored(c, id, d.table, seen, PieceHeader(id, p));
      }
    }
    NotReaped(ContinuationReceived(c, PieceHeader(id, p), p.fragment, huffman), id);
  }

  lemma AwaitsOpen(c: Conn, id: nat)
    requires Awaiting(c, id)
    ensures id in c.streams && (c.streams[id].state == Open || c.streams[id].state == HalfClosedRemote)
  {
  }

  /** Whatever the number of pieces, they add up to the block. */
  lemma {:induction false} PiecesAddUp(c: Conn, id: nat, pieces: seq<Piece>, huffman: Huffman)
    requires Awaiting(c, id) && WellCut(pieces, c.table, huffman)
    ensures var whole := DecodeSpec(Block(pieces), c.table, huffman);
            var r := Continue(c, id, pieces, huffman);
            if whole.error == NoError then Ended(c, id, c.streams[id].headers + whole.headers, whole.table, r)
            else ErrorTold(c, whole.error, whole.table, r)
    decreases |pieces|
  {
    hide DecodeSpec, HasFlag, Process;
    var first := DecodeSpec(pieces[0].fragment, c.table, huffman);
    OnePiece(c, id, pieces[0], huffman);
    var d := Process(c, PieceHeader(id, pieces[0]), pieces[0].fragment, huffman).conn;
    if |pieces| == 1 {
      assert pieces[1..] == [];
      assert Block(pieces) == pieces[0].fragment;
    } else {
      DecodeComposes(pieces[0].fragment, Block(pieces[1..]), c.table, huffman);
      PiecesAddUp(d, id, pieces[1..], huffman);
      var rest := DecodeSpec(Block(pieces[1..]), d.table, huffman);
      assert c.streams[id].headers + (first.headers + rest.headers)
          == c.streams[id].headers + first.headers + rest.headers;
    }
  }

  /** While a block is under way any other frame stops the frame loop; no stream and no table changes. */
  lemma NothingComesBetween(c: Conn, h: FrameHeader, payload: bytes, huffman: Huffman)
    requires |c.localSettings| == |c.remoteSettings| == Settings.COUNT && |payload| == h.length
    requires c.nextFrameLimit && (h.ftype != CONTINUATION || h.streamId != c.nextStreamIdLimit)
    ensures var r := Process(c, h, payload, huffman);
            && !r.ok && r.conn.table == c.table && r.conn.streams == c.streams
            && r.conn.nextFrameLimit && r.conn.nextStreamIdLimit == c.nextStreamIdLimit
            && r.conn.log != [] && r.conn.log[|r.conn.log| - 1] == SentGoAway(c.lastStreamId, PROTOCOL_ERROR)
  {
    hide NonDefault, Handle, Parse, Reaped;
  }

  /** A HEADERS frame may open the stream: it is the peer's and new, or still idle in the map. */
  predicate MayOpen(c: Conn, id: nat)
  {
    && |c.localSettings| == |c.remoteSettings| == Settings.COUNT && !c.nextFrameLimit && id > 0
    && (c.sentGoAway ==> id <= c.sentGoAwayStreamId)
    && (if id in c.streams then c.streams[id].state == Idle else !IsLocal(c.clientSide, id))
  }

  /** A HEADERS frame with the first piece of a block, whatever its padding and priority. */
  predicate FirstPiece(h: FrameHeader, payload: bytes, fragment: bytes)
  {
    !HasFlag(h.flags, END_HEADERS) && Carries(h, payload, fragment)
  }

  predicate Carries(h: FrameHeader, payload: bytes, fragment: bytes)
  {
    h.ftype == HEADERS && |payload| == h.length && CarriedBlock(h, payload) == Some(fragment)
  }

  /** What the parser asks of a HEADERS frame: its body, priority or not, has at least five octets. */
  predicate LongEnough(h: FrameHeader, fragment: bytes)
  {
    HasFlag(h.flags, PRIORITY_FLAG) || |fragment| >= 5
  }

  lemma HeadersParse(h: FrameHeader, payload: bytes, fragment: bytes)
    requires Carries(h, payload, fragment)
    ensures var p := Parse(h, payload);
            if LongEnough(h, fragment) then p.HeadersPayload? && p.fragment == fragment && p.padLen < h.length
            else p == Malformed(FRAME_SIZE_ERROR)
  {
    hide HasFlag, ParsePriority, ParseSettings, FromBe32;
  }

  /** The stream a first piece arrives on, and what the piece makes of it. */
  function Opened(c: Conn, h: FrameHeader, headers: seq<Header>): Stream
  {
    var s := if h.streamId in c.streams then c.streams[h.streamId] else NewStream();
    FrameSeen(HeadersReceived(s, headers), h.ftype, h.flags)
  }

  lemma OpenedIsOpen(c: Conn, h: FrameHeader, headers: seq<Header>)
    requires MayOpen(c, h.streamId)
    ensures var s := Opened(c, h, headers); s.headers == headers && (s.state == Open || s.state == HalfClosedRemote)
  {
  }

  lemma HeadersFrameTaken(c: Conn, h: FrameHeader, fragment: bytes, padLen: nat, huffman: Huffman)
    requires MayOpen(c, h.streamId) && padLen < h.length && DecodeSpec(fragment, c.table, huffman).error == NoError
    ensures var d := DecodeSpec(fragment, c.table, huffman);
            HeadersFrameReceived(c, h, fragment, padLen, huffman) ==
            BlockSeen(Store(c.(table := d.table), h.streamId, Opened(c, h, d.headers)), h, h.streamId)
  {
    hide DecodeSpec, GoAwaySent, FrameSeen, HeadersReceived, BlockSeen, Store, NewStream;
  }

  lemma TrackedMayOpen(c: Conn, id: nat)
    requires MayOpen(c, id)
    ensures var t := Tracked(c, id);
            && MayOpen(t, id) && t == c.(lastStreamId := t.lastStreamId)
            && (IsLocal(c.clientSide, id) || id <= t.lastStreamId)
  {
  }

  lemma FirstReachesHandler(c: Conn, h: FrameHeader, payload: bytes, fragment: bytes, huffman: Huffman)
    requires MayOpen(c, h.streamId) && Carries(h, payload, fragment) && LongEnough(h, fragment)
    ensures var p := Parse(h, payload);
            && p.HeadersPayload? && p.padLen < h.length
            && Process(c, h, payload, huffman).conn ==
               Reaped(HeadersFrameReceived(Tracked(c, h.streamId), h, fragment, p.padLen, huffman), h.streamId)
  {
    hide HeadersFrameReceived, Reaped, HasFlag, Parse, Tracked, CarriedBlock;
    HeadersParse(h, payload, fragment);
  }

  lemma BlockStarted(c: Conn, h: FrameHeader, table: Table, s: Stream)
    requires MayOpen(c, h.streamId) && (IsLocal(c.clientSide, h.streamId) || h.streamId <= c.lastStreamId)
    requires !HasFlag(h.flags, END_HEADERS) && (s.state == Open || s.state == HalfClosedRemote)
    ensures var r := BlockSeen(Store(c.(table := table), h.streamId, s), h, h.streamId);
            Awaiting(r, h.streamId) && r.log == c.log && r.table == table && r.streams == c.streams[h.streamId := s]
  {
    hide HasFlag;
  }

  lemma FirstPieceOpens(c: Conn, h: FrameHeader, payload: bytes, fragment: bytes, huffman: Huffman)
    requires MayOpen(c, h.streamId) && FirstPiece(h, payload, fragment) && LongEnough(h, fragment)
    requires DecodeSpec(fragment, c.table, huffman).error == NoError
    ensures var d := DecodeSpec(fragment, c.table, huffman);
            var r := Process(c, h, payload, huffman).conn;
            && Awaiting(r, h.streamId) && r.log == c.log && r.table == d.table
            && r.streams == c.streams[h.streamId := r.streams[h.streamId]] && r.streams[h.streamId].headers == d.headers
  {
    hide DecodeSpec, Process, HeadersFrameReceived, Reaped, HasFlag, Parse, Tracked, Opened, BlockSeen, Store, Awaiting,
         CarriedBlock;
    var t := Tracked(c, h.streamId);
    var d := DecodeSpec(fragment, c.table, huffman);
    var s := Opened(t, h, d.headers);
    TrackedMayOpen(c, h.streamId);
    FirstReachesHandler(c, h, payload, fragment, huffman);
    HeadersFrameTaken(t, h, fragment, Parse(h, payload).padLen, huffman);
    OpenedIsOpen(t, h, d.headers);
    BlockStarted(t, h, d.table, s);
    NotReaped(BlockSeen(Store(t.(table := d.table), h.streamId, s), h, h.streamId), h.streamId);
    AwaitsOpen(Process(c, h, payload, huffman).conn, h.streamId);
  }

  /**
   * A block cut at representation boundaries into a HEADERS frame, of five octets at least, and any number of
   * CONTINUATION frames leaves the stream and the table as the whole block decodes, and is reported once; if the
   * whole block does not decode, its error goes out in a GOAWAY.
   */
  lemma BlockInPieces(c: Conn, h: FrameHeader, payload: bytes, first: bytes, pieces: seq<Piece>, huffman: Huffman)
    requires MayOpen(c, h.streamId) && FirstPiece(h, payload, first) && LongEnough(h, first)
    requires DecodeSpec(first, c.table, huffman).error == NoError
    requires WellCut(pieces, DecodeSpec(first, c.table, huffman).table, huffman)
    ensures var id := h.streamId;
            var whole := DecodeSpec(first + Block(pieces), c.table, huffman);
            var started := Process(c, h, payload, huffman).conn;
            && |started.localSettings| == |started.remoteSettings| == Settings.COUNT
            && var r := Continue(started, id, pieces, huffman);
               if whole.error == NoError
               then !r.nextFrameLimit && r.table == whole.table && r.log == c.log + [OnStreamHeaders(id)] &&
                    id in r.streams && r.streams[id].headers == whole.headers &&
                    r.streams == c.streams[id := r.streams[id]]
               else r.table == whole.table && r.sentGoAway && r.log != [] &&
                    r.log[|r.log| - 1] == SentGoAway(r.sentGoAwayStreamId, ErrorCode(whole.error))
  {
    hide DecodeSpec, HasFlag, Process, WellCut, Parse, Continue, Block, ErrorCode;
    var started := Process(c, h, payload, huffman).conn;
    FirstPieceOpens(c, h, payload, first, huffman);
    DecodeComposes(first, Block(pieces), c.table, huffman);
    PiecesAddUp(started, h.streamId, pieces, huffman);
  }
}
