/**
 * What becomes of a header block that is not cut at representation boundaries (section 4.3 of RFC 7540
 * allows any cut), of the connection after a piece that does not decode, and of promised streams.
 */
module HeaderBlockCuts {
  import opened Bytes
  import opened ConnectionModel
  import opened DynamicTable
  import opened Frames
  import opened HeaderBlocks
  import HeaderBounds
  import opened HeaderDecoder
  import opened Headers
  import opened IntegerCodec
  import opened RepresentationRoundTrips
  import opened Representations
  import Settings
  import StaticTable
  import opened StreamModel
  import opened StreamStates
  import opened StringLiterals

  // ---------------------------------------------------------------- errors do not stop the frame loop

  /** package_process fails exactly on a frame that breaks into an unfinished block, or on a frame cut short. */
  lemma ProcessFailsIff(c: Conn, package: bytes, huffman: Huffman)
    requires |c.localSettings| == |c.remoteSettings| == Settings.COUNT
    ensures !PackageProcess(c, package, huffman).ok <==>
            || |package| < HEADER_SIZE
            || |package| < HEADER_SIZE + UnpackHeader(package).length
            || !Awaited(c, UnpackHeader(package))
  {
    hide UnpackHeader, Handle, Parse, Reaped, GoAwaySent, Tracked;
  }

  /** After a piece that does not decode, the next CONTINUATION is taken exactly if the GOAWAY covers the stream. */
  lemma StillAwaitingIff(c: Conn, id: nat, p: Piece, huffman: Huffman)
    requires Awaiting(c, id) && DecodeSpec(p.fragment, c.table, huffman).error != NoError
    ensures var r := Process(c, PieceHeader(id, p), p.fragment, huffman);
            r.ok && (Awaiting(r.conn, id) <==> id <= c.lastStreamId)
  {
    hide DecodeSpec, Process, GoAwaySent;
    var d := DecodeSpec(p.fragment, c.table, huffman);
    OnePiece(c, id, p, huffman);
    GoAwayTells(c.(table := d.table), ErrorCode(d.error));
    AwaitedIsOk(c, id, p, huffman);
  }

  lemma AwaitedIsOk(c: Conn, id: nat, p: Piece, huffman: Huffman)
    requires Awaiting(c, id)
    ensures Process(c, PieceHeader(id, p), p.fragment, huffman).ok
  {
    hide Handle, Parse, Reaped, GoAwaySent, Tracked;
  }

  /**
   * A block goes on behind a piece that did not decode: a later piece is decoded as representations of its
   * own and delivered, with the headers from before the failure.
   */
  lemma BlockGoesOnAfterError(c: Conn, id: nat, p: Piece, q: Piece, huffman: Huffman)
    requires Awaiting(c, id) && id <= c.lastStreamId && DecodeSpec(p.fragment, c.table, huffman).error != NoError
    requires DecodeSpec(q.fragment, DecodeSpec(p.fragment, c.table, huffman).table, huffman).error == NoError
    requires HasFlag(q.flags, END_HEADERS)
    ensures var table := DecodeSpec(p.fragment, c.table, huffman).table;
            var r := Process(c, PieceHeader(id, p), p.fragment, huffman);
            var d := DecodeSpec(q.fragment, table, huffman);
            && r.ok && Awaiting(r.conn, id)
            && var s := Process(r.conn, PieceHeader(id, q), q.fragment, huffman);
               s.ok && Ended(r.conn, id, c.streams[id].headers + d.headers, d.table, s.conn)
  {
    hide DecodeSpec, Process, GoAwaySent, HasFlag, Ended;
    var d := DecodeSpec(p.fragment, c.table, huffman);
    StillAwaitingIff(c, id, p, huffman);
    OnePiece(c, id, p, huffman);
    GoAwayTells(c.(table := d.table), ErrorCode(d.error));
    var r := Process(c, PieceHeader(id, p), p.fragment, huffman).conn;
    OnePiece(r, id, q, huffman);
    AwaitedIsOk(r, id, q, huffman);
  }

  // ---------------------------------------------------------------- the boundaries of a block

  /** The representations at the front of a block end at its octet `k`. */
  predicate Boundary(src: bytes, t: Table, huffman: Huffman, k: nat)
    decreases |src|
  {
    k == 0 ||
    (src != [] &&
     var step := StepSpec(src, t, huffman);
     !step.Failed? && step.consumed <= k && Boundary(src[step.consumed..], step.table, huffman, k - step.consumed))
  }

  /** The front of a block decodes by itself exactly if it ends at a boundary of the block. */
  lemma {:induction false} FrontDecodesIff(src: bytes, t: Table, huffman: Huffman, k: nat)
    requires k <= |src|
    ensures DecodeSpec(src[..k], t, huffman).error == NoError <==> Boundary(src, t, huffman, k)
    decreases |src|
  {
    hide StepSpec;
    if k == 0 {
      assert src[..k] == [];
    } else {
      var front := src[..k];
      assert front + src[k..] == src;
      if !StepSpec(front, t, huffman).Failed? {
        StepLocal(front, src[k..], t, huffman);
      } else if !StepSpec(src, t, huffman).Failed? && StepSpec(src, t, huffman).consumed <= k {
        HeaderBounds.StepCut(front, src[k..], t, huffman);
      }
      var step := StepSpec(src, t, huffman);
      if StepSpec(front, t, huffman) == step && !step.Failed? {
        var n := step.consumed;
        assert front[n..] == src[n..][..k - n];
        FrontDecodesIff(src[n..], step.table, huffman, k - n);
      }
    }
  }

  /** Every cut of a block into `first` and the pieces is at one of its boundaries. */
  predicate CutAtBoundaries(first: bytes, pieces: seq<Piece>, t: Table, huffman: Huffman)
  {
    forall i :: 0 <= i < |pieces| ==>
      Boundary(first + Block(pieces), t, huffman, |first| + |Block(pieces[..i])|)
  }

  lemma {:induction false} BlockSplits(pieces: seq<Piece>, i: nat)
    requires i <= |pieces|
    ensures Block(pieces) == Block(pieces[..i]) + Block(pieces[i..])
  {
    if i == 0 {
      assert pieces[i..] == pieces;
    } else {
      BlockSplits(pieces[1..], i - 1);
      assert pieces[..i][1..] == pieces[1..][..i - 1] && pieces[1..][i - 1..] == pieces[i..];
    }
  }

  /** The pieces before the last decode one after the other exactly if they decode together, however many are taken. */
  lemma {:induction false} WellCutIff(pieces: seq<Piece>, t: Table, huffman: Huffman)
    requires ProperFlags(pieces)
    ensures WellCut(pieces, t, huffman) <==>
            forall i :: 1 <= i < |pieces| ==> DecodeSpec(Block(pieces[..i]), t, huffman).error == NoError
    decreases |pieces|
  {
    hide DecodeSpec, HasFlag;
    if |pieces| > 1 {
      var d := DecodeSpec(pieces[0].fragment, t, huffman);
      assert pieces[..1] == [pieces[0]];
      assert Block(pieces[..1]) == pieces[0].fragment + Block([]) == pieces[0].fragment;
      if d.error == NoError {
        RestIsProper(pieces);
        WellCutIff(pieces[1..], d.table, huffman);
        forall i | 1 <= i < |pieces|
          ensures DecodeSpec(Block(pieces[..i]), t, huffman).error ==
                  DecodeSpec(Block(pieces[1..][..i - 1]), d.table, huffman).error
        {
          assert pieces[..i][1..] == pieces[1..][..i - 1];
          DecodeComposes(pieces[0].fragment, Block(pieces[1..][..i - 1]), t, huffman);
        }
        assert DecodeSpec(Block(pieces[1..][..0]), d.table, huffman).error == NoError by {
          NothingDecoded(d.table, huffman);
        }
        forall j | 1 <= j < |pieces[1..]|
          ensures DecodeSpec(Block(pieces[1..][..j]), d.table, huffman).error ==
                  DecodeSpec(Block(pieces[..j + 1]), t, huffman).error
        {
        }
      }
    }
  }

  lemma NothingDecoded(t: Table, huffman: Huffman)
    ensures DecodeSpec([], t, huffman) == Decoded(NoError, [], t)
  {
  }

  /** Pieces that decode one after the other are exactly those cut at boundaries of the whole block. */
  lemma BoundariesIff(first: bytes, pieces: seq<Piece>, t: Table, huffman: Huffman)
    requires ProperFlags(pieces)
    ensures var d := DecodeSpec(first, t, huffman);
            d.error == NoError && WellCut(pieces, d.table, huffman) <==> CutAtBoundaries(first, pieces, t, huffman)
  {
    hide DecodeSpec, HasFlag, Boundary, Block, WellCut;
    var whole := first + Block(pieces);
    var d := DecodeSpec(first, t, huffman);
    forall i | 0 <= i < |pieces|
      ensures Boundary(whole, t, huffman, |first| + |Block(pieces[..i])|) <==>
              DecodeSpec(first + Block(pieces[..i]), t, huffman).error == NoError
    {
      BlockSplits(pieces, i);
      var k := |first| + |Block(pieces[..i])|;
      assert whole[..k] == first + Block(pieces[..i]);
      FrontDecodesIff(whole, t, huffman, k);
    }
    assert pieces[..0] == [];
    assert first + Block(pieces[..0]) == first by { NoPieces(); }
    if d.error == NoError {
      WellCutIff(pieces, d.table, huffman);
      forall i | 0 <= i < |pieces|
        ensures DecodeSpec(first + Block(pieces[..i]), t, huffman).error ==
                DecodeSpec(Block(pieces[..i]), d.table, huffman).error
      {
        DecodeComposes(first, Block(pieces[..i]), t, huffman);
      }
    }
  }

  lemma NoPieces()
    ensures Block([]) == []
  {
  }

  // ---------------------------------------------------------------- cuts inside a representation

  /** Only the last piece says that the block ends. */
  predicate ProperFlags(pieces: seq<Piece>)
  {
    pieces != [] && forall i :: 0 <= i < |pieces| ==> (HasFlag(pieces[i].flags, END_HEADERS) <==> i == |pieces| - 1)
  }

  /** A GOAWAY went out since. */
  predicate GoAwaySince(c: Conn, d: Conn)
  {
    exists i :: |c.log| <= i < |d.log| && d.log[i].SentGoAway?
  }

  /** A CONTINUATION frame adds to the log. */
  lemma PieceGrowsLog(c: Conn, id: nat, p: Piece, huffman: Huffman)
    requires |c.localSettings| == |c.remoteSettings| == Settings.COUNT
    ensures c.log <= Process(c, PieceHeader(id, p), p.fragment, huffman).conn.log
  {
    hide GoAwaySent, ContinuationReceived, Reaped, Tracked, Unpad, ParseSettings, ParsePriority, FromBe32, HasFlag;
    var h := PieceHeader(id, p);
    GoAwayGrowsLog(c, PROTOCOL_ERROR);
    var t := Tracked(c, id);
    TrackingKeepsLog(c, id);
    HandlerGrowsLog(t, h, p.fragment, huffman);
    ReapingGrowsLog(ContinuationReceived(t, h, p.fragment, huffman), id);
  }

  lemma TrackingKeepsLog(c: Conn, id: nat)
    ensures Tracked(c, id).log == c.log
  {
  }

  lemma GoAwayGrowsLog(c: Conn, e: nat)
    ensures c.log <= GoAwaySent(c, e, 0).log
  {
    hide NonDefault;
  }

  lemma BlockGrowsLog(c: Conn, h: FrameHeader, id: nat)
    ensures c.log <= BlockSeen(c, h, id).log
  {
    hide HasFlag;
  }

  lemma StoringKeepsLog(c: Conn, table: Table, id: nat, s: Stream)
    ensures Store(c.(table := table), id, s).log == c.(table := table).log == c.log
  {
  }

  lemma HandlerGrowsLog(c: Conn, h: FrameHeader, fragment: bytes, huffman: Huffman)
    ensures c.log <= ContinuationReceived(c, h, fragment, huffman).log
  {
    hide GoAwaySent, DecodeSpec, FrameSeen, ErrorCode, HasFlag, Store, BlockSeen;
    GoAwayGrowsLog(c, PROTOCOL_ERROR);
    if c.nextFrameLimit && Find(c, h.streamId).Some? {
      var d := DecodeSpec(fragment, c.table, huffman);
      var t := c.(table := d.table);
      GoAwayGrowsLog(t, ErrorCode(d.error));
      var s := c.streams[h.streamId];
      var seen := FrameSeen(s.(headers := s.headers + d.headers), h.ftype, h.flags);
      StoringKeepsLog(c, d.table, h.streamId, seen);
      BlockGrowsLog(Store(t, h.streamId, seen), h, h.streamId);
    }
  }

  lemma ReapingGrowsLog(c: Conn, id: nat)
    ensures c.log <= Reaped(c, id).log
  {
  }

  lemma {:induction false} PiecesGrowLog(c: Conn, id: nat, pieces: seq<Piece>, huffman: Huffman)
    requires |c.localSettings| == |c.remoteSettings| == Settings.COUNT
    ensures c.log <= Continue(c, id, pieces, huffman).log
    decreases |pieces|
  {
    hide Process;
    if pieces != [] {
      PieceGrowsLog(c, id, pieces[0], huffman);
      var d := Process(c, PieceHeader(id, pieces[0]), pieces[0].fragment, huffman).conn;
      if |d.localSettings| == |d.remoteSettings| == Settings.COUNT {
        PiecesGrowLog(d, id, pieces[1..], huffman);
      }
    }
  }

  /** Whatever comes later, a GOAWAY stays in the log. */
  lemma GoAwayStays(c: Conn, d: Conn, e: Conn)
    requires c.log < d.log && d.log[|d.log| - 1].SentGoAway? && d.log <= e.log
    ensures GoAwaySince(c, e)
  {
    assert e.log[|d.log| - 1] == d.log[|d.log| - 1];
  }

  lemma {:induction false} BadCutIsRefused(c: Conn, id: nat, pieces: seq<Piece>, huffman: Huffman)
    requires Awaiting(c, id) && ProperFlags(pieces) && !WellCut(pieces, c.table, huffman)
    requires DecodeSpec(Block(pieces), c.table, huffman).error == NoError
    ensures GoAwaySince(c, Continue(c, id, pieces, huffman))
    decreases |pieces|
  {
    hide DecodeSpec, HasFlag, Process, GoAwaySent, Ended, ErrorCode;
    var first := DecodeSpec(pieces[0].fragment, c.table, huffman);
    OnePiece(c, id, pieces[0], huffman);
    var d := Process(c, PieceHeader(id, pieces[0]), pieces[0].fragment, huffman).conn;
    if first.error != NoError {
      GoAwayTells(c.(table := first.table), ErrorCode(first.error));
      PiecesGrowLog(d, id, pieces[1..], huffman);
      GoAwayStays(c, d, Continue(c, id, pieces, huffman));
    } else {
      DecodeComposes(pieces[0].fragment, Block(pieces[1..]), c.table, huffman);
      RestIsProper(pieces);
      BadCutIsRefused(d, id, pieces[1..], huffman);
    }
  }

  lemma RestIsProper(pieces: seq<Piece>)
    requires ProperFlags(pieces) && |pieces| > 1
    ensures ProperFlags(pieces[1..])
  {
    hide HasFlag;
    assert forall i :: 0 <= i < |pieces| - 1 ==> pieces[1..][i] == pieces[i + 1];
  }

  /** A first piece that does not decode opens no stream and starts no wait; its error goes out in a GOAWAY. */
  lemma FirstPieceRefused(c: Conn, h: FrameHeader, payload: bytes, first: bytes, huffman: Huffman)
    requires MayOpen(c, h.streamId) && Carries(h, payload, first) && LongEnough(h, first)
    requires DecodeSpec(first, c.table, huffman).error != NoError
    ensures var d := DecodeSpec(first, c.table, huffman);
            var r := Process(c, h, payload, huffman);
            && r.ok && r.conn.streams == c.streams && r.conn.table == d.table && !r.conn.nextFrameLimit
            && r.conn.localSettings == c.localSettings && r.conn.remoteSettings == c.remoteSettings
            && c.log < r.conn.log
            && r.conn.log[|r.conn.log| - 1] == SentGoAway(r.conn.lastStreamId, ErrorCode(d.error))
  {
    hide DecodeSpec, Process, HeadersFrameReceived, Reaped, HasFlag, Parse, Tracked, GoAwaySent, ErrorCode,
         CarriedBlock;
    var t := Tracked(c, h.streamId);
    var d := DecodeSpec(first, c.table, huffman);
    TrackedMayOpen(c, h.streamId);
    FirstReachesHandler(c, h, payload, first, huffman);
    HeadersFrameRefused(t, h, first, Parse(h, payload).padLen, huffman);
    GoAwayTells(t.(table := d.table), ErrorCode(d.error));
    NotReaped(HeadersFrameReceived(t, h, first, Parse(h, payload).padLen, huffman), h.streamId);
    FirstIsOk(c, h, payload, first, huffman);
  }

  lemma HeadersFrameRefused(c: Conn, h: FrameHeader, fragment: bytes, padLen: nat, huffman: Huffman)
    requires h.streamId != 0 && padLen < h.length && DecodeSpec(fragment, c.table, huffman).error != NoError
    ensures var d := DecodeSpec(fragment, c.table, huffman);
            HeadersFrameReceived(c, h, fragment, padLen, huffman) ==
            GoAwaySent(c.(table := d.table), ErrorCode(d.error), 0)
  {
    hide DecodeSpec, GoAwaySent, ErrorCode, HeadersTaken;
  }

  lemma FirstIsOk(c: Conn, h: FrameHeader, payload: bytes, first: bytes, huffman: Huffman)
    requires MayOpen(c, h.streamId) && Carries(h, payload, first)
    ensures Process(c, h, payload, huffman).ok
  {
    hide Handle, Parse, Reaped, GoAwaySent, Tracked, HasFlag, CarriedBlock;
  }

  /** The stream and the table are as the whole block decodes, reported once and with no other output. */
  predicate Delivered(c: Conn, id: nat, whole: Decoded, r: Conn)
  {
    && !r.nextFrameLimit && r.table == whole.table && r.log == c.log + [OnStreamHeaders(id)]
    && id in r.streams && r.streams[id].headers == whole.headers && r.streams == c.streams[id := r.streams[id]]
  }

  /**
   * A HEADERS frame whose body is under five octets opens nothing and its block is not decoded, although it may
   * be whole: FRAME_SIZE_ERROR goes out in a GOAWAY.
   */
  lemma ShortHeadersRefused(c: Conn, h: FrameHeader, payload: bytes, first: bytes, huffman: Huffman)
    requires MayOpen(c, h.streamId) && Carries(h, payload, first) && !LongEnough(h, first)
    ensures var r := Process(c, h, payload, huffman);
            && r.ok && r.conn.streams == c.streams && r.conn.table == c.table && !r.conn.nextFrameLimit
            && r.conn.localSettings == c.localSettings && r.conn.remoteSettings == c.remoteSettings
            && c.log < r.conn.log
            && r.conn.log[|r.conn.log| - 1] == SentGoAway(r.conn.lastStreamId, FRAME_SIZE_ERROR)
  {
    hide Reaped, HasFlag, Parse, Tracked, GoAwaySent, CarriedBlock;
    TrackedMayOpen(c, h.streamId);
    HeadersParse(h, payload, first);
    GoAwayTells(Tracked(c, h.streamId), FRAME_SIZE_ERROR);
  }

  /** A first piece that is refused, whichever way, is told in a GOAWAY that stays in the log. */
  lemma RefusalStays(c: Conn, h: FrameHeader, payload: bytes, first: bytes, pieces: seq<Piece>, huffman: Huffman)
    requires MayOpen(c, h.streamId) && Carries(h, payload, first)
    requires !LongEnough(h, first) || DecodeSpec(first, c.table, huffman).error != NoError
    ensures var started := Process(c, h, payload, huffman).conn;
            && |started.localSettings| == |started.remoteSettings| == Settings.COUNT
            && GoAwaySince(c, started)
            && GoAwaySince(c, Continue(started, h.streamId, pieces, huffman))
  {
    hide DecodeSpec, HasFlag, Process, Continue, ErrorCode, CarriedBlock, GoAwaySince;
    var started := Process(c, h, payload, huffman).conn;
    if !LongEnough(h, first) {
      ShortHeadersRefused(c, h, payload, first, huffman);
    } else {
      FirstPieceRefused(c, h, payload, first, huffman);
    }
    PiecesGrowLog(started, h.streamId, pieces, huffman);
    GoAwayStays(c, started, started);
    GoAwayStays(c, started, Continue(started, h.streamId, pieces, huffman));
  }

  /**
   * A HEADERS frame and its CONTINUATIONs deliver a block that decodes as a whole, and no GOAWAY goes out, if
   * and only if the HEADERS body has at least five octets and every cut is at a representation boundary.
   */
  lemma BlockDeliveredIff(c: Conn, h: FrameHeader, payload: bytes, first: bytes, pieces: seq<Piece>, huffman: Huffman)
    requires MayOpen(c, h.streamId) && FirstPiece(h, payload, first) && ProperFlags(pieces)
    requires DecodeSpec(first + Block(pieces), c.table, huffman).error == NoError
    ensures var whole := DecodeSpec(first + Block(pieces), c.table, huffman);
            var proper := LongEnough(h, first) && CutAtBoundaries(first, pieces, c.table, huffman);
            var started := Process(c, h, payload, huffman).conn;
            && |started.localSettings| == |started.remoteSettings| == Settings.COUNT
            && var r := Continue(started, h.streamId, pieces, huffman);
               (proper <==> Delivered(c, h.streamId, whole, r)) && (proper <==> !GoAwaySince(c, r))
  {
    hide DecodeSpec, HasFlag, Process, WellCut, Continue, Block, ErrorCode, ProperFlags, CarriedBlock, CutAtBoundaries;
    var id := h.streamId;
    var d := DecodeSpec(first, c.table, huffman);
    var started := Process(c, h, payload, huffman).conn;
    BoundariesIff(first, pieces, c.table, huffman);
    if !LongEnough(h, first) || d.error != NoError {
      RefusalStays(c, h, payload, first, pieces, huffman);
    } else {
      FirstPieceOpens(c, h, payload, first, huffman);
      DecodeComposes(first, Block(pieces), c.table, huffman);
      AwaitedDelivers(started, id, pieces, huffman);
    }
  }

  /** Pieces of a block that decodes as a whole, told by how they decode. */
  lemma AwaitedDelivers(c: Conn, id: nat, pieces: seq<Piece>, huffman: Huffman)
    requires Awaiting(c, id) && ProperFlags(pieces)
    requires DecodeSpec(Block(pieces), c.table, huffman).error == NoError
    ensures var whole := DecodeSpec(Block(pieces), c.table, huffman);
            var r := Continue(c, id, pieces, huffman);
            && (WellCut(pieces, c.table, huffman) <==>
                Ended(c, id, c.streams[id].headers + whole.headers, whole.table, r))
            && (WellCut(pieces, c.table, huffman) <==> !GoAwaySince(c, r))
  {
    hide DecodeSpec, HasFlag, Continue, WellCut, Block;
    if WellCut(pieces, c.table, huffman) {
      PiecesAddUp(c, id, pieces, huffman);
    } else {
      BadCutIsRefused(c, id, pieces, huffman);
    }
  }

  /**
   * For pieces of a block that decodes as a whole: the stream gets its headers, and no GOAWAY goes out, if
   * and only if every cut is at a representation boundary.
   */
  lemma CutsMustBeBoundaries(c: Conn, id: nat, pieces: seq<Piece>, huffman: Huffman)
    requires Awaiting(c, id) && ProperFlags(pieces)
    requires DecodeSpec(Block(pieces), c.table, huffman).error == NoError
    ensures var whole := DecodeSpec(Block(pieces), c.table, huffman);
            var r := Continue(c, id, pieces, huffman);
            && (CutAtBoundaries([], pieces, c.table, huffman) <==>
                Ended(c, id, c.streams[id].headers + whole.headers, whole.table, r))
            && (CutAtBoundaries([], pieces, c.table, huffman) <==> !GoAwaySince(c, r))
  {
    hide DecodeSpec, HasFlag, Continue, WellCut, Block, CutAtBoundaries, ProperFlags;
    NothingDecoded(c.table, huffman);
    BoundariesIff([], pieces, c.table, huffman);
    AwaitedDelivers(c, id, pieces, huffman);
    assert [] + Block(pieces) == Block(pieces);
  }

  /** A whole block in one HEADERS frame is delivered exactly if the body has at least five octets. */
  lemma OneFrameDeliveredIff(c: Conn, h: FrameHeader, payload: bytes, block: bytes, huffman: Huffman)
    requires MayOpen(c, h.streamId) && Carries(h, payload, block) && HasFlag(h.flags, END_HEADERS)
    requires DecodeSpec(block, c.table, huffman).error == NoError
    ensures var r := Process(c, h, payload, huffman).conn;
            && (LongEnough(h, block) <==> Delivered(c, h.streamId, DecodeSpec(block, c.table, huffman), r))
            && (LongEnough(h, block) <==> !GoAwaySince(c, r))
  {
    hide DecodeSpec, Process, HeadersFrameReceived, Reaped, HasFlag, Parse, Tracked, Opened, BlockSeen, Store,
         CarriedBlock, ErrorCode;
    var id := h.streamId;
    if LongEnough(h, block) {
      var t := Tracked(c, id);
      var d := DecodeSpec(block, c.table, huffman);
      var s := Opened(t, h, d.headers);
      TrackedMayOpen(c, id);
      FirstReachesHandler(c, h, payload, block, huffman);
      HeadersFrameTaken(t, h, block, Parse(h, payload).padLen, huffman);
      OpenedIsOpen(t, h, d.headers);
      LastStored(t, id, d.table, s, h);
      NotReaped(BlockSeen(Store(t.(table := d.table), id, s), h, id), id);
    } else {
      RefusalStays(c, h, payload, block, [], huffman);
    }
  }

  /** A cut inside a value: the first piece alone is an error, the whole is the field "a: hello". */
  lemma CutInsideAValue(t: Table, huffman: Huffman)
    ensures var (a: bytes, b: bytes) := ([0x40, 1, 0x61, 5, 0x68, 0x65], [0x6c, 0x6c, 0x6f]);
            && DecodeSpec(a, t, huffman).error == CompressionError
            && DecodeSpec(a + b, t, huffman).error == NoError
            && DecodeSpec(a + b, t, huffman).headers == [Header([0x61], [0x68, 0x65, 0x6c, 0x6c, 0x6f])]
  {
    hide Lookup, StaticTable.Entry, Pushed, DecodeSpec, LiteralOctets;
    var (a: bytes, b: bytes) := ([0x40, 1, 0x61, 5, 0x68, 0x65], [0x6c, 0x6c, 0x6f]);
    var h := Header([0x61], [0x68, 0x65, 0x6c, 0x6c, 0x6f]);
    WholeValue(h);
    assert LiteralOctets(INCREMENTAL, h) == a + b;
    LiteralRoundTrip(INCREMENTAL, h, [], t, huffman);
    assert (a + b) + [] == a + b;
    OneField(a + b, h, Pushed(t, h), t, huffman);
    PartValue(a, t, huffman);
    HeaderBounds.FailedStep(a, t, huffman);
  }

  lemma WholeValue(h: Header)
    requires |h.key| == 1 && |h.value| == 5
    ensures LiteralOctets(INCREMENTAL, h) == [0x40, 1] + h.key + [5] + h.value
  {
  }

  lemma OneField(src: bytes, h: Header, after: Table, t: Table, huffman: Huffman)
    requires src != [] && StepSpec(src, t, huffman) == Field(h, after, |src|)
    ensures DecodeSpec(src, t, huffman) == Decoded(NoError, [h], after)
  {
    hide StepSpec;
    assert src[|src|..] == [];
  }

  lemma PartValue(a: bytes, t: Table, huffman: Huffman)
    requires a == [0x40, 1, 0x61, 5, 0x68, 0x65]
    ensures StepSpec(a, t, huffman) == Failed(CompressionError)
  {
    hide Lookup, Pushed;
    assert !HasFlag(0x40, 0x80) && HasFlag(0x40, 0x40);
    assert DecodeInt(a, 63) == Some(Parsed(0, 1));
    assert DecodeInt(a[1..], 127) == Some(Parsed(1, 1));
    assert a[1..][1..2] == [0x61];
    assert LiteralName(a, t, 63, huffman) == Name([0x61], 3);
    assert DecodeInt(a[3..], 127) == Some(Parsed(5, 1));
  }

  // ---------------------------------------------------------------- promises

  /** PUSH_PROMISE puts no stream in the map; its headers reach one exactly if the promised id is there. */
  lemma PromiseReachesIff(c: Conn, h: FrameHeader, promised: nat, fragment: bytes, huffman: Huffman)
    requires DecodeSpec(fragment, c.table, huffman).error == NoError
    ensures var d := DecodeSpec(fragment, c.table, huffman);
            var r := PromiseDecoded(c, h, promised, fragment, huffman);
            && r.streams.Keys == c.streams.Keys
            && (promised > 0 && promised in c.streams ==>
                  r.streams[promised].headers == c.streams[promised].headers + d.headers)
            && (promised == 0 || promised !in c.streams ==> r.streams == c.streams)
  {
    hide DecodeSpec, BlockSeen, FrameSeen, Moved, Store;
    var d := DecodeSpec(fragment, c.table, huffman);
    var t := c.(table := d.table);
    BlockKeepsStreams(t, h, promised);
    if Find(c, promised).Some? {
      var s := FrameSeen(Moved(c.streams[promised], Recv(PushPromise)), h.ftype, h.flags);
      MarksKeepHeaders(c.streams[promised], h);
      var taken := s.(headers := s.headers + d.headers);
      StoredIs(t, promised, taken);
      BlockKeepsStreams(Store(t, promised, taken), h, promised);
    }
  }

  lemma BlockKeepsStreams(c: Conn, h: FrameHeader, id: nat)
    ensures BlockSeen(c, h, id).streams == c.streams
  {
    hide HasFlag;
  }

  lemma MarksKeepHeaders(s: Stream, h: FrameHeader)
    ensures FrameSeen(Moved(s, Recv(PushPromise)), h.ftype, h.flags).headers == s.headers
  {
  }

  lemma StoredIs(c: Conn, id: nat, s: Stream)
    requires id in c.streams
    ensures Store(c, id, s).streams.Keys == c.streams.Keys && Store(c, id, s).streams[id] == s
  {
    assert c.streams[id := s].Keys == c.streams.Keys + {id};
  }
}
