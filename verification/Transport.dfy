/**
 * The byte stream of a connection (TransportAdaptor::ReceivedData in src/http2.cc): the preface check, the
 * frame loop, and that it does not matter in which pieces the octets arrive.
 */
module Transport {
  import opened Bytes
  import opened ConnectionInvariant
  import opened ConnectionModel
  import opened ConnectionRuns
  import opened Frames
  import Settings
  import opened StringLiterals

  const PREFACE_SIZE := 24

  function Preface(): (r: bytes)
    ensures |r| == PREFACE_SIZE
  {
    Ascii("PRI * HTTP/2.0\r\n\r\nSM\r\n\r\n")
  }

  /** What ReceivedData returns, -1 as `ok` false, and the connection it leaves. */
  datatype Fed = Fed(conn: Conn, consumed: nat, ok: bool)

  /** `n` octets were consumed before; an error consumes nothing. */
  function Further(n: nat, rest: Fed): Fed
  {
    if rest.ok then rest.(consumed := n + rest.consumed) else rest
  }

  /** The size of the whole frame at the front of `buf`, if there is one. */
  function FrameTotal(buf: bytes): nat
    requires |buf| >= HEADER_SIZE
  {
    UnpackHeader(buf).length + HEADER_SIZE
  }

  predicate Oversized(c: Conn, buf: bytes)
    requires Inv(c) && |buf| >= HEADER_SIZE
  {
    ReadyByInv(c);
    UnpackHeader(buf).length > c.localSettings[Settings.MAX_FRAME_SIZE]
  }

  function FeedFrames(c: Conn, buf: bytes, huffman: Huffman): (r: Fed)
    requires Inv(c)
    ensures Inv(r.conn) && r.consumed <= |buf| && (!r.ok ==> r.consumed == 0)
    decreases |buf|
  {
    if |buf| < HEADER_SIZE then Fed(c, 0, true)
    else if Oversized(c, buf) then
      GoAwayKeeps(c, FRAME_SIZE_ERROR, 0);
      Fed(GoAwaySent(c, FRAME_SIZE_ERROR, 0), 0, false)
    else if FrameTotal(buf) > |buf| then Fed(c, 0, true)
    else
      var n := FrameTotal(buf);
      ReceiveKeeps(c, buf[..n], huffman);
      var p := PackageProcess(c, buf[..n], huffman);
      if !p.ok then Fed(p.conn, 0, false)
      else
        Further(n, FeedFrames(p.conn, buf[n..], huffman))
  }

  function PrefaceVerified(c: Conn): (r: Conn)
    requires Inv(c)
    ensures Inv(r)
  {
    HandshakeIsQuiet(c);
    InitialSettingsKeep(c.(finishHandshake := true));
    InitialSettingsSent(c.(finishHandshake := true))
  }

  function Feed(c: Conn, buf: bytes, huffman: Huffman): (r: Fed)
    requires Inv(c)
    ensures Inv(r.conn) && r.consumed <= |buf|
  {
    hide Ascii, FeedFrames, Inv, GoAwaySent;
    if c.finishHandshake then FeedFrames(c, buf, huffman)
    else if |buf| < PREFACE_SIZE then Fed(c, 0, true)
    else if buf[..PREFACE_SIZE] != Preface() then
      GoAwayKeeps(c, PROTOCOL_ERROR, 0);
      Fed(GoAwaySent(c, PROTOCOL_ERROR, 0), 0, false)
    else
      Further(PREFACE_SIZE, FeedFrames(PrefaceVerified(c), buf[PREFACE_SIZE..], huffman))
  }

  // ---------------------------------------------------------------- what is left over

  /** The preface, or the frame at the front, has not arrived whole; and the frame will be let through. */
  predicate Incomplete(c: Conn, buf: bytes)
    requires Inv(c)
  {
    if !c.finishHandshake then |buf| < PREFACE_SIZE
    else |buf| < HEADER_SIZE || (!Oversized(c, buf) && |buf| < FrameTotal(buf))
  }

  /** Handling a frame does not undo the handshake. */
  lemma FramesKeepHandshake(c: Conn, package: bytes, huffman: Huffman)
    requires Inv(c) && c.finishHandshake
    ensures Sized(c) && Inv(PackageProcess(c, package, huffman).conn)
    ensures PackageProcess(c, package, huffman).conn.finishHandshake
  {
    hide Inv, PackageProcess, GoAways, Shutdowns, Registrable, Admits;
    ReadyByInv(c);
    ReceiveKeeps(c, package, huffman);
    BaseTracks(c, Receive(package));
  }

  /** An oversized frame at the front of what has come stays one when more comes. */
  lemma FrontStays(buf: bytes, more: bytes)
    requires |buf| >= HEADER_SIZE
    ensures UnpackHeader(buf + more) == UnpackHeader(buf)
  {
    assert (buf + more)[..4] == buf[..4] && (buf + more)[5..9] == buf[5..9];
  }

  /** The frame loop with a whole frame at the front. */
  lemma OneFrame(c: Conn, buf: bytes, huffman: Huffman)
    requires Inv(c) && |buf| >= HEADER_SIZE && !Oversized(c, buf) && FrameTotal(buf) <= |buf|
    ensures var n := FrameTotal(buf);
            Sized(c) && var p := PackageProcess(c, buf[..n], huffman);
            Inv(p.conn) &&
            FeedFrames(c, buf, huffman) ==
              if p.ok then Further(n, FeedFrames(p.conn, buf[n..], huffman)) else Fed(p.conn, 0, false)
  {
    hide PackageProcess, Inv, UnpackHeader, GoAwaySent;
    ReceiveKeeps(c, buf[..FrameTotal(buf)], huffman);
  }

  /** The frame loop without one. */
  lemma NoFrame(c: Conn, buf: bytes, huffman: Huffman)
    requires Inv(c) && (|buf| < HEADER_SIZE || Oversized(c, buf) || FrameTotal(buf) > |buf|)
    ensures FeedFrames(c, buf, huffman) ==
            if |buf| >= HEADER_SIZE && Oversized(c, buf) then Fed(GoAwaySent(c, FRAME_SIZE_ERROR, 0), 0, false)
            else Fed(c, 0, true)
  {
    hide PackageProcess, Inv, UnpackHeader, GoAwaySent;
  }

  lemma {:induction false} FramesLeftOver(c: Conn, buf: bytes, huffman: Huffman)
    requires Inv(c) && c.finishHandshake
    ensures var r := FeedFrames(c, buf, huffman);
            r.ok ==> r.conn.finishHandshake && Incomplete(r.conn, buf[r.consumed..])
    decreases |buf|
  {
    hide PackageProcess, Inv, UnpackHeader, FeedFrames, GoAwaySent;
    if |buf| >= HEADER_SIZE && !Oversized(c, buf) && FrameTotal(buf) <= |buf| {
      var n := FrameTotal(buf);
      OneFrame(c, buf, huffman);
      FramesKeepHandshake(c, buf[..n], huffman);
      var p := PackageProcess(c, buf[..n], huffman);
      if p.ok {
        FramesLeftOver(p.conn, buf[n..], huffman);
        var k := FeedFrames(p.conn, buf[n..], huffman).consumed;
        assert buf[n..][k..] == buf[n + k..];
      }
    } else {
      NoFrame(c, buf, huffman);
      assert buf[0..] == buf;
    }
  }

  /** What ReceivedData leaves unconsumed is always an incomplete preface or an incomplete frame of a lawful size. */
  lemma LeftOverIsIncomplete(c: Conn, buf: bytes, huffman: Huffman)
    requires Inv(c)
    ensures var r := Feed(c, buf, huffman); r.ok ==> Incomplete(r.conn, buf[r.consumed..])
  {
    hide FeedFrames, Inv, UnpackHeader, InitialSettingsSent;
    if c.finishHandshake {
      FramesLeftOver(c, buf, huffman);
    } else if |buf| >= PREFACE_SIZE && buf[..PREFACE_SIZE] == Preface() {
      VerifiedIsHandshaken(c);
      var rest := buf[PREFACE_SIZE..];
      FramesLeftOver(PrefaceVerified(c), rest, huffman);
      var k := FeedFrames(PrefaceVerified(c), rest, huffman).consumed;
      assert rest[k..] == buf[PREFACE_SIZE + k..];
    }
  }

  lemma VerifiedIsHandshaken(c: Conn)
    requires Inv(c)
    ensures PrefaceVerified(c).finishHandshake
  {
  }

  // ---------------------------------------------------------------- pieces

  /** The frame loop may stop anywhere and go on with what was left over and what comes next. */
  lemma {:induction false} FramesCompose(c: Conn, a: bytes, b: bytes, huffman: Huffman)
    requires Inv(c) && c.finishHandshake
    ensures var first, whole := FeedFrames(c, a, huffman), FeedFrames(c, a + b, huffman);
            if !first.ok then whole == first
            else whole == Further(first.consumed, FeedFrames(first.conn, a[first.consumed..] + b, huffman))
    decreases |a|
  {
    hide PackageProcess, Inv, UnpackHeader, GoAwaySent, FeedFrames;
    if |a| < HEADER_SIZE || Oversized(c, a) || FrameTotal(a) > |a| {
      NoFrame(c, a, huffman);
      assert a[0..] == a;
      if |a| >= HEADER_SIZE && Oversized(c, a) {
        FrontStays(a, b);
        NoFrame(c, a + b, huffman);
      }
    } else {
      FrontStays(a, b);
      var n := FrameTotal(a);
      assert (a + b)[..n] == a[..n] && (a + b)[n..] == a[n..] + b;
      OneFrame(c, a, huffman);
      OneFrame(c, a + b, huffman);
      FramesKeepHandshake(c, a[..n], huffman);
      var p := PackageProcess(c, a[..n], huffman);
      if p.ok {
        FramesCompose(p.conn, a[n..], b, huffman);
        var k := FeedFrames(p.conn, a[n..], huffman).consumed;
        assert a[n..][k..] == a[n + k..];
      }
    }
  }

  lemma FeedComposes(c: Conn, a: bytes, b: bytes, huffman: Huffman)
    requires Inv(c)
    ensures var first, whole := Feed(c, a, huffman), Feed(c, a + b, huffman);
            if !first.ok then whole == first
            else whole == Further(first.consumed, Feed(first.conn, a[first.consumed..] + b, huffman))
  {
    hide FeedFrames, Inv, UnpackHeader, Preface;
    if c.finishHandshake {
      FramesCompose(c, a, b, huffman);
      HandshakeStays(c, a, huffman);
    } else if |a| >= PREFACE_SIZE {
      assert (a + b)[..PREFACE_SIZE] == a[..PREFACE_SIZE];
      if a[..PREFACE_SIZE] == Preface() {
        VerifiedIsHandshaken(c);
        var rest := a[PREFACE_SIZE..];
        assert (a + b)[PREFACE_SIZE..] == rest + b;
        FramesCompose(PrefaceVerified(c), rest, b, huffman);
        HandshakeStays(PrefaceVerified(c), rest, huffman);
        var k := FeedFrames(PrefaceVerified(c), rest, huffman).consumed;
        assert rest[k..] == a[PREFACE_SIZE + k..];
      }
    } else {
      assert a[0..] == a;
    }
  }

  lemma HandshakeStays(c: Conn, buf: bytes, huffman: Huffman)
    requires Inv(c) && c.finishHandshake
    ensures var r := FeedFrames(c, buf, huffman); r.ok ==> r.conn.finishHandshake
  {
    hide FeedFrames, Inv, Incomplete;
    FramesLeftOver(c, buf, huffman);
  }

  /** The caller of ReceivedData: it keeps what was not consumed, and stops at an error. */
  datatype Session = Session(conn: Conn, pending: bytes, failed: bool)

  function Deliver(s: Session, chunk: bytes, huffman: Huffman): (r: Session)
    requires Inv(s.conn)
    ensures Inv(r.conn)
  {
    if s.failed then s
    else
      var all := s.pending + chunk;
      var fed := Feed(s.conn, all, huffman);
      Session(fed.conn, if fed.ok then all[fed.consumed..] else [], !fed.ok)
  }

  function DeliverAll(s: Session, chunks: seq<bytes>, huffman: Huffman): (r: Session)
    requires Inv(s.conn)
    ensures Inv(r.conn)
    decreases |chunks|
  {
    if chunks == [] then s else DeliverAll(Deliver(s, chunks[0], huffman), chunks[1..], huffman)
  }

  lemma DeliverTwice(s: Session, a: bytes, b: bytes, huffman: Huffman)
    requires Inv(s.conn)
    ensures Deliver(Deliver(s, a, huffman), b, huffman) == Deliver(s, a + b, huffman)
  {
    hide Feed, Inv;
    if !s.failed {
      var all := s.pending + a;
      assert s.pending + (a + b) == all + b;
      FeedComposes(s.conn, all, b, huffman);
      var first := Feed(s.conn, all, huffman);
      if first.ok {
        var left := all[first.consumed..] + b;
        assert (all + b)[first.consumed..] == left;
        var k := Feed(first.conn, left, huffman).consumed;
        assert left[k..] == (all + b)[first.consumed + k..];
      }
    }
  }

  /**
   * Chunking does not matter: octets fed in any pieces end in the same connection, with the same outputs,
   * the same octets left over or the same error, as all of them fed at once, although SETTINGS
   * acknowledgements on the way change the frame size that is let through.
   */
  lemma {:induction false} ChunkingDoesNotMatter(s: Session, first: bytes, chunks: seq<bytes>, huffman: Huffman)
    requires Inv(s.conn)
    ensures DeliverAll(s, [first] + chunks, huffman) == Deliver(s, first + Concat(chunks), huffman)
    decreases |chunks|
  {
    hide Deliver, Inv;
    var next := Deliver(s, first, huffman);
    assert ([first] + chunks)[1..] == chunks;
    if chunks == [] {
      assert first + [] == first;
    } else {
      ChunkingDoesNotMatter(next, chunks[0], chunks[1..], huffman);
      assert [chunks[0]] + chunks[1..] == chunks;
      DeliverTwice(s, first, Concat(chunks), huffman);
    }
  }

  // ---------------------------------------------------------------- a run like any other

  /** The operations that feeding `buf` amounts to. */
  function FrameOps(c: Conn, buf: bytes, huffman: Huffman): seq<Op>
    requires Inv(c)
    decreases |buf|
  {
    hide Inv, PackageProcess, UnpackHeader;
    if |buf| < HEADER_SIZE then []
    else if Oversized(c, buf) then [SendGoAway(FRAME_SIZE_ERROR, 0, [])]
    else if FrameTotal(buf) > |buf| then []
    else
      var n := FrameTotal(buf);
      ReceiveKeeps(c, buf[..n], huffman);
      var p := PackageProcess(c, buf[..n], huffman);
      [Receive(buf[..n])] + if p.ok then FrameOps(p.conn, buf[n..], huffman) else []
  }

  function FeedOps(c: Conn, buf: bytes, huffman: Huffman): seq<Op>
    requires Inv(c)
  {
    hide Ascii, FrameOps, Inv;
    if c.finishHandshake then FrameOps(c, buf, huffman)
    else if |buf| < PREFACE_SIZE then []
    else if buf[..PREFACE_SIZE] != Preface() then [SendGoAway(PROTOCOL_ERROR, 0, [])]
    else [VerifyPreface] + FrameOps(PrefaceVerified(c), buf[PREFACE_SIZE..], huffman)
  }

  lemma {:induction false} FramesAreARun(c: Conn, buf: bytes, huffman: Huffman)
    requires Inv(c)
    ensures NamesNone(FrameOps(c, buf, huffman))
    ensures After(c, FrameOps(c, buf, huffman), huffman) == FeedFrames(c, buf, huffman).conn
    decreases |buf|
  {
    hide PackageProcess, Inv, UnpackHeader, GoAwaySent, FeedFrames, After, Oversized;
    AfterNothing(c, huffman);
    if |buf| < HEADER_SIZE || Oversized(c, buf) || FrameTotal(buf) > |buf| {
      NoFrame(c, buf, huffman);
      AfterGoAway(c, FRAME_SIZE_ERROR, huffman);
    } else {
      var n := FrameTotal(buf);
      OneFrame(c, buf, huffman);
      var p := PackageProcess(c, buf[..n], huffman);
      AfterNothing(p.conn, huffman);
      if p.ok {
        FramesAreARun(p.conn, buf[n..], huffman);
      }
      var rest := if p.ok then FrameOps(p.conn, buf[n..], huffman) else [];
      AfterReceive(c, buf[..n], rest, huffman);
    }
  }

  lemma AfterNothing(c: Conn, huffman: Huffman)
    requires Inv(c)
    ensures After(c, [], huffman) == c
  {
  }

  lemma {:induction false} AfterFirst(c: Conn, op: Op, rest: seq<Op>, huffman: Huffman)
    requires Inv(c)
    ensures Sized(c) && Inv(Apply(c, op, huffman))
    ensures After(c, [op] + rest, huffman) == After(Apply(c, op, huffman), rest, huffman)
    decreases |rest|
  {
    hide Apply, Inv;
    ApplyKeeps(c, op, huffman);
    var all := [op] + rest;
    if rest == [] {
      assert all == [op] && all[..0] == [];
    } else {
      assert all[..|all| - 1] == [op] + rest[..|rest| - 1] && all[|all| - 1] == rest[|rest| - 1];
      AfterFirst(c, op, rest[..|rest| - 1], huffman);
    }
  }

  lemma AfterReceive(c: Conn, package: bytes, rest: seq<Op>, huffman: Huffman)
    requires Inv(c)
    ensures Sized(c) && Inv(PackageProcess(c, package, huffman).conn)
    ensures After(c, [Receive(package)] + rest, huffman) ==
            After(PackageProcess(c, package, huffman).conn, rest, huffman)
  {
    hide Inv, PackageProcess, After;
    AfterFirst(c, Receive(package), rest, huffman);
  }

  lemma AfterGoAway(c: Conn, e: nat, huffman: Huffman)
    requires Inv(c)
    ensures After(c, [SendGoAway(e, 0, [])], huffman) == GoAwaySent(c, e, 0)
  {
    hide Inv, GoAwaySent, After;
    AfterFirst(c, SendGoAway(e, 0, []), [], huffman);
    AfterNothing(GoAwaySent(c, e, 0), huffman);
    assert [SendGoAway(e, 0, [])] + [] == [SendGoAway(e, 0, [])];
  }

  /** Feeding octets is a run that names no last stream id: what holds of such runs holds of it. */
  lemma FeedIsARun(c: Conn, buf: bytes, huffman: Huffman)
    requires Inv(c)
    ensures NamesNone(FeedOps(c, buf, huffman))
    ensures After(c, FeedOps(c, buf, huffman), huffman) == Feed(c, buf, huffman).conn
  {
    hide Inv, GoAwaySent, After, FrameOps, FeedFrames, InitialSettingsSent, Ascii;
    AfterNothing(c, huffman);
    AfterGoAway(c, PROTOCOL_ERROR, huffman);
    if c.finishHandshake {
      FramesAreARun(c, buf, huffman);
    } else if |buf| >= PREFACE_SIZE {
      var rest := buf[PREFACE_SIZE..];
      FramesAreARun(PrefaceVerified(c), rest, huffman);
      AfterFirst(c, VerifyPreface, FrameOps(PrefaceVerified(c), rest, huffman), huffman);
    }
  }
}
