/**
 * What ReceivedData (src/http2.cc) lets through, told on the octets alone: the preface of section 3.5 of
 * RFC 7540, and frames no longer than the MAX_FRAME_SIZE in force.
 */
module TransportLaws {
  import opened Bytes
  import opened ConnectionInvariant
  import opened ConnectionModel
  import opened ConnectionRuns
  import opened FrameRoundTrips
  import opened Frames
  import HeaderBlocks
  import Settings
  import opened StringLiterals
  import opened Transport

  /** The length that the first three octets spell. */
  function Announced(buf: bytes): nat
    requires |buf| >= 3
  {
    Number(buf[..3])
  }

  function LocalMax(c: Conn): nat
    requires Inv(c)
  {
    ReadyByInv(c);
    c.localSettings[Settings.MAX_FRAME_SIZE]
  }

  lemma OversizedIff(c: Conn, buf: bytes)
    requires Inv(c) && |buf| >= HEADER_SIZE
    ensures Oversized(c, buf) <==> Announced(buf) > LocalMax(c)
    ensures FrameTotal(buf) == HEADER_SIZE + Announced(buf)
  {
    hide Inv, UnpackHeader;
    ReadyByInv(c);
    HeaderFields(buf);
  }

  /** One GOAWAY of this error has gone out, and no stream and no table has changed. */
  predicate RefusedWith(c: Conn, e: nat, d: Conn)
  {
    && c.log < d.log && d.log[|d.log| - 1] == SentGoAway(c.lastStreamId, e)
    && GoAways(d) == GoAways(c) + [c.lastStreamId]
    && d.sentGoAway && d.streams == c.streams && d.table == c.table && d.lastStreamId == c.lastStreamId
  }

  lemma GoAwayIsRefusal(c: Conn, e: nat)
    requires Inv(c)
    ensures RefusedWith(c, e, GoAwaySent(c, e, 0))
  {
    hide Inv, GoAwaySent, GoAways;
    GoAwayKeeps(c, e, 0);
    HeaderBlocks.GoAwayTells(c, e);
  }

  /** A frame announced longer than the local maximum stops the loop before any of it is processed. */
  lemma TooLongIsRefused(c: Conn, buf: bytes, huffman: Huffman)
    requires Inv(c) && |buf| >= HEADER_SIZE && Announced(buf) > LocalMax(c)
    ensures var r := FeedFrames(c, buf, huffman);
            !r.ok && r.consumed == 0 && RefusedWith(c, FRAME_SIZE_ERROR, r.conn)
  {
    hide Inv, GoAwaySent, UnpackHeader, PackageProcess, RefusedWith, Announced, LocalMax;
    OversizedIff(c, buf);
    NoFrame(c, buf, huffman);
    GoAwayIsRefusal(c, FRAME_SIZE_ERROR);
  }

  /** One that is not is waited for, and processed once it is whole. */
  lemma LawfulIsTaken(c: Conn, buf: bytes, huffman: Huffman)
    requires Inv(c) && (|buf| >= HEADER_SIZE ==> Announced(buf) <= LocalMax(c))
    ensures Sized(c)
    ensures var r := FeedFrames(c, buf, huffman);
            if |buf| < HEADER_SIZE || |buf| < HEADER_SIZE + Announced(buf) then r == Fed(c, 0, true)
            else
              var n := HEADER_SIZE + Announced(buf);
              var p := PackageProcess(c, buf[..n], huffman);
              Inv(p.conn) &&
              r == if p.ok then Further(n, FeedFrames(p.conn, buf[n..], huffman)) else Fed(p.conn, 0, false)
  {
    hide Inv, GoAwaySent, UnpackHeader, PackageProcess, Announced, LocalMax, FeedFrames;
    ReadyByInv(c);
    if |buf| < HEADER_SIZE {
      NoFrame(c, buf, huffman);
    } else {
      OversizedIff(c, buf);
      if FrameTotal(buf) > |buf| {
        NoFrame(c, buf, huffman);
      } else {
        OneFrame(c, buf, huffman);
      }
    }
  }

  // ---------------------------------------------------------------- every frame processed

  /** The operation is not the receipt of a frame, or of one whole frame no longer than the local maximum. */
  predicate Lawful(c: Conn, op: Op)
    requires Inv(c)
  {
    op.Receive? ==>
      && |op.package| >= HEADER_SIZE && |op.package| == HEADER_SIZE + Announced(op.package)
      && Announced(op.package) <= LocalMax(c)
  }

  /** Every operation of a run, in the state it comes in. */
  predicate AllLawful(c: Conn, ops: seq<Op>, huffman: Huffman)
    requires Inv(c)
    decreases |ops|
  {
    ops == [] ||
    (ApplyKeeps(c, ops[0], huffman);
     Lawful(c, ops[0]) && AllLawful(Apply(c, ops[0], huffman), ops[1..], huffman))
  }

  lemma LawfulFirst(c: Conn, op: Op, rest: seq<Op>, huffman: Huffman)
    requires Inv(c) && Lawful(c, op)
    ensures Ready(c) && Inv(Apply(c, op, huffman))
    ensures AllLawful(Apply(c, op, huffman), rest, huffman) ==> AllLawful(c, [op] + rest, huffman)
  {
    hide Inv, Apply, Lawful;
    ApplyKeeps(c, op, huffman);
    assert ([op] + rest)[1..] == rest;
  }

  lemma {:induction false} FramesAreLawful(c: Conn, buf: bytes, huffman: Huffman)
    requires Inv(c)
    ensures AllLawful(c, FrameOps(c, buf, huffman), huffman)
    decreases |buf|
  {
    hide Inv, PackageProcess, UnpackHeader, GoAwaySent, Announced, LocalMax, AllLawful, Oversized;
    NothingIsLawful(c, huffman);
    if |buf| >= HEADER_SIZE {
      OversizedIff(c, buf);
      if Oversized(c, buf) {
        var goAway := SendGoAway(FRAME_SIZE_ERROR, 0, []);
        LawfulFirst(c, goAway, [], huffman);
        NothingIsLawful(Apply(c, goAway, huffman), huffman);
        assert [goAway] + [] == [goAway];
      } else if FrameTotal(buf) <= |buf| {
        var n := FrameTotal(buf);
        ReceiveKeeps(c, buf[..n], huffman);
        var p := PackageProcess(c, buf[..n], huffman);
        assert Announced(buf[..n]) == Announced(buf) by { SameFront(buf, n); }
        LawfulFirst(c, Receive(buf[..n]), if p.ok then FrameOps(p.conn, buf[n..], huffman) else [], huffman);
        NothingIsLawful(p.conn, huffman);
        if p.ok {
          FramesAreLawful(p.conn, buf[n..], huffman);
        }
      }
    }
  }

  lemma SameFront(buf: bytes, n: nat)
    requires 3 <= n <= |buf|
    ensures Announced(buf[..n]) == Announced(buf)
  {
    hide Number;
    assert buf[..n][..3] == buf[..3];
  }

  lemma NothingIsLawful(c: Conn, huffman: Huffman)
    requires Inv(c)
    ensures AllLawful(c, [], huffman)
  {
  }

  /** Whatever octets arrive, every frame processed on the way is whole and within the maximum in force then. */
  lemma FeedIsLawful(c: Conn, buf: bytes, huffman: Huffman)
    requires Inv(c)
    ensures AllLawful(c, FeedOps(c, buf, huffman), huffman)
  {
    hide Inv, GoAwaySent, FrameOps, InitialSettingsSent, Ascii, AllLawful, Lawful;
    NothingIsLawful(c, huffman);
    if c.finishHandshake {
      FramesAreLawful(c, buf, huffman);
    } else if |buf| >= PREFACE_SIZE {
      var (goAway, rest) := (SendGoAway(PROTOCOL_ERROR, 0, []), buf[PREFACE_SIZE..]);
      OthersAreLawful(c, goAway);
      OthersAreLawful(c, VerifyPreface);
      LawfulFirst(c, goAway, [], huffman);
      NothingIsLawful(Apply(c, goAway, huffman), huffman);
      assert [goAway] + [] == [goAway];
      FramesAreLawful(PrefaceVerified(c), rest, huffman);
      LawfulFirst(c, VerifyPreface, FrameOps(PrefaceVerified(c), rest, huffman), huffman);
    }
  }

  lemma OthersAreLawful(c: Conn, op: Op)
    requires Inv(c) && !op.Receive?
    ensures Lawful(c, op)
  {
  }

  // ---------------------------------------------------------------- the preface

  const PREFACE_OCTETS: bytes :=
    [0x50, 0x52, 0x49, 0x20, 0x2a, 0x20, 0x48, 0x54, 0x54, 0x50, 0x2f, 0x32,
     0x2e, 0x30, 0x0d, 0x0a, 0x0d, 0x0a, 0x53, 0x4d, 0x0d, 0x0a, 0x0d, 0x0a]

  lemma PrefaceIs()
    ensures Preface() == PREFACE_OCTETS
  {
  }

  /**
   * Before the handshake nothing is consumed until 24 octets are there; any but the preface are refused, and
   * behind the preface the frames are processed, the server's own settings having gone out first.
   */
  lemma PrefaceDecides(c: Conn, buf: bytes, huffman: Huffman)
    requires Inv(c) && !c.finishHandshake
    ensures var r := Feed(c, buf, huffman);
            if |buf| < 24 then r == Fed(c, 0, true)
            else if buf[..24] != PREFACE_OCTETS then
              !r.ok && r.consumed == 0 && RefusedWith(c, PROTOCOL_ERROR, r.conn)
            else
              && PrefaceVerified(c).finishHandshake
              && r == Further(24, FeedFrames(PrefaceVerified(c), buf[24..], huffman))
  {
    hide Inv, FeedFrames, GoAwaySent, InitialSettingsSent, RefusedWith, Preface;
    PrefaceIs();
    GoAwayIsRefusal(c, PROTOCOL_ERROR);
    VerifiedIsHandshaken(c);
  }

  /** Once it is done, no preface is looked for. */
  lemma NoPrefaceTwice(c: Conn, buf: bytes, huffman: Huffman)
    requires Inv(c) && c.finishHandshake
    ensures Feed(c, buf, huffman) == FeedFrames(c, buf, huffman)
  {
  }
}
