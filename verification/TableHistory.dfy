/**
 * Whether the decoder's table keeps up with the peer's encoder. Every block a connection does not read is
 * answered with GOAWAY or follows one; until then the table is that of a decoder that reads every block.
 */
module TableHistory {
  import opened Bytes
  import Coder = CompressorModel
  import opened ConnectionCodecs
  import opened ConnectionInvariant
  import opened ConnectionModel
  import opened ConnectionRuns
  import opened DynamicTable
  import Eviction
  import opened Frames
  import opened HeaderDecoder
  import opened Headers
  import opened RepresentationRoundTrips
  import opened Representations
  import Settings
  import opened StringLiterals

  // ---------------------------------------------------------------- one frame

  lemma OnlyThreeCarry(h: FrameHeader, p: bytes)
    requires CarriedBlock(h, p).Some?
    ensures h.ftype == HEADERS || h.ftype == PUSH_PROMISE || h.ftype == CONTINUATION
  {
    hide Unpad, HasFlag;
  }

  lemma SkippedIsKept(c: Conn, h: FrameHeader, payload: bytes, huffman: Huffman)
    requires Sized(c) && |payload| == h.length && Awaited(c, h) && Skipped(c, h)
    ensures Process(c, h, payload, huffman) == Processed(c, true)
  {
    hide Handle, Parse, Reaped;
  }

  /** The block that the frame's octets carry, if any, reaches the decoder and decodes. */
  predicate BlockIsRead(c: Conn, h: FrameHeader, payload: bytes, huffman: Huffman)
    requires Ready(c) && |payload| == h.length
  {
    CarriedBlock(h, payload).Some? ==>
      && ReachesDecoder(c, h, payload)
      && DecodeSpec(CarriedBlock(h, payload).value, c.table, huffman).error == NoError
  }

  /** A block that is not read is answered with GOAWAY, or follows one. */
  lemma UnreadIsTold(c: Conn, h: FrameHeader, payload: bytes, huffman: Huffman)
    requires Ready(c) && |payload| == h.length && !BlockIsRead(c, h, payload, huffman)
    ensures Process(c, h, payload, huffman).conn.sentGoAway
  {
    hide Process, Parse, DecodeSpec, Events, Coder.WellFormed, CarriedBlock, Skipped;
    OnlyThreeCarry(h, payload);
    if Awaited(c, h) && Skipped(c, h) {
      SkippedIsKept(c, h, payload, huffman);
      SkippedAfterGoAway(c, h);
    } else if Awaited(c, h) && Carried(Parse(h, payload)).Some? {
      ParseFindsBlock(h, payload);
      BlockFrame(c, h, payload, huffman);
    } else {
      OtherFrame(c, h, payload, huffman);
      if !Parse(h, payload).Malformed? {
        ParseFindsBlock(h, payload);
      }
    }
  }

  lemma SkippedAfterGoAway(c: Conn, h: FrameHeader)
    requires Skipped(c, h)
    ensures c.sentGoAway
  {
  }

  // ---------------------------------------------------------------- runs

  /** The piece of a block in the frame an operation receives. */
  function ReceivedBlock(op: Op): Option<bytes>
  {
    if op.Receive? && |op.package| >= HEADER_SIZE &&
       |op.package| >= UnpackHeader(op.package).length + HEADER_SIZE
    then
      var h := UnpackHeader(op.package);
      CarriedBlock(h, op.package[HEADER_SIZE..HEADER_SIZE + h.length])
    else None
  }

  /** The table of a decoder that starts from `t` and reads every block received, or None if one does not decode. */
  function Followed(t: Table, ops: seq<Op>, huffman: Huffman): Option<Table>
    decreases |ops|
  {
    if ops == [] then Some(t)
    else
      match Followed(t, ops[..|ops| - 1], huffman)
      case None => None
      case Some(before) =>
        match ReceivedBlock(ops[|ops| - 1])
        case None => Some(before)
        case Some(b) =>
          var d := DecodeSpec(b, before, huffman);
          if d.error == NoError then Some(d.table) else None
  }

  /** The block in the frame an operation receives, if any, is read. */
  predicate IsRead(c: Conn, op: Op, huffman: Huffman)
    requires Ready(c)
  {
    op.Receive? && |op.package| >= HEADER_SIZE && |op.package| >= UnpackHeader(op.package).length + HEADER_SIZE ==>
      var h := UnpackHeader(op.package);
      BlockIsRead(c, h, op.package[HEADER_SIZE..HEADER_SIZE + h.length], huffman)
  }

  /** Reading a block moves the table as the block says; a frame without one leaves it. */
  lemma ReadMovesTable(c: Conn, op: Op, huffman: Huffman)
    requires Ready(c) && op.Receive? && IsRead(c, op, huffman)
    ensures var d := Apply(c, op, huffman);
            match ReceivedBlock(op)
            case None => d.table == c.table
            case Some(b) => DecodeSpec(b, c.table, huffman).error == NoError &&
                            d.table == DecodeSpec(b, c.table, huffman).table
  {
    hide Process, DecodeSpec, Coder.WellFormed, CarriedBlock, ReachesDecoder;
    var package := op.package;
    if |package| >= HEADER_SIZE && |package| >= UnpackHeader(package).length + HEADER_SIZE {
      var h := UnpackHeader(package);
      FrameMovesTable(c, h, package[HEADER_SIZE..HEADER_SIZE + h.length], huffman);
    }
  }

  /** Every block a run receives is read. */
  predicate NoneLost(c: Conn, ops: seq<Op>, huffman: Huffman)
    requires Inv(c)
    decreases |ops|
  {
    ops == [] ||
    var n := |ops| - 1;
    var before := After(c, ops[..n], huffman);
    ReadyByInv(before);
    NoneLost(c, ops[..n], huffman) && IsRead(before, ops[n], huffman)
  }

  /** Over every run whose blocks are all read, the table is that of a decoder that has read them all. */
  lemma {:induction false} TableFollows(c: Conn, ops: seq<Op>, huffman: Huffman)
    requires Inv(c) && NoneLost(c, ops, huffman)
    ensures Followed(c.table, ops, huffman) == Some(After(c, ops, huffman).table)
    decreases |ops|
  {
    hide Inv, Apply, DecodeSpec, ReceivedBlock, IsRead;
    if ops != [] {
      var n := |ops| - 1;
      var before := After(c, ops[..n], huffman);
      TableFollows(c, ops[..n], huffman);
      ReadyByInv(before);
      if ops[n].Receive? {
        ReadMovesTable(before, ops[n], huffman);
      } else {
        CallKeepsTable(before, ops[n], huffman);
      }
    }
  }

  lemma UnreadOpIsTold(c: Conn, op: Op, huffman: Huffman)
    requires Ready(c) && !IsRead(c, op, huffman)
    ensures Apply(c, op, huffman).sentGoAway
  {
    hide Process, DecodeSpec, Coder.WellFormed, CarriedBlock, BlockIsRead;
    var h := UnpackHeader(op.package);
    UnreadIsTold(c, h, op.package[HEADER_SIZE..HEADER_SIZE + h.length], huffman);
  }

  lemma {:induction false} NoneLostUntilGoAway(c: Conn, ops: seq<Op>, huffman: Huffman)
    requires Inv(c) && !After(c, ops, huffman).sentGoAway
    ensures NoneLost(c, ops, huffman)
    decreases |ops|
  {
    hide Inv, Apply, IsRead;
    if ops != [] {
      var n := |ops| - 1;
      var before := After(c, ops[..n], huffman);
      ReadyByInv(before);
      if before.sentGoAway {
        SentGoAwayStays(before, ops[n], huffman);
      } else if !IsRead(before, ops[n], huffman) {
        UnreadOpIsTold(before, ops[n], huffman);
      }
      NoneLostUntilGoAway(c, ops[..n], huffman);
    }
  }

  /**
   * Over every run, as long as no GOAWAY has been sent: every block received decoded, and the table is that of
   * a decoder that has read them all.
   */
  lemma TableFollowsUntilGoAway(c: Conn, ops: seq<Op>, huffman: Huffman)
    requires Inv(c) && !After(c, ops, huffman).sentGoAway
    ensures Followed(c.table, ops, huffman) == Some(After(c, ops, huffman).table)
  {
    hide Inv, After, Followed, NoneLost;
    NoneLostUntilGoAway(c, ops, huffman);
    TableFollows(c, ops, huffman);
  }

  lemma CallKeepsTable(c: Conn, op: Op, huffman: Huffman)
    requires Ready(c) && !op.Receive?
    ensures Apply(c, op, huffman).table == c.table && ReceivedBlock(op) == None
  {
    hide Apply, Coder.WellFormed, Events, Coded;
    CallCodecs(c, op, huffman);
  }

  // ---------------------------------------------------------------- blocks that are lost

  /** After a GOAWAY, a block for a stream above the id it named is not read, whoever's stream that is. */
  lemma SkippedBlockIsLost(c: Conn, h: FrameHeader, payload: bytes, huffman: Huffman)
    requires Sized(c) && |payload| == h.length && Skipped(c, h) && Awaited(c, h)
    ensures var r := Process(c, h, payload, huffman);
            r.ok && r.conn.table == c.table && r.conn.log == c.log
  {
    hide Process;
    SkippedIsKept(c, h, payload, huffman);
  }

  /** HEADERS for stream 1 with the whole of "a: " as a literal to be indexed, which is four octets. */
  const SHORT := FrameHeader(4, HEADERS, 0x4, 1)
  /** The same with "a: b". */
  const LONGER := FrameHeader(5, HEADERS, 0x4, 1)

  function Literal(h: Header): bytes
  {
    LiteralOctets(INCREMENTAL, h)
  }

  const SHORT_FIELD := Header([0x61], [])
  const LONGER_FIELD := Header([0x61], [0x62])

  lemma LiteralsAre()
    ensures Literal(SHORT_FIELD) == [0x40, 1, 0x61, 0] && Literal(LONGER_FIELD) == [0x40, 1, 0x61, 1, 0x62]
  {
  }

  /** What a decoder makes of either field: it enters its table. */
  lemma LiteralEnters(h: Header, t: Table, huffman: Huffman)
    requires h == SHORT_FIELD || h == LONGER_FIELD
    requires t.entries == [] && t.maxSize >= 100
    ensures DecodeSpec(Literal(h), t, huffman) == Decoded(NoError, [h], t.(entries := [h]))
  {
    hide StepSpec, LiteralOctets;
    var b := Literal(h);
    LiteralsAre();
    LiteralRoundTrip(INCREMENTAL, h, [], t, huffman);
    assert b + [] == b && b[|b|..] == [];
    Eviction.TotalCons(h, []);
    assert [h] + [] == [h];
  }

  lemma ShortIsMalformed()
    ensures Parse(SHORT, Literal(SHORT_FIELD)) == Malformed(FRAME_SIZE_ERROR)
    ensures CarriedBlock(SHORT, Literal(SHORT_FIELD)) == Some(Literal(SHORT_FIELD))
    ensures CarriedBlock(LONGER, Literal(LONGER_FIELD)) == Some(Literal(LONGER_FIELD))
  {
    hide Literal;
    LiteralsAre();
    assert !HasFlag(0x4, PADDED) && !HasFlag(0x4, PRIORITY_FLAG);
  }

  lemma WireCarries(h: FrameHeader, payload: bytes)
    requires |payload| == h.length < 0x100_0000 && h.streamId < STREAM_ID_LIMIT
    ensures ReceivedBlock(Wire(h, payload)) == CarriedBlock(h, payload)
  {
    hide PackHeader, UnpackHeader, CarriedBlock;
    HeaderRoundTrip(h, payload);
    var package := PackHeader(h) + payload;
    assert package[HEADER_SIZE..HEADER_SIZE + h.length] == payload;
  }

  /** A frame from the wire whose block does not reach the decoder leaves the table. */
  lemma UnreadLeavesTable(c: Conn, h: FrameHeader, payload: bytes, huffman: Huffman)
    requires Ready(c) && |payload| == h.length < 0x100_0000 && h.streamId < STREAM_ID_LIMIT
    requires !ReachesDecoder(c, h, payload)
    ensures Apply(c, Wire(h, payload), huffman).table == c.table
  {
    hide Process, ReachesDecoder, Coder.WellFormed, Wire, Apply;
    WireProcessed(c, h, payload, huffman);
    FrameMovesTable(c, h, payload, huffman);
  }

  /** Two runs of a server: one gets a block of four octets, the other a block it skips after its GOAWAY. */
  function ShortRun(): seq<Op>
  {
    [VerifyPreface] + [Wire(SHORT, Literal(SHORT_FIELD))]
  }

  function SkippedRun(): seq<Op>
  {
    [VerifyPreface] + [SendGoAway(NO_ERROR, 0, [])] + [Wire(LONGER, Literal(LONGER_FIELD))]
  }

  lemma FollowedOne(t: Table, ops: seq<Op>, op: Op, huffman: Huffman)
    requires Followed(t, ops, huffman) == Some(t)
    ensures ReceivedBlock(op) == None ==> Followed(t, ops + [op], huffman) == Some(t)
    ensures ReceivedBlock(op).Some? && DecodeSpec(ReceivedBlock(op).value, t, huffman).error == NoError ==>
              Followed(t, ops + [op], huffman) == Some(DecodeSpec(ReceivedBlock(op).value, t, huffman).table)
  {
    hide ReceivedBlock, DecodeSpec;
    assert (ops + [op])[..|ops|] == ops;
  }

  /** A whole block in a HEADERS frame is lost because it is short: the table stays empty. */
  lemma ShortBlockIsLost(hash: Coder.Hash, huffman: Huffman)
    ensures Inv(Init(false, hash))
    ensures var c := After(Init(false, hash), ShortRun(), huffman);
            && c.table.entries == []
            && Followed(Init(false, hash).table, ShortRun(), huffman) == Some(c.table.(entries := [SHORT_FIELD]))
  {
    hide Inv, Apply, Literal, Wire, DecodeSpec, Parse, CarriedBlock, ReceivedBlock, Followed, Coder.WellFormed;
    var c, t := Init(false, hash), Init(false, hash).table;
    InitInv(false, hash);
    AfterOne(c, [], VerifyPreface, huffman);
    assert [] + [VerifyPreface] == [VerifyPreface];
    CallKeepsTable(c, VerifyPreface, huffman);
    var c1 := After(c, [VerifyPreface], huffman);
    AfterOne(c, [VerifyPreface], Wire(SHORT, Literal(SHORT_FIELD)), huffman);
    LiteralsAre();
    ShortIsMalformed();
    UnreadLeavesTable(c1, SHORT, Literal(SHORT_FIELD), huffman);
    WireCarries(SHORT, Literal(SHORT_FIELD));
    FollowedNothing(t, huffman);
    FollowedOne(t, [], VerifyPreface, huffman);
    FollowedOne(t, [VerifyPreface], Wire(SHORT, Literal(SHORT_FIELD)), huffman);
    LiteralEnters(SHORT_FIELD, t, huffman);
  }

  lemma FollowedNothing(t: Table, huffman: Huffman)
    ensures Followed(t, [], huffman) == Some(t)
  {
  }

  /** So is the block of a frame that is skipped. */
  lemma SkippedRunLoses(hash: Coder.Hash, huffman: Huffman)
    ensures Inv(Init(false, hash))
    ensures var c := After(Init(false, hash), SkippedRun(), huffman);
            && c.table.entries == []
            && Followed(Init(false, hash).table, SkippedRun(), huffman) == Some(c.table.(entries := [LONGER_FIELD]))
  {
    hide Inv, Apply, Literal, Wire, DecodeSpec, Parse, CarriedBlock, ReceivedBlock, Followed, Coder.WellFormed;
    var c, t := Init(false, hash), Init(false, hash).table;
    var goAway := SendGoAway(NO_ERROR, 0, []);
    InitInv(false, hash);
    AfterOne(c, [], VerifyPreface, huffman);
    assert [] + [VerifyPreface] == [VerifyPreface];
    CallKeepsTable(c, VerifyPreface, huffman);
    var c1 := After(c, [VerifyPreface], huffman);
    AfterOne(c, [VerifyPreface], goAway, huffman);
    CallKeepsTable(c1, goAway, huffman);
    var c2 := After(c, [VerifyPreface] + [goAway], huffman);
    AfterOne(c, [VerifyPreface] + [goAway], Wire(LONGER, Literal(LONGER_FIELD)), huffman);
    assert c2.sentGoAway && c2.sentGoAwayStreamId == 0 by { GoneAway(c, huffman); }
    LiteralsAre();
    ShortIsMalformed();
    UnreadLeavesTable(c2, LONGER, Literal(LONGER_FIELD), huffman);
    WireCarries(LONGER, Literal(LONGER_FIELD));
    FollowedNothing(t, huffman);
    FollowedOne(t, [], VerifyPreface, huffman);
    FollowedOne(t, [VerifyPreface], goAway, huffman);
    FollowedOne(t, [VerifyPreface] + [goAway], Wire(LONGER, Literal(LONGER_FIELD)), huffman);
    LiteralEnters(LONGER_FIELD, t, huffman);
  }

  /** The GOAWAY of a server that has seen no stream names stream 0. */
  lemma GoneAway(c: Conn, huffman: Huffman)
    requires Inv(c) && c.lastStreamId == 0
    ensures Ready(c) && Inv(Apply(c, VerifyPreface, huffman)) && Ready(Apply(c, VerifyPreface, huffman))
    ensures var d := Apply(Apply(c, VerifyPreface, huffman), SendGoAway(NO_ERROR, 0, []), huffman);
            d.sentGoAway && d.sentGoAwayStreamId == 0
  {
    hide Inv, Apply, Coder.WellFormed, GoAways, Shutdowns, GoAwaySent;
    ApplyKeeps(c, VerifyPreface, huffman);
    BaseTracks(c, VerifyPreface);
    var c1 := Apply(c, VerifyPreface, huffman);
    ReadyByInv(c1);
    SendGoAwayIs(c1, SendGoAway(NO_ERROR, 0, []), huffman);
    GoAwayKeeps(c1, NO_ERROR, 0, []);
  }

  // ---------------------------------------------------------------- the limit of the table

  lemma StepKeepsLimit(src: bytes, t: Table, huffman: Huffman)
    requires src != [] && !StepSpec(src, t, huffman).Failed?
    ensures StepSpec(src, t, huffman).table.limit == t.limit
  {
    hide LiteralName, ParseStringSpec, Lookup;
  }

  lemma {:induction false} DecodingKeepsLimit(src: bytes, t: Table, huffman: Huffman)
    ensures DecodeSpec(src, t, huffman).table.limit == t.limit
    decreases |src|
  {
    hide StepSpec;
    if src != [] && !StepSpec(src, t, huffman).Failed? {
      StepKeepsLimit(src, t, huffman);
      var step := StepSpec(src, t, huffman);
      DecodingKeepsLimit(src[step.consumed..], step.table, huffman);
    }
  }

  lemma OperationKeepsLimit(c: Conn, op: Op, huffman: Huffman)
    requires Ready(c)
    ensures Apply(c, op, huffman).table.limit == c.table.limit
  {
    hide Process, DecodeSpec, Coder.WellFormed, Parse, ReachesDecoder, CarriedBlock;
    if !op.Receive? {
      CallKeepsTable(c, op, huffman);
    } else if |op.package| >= HEADER_SIZE && |op.package| >= UnpackHeader(op.package).length + HEADER_SIZE {
      var h := UnpackHeader(op.package);
      var payload := op.package[HEADER_SIZE..HEADER_SIZE + h.length];
      FrameMovesTable(c, h, payload, huffman);
      if ReachesDecoder(c, h, payload) {
        DecodingKeepsLimit(CarriedBlock(h, payload).value, c.table, huffman);
      }
    }
  }

  /**
   * Whatever HEADER_TABLE_SIZE this endpoint announces and its peer acknowledges, in every run the decoder
   * takes a size update exactly if it is for at most 4096 octets.
   */
  lemma {:induction false} LimitNeverMoves(clientSide: bool, hash: Coder.Hash, ops: seq<Op>, huffman: Huffman)
    ensures Inv(Init(clientSide, hash))
    ensures var t := After(Init(clientSide, hash), ops, huffman).table;
            && t.limit == 4096
            && forall size: nat | size < UINT32_LIMIT ::
                 DecodeSpec(SizeUpdateOctets(size), t, huffman).error == NoError <==> size <= 4096
    decreases |ops|
  {
    hide Inv, Apply, DecodeSpec, SizeUpdateOctets;
    InitInv(clientSide, hash);
    var c := Init(clientSide, hash);
    var t := After(c, ops, huffman).table;
    if ops != [] {
      var n := |ops| - 1;
      LimitNeverMoves(clientSide, hash, ops[..n], huffman);
      ReadyByInv(After(c, ops[..n], huffman));
      OperationKeepsLimit(After(c, ops[..n], huffman), ops[n], huffman);
    }
    forall size: nat | size < UINT32_LIMIT
      ensures DecodeSpec(SizeUpdateOctets(size), t, huffman).error == NoError <==> size <= 4096
    {
      SizeUpdateAlone(size, t, huffman);
    }
  }

  lemma SizeUpdateAlone(size: nat, t: Table, huffman: Huffman)
    requires size < UINT32_LIMIT
    ensures DecodeSpec(SizeUpdateOctets(size), t, huffman).error == NoError <==> size <= t.limit
  {
    hide StepSpec, Resized;
    var b := SizeUpdateOctets(size);
    SizeUpdateRoundTrip(size, [], t, huffman);
    assert b + [] == b && b[|b|..] == [];
  }

  /** The acknowledgement of SETTINGS. */
  const ACKNOWLEDGED := FrameHeader(0, SETTINGS, ACK, 0)

  /** A server past its preface, with nothing of a block awaited. */
  predicate Serving(c: Conn)
  {
    Sized(c) && !c.clientSide && !c.nextFrameLimit && !c.sentGoAway
  }

  lemma AcknowledgementTaken(c: Conn, huffman: Huffman)
    requires Serving(c)
    ensures var d := Process(c, ACKNOWLEDGED, [], huffman).conn;
            Serving(d) && !d.settingsPending && d.localSettings == AckedSettings(c.localSettings, c.requestSettings)
  {
    hide AckedSettings, GoAwaySent, Tracked, ApplySettings, Reaped;
    AcknowledgementParses();
    assert Tracked(c, 0) == c by { NotTracked(c); }
  }

  lemma AcknowledgementParses()
    ensures Parse(ACKNOWLEDGED, []) == SettingsPayload([]) && HasFlag(ACKNOWLEDGED.flags, ACK)
  {
  }

  lemma VerifiedServes(hash: Coder.Hash, huffman: Huffman)
    requires Inv(Init(false, hash))
    ensures Ready(Init(false, hash)) && Serving(Apply(Init(false, hash), VerifyPreface, huffman))
  {
    hide NonDefault, Inv;
    ReadyByInv(Init(false, hash));
  }

  /** Asking for one setting, once the last request is acknowledged. */
  lemma RequestTaken(c: Conn, huffman: Huffman)
    requires Ready(c) && Serving(c) && !c.settingsPending
    ensures var d := Apply(c, SendSettings([(Settings.HEADER_TABLE_SIZE, 8192)]), huffman);
            && Serving(d) && d.localSettings == c.localSettings
            && d.requestSettings == [(Settings.HEADER_TABLE_SIZE, 8192)]
  {
    hide Coder.WellFormed;
  }

  lemma OneRequestAcked(local: seq<nat>)
    requires |local| == Settings.COUNT
    ensures AckedSettings(local, [(Settings.HEADER_TABLE_SIZE, 8192)]) == local[Settings.HEADER_TABLE_SIZE := 8192]
  {
    var requested: seq<(nat, nat)> := [(Settings.HEADER_TABLE_SIZE, 8192)];
    assert requested[1..] == [];
    assert AckedSettings(local[Settings.HEADER_TABLE_SIZE := 8192], requested[1..]) ==
           local[Settings.HEADER_TABLE_SIZE := 8192];
  }

  /** A server that announces 8192 and has it acknowledged. */
  function LargerTableRun(): seq<Op>
  {
    [VerifyPreface] + [Wire(ACKNOWLEDGED, [])] + [SendSettings([(Settings.HEADER_TABLE_SIZE, 8192)])] +
    [Wire(ACKNOWLEDGED, [])]
  }

  /** Its setting is 8192, and the size update to 8192 that its peer may then send is refused. */
  lemma AcknowledgedSizeIsRefused(hash: Coder.Hash, huffman: Huffman)
    ensures Inv(Init(false, hash))
    ensures var c := After(Init(false, hash), LargerTableRun(), huffman);
            && Sized(c) && c.localSettings[Settings.HEADER_TABLE_SIZE] == 8192
            && DecodeSpec(SizeUpdateOctets(8192), c.table, huffman).error != NoError
  {
    hide Inv, Apply, Process, PackHeader, After, Serving, Coder.WellFormed, DecodeSpec, SizeUpdateOctets;
    LimitNeverMoves(false, hash, LargerTableRun(), huffman);
    var c := Init(false, hash);
    var ack, request := Wire(ACKNOWLEDGED, []), SendSettings([(Settings.HEADER_TABLE_SIZE, 8192)]);
    AfterOne(c, [], VerifyPreface, huffman);
    assert [] + [VerifyPreface] == [VerifyPreface];
    VerifiedServes(hash, huffman);
    var c1 := After(c, [VerifyPreface], huffman);
    AfterOne(c, [VerifyPreface], ack, huffman);
    WireProcessed(c1, ACKNOWLEDGED, [], huffman);
    AcknowledgementTaken(c1, huffman);
    var c2 := After(c, [VerifyPreface] + [ack], huffman);
    AfterOne(c, [VerifyPreface] + [ack], request, huffman);
    RequestTaken(c2, huffman);
    var c3 := After(c, [VerifyPreface] + [ack] + [request], huffman);
    AfterOne(c, [VerifyPreface] + [ack] + [request], ack, huffman);
    WireProcessed(c3, ACKNOWLEDGED, [], huffman);
    AcknowledgementTaken(c3, huffman);
    ReadyByInv(c3);
    ReadyByInv(After(c, LargerTableRun(), huffman));
    OneRequestAcked(c3.localSettings);
  }
}
