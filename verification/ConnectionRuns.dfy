/** What holds of a connection over every run of public calls and received frames. */
module ConnectionRuns {
  import opened Bytes
  import Coder = CompressorModel
  import opened ConnectionInvariant
  import opened ConnectionModel
  import opened Frames
  import Settings
  import StreamStates
  import opened StringLiterals

  // ---------------------------------------------------------------- one frame

  /** The stream a frame hands back to package_process, which may have been closed by it. */
  function HandedBack(h: FrameHeader, p: Payload): nat
  {
    if HandsBackStream(h.ftype) && !p.Malformed? then h.streamId else 0
  }

  lemma HandleKeeps(c: Conn, h: FrameHeader, p: Payload, huffman: Huffman)
    requires Inv(c) && (h.streamId > 0 && !IsLocal(c.clientSide, h.streamId) ==> h.streamId <= c.lastStreamId)
    requires Fits(h, p)
    ensures Sized(c) && HandlerKeeps(c, Handle(c, h, p, huffman), HandedBack(h, p))
  {
    hide Inv, HandlerKeeps, GoAwaySent, DataReceived, HeadersFrameReceived, PriorityReceived, RstStreamReceived,
         SettingsReceived, PushPromiseReceived, PingReceived, GoAwayReceived, WindowUpdateReceived,
         ContinuationReceived;
    ReadyByInv(c);
    match p
    case Malformed(e) => RefusalKeeps(c, e, 0);
    case DataPayload(data, padLen) => DataReceivedKeeps(c, h, data, padLen);
    case HeadersPayload(fragment, padLen) => HeadersReceivedKeeps(c, h, fragment, padLen, huffman);
    case PriorityPayload(priority) => PriorityReceivedKeeps(c, h, priority);
    case RstStreamPayload(e) => RstStreamReceivedKeeps(c, h, e);
    case SettingsPayload(settings) => SettingsReceivedKeeps(c, h, settings);
    case PushPromisePayload(promised, fragment, n) => PushPromiseReceivedKeeps(c, h, promised, fragment, n, huffman);
    case PingPayload(opaqueData) => PingReceivedKeeps(c, h, opaqueData);
    case GoAwayPayload(last, e, debug) => GoAwayReceivedKeeps(c, h, last, e, debug);
    case WindowUpdatePayload(increment) => WindowUpdateReceivedKeeps(c, h, increment);
    case ContinuationPayload(fragment) => ContinuationReceivedKeeps(c, h, fragment, huffman);
  }

  /** After the frame's handler, a stream it closed leaves the map. */
  lemma ReapedKeeps(c: Conn, d: Conn, id: nat)
    requires HandlerKeeps(c, d, id)
    ensures Inv(Reaped(d, id)) && Advances(c, Reaped(d, id))
  {
    hide DrainChecked, Specials, LastIds, Settings.Parameters, Shutdowns;
    if Find(d, id).Some? && d.streams[id].state == StreamStates.Closed {
      RemoveKeeps(d, id);
      AnnouncedThenRemoved(c, d, Reaped(d, id));
    } else if id in d.streams {
      assert KeyOk(d, id);
    }
  }

  lemma AnnouncedThenRemoved(c: Conn, d: Conn, e: Conn)
    requires Announced(c, d) && Announced(d, e) && GoAways(e) == GoAways(d)
    requires forall id :: id in e.streams ==> id in d.streams
    ensures Announced(c, e)
  {
    hide Specials, LastIds, GoAways;
  }

  lemma TrackedKeeps(c: Conn, id: nat)
    requires Inv(c)
    ensures Inv(Tracked(c, id))
  {
    hide Specials, Settings.Parameters;
    forall k | k in c.streams ensures KeyOk(Tracked(c, id), k) {
      assert KeyOk(c, k);
    }
  }

  /** package_process on any whole frame, after its stream id is tracked. */
  lemma ProcessKeeps(c: Conn, h: FrameHeader, payload: bytes, huffman: Huffman)
    requires Inv(c) && |payload| == h.length
    ensures Sized(c)
    ensures var d := Process(c, h, payload, huffman).conn;
            Inv(d) && Advances(if Admitted(c, h) then Tracked(c, h.streamId) else c, d)
  {
    hide Inv, GoAwaySent, Handle, Parse, Reaped, HandlerKeeps, Quiet;
    ReadyByInv(c);
    var t := Tracked(c, h.streamId);
    TrackedKeeps(c, h.streamId);
    ReadyByInv(t);
    if !Awaited(c, h) {
      RefusalAdvances(c);
    } else if Skipped(c, h) || h.ftype > CONTINUATION {
      Unmoved(if Skipped(c, h) then c else t);
    } else {
      var p := Parse(h, payload);
      ParseFits(h, payload);
      HandleKeeps(t, h, p, huffman);
      ReapedKeeps(t, Handle(t, h, p, huffman), HandedBack(h, p));
      NothingToReap(Handle(t, h, p, huffman));
    }
  }

  lemma NothingToReap(c: Conn)
    ensures Reaped(c, 0) == c
  {
  }

  lemma Unmoved(c: Conn)
    requires Inv(c)
    ensures Advances(c, c)
  {
    QuietKeeps(c, c);
  }

  lemma RefusalAdvances(c: Conn)
    requires Inv(c)
    ensures Inv(GoAwaySent(c, PROTOCOL_ERROR, 0)) && Advances(c, GoAwaySent(c, PROTOCOL_ERROR, 0))
  {
    hide Specials, LastIds, GoAwaySent, Settings.Parameters;
    GoAwayKeeps(c, PROTOCOL_ERROR, 0);
  }

  // ---------------------------------------------------------------- one operation

  /** The frame of a package that holds a whole one and gets past the checks of package_process. */
  predicate Admits(c: Conn, package: bytes)
  {
    && |package| >= HEADER_SIZE && |package| >= UnpackHeader(package).length + HEADER_SIZE
    && Admitted(c, UnpackHeader(package))
  }

  /** The state an operation starts from, its stream id tracked. */
  function Base(c: Conn, op: Op): Conn
  {
    if op.Receive? && Admits(c, op.package) then Tracked(c, UnpackHeader(op.package).streamId) else c
  }

  /** The peer's stream id that an operation makes known, or 0. */
  function Seen(c: Conn, op: Op): nat
  {
    if op.Receive? && Admits(c, op.package) && !IsLocal(c.clientSide, UnpackHeader(op.package).streamId)
    then UnpackHeader(op.package).streamId
    else 0
  }

  lemma BaseTracks(c: Conn, op: Op)
    ensures Base(c, op) == c.(lastStreamId := if Seen(c, op) > c.lastStreamId then Seen(c, op) else c.lastStreamId)
  {
  }

  lemma ReceiveKeeps(c: Conn, package: bytes, huffman: Huffman)
    requires Inv(c)
    ensures Sized(c)
    ensures var d := PackageProcess(c, package, huffman).conn; Inv(d) && Advances(Base(c, Receive(package)), d)
  {
    hide Inv, Process, Advances;
    ReadyByInv(c);
    if |package| >= HEADER_SIZE && |package| >= UnpackHeader(package).length + HEADER_SIZE {
      var h := UnpackHeader(package);
      ProcessKeeps(c, h, package[HEADER_SIZE..HEADER_SIZE + h.length], huffman);
    } else {
      Unmoved(c);
    }
  }

  /** Every public call and every received package keeps the invariant. */
  lemma ApplyKeeps(c: Conn, op: Op, huffman: Huffman)
    requires Inv(c)
    ensures Ready(c) && Inv(Apply(c, op, huffman))
    ensures !op.SendGoAway? && !op.DrainNow? ==> Advances(Base(c, op), Apply(c, op, huffman))
  {
    hide Inv, Advances, PackageProcess, InitialSettingsSent, SettingsSent, PingSent, RstStreamSent, GoAwaySent, Drained,
         PushPromiseSent, WindowUpdateSent, HeadersSent, DataSent, MayCreate, Created;
    ReadyByInv(c);
    match op
    case Receive(package) => ReceiveKeeps(c, package, huffman);
    case VerifyPreface =>
      HandshakeIsQuiet(c);
      InitialSettingsKeep(c.(finishHandshake := true));
      AdvancesAfterQuiet(c, c.(finishHandshake := true), Apply(c, op, huffman));
    case CreateStream => CreatedKeeps(c);
    case SendSettings(settings) => SettingsSentKeeps(c, settings);
    case SendPing(d) => PingSentKeeps(c, d);
    case SendRstStream(id, e) => RstStreamSentKeeps(c, id, e);
    case SendGoAway(e, last, debug) => GoAwayKeeps(c, e, last, debug);
    case DrainNow => DrainedKeeps(c);
    case SendPushPromise(id, hs) => PushPromiseSentKeeps(c, id, hs);
    case SendWindowUpdate(id, ci, si) =>
      WindowUpdateIsQuiet(c, id, ci, si);
      QuietKeeps(c, WindowUpdateSent(c, id, ci, si));
    case SendHeaders(id, handle, hs, end) => HeadersSentKeeps(c, id, handle, hs, end);
    case SendData(id, handle, data, end) => DataSentKeeps(c, id, handle, data, end);
  }

  lemma HandshakeIsQuiet(c: Conn)
    requires Inv(c)
    ensures Quiet(c, c.(finishHandshake := true)) && Inv(c.(finishHandshake := true))
  {
    QuietKeeps(c, c.(finishHandshake := true));
  }

  /** Shutdown completes exactly when a draining connection, or one told to drain, is left without streams. */
  lemma ShutdownIsExact(c: Conn, op: Op, huffman: Huffman)
    requires Inv(c)
    ensures Ready(c)
    ensures var d := Apply(c, op, huffman);
            Shutdowns(d) == Shutdowns(c) +
              (if (c.draining || (op.DrainNow? && !c.sentGoAway)) && d.streams == map[] then 1 else 0)
  {
    hide Apply, Specials, LastIds, OpenBut, KeysOk, RangesOk, Announced;
    ApplyKeeps(c, op, huffman);
    BaseTracks(c, op);
    if op.SendGoAway? {
      SendGoAwayIs(c, op, huffman);
      GoAwayKeeps(c, op.errorCode, op.lastStreamId, op.debug);
    } else if op.DrainNow? {
      DrainNowIs(c, huffman);
      DrainedKeeps(c);
    }
  }

  lemma SendGoAwayIs(c: Conn, op: Op, huffman: Huffman)
    requires Ready(c) && op.SendGoAway?
    ensures Apply(c, op, huffman) == GoAwaySent(c, op.errorCode, op.lastStreamId, op.debug)
  {
  }

  lemma DrainNowIs(c: Conn, huffman: Huffman)
    requires Ready(c)
    ensures Apply(c, DrainNow, huffman) == Drained(c)
  {
  }

  /** GOAWAY is never taken back. */
  lemma SentGoAwayStays(c: Conn, op: Op, huffman: Huffman)
    requires Inv(c) && c.sentGoAway
    ensures Ready(c) && Apply(c, op, huffman).sentGoAway
  {
    hide Apply, Inv, Specials, LastIds, GoAways, Drained, GoAwaySent;
    ApplyKeeps(c, op, huffman);
    BaseTracks(c, op);
    if op.SendGoAway? {
      SendGoAwayIs(c, op, huffman);
      GoAwayKeeps(c, op.errorCode, op.lastStreamId, op.debug);
    } else if op.DrainNow? {
      DrainNowIs(c, huffman);
      DrainedKeeps(c);
    }
  }

  // ---------------------------------------------------------------- runs

  /** The connection after a run; the function itself proves that every run keeps the invariant. */
  function After(c: Conn, ops: seq<Op>, huffman: Huffman): (r: Conn)
    requires Inv(c)
    ensures Inv(r)
    decreases |ops|
  {
    if ops == [] then c
    else
      var before := After(c, ops[..|ops| - 1], huffman);
      var op := ops[|ops| - 1];
      ApplyKeeps(before, op, huffman);
      Apply(before, op, huffman)
  }

  /** A run goes on with one more operation. */
  lemma AfterOne(c: Conn, ops: seq<Op>, op: Op, huffman: Huffman)
    requires Inv(c)
    ensures Inv(After(c, ops, huffman)) && Ready(After(c, ops, huffman))
    ensures After(c, ops + [op], huffman) == Apply(After(c, ops, huffman), op, huffman)
    ensures ops == [] ==> After(c, ops, huffman) == c
  {
    hide Apply, Inv;
    assert (ops + [op])[..|ops|] == ops;
    ReadyByInv(After(c, ops, huffman));
  }

  /** A package that is one whole frame. */
  lemma WholePackage(c: Conn, h: FrameHeader, payload: bytes, huffman: Huffman)
    requires Sized(c) && |payload| == h.length < 0x100_0000 && h.streamId < STREAM_ID_LIMIT
    ensures PackageProcess(c, PackHeader(h) + payload, huffman) == Process(c, h, payload, huffman)
  {
    hide Process, PackHeader, UnpackHeader;
    HeaderRoundTrip(h, payload);
    var package := PackHeader(h) + payload;
    assert package[HEADER_SIZE..HEADER_SIZE + h.length] == payload;
  }

  /** The arrival of one frame. */
  function Wire(h: FrameHeader, payload: bytes): Op
  {
    Receive(PackHeader(h) + payload)
  }

  lemma WireProcessed(c: Conn, h: FrameHeader, payload: bytes, huffman: Huffman)
    requires Ready(c) && |payload| == h.length < 0x100_0000 && h.streamId < STREAM_ID_LIMIT
    ensures Apply(c, Wire(h, payload), huffman) == Process(c, h, payload, huffman).conn
  {
    hide PackageProcess, Process, PackHeader, Coder.WellFormed;
    WholePackage(c, h, payload, huffman);
  }

  /**
   * Whatever is called and received: no stream in the map is closed, a draining connection has a stream
   * left, every key is a local id handed out or a remote id at most the last one seen, every remote
   * setting is in its range, and shutdown has completed at most once.
   */
  lemma EveryRunIsSafe(clientSide: bool, hash: Coder.Hash, ops: seq<Op>, huffman: Huffman)
    ensures Inv(Init(clientSide, hash))
    ensures var c := After(Init(clientSide, hash), ops, huffman);
            && (forall id :: id in c.streams ==> c.streams[id].state != StreamStates.Closed && KeyOk(c, id))
            && (c.draining ==> c.streams != map[])
            && |c.remoteSettings| == Settings.COUNT
            && (forall i :: 0 <= i < Settings.COUNT ==> Settings.InRange(i, c.remoteSettings[i]))
            && Shutdowns(c) <= 1
  {
    hide After, Specials, Settings.Parameters;
    InitInv(clientSide, hash);
    var c := After(Init(clientSide, hash), ops, huffman);
    forall id | id in c.streams ensures KeyOk(c, id) {
    }
  }

  /** The largest id of the peer's among the frames a run processed. */
  function LargestSeen(c: Conn, ops: seq<Op>, huffman: Huffman): nat
    requires Inv(c)
    decreases |ops|
  {
    if ops == [] then 0
    else
      var init := ops[..|ops| - 1];
      var seen := Seen(After(c, init, huffman), ops[|ops| - 1]);
      var largest := LargestSeen(c, init, huffman);
      if seen > largest then seen else largest
  }

  predicate NamesNoId(op: Op)
  {
    op.SendGoAway? ==> op.lastStreamId == 0
  }

  /** Every GOAWAY sent carries the last stream id, which no longer moves. */
  predicate GoAwayOk(c: Conn)
  {
    && (forall i :: 0 <= i < |GoAways(c)| ==> GoAways(c)[i] == c.lastStreamId)
    && (GoAways(c) != [] <==> c.sentGoAway) && (c.sentGoAway ==> c.sentGoAwayStreamId == c.lastStreamId)
  }

  /** An id the application names keeps the GOAWAY frames of one mind exactly if it is the last one processed. */
  lemma NamedIdKeepsOkIff(c: Conn, e: nat, named: nat)
    requires Inv(c) && GoAwayOk(c)
    ensures GoAwayOk(GoAwaySent(c, e, named)) <==> named == 0 || named == c.lastStreamId
  {
    hide Specials, LastIds, GoAwaySent, Inv;
    GoAwayKeeps(c, e, named);
    var g := GoAwaySent(c, e, named);
    assert GoAways(g)[|GoAways(c)|] == if named == 0 then c.lastStreamId else named;
  }

  /** After a GOAWAY that names the last id, an operation processes no larger id. */
  lemma BaseStays(c: Conn, op: Op)
    requires GoAwayOk(c)
    ensures (c.sentGoAway ==> Base(c, op) == c) && GoAwayOk(Base(c, op))
    ensures GoAways(Base(c, op)) == GoAways(c) && Base(c, op).sentGoAway == c.sentGoAway
  {
    hide Specials, LastIds;
    BaseTracks(c, op);
  }

  lemma AnnouncedKeepsOk(c: Conn, d: Conn)
    requires GoAwayOk(c) && Announced(c, d)
    ensures GoAwayOk(d) && (c.sentGoAway ==> d.sentGoAway)
  {
    hide Specials, LastIds, GoAways;
  }

  lemma GoAwayOkKept(c: Conn, op: Op, huffman: Huffman)
    requires Inv(c) && GoAwayOk(c) && NamesNoId(op)
    ensures Ready(c)
    ensures var d := Apply(c, op, huffman);
            && GoAwayOk(d) && d.clientSide == c.clientSide
            && (c.sentGoAway ==> d.sentGoAway && d.lastStreamId == c.lastStreamId)
            && (c.sentGoAway ==> forall id :: id in d.streams && id !in c.streams ==> Registrable(c, id))
            && d.lastStreamId == Base(c, op).lastStreamId
  {
    hide Apply, Specials, LastIds, Inv, InvBut, Shutdowns, Base, GoAways, GoAwayOk, Drained, GoAwaySent;
    ApplyKeeps(c, op, huffman);
    var d := Apply(c, op, huffman);
    BaseTracks(c, op);
    BaseStays(c, op);
    if op.SendGoAway? {
      SendGoAwayIs(c, op, huffman);
      GoAwayKeeps(c, op.errorCode, op.lastStreamId, op.debug);
      AnnouncedKeepsOk(c, d);
    } else if op.DrainNow? {
      DrainNowIs(c, huffman);
      DrainedKeeps(c);
      AnnouncedKeepsOk(c, d);
    } else {
      AnnouncedKeepsOk(Base(c, op), d);
    }
  }

  predicate NamesNone(ops: seq<Op>)
  {
    forall i :: 0 <= i < |ops| ==> NamesNoId(ops[i])
  }

  /** If the application names no last stream id, every GOAWAY of a run carries the largest id processed. */
  lemma {:induction false} GoAwaysNameTheLargest(clientSide: bool, hash: Coder.Hash, ops: seq<Op>, huffman: Huffman)
    requires NamesNone(ops)
    ensures Inv(Init(clientSide, hash))
    ensures var c := After(Init(clientSide, hash), ops, huffman);
            && GoAwayOk(c) && c.clientSide == clientSide
            && c.lastStreamId == LargestSeen(Init(clientSide, hash), ops, huffman)
    decreases |ops|
  {
    hide Inv, GoAwayOk, Apply, Seen, Base, Registrable;
    InitInv(clientSide, hash);
    if ops == [] {
      assert GoAwayOk(Init(clientSide, hash)) by { NothingSentYet(clientSide, hash); }
    } else {
      var n := |ops| - 1;
      GoAwaysNameTheLargest(clientSide, hash, ops[..n], huffman);
      var before := After(Init(clientSide, hash), ops[..n], huffman);
      GoAwayOkKept(before, ops[n], huffman);
      BaseTracks(before, ops[n]);
    }
  }

  lemma NothingSentYet(clientSide: bool, hash: Coder.Hash)
    ensures GoAwayOk(Init(clientSide, hash))
  {
  }

  /**
   * From the first GOAWAY of such a run on, no larger id is processed and every stream registered
   * afterwards is the peer's, with an id the GOAWAY covers.
   */
  lemma {:induction false} NothingRegisteredAbove(clientSide: bool, hash: Coder.Hash, ops: seq<Op>, n: nat,
                                                  huffman: Huffman)
    requires NamesNone(ops) && n <= |ops|
    requires Inv(Init(clientSide, hash)) && After(Init(clientSide, hash), ops[..n], huffman).sentGoAway
    ensures var b, c := After(Init(clientSide, hash), ops[..n], huffman), After(Init(clientSide, hash), ops, huffman);
            && c.sentGoAway
            && LargestSeen(Init(clientSide, hash), ops, huffman) ==
               LargestSeen(Init(clientSide, hash), ops[..n], huffman)
            && forall id :: id in c.streams && id !in b.streams ==>
                 !IsLocal(clientSide, id) && id <= LargestSeen(Init(clientSide, hash), ops[..n], huffman)
    decreases |ops|
  {
    hide Inv, Apply, Seen, Base, LargestSeen, GoAways;
    if n == |ops| {
      assert ops[..n] == ops;
    } else {
      var k := |ops| - 1;
      assert ops[..k][..n] == ops[..n];
      NothingRegisteredAbove(clientSide, hash, ops[..k], n, huffman);
      GoAwaysNameTheLargest(clientSide, hash, ops[..k], huffman);
      GoAwaysNameTheLargest(clientSide, hash, ops, huffman);
      GoAwayOkKept(After(Init(clientSide, hash), ops[..k], huffman), ops[k], huffman);
    }
  }
}
