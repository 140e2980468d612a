/**
 * The header blocks a connection sends: over every run, whatever its peer announces and whenever, they
 * decode to the header lists of the calls the connection accepted.
 */
module ConnectionHeaders {
  import opened Bytes
  import Coder = CompressorModel
  import CompressorLaws
  import opened ConnectionCodecs
  import opened ConnectionInvariant
  import opened ConnectionModel
  import opened ConnectionRuns
  import opened DynamicTable
  import Eviction
  import Frames
  import opened HeaderDecoder
  import opened Headers
  import opened HpackSync
  import Representations
  import Settings
  import StaticTable
  import opened StringLiterals

  type Run = seq<ConnectionInvariant.Op>

  /** The header lists of the calls that a run accepts, in order. */
  function AcceptedLists(c: Conn, ops: Run, huffman: Huffman): seq<seq<Header>>
    requires Inv(c)
    decreases |ops|
  {
    if ops == [] then []
    else
      var n := |ops| - 1;
      var before := After(c, ops[..n], huffman);
      ReadyByInv(before);
      AcceptedLists(c, ops[..n], huffman) +
      (match Accepted(before, ops[n]) case None => [] case Some(headers) => [headers])
  }

  /** Every header list has only fields that can be encoded. */
  predicate Encodable(lists: seq<seq<Header>>)
  {
    forall i :: 0 <= i < |lists| ==> AllEmittable(lists[i])
  }

  predicate AllEmittable(headers: seq<Header>)
  {
    forall i :: 0 <= i < |headers| ==> Emittable(headers[i])
  }

  // ---------------------------------------------------------------- the peer's decoder

  /** The peer's table and the header lists it has read. */
  datatype Peer = Peer(table: Table, lists: seq<seq<Header>>)

  /** A table resized to each table size among some settings. */
  function Resizings(t: Table, settings: seq<(nat, nat)>): Table
    decreases |settings|
  {
    if settings == [] then t
    else
      var (id, value) := settings[0];
      Resizings(if id == Settings.HEADER_TABLE_SIZE then Resized(t, value) else t, settings[1..])
  }

  /**
   * The peer, or None if a block does not decode. One that adapts keeps its table to the sizes it announced once
   * they are acknowledged; one that does not goes on with the table it has.
   */
  function Heard(t: Table, events: seq<Event>, adapts: bool, huffman: Huffman): Option<Peer>
  {
    if events == [] then Some(Peer(t, []))
    else
      var n := |events| - 1;
      match Heard(t, events[..n], adapts, huffman)
      case None => None
      case Some(p) =>
        match events[n]
        case BlockSent(b) =>
          var d := DecodeSpec(b, p.table, huffman);
          if d.error == NoError then Some(Peer(d.table, p.lists + [d.headers])) else None
        case SizesAnnounced(settings) => Some(if adapts then p.(table := Resizings(p.table, settings)) else p)
  }

  lemma HeardOne(t: Table, events: seq<Event>, e: Event, adapts: bool, huffman: Huffman)
    ensures Heard(t, events + [e], adapts, huffman) ==
            match Heard(t, events, adapts, huffman)
            case None => None
            case Some(p) =>
              match e
              case BlockSent(b) =>
                var d := DecodeSpec(b, p.table, huffman);
                if d.error == NoError then Some(Peer(d.table, p.lists + [d.headers])) else None
              case SizesAnnounced(settings) => Some(if adapts then p.(table := Resizings(p.table, settings)) else p)
  {
    hide DecodeSpec, Resizings;
    assert (events + [e])[..|events|] == events;
  }

  /**
   * The peer has read `lists` so far, and its table is one that the compressor's window is a prefix of: of the
   * size announced last if it adapts, and otherwise as large as it began, which was large enough.
   */
  ghost predicate Follows(s: Sender, t: Table, adapts: bool, lists: seq<seq<Header>>, huffman: Huffman)
  {
    && s.compressor.maxUsable == Coder.INITIAL_TABLE_SIZE && |s.remoteSettings| == Settings.COUNT
    && var heard := Heard(t, s.events, adapts, huffman);
       && heard.Some? && heard.value.lists == lists && InSync(s.compressor, heard.value.table)
       && (if adapts then heard.value.table.maxSize == s.remoteSettings[Settings.HEADER_TABLE_SIZE]
           else heard.value.table.maxSize >= Coder.INITIAL_TABLE_SIZE)
  }

  lemma CodedFollows(s: Sender, headers: seq<Header>, t: Table, adapts: bool, lists: seq<seq<Header>>, huffman: Huffman)
    requires Coder.WellFormed(s.compressor) && Follows(s, t, adapts, lists, huffman) && AllEmittable(headers)
    ensures Follows(Coded(s, headers), t, adapts, lists + [headers], huffman)
  {
    hide Coder.EncodeBlock, Coder.WellFormed, Heard, DecodeSpec, Emittable, Safe;
    var peer := Heard(t, s.events, adapts, huffman).value;
    BlockDecodes(s.compressor, peer.table, headers, s.hash, huffman);
    HeardOne(t, s.events, BlockSent(Coder.EncodeBlock(s.compressor, headers, s.hash).octets), adapts, huffman);
  }

  /** Both sides resize to the same announced size: the compressor to no more than it may use. */
  lemma ResizingsKeepSync(c: Coder.State, t: Table, size: nat)
    requires InSync(c, t) && size < UINT32_LIMIT
    ensures InSync(Coder.WithMaxSize(c, size), Resized(t, size))
  {
    hide Coder.WellFormed, Eviction.Evict;
    Coder.WithMaxSizeWellFormed(c, size);
    var max := if size < c.maxUsable then size else c.maxUsable;
    Eviction.EvictPrefix(c.window, t.entries, max, size);
  }

  lemma {:induction false} SettingsKeepSync(c: Coder.State, t: Table, remote: seq<nat>, settings: seq<(nat, nat)>)
    requires InSync(c, t) && LetThrough(settings)
    requires |remote| == Settings.COUNT && t.maxSize == remote[Settings.HEADER_TABLE_SIZE]
    ensures InSync(Resizes(c, settings), Resizings(t, settings))
    ensures Resizings(t, settings).maxSize == Stores(remote, settings)[Settings.HEADER_TABLE_SIZE]
    decreases |settings|
  {
    hide InSync, Coder.WithMaxSize;
    if settings != [] {
      var (id, value) := settings[0];
      var stored := if id < |remote| then remote[id := value] else remote;
      if id == Settings.HEADER_TABLE_SIZE {
        assert Settings.InRange(settings[0].0, settings[0].1);
        ResizingsKeepSync(c, t, value);
        SettingsKeepSync(Coder.WithMaxSize(c, value), Resized(t, value), stored, settings[1..]);
      } else {
        SettingsKeepSync(c, t, stored, settings[1..]);
      }
    }
  }

  lemma StepFollows(s: Sender, d: Sender, sentGoAway: bool, t: Table, adapts: bool, lists: seq<seq<Header>>,
                    huffman: Huffman)
    requires Follows(s, t, adapts, lists, huffman) && SenderStep(s, d, sentGoAway)
    requires |d.remoteSettings| == Settings.COUNT && (adapts ==> !sentGoAway)
    ensures Follows(d, t, adapts, lists, huffman)
  {
    hide Coder.WellFormed, Heard, LetThrough, Resizes, Resizings, Stores;
    MaxIsUsable(d.compressor);
    if d.events != s.events {
      var settings := d.events[|s.events|].settings;
      HeardOne(t, s.events, SizesAnnounced(settings), adapts, huffman);
      if adapts {
        var peer := Heard(t, s.events, adapts, huffman).value;
        SettingsKeepSync(s.compressor, peer.table, s.remoteSettings, settings);
      }
    }
  }

  // ---------------------------------------------------------------- runs

  lemma EncodableSplits(lists: seq<seq<Header>>, more: seq<seq<Header>>)
    requires Encodable(lists + more)
    ensures Encodable(lists) && (|more| == 1 ==> AllEmittable(more[0]))
  {
    hide AllEmittable;
    assert forall i :: 0 <= i < |lists| ==> lists[i] == (lists + more)[i];
    if |more| == 1 {
      assert more[0] == (lists + more)[|lists|];
    }
  }

  lemma StartFollows(clientSide: bool, hash: Coder.Hash, t: Table, adapts: bool, huffman: Huffman)
    requires t.entries == [] && Coder.INITIAL_TABLE_SIZE <= t.maxSize < UINT32_LIMIT
    requires adapts ==> t.maxSize == Coder.INITIAL_TABLE_SIZE
    ensures Follows(SenderOf(Init(clientSide, hash)), t, adapts, [], huffman)
  {
    Coder.InitWellFormed();
  }

  lemma {:induction false} RunFollows(clientSide: bool, hash: Coder.Hash, ops: Run, t: Table, adapts: bool,
                                      huffman: Huffman)
    requires t.entries == [] && Coder.INITIAL_TABLE_SIZE <= t.maxSize < UINT32_LIMIT
    requires Inv(Init(clientSide, hash)) && Encodable(AcceptedLists(Init(clientSide, hash), ops, huffman))
    requires adapts ==> t.maxSize == Coder.INITIAL_TABLE_SIZE
    requires adapts ==> !After(Init(clientSide, hash), ops, huffman).sentGoAway
    ensures Follows(SenderOf(After(Init(clientSide, hash), ops, huffman)), t, adapts,
                    AcceptedLists(Init(clientSide, hash), ops, huffman), huffman)
    decreases |ops|
  {
    hide Inv, Follows, Apply, Events, Coded, Encodable, AllEmittable, Coder.WellFormed, Accepted, SenderStep;
    var c := Init(clientSide, hash);
    if ops == [] {
      StartFollows(clientSide, hash, t, adapts, huffman);
    } else {
      var n := |ops| - 1;
      var before := After(c, ops[..n], huffman);
      var lists := AcceptedLists(c, ops[..n], huffman);
      ReadyByInv(before);
      ReadyByInv(After(c, ops, huffman));
      if before.sentGoAway {
        SentGoAwayStays(before, ops[n], huffman);
      }
      OperationSends(before, ops[n], huffman);
      match Accepted(before, ops[n])
      case None =>
        assert lists + [] == lists;
        RunFollows(clientSide, hash, ops[..n], t, adapts, huffman);
        StepFollows(SenderOf(before), SenderOf(After(c, ops, huffman)), After(c, ops, huffman).sentGoAway, t, adapts,
                    lists, huffman);
      case Some(headers) =>
        EncodableSplits(lists, [headers]);
        RunFollows(clientSide, hash, ops[..n], t, adapts, huffman);
        CodedFollows(SenderOf(before), headers, t, adapts, lists, huffman);
    }
  }

  /**
   * In every run of a connection, whatever table sizes its peer announces and whenever: the blocks on the
   * wire decode, one after the other, to exactly the header lists of the calls it accepted, for a peer whose table
   * stays at any size from 4096 up.
   */
  lemma EveryRunSendsItsHeaders(clientSide: bool, hash: Coder.Hash, ops: Run, decoderMax: nat, huffman: Huffman)
    requires Coder.INITIAL_TABLE_SIZE <= decoderMax < UINT32_LIMIT && Inv(Init(clientSide, hash))
    requires Encodable(AcceptedLists(Init(clientSide, hash), ops, huffman))
    ensures var c := After(Init(clientSide, hash), ops, huffman);
            var heard := Heard(Table([], decoderMax, decoderMax), Events(c.log), false, huffman);
            heard.Some? && heard.value.lists == AcceptedLists(Init(clientSide, hash), ops, huffman)
  {
    hide After, Inv, Events, AcceptedLists, Encodable, InSync, Heard;
    RunFollows(clientSide, hash, ops, Table([], decoderMax, decoderMax), false, huffman);
  }

  /**
   * And for a peer that keeps its table to the sizes it announces, as long as no GOAWAY has been sent: then each of
   * its SETTINGS was taken as a whole.
   */
  lemma AdaptingPeersReadAll(clientSide: bool, hash: Coder.Hash, ops: Run, huffman: Huffman)
    requires Inv(Init(clientSide, hash)) && !After(Init(clientSide, hash), ops, huffman).sentGoAway
    requires Encodable(AcceptedLists(Init(clientSide, hash), ops, huffman))
    ensures var c := After(Init(clientSide, hash), ops, huffman);
            var heard := Heard(Table([], 4096, 4096), Events(c.log), true, huffman);
            && heard.Some? && heard.value.lists == AcceptedLists(Init(clientSide, hash), ops, huffman)
            && Sized(c) && heard.value.table.maxSize == c.remoteSettings[Settings.HEADER_TABLE_SIZE]
  {
    hide After, Inv, Events, AcceptedLists, Encodable, InSync, Heard;
    ReadyByInv(After(Init(clientSide, hash), ops, huffman));
    RunFollows(clientSide, hash, ops, Table([], 4096, 4096), true, huffman);
  }

  /**
   * In every run the compressor's maximum is the smaller of 4096 and the size the peer announced last; the
   * window it believes in fits, and its cache is sound.
   */
  lemma CompressorStaysWithin(clientSide: bool, hash: Coder.Hash, ops: Run, huffman: Huffman)
    ensures Inv(Init(clientSide, hash))
    ensures var c := After(Init(clientSide, hash), ops, huffman);
            && Sized(c) && Coder.WellFormed(c.compressor)
            && c.compressor.maxSize == Min(c.remoteSettings[Settings.HEADER_TABLE_SIZE], Coder.INITIAL_TABLE_SIZE)
            && Eviction.Total(c.compressor.window) <= c.compressor.maxSize
  {
    hide After, Inv;
    InitInv(clientSide, hash);
    RangesByInv(After(Init(clientSide, hash), ops, huffman));
  }

  /** In every run only fields with names of the static table are entered in the table. */
  lemma {:induction false} OnlyStaticNamesAreEntered(clientSide: bool, hash: Coder.Hash, ops: Run, huffman: Huffman)
    ensures Inv(Init(clientSide, hash))
    ensures CompressorLaws.StaticNames(After(Init(clientSide, hash), ops, huffman).compressor)
    decreases |ops|
  {
    hide Inv, Apply, Events, StaticTable.KeyExists, Coder.WellFormed, Coder.EncodeBlock, Accepted, LetThrough,
         WithSettings;
    InitInv(clientSide, hash);
    var c := Init(clientSide, hash);
    if ops != [] {
      var n := |ops| - 1;
      var before := After(c, ops[..n], huffman);
      OnlyStaticNamesAreEntered(clientSide, hash, ops[..n], huffman);
      ReadyByInv(before);
      OperationSends(before, ops[n], huffman);
      match Accepted(before, ops[n])
      case None =>
      case Some(headers) => CompressorLaws.BlockKeepsStaticNames(before.compressor, headers, before.hash);
    }
  }

  // ---------------------------------------------------------------- no size update is ever sent

  /** The representation at the front is a dynamic table size update. */
  predicate BeginsWithUpdate(b: bytes)
  {
    b != [] && !HasFlag(b[0], 0x80) && !HasFlag(b[0], 0x40) && HasFlag(b[0], 0x20)
  }

  lemma OctetsAreNoUpdates(h: Header, index: nat)
    ensures !BeginsWithUpdate(Representations.LiteralOctets(Representations.INCREMENTAL, h))
    ensures !BeginsWithUpdate(Representations.LiteralOctets(Representations.WITHOUT_INDEXING, h))
    ensures !BeginsWithUpdate(Representations.IndexedOctets(index))
    ensures !BeginsWithUpdate(Representations.LiteralWithNameIndexOctets(index, h.value))
  {
  }

  lemma FieldIsNoUpdate(s: Coder.State, h: Header, hash: Coder.Hash)
    requires Coder.WellFormed(s)
    ensures Coder.EncodeField(s, h, hash).octets != [] && !BeginsWithUpdate(Coder.EncodeField(s, h, hash).octets)
  {
    hide Coder.WellFormed, Coder.Added, Coder.Matching, StaticTable.FullMatch, StaticTable.KeyExists, BeginsWithUpdate,
         Representations.LiteralOctets, Representations.IndexedOctets, Representations.LiteralWithNameIndexOctets;
    MaxIsUsable(s);
    var m := Coder.Matching(s.slots, s.tail, h, hash(h.key));
    var index := StaticTable.FullMatch(h);
    OctetsAreNoUpdates(h, index);
    OctetsNonEmpty(h);
    IndexedNonEmpty(index);
    if !m.NotMatch? && m.index > s.tail {
      Coder.MatchIsSound(s, h, hash(h.key));
      var d := 1 + StaticTable.COUNT + (Coder.Newest(s) - m.index);
      OctetsAreNoUpdates(h, d);
      IndexedNonEmpty(d);
    }
  }

  lemma BlockIsNoUpdate(s: Coder.State, headers: seq<Header>, hash: Coder.Hash)
    requires Coder.WellFormed(s)
    ensures !BeginsWithUpdate(Coder.EncodeBlock(s, headers, hash).octets)
  {
    hide Coder.WellFormed, Coder.EncodeField, Coder.EncodeBlock;
    Coder.EncodeBlockSteps(s, headers, hash);
    if headers != [] {
      FieldIsNoUpdate(s, headers[0], hash);
    }
  }

  predicate NoUpdates(events: seq<Event>)
  {
    forall i :: 0 <= i < |events| && events[i].BlockSent? ==> !BeginsWithUpdate(events[i].octets)
  }

  lemma MoreNoUpdates(events: seq<Event>, more: seq<Event>)
    requires NoUpdates(events) && |more| == |events| + 1 && more[..|events|] == events
    requires more[|events|].BlockSent? ==> !BeginsWithUpdate(more[|events|].octets)
    ensures NoUpdates(more)
  {
    hide BeginsWithUpdate;
    assert forall i :: 0 <= i < |events| ==> more[i] == more[..|events|][i];
  }

  /**
   * In no run does a block begin with a dynamic table size update, also not the first after the peer lowered
   * HEADER_TABLE_SIZE, where section 4.2 of RFC 7541 asks for one: the compressor shrinks unannounced.
   */
  lemma {:induction false} NoSizeUpdateIsSent(clientSide: bool, hash: Coder.Hash, ops: Run, huffman: Huffman)
    ensures Inv(Init(clientSide, hash))
    ensures NoUpdates(Events(After(Init(clientSide, hash), ops, huffman).log))
    decreases |ops|
  {
    hide Inv, Apply, Events, NoUpdates, BeginsWithUpdate, Coder.WellFormed, Coder.EncodeBlock, Accepted, LetThrough,
         WithSettings, Shrunk;
    InitInv(clientSide, hash);
    var c := Init(clientSide, hash);
    if ops == [] {
      NothingSent(clientSide, hash);
    } else {
      var n := |ops| - 1;
      var before := After(c, ops[..n], huffman);
      NoSizeUpdateIsSent(clientSide, hash, ops[..n], huffman);
      ReadyByInv(before);
      OperationSends(before, ops[n], huffman);
      var events, more := Events(before.log), Events(After(c, ops, huffman).log);
      match Accepted(before, ops[n])
      case None =>
        if more != events {
          MoreNoUpdates(events, more);
        }
      case Some(headers) =>
        BlockIsNoUpdate(before.compressor, headers, before.hash);
        MoreNoUpdates(events, more);
    }
  }

  lemma NothingSent(clientSide: bool, hash: Coder.Hash)
    ensures NoUpdates(Events(Init(clientSide, hash).log))
  {
  }

  /** SETTINGS with a table size of 0. */
  const LOWERING := Frames.FrameHeader(6, Frames.SETTINGS, 0, 0)
  const LOWERED: seq<(nat, nat)> := [(Settings.HEADER_TABLE_SIZE, 0)]

  lemma LoweringParses()
    ensures |Frames.SettingsOctets(LOWERED)| == 6
    ensures Frames.Parse(LOWERING, Frames.SettingsOctets(LOWERED)) == Frames.SettingsPayload(LOWERED)
    ensures !HasFlag(LOWERING.flags, Frames.ACK)
  {
    Frames.SettingsRoundTrip(LOWERED);
  }

  lemma LoweringApplied(c: Conn)
    requires Sized(c)
    ensures ApplySettings(c, LOWERED, []) ==
            Applied(SettingApplied(c, Settings.HEADER_TABLE_SIZE, 0), LOWERED, false)
  {
    hide Coder.WithMaxSize;
    var rest := LOWERED[1..];
    assert rest == [];
    var d := SettingApplied(c, Settings.HEADER_TABLE_SIZE, 0);
    assert ApplySettings(d, rest, [] + LOWERED) == Applied(d, LOWERED, false);
  }

  /** A connection at rest takes them. */
  lemma LoweringTaken(c: Conn, huffman: Huffman)
    requires Ready(c) && !c.nextFrameLimit && !c.sentGoAway
    ensures |Frames.SettingsOctets(LOWERED)| == 6
    ensures var d := Process(c, LOWERING, Frames.SettingsOctets(LOWERED), huffman).conn;
            && d.streams == c.streams && d.compressor.maxSize == 0
            && Events(d.log) == Events(c.log) + [SizesAnnounced(LOWERED)]
  {
    hide ApplySettings, SettingApplied, Coder.WithMaxSize, Coder.WellFormed, Events, Log, Tracked, Frames.Parse,
         Frames.SettingsOctets, GoAwaySent, Reaped;
    LoweringParses();
    LoweringApplied(c);
    SettingFields(c, Settings.HEADER_TABLE_SIZE, 0);
    Coder.WithMaxSizeWellFormed(c.compressor, 0);
    var a := SettingApplied(c, Settings.HEADER_TABLE_SIZE, 0);
    ReportedCodecs(a, LOWERED);
    LogOnlyLogs(a, OnSettings(LOWERED, false));
    LogOnlyLogs(Log(a, OnSettings(LOWERED, false)), SentSettingsAck);
    assert Tracked(c, 0) == c by { NotTracked(c); }
  }

  /** A client opens a stream, its peer lowers the table size to 0, and the client sends headers. */
  function LoweredRun(headers: seq<Header>): Run
  {
    [CreateStream] + [Wire(LOWERING, Frames.SettingsOctets(LOWERED))] + [SendHeaders(1, Live, headers, false)]
  }

  lemma OpenedAtRest(hash: Coder.Hash, huffman: Huffman)
    ensures Ready(Init(true, hash))
    ensures var c := Apply(Init(true, hash), CreateStream, huffman);
            1 in c.streams && !c.nextFrameLimit && !c.sentGoAway && c.log == []
  {
    Coder.InitWellFormed();
  }

  /** The block sent then is the first after the change, and it does not begin with the size update that is due. */
  lemma LoweredUnannounced(hash: Coder.Hash, headers: seq<Header>, huffman: Huffman)
    ensures Inv(Init(true, hash))
    ensures var c := After(Init(true, hash), LoweredRun(headers), huffman);
            && c.compressor.maxSize == 0 && |Events(c.log)| == 2
            && Events(c.log)[0] == SizesAnnounced(LOWERED) && Events(c.log)[1].BlockSent?
            && !BeginsWithUpdate(Events(c.log)[1].octets)
  {
    hide Inv, Apply, Process, After, Coder.WellFormed, Coder.EncodeBlock, BeginsWithUpdate, Wire,
         Frames.SettingsOctets;
    InitInv(true, hash);
    var c := Init(true, hash);
    var lower := Wire(LOWERING, Frames.SettingsOctets(LOWERED));
    AfterOne(c, [], CreateStream, huffman);
    assert [] + [CreateStream] == [CreateStream];
    OpenedAtRest(hash, huffman);
    var c1 := After(c, [CreateStream], huffman);
    AfterOne(c, [CreateStream], lower, huffman);
    LoweringParses();
    WireProcessed(c1, LOWERING, Frames.SettingsOctets(LOWERED), huffman);
    LoweringTaken(c1, huffman);
    var c2 := After(c, [CreateStream] + [lower], huffman);
    AfterOne(c, [CreateStream] + [lower], SendHeaders(1, Live, headers, false), huffman);
    OperationSends(c2, SendHeaders(1, Live, headers, false), huffman);
    BlockIsNoUpdate(c2.compressor, headers, c2.hash);
    Coder.EncodeBlockWellFormed(c2.compressor, headers, c2.hash);
  }
}
