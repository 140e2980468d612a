/**
 * The compressor never sees the table of the decoder it writes for. Over every history of header
 * lists and size changes, for every hash, what it writes decodes to what was given to it.
 */
module HpackSync {
  import opened Bytes
  import opened CompressorModel
  import opened DynamicTable
  import opened Eviction
  import opened HeaderDecoder
  import opened Headers
  import opened RepresentationRoundTrips
  import opened Representations
  import StaticTable
  import opened StringLiterals

  /** A compressor's maximum is safe if it is no more than the decoder's, or too small for any field it inserts. */
  predicate Safe(max: nat, decoderMax: nat)
  {
    max <= decoderMax || max < StaticTable.SMALLEST_NEW
  }

  /** The compressor's live window is a newest-first prefix of the decoder's table. */
  ghost predicate InSync(c: State, t: Table)
  {
    WellFormed(c) && c.window <= t.entries && Safe(c.maxSize, t.maxSize) && t.maxSize < UINT32_LIMIT
  }

  /** A field the encoder can express and a decoder accepts back: lengths in 32 bits, no upper-case name. */
  predicate Emittable(h: Header)
  {
    |h.key| < UINT32_LIMIT && |h.value| < UINT32_LIMIT && NoUpper(h.key)
  }

  // ---------------------------------------------------------------- one field

  /** What decoding `src` from `t` must give for the field `h` and the compressor state `c` after it. */
  ghost predicate DecodesTo(step: Step, h: Header, n: nat, c: State, t: Table)
  {
    step.Field? && step.header == h && step.consumed == n && InSync(c, step.table)
    && step.table.maxSize == t.maxSize && step.table.limit == t.limit
  }

  /** Inserting on both sides keeps the prefix, also when the entry is too big for one side only. */
  lemma InsertionKeepsSync(c: State, t: Table, h: Header, hash: nat)
    requires InSync(c, t) && (c.maxSize <= t.maxSize || c.maxSize < EntrySize(h))
    ensures InSync(Added(c, h, hash), Pushed(t, h))
  {
    hide Evict, WellFormed;
    MaxIsUsable(c);
    AddedWellFormed(c, h, hash);
    AddedWindow(c, h, hash);
    if c.maxSize <= t.maxSize {
      SameInsertion(c.window, h, c.maxSize);
      EvictPrefix([h] + c.window, [h] + t.entries, c.maxSize, t.maxSize);
    }
  }

  lemma MaxIsUsable(c: State)
    requires WellFormed(c)
    ensures |c.slots| == NUM_VALUES && c.maxSize <= c.maxUsable && ENTRY_OVERHEAD * |c.window| <= c.maxSize
  {
  }

  lemma AddedWindow(c: State, h: Header, hash: nat)
    requires |c.slots| == NUM_VALUES
    ensures Added(c, h, hash).window == EvictThenInsert(c.window, h, c.maxSize)
  {
    assert Total(Evict(c.window, 0)) >= ENTRY_OVERHEAD * |Evict(c.window, 0)|;
  }

  /** From equal tables and equal maxima, evict-then-insert and push-then-evict leave equal tables. */
  lemma EqualTablesStayEqual(c: State, t: Table, h: Header, hash: nat)
    requires |c.slots| == NUM_VALUES && c.window == t.entries && c.maxSize == t.maxSize
    ensures Added(c, h, hash).window == Pushed(t, h).entries
  {
    AddedWindow(c, h, hash);
    SameInsertion(c.window, h, c.maxSize);
  }

  /** A field that no live slot knows goes out as a literal. */
  lemma FreshDecodes(c: State, t: Table, h: Header, hash: nat, huffman: Huffman, rest: bytes)
    requires InSync(c, t) && Emittable(h) && StaticTable.FullMatch(h) == 0
    requires var m := Matching(c.slots, c.tail, h, hash); m.NotMatch? || m.index <= c.tail
    ensures var e := EncodeDynamic(c, h, hash);
            e.octets != [] && DecodesTo(StepSpec(e.octets + rest, t, huffman), h, |e.octets|, e.state, t)
  {
    hide WellFormed, StepSpec, NoUpper, StaticTable.Entry, StaticTable.KeyExists, StaticTable.FullMatch, Added, Pushed,
         Evict, LiteralOctets, Matching;
    OctetsNonEmpty(h);
    LiteralRoundTrip(INCREMENTAL, h, rest, t, huffman);
    LiteralRoundTrip(WITHOUT_INDEXING, h, rest, t, huffman);
    if StaticTable.KeyExists(h.key) {
      StaticTable.NewFieldIsLarge(h);
      InsertionKeepsSync(c, t, h, hash);
      PushedKeepsMax(t, h);
    }
  }

  /** A field whose name or whole is in the window goes out by its index. */
  lemma KnownDecodes(c: State, t: Table, h: Header, hash: nat, huffman: Huffman, rest: bytes)
    requires InSync(c, t) && Emittable(h)
    requires var m := Matching(c.slots, c.tail, h, hash); !m.NotMatch? && m.index > c.tail
    ensures var e := EncodeDynamic(c, h, hash);
            e.octets != [] && DecodesTo(StepSpec(e.octets + rest, t, huffman), h, |e.octets|, e.state, t)
  {
    hide WellFormed, StepSpec, NoUpper, StaticTable.Entry, IndexedOctets, LiteralWithNameIndexOctets, Matching;
    MaxIsUsable(c);
    MatchIsSound(c, h, hash);
    var m := Matching(c.slots, c.tail, h, hash);
    var d := 1 + StaticTable.COUNT + (Newest(c) - m.index);
    assert Lookup(t, d) == Some(c.window[Newest(c) - m.index]);
    IndexedNonEmpty(d);
    IndexedRoundTrip(d, rest, t, huffman);
    NameIndexRoundTrip(d, h.value, rest, t, huffman);
    assert h == Header(h.key, h.value);
  }

  /** A field of the static table goes out by its index. */
  lemma StaticDecodes(c: State, t: Table, h: Header, huffman: Huffman, rest: bytes)
    requires InSync(c, t) && StaticTable.FullMatch(h) != 0
    ensures var b := IndexedOctets(StaticTable.FullMatch(h));
            b != [] && DecodesTo(StepSpec(b + rest, t, huffman), h, |b|, c, t)
  {
    hide WellFormed, StepSpec, StaticTable.Entry, IndexedOctets;
    IndexedNonEmpty(StaticTable.FullMatch(h));
    IndexedRoundTrip(StaticTable.FullMatch(h), rest, t, huffman);
  }

  lemma FieldDecodes(c: State, t: Table, h: Header, hash: Hash, huffman: Huffman, rest: bytes)
    requires InSync(c, t) && Emittable(h)
    ensures var e := EncodeField(c, h, hash);
            e.octets != [] && DecodesTo(StepSpec(e.octets + rest, t, huffman), h, |e.octets|, e.state, t)
  {
    hide WellFormed, StepSpec, StaticTable.FullMatch, EncodeDynamic, IndexedOctets, Matching, DecodesTo, Emittable;
    MaxIsUsable(c);
    if StaticTable.FullMatch(h) != 0 {
      StaticDecodes(c, t, h, huffman, rest);
    } else {
      var m := Matching(c.slots, c.tail, h, hash(h.key));
      if m.NotMatch? || m.index <= c.tail {
        FreshDecodes(c, t, h, hash(h.key), huffman, rest);
      } else {
        KnownDecodes(c, t, h, hash(h.key), huffman, rest);
      }
    }
  }

  lemma PushedKeepsMax(t: Table, h: Header)
    ensures Pushed(t, h).maxSize == t.maxSize && Pushed(t, h).limit == t.limit
  {
  }

  lemma OctetsNonEmpty(h: Header)
    ensures LiteralOctets(INCREMENTAL, h) != [] && LiteralOctets(WITHOUT_INDEXING, h) != []
  {
  }

  lemma IndexedNonEmpty(d: nat)
    ensures IndexedOctets(d) != [] && forall v :: LiteralWithNameIndexOctets(d, v) != []
  {
  }

  // ---------------------------------------------------------------- one block

  /** The compressor's maximum in force and the largest it may use. */
  datatype Limits = Limits(max: nat, usable: nat)

  function LimitsOf(c: State): Limits
  {
    Limits(c.maxSize, c.maxUsable)
  }

  lemma {:induction false} BlockDecodes(c: State, t: Table, hs: seq<Header>, hash: Hash, huffman: Huffman)
    requires InSync(c, t) && forall i :: 0 <= i < |hs| ==> Emittable(hs[i])
    ensures var e := EncodeBlock(c, hs, hash);
            var d := DecodeSpec(e.octets, t, huffman);
            && d.error == NoError && d.headers == hs
            && InSync(e.state, d.table) && d.table.maxSize == t.maxSize && d.table.limit == t.limit
            && LimitsOf(e.state) == LimitsOf(c)
    decreases |hs|
  {
    hide EncodeBlock, EncodeField, StepSpec, WellFormed, Emittable;
    EncodeBlockSteps(c, hs, hash);
    if hs != [] {
      var one := EncodeField(c, hs[0], hash);
      EncodeFieldWellFormed(c, hs[0], hash);
      var rest := EncodeBlock(one.state, hs[1..], hash).octets;
      FieldDecodes(c, t, hs[0], hash, huffman, rest);
      var step := StepSpec(one.octets + rest, t, huffman);
      BlockDecodes(one.state, step.table, hs[1..], hash, huffman);
      assert (one.octets + rest)[|one.octets|..] == rest;
      assert hs == [hs[0]] + hs[1..];
    }
  }

  // ---------------------------------------------------------------- whole histories

  datatype Op =
    | EncodeHeaders(headers: seq<Header>)
    | SetMaxTableSize(size: nat)
    | SetMaxUsableSize(size: nat)

  predicate Sendable(op: Op)
  {
    op.EncodeHeaders? ==> forall i :: 0 <= i < |op.headers| ==> Emittable(op.headers[i])
  }

  function Min(a: nat, b: nat): nat
  {
    if a < b then a else b
  }

  function NextLimits(l: Limits, op: Op): Limits
  {
    match op
    case EncodeHeaders(_) => l
    case SetMaxTableSize(n) => Limits(Min(n, l.usable), l.usable)
    case SetMaxUsableSize(n) => Limits(Min(n, l.max), n)
  }

  /** After every operation the maximum in force is safe. */
  predicate Within(l: Limits, ops: seq<Op>, decoderMax: nat)
    decreases |ops|
  {
    Safe(l.max, decoderMax) && (ops == [] || Within(NextLimits(l, ops[0]), ops[1..], decoderMax))
  }

  /** The blocks a run of the compressor writes. */
  function Blocks(c: State, ops: seq<Op>, hash: Hash): seq<bytes>
    requires WellFormed(c)
    decreases |ops|
  {
    if ops == [] then []
    else
      match ops[0]
      case EncodeHeaders(hs) =>
        var e := EncodeBlock(c, hs, hash);
        EncodeBlockWellFormed(c, hs, hash);
        [e.octets] + Blocks(e.state, ops[1..], hash)
      case SetMaxTableSize(n) =>
        WithMaxSizeWellFormed(c, n);
        Blocks(WithMaxSize(c, n), ops[1..], hash)
      case SetMaxUsableSize(n) =>
        WithMaxUsableWellFormed(c, n);
        Blocks(WithMaxUsable(c, n), ops[1..], hash)
  }

  /** The header lists the application handed over, in order. */
  function Sent(ops: seq<Op>): seq<seq<Header>>
  {
    if ops == [] then []
    else if ops[0].EncodeHeaders? then [ops[0].headers] + Sent(ops[1..])
    else Sent(ops[1..])
  }

  /** The header lists a decoder that starts from `t` gets out of the blocks, or None at the first error. */
  function Received(t: Table, blocks: seq<bytes>, huffman: Huffman): Option<seq<seq<Header>>>
    decreases |blocks|
  {
    if blocks == [] then Some([])
    else
      var d := DecodeSpec(blocks[0], t, huffman);
      if d.error != NoError then None
      else
        match Received(d.table, blocks[1..], huffman)
        case None => None
        case Some(rest) => Some([d.headers] + rest)
  }

  /** A shrinking or growing compressor stays in step although nothing about it goes on the wire. */
  lemma ResizeKeepsSync(c: State, t: Table, size: nat)
    requires InSync(c, t)
    ensures LimitsOf(WithMaxSize(c, size)) == NextLimits(LimitsOf(c), SetMaxTableSize(size))
    ensures LimitsOf(WithMaxUsable(c, size)) == NextLimits(LimitsOf(c), SetMaxUsableSize(size))
    ensures Safe(WithMaxSize(c, size).maxSize, t.maxSize) ==> InSync(WithMaxSize(c, size), t)
    ensures InSync(WithMaxUsable(c, size), t)
  {
    hide WellFormed, Evict;
    WithMaxSizeWellFormed(c, size);
    WithMaxUsableWellFormed(c, size);
  }

  lemma {:induction false} RunDecodes(c: State, t: Table, ops: seq<Op>, hash: Hash, huffman: Huffman)
    requires InSync(c, t) && Within(LimitsOf(c), ops, t.maxSize) && forall i :: 0 <= i < |ops| ==> Sendable(ops[i])
    ensures Received(t, Blocks(c, ops, hash), huffman) == Some(Sent(ops))
    decreases |ops|
  {
    hide WellFormed, EncodeBlock, DecodeSpec, WithMaxSize, WithMaxUsable, Emittable;
    if ops != [] {
      assert Sendable(ops[0]);
      match ops[0]
      case EncodeHeaders(hs) =>
        var e := EncodeBlock(c, hs, hash);
        BlockDecodes(c, t, hs, hash, huffman);
        var d := DecodeSpec(e.octets, t, huffman);
        RunDecodes(e.state, d.table, ops[1..], hash, huffman);
        assert Blocks(c, ops, hash)[1..] == Blocks(e.state, ops[1..], hash);
      case SetMaxTableSize(n) =>
        ResizeKeepsSync(c, t, n);
        RunDecodes(WithMaxSize(c, n), t, ops[1..], hash, huffman);
      case SetMaxUsableSize(n) =>
        ResizeKeepsSync(c, t, n);
        RunDecodes(WithMaxUsable(c, n), t, ops[1..], hash, huffman);
    }
  }

  /**
   * The central law: from the initial states, every history in which the compressor's maximum never exceeds
   * the decoder's, unless it is under 36 octets, decodes to what was sent, for any hash.
   */
  lemma EveryHistoryDecodes(ops: seq<Op>, decoderMax: nat, hash: Hash, huffman: Huffman)
    requires decoderMax < UINT32_LIMIT && Within(LimitsOf(Init()), ops, decoderMax)
    requires forall i :: 0 <= i < |ops| ==> Sendable(ops[i])
    ensures WellFormed(Init())
    ensures Received(Table([], decoderMax, decoderMax), Blocks(Init(), ops, hash), huffman) == Some(Sent(ops))
  {
    InitWellFormed();
    RunDecodes(Init(), Table([], decoderMax, decoderMax), ops, hash, huffman);
  }

  // ---------------------------------------------------------------- beyond the decoder's maximum

  /**
   * The condition is needed: a compressor whose maximum exceeds the decoder's, given twice a field whose size
   * lies between the two, writes a block that does not decode.
   */
  lemma BeyondTheDecoderFails(c: State, t: Table, h: Header, hash: Hash, huffman: Huffman)
    requires WellFormed(c) && t.maxSize < EntrySize(h) <= c.maxSize && Emittable(h)
    requires StaticTable.FullMatch(h) == 0 && StaticTable.KeyExists(h.key)
    requires var m := Matching(c.slots, c.tail, h, hash(h.key)); m.NotMatch? || m.index <= c.tail
    ensures DecodeSpec(EncodeBlock(c, [h, h], hash).octets, t, huffman).error == CompressionError
  {
    hide WellFormed, EncodeField, EncodeBlock, StepSpec, StaticTable.Entry, StaticTable.KeyExists, Emittable,
         LiteralOctets;
    RepeatIsIndexed(c, h, hash);
    var once := EncodeField(c, h, hash);
    var index := IndexedOctets(1 + StaticTable.COUNT);
    EncodeBlockSteps(c, [h, h], hash);
    EncodeBlockSteps(once.state, [h], hash);
    EncodeBlockSteps(once.state, [], hash);
    assert [h, h][1..] == [h] && [h][1..] == [];
    assert once.octets + (index + []) == once.octets + index;
    EmittableIs(h);
    LiteralRoundTrip(INCREMENTAL, h, index, t, huffman);
    TooLargeEmpties(t, h);
    UnknownIndexFails(Pushed(t, h), huffman);
    OctetsNonEmpty(h);
    assert (once.octets + index)[|once.octets|..] == index;
  }

  lemma EmittableIs(h: Header)
    requires Emittable(h)
    ensures |h.key| < UINT32_LIMIT && |h.value| < UINT32_LIMIT && NoUpper(h.key)
  {
  }

  lemma TooLargeEmpties(t: Table, h: Header)
    requires t.maxSize < EntrySize(h)
    ensures Pushed(t, h).entries == []
  {
    KeptTogether(t.entries, h, t.maxSize, 0);
  }

  lemma UnknownIndexFails(t: Table, huffman: Huffman)
    requires t.entries == []
    ensures DecodeSpec(IndexedOctets(1 + StaticTable.COUNT), t, huffman).error == CompressionError
  {
    hide StaticTable.Entry;
    var b := IndexedOctets(1 + StaticTable.COUNT);
    assert b == [190];
    assert HasFlag(190, 0x80);
    assert Lookup(t, 62) == None;
  }

  // ---------------------------------------------------------------- the exact condition

  /** A compressor just made whose maximum is then set. */
  function AtMaximum(max: nat): State
  {
    WithMaxSize(WithMaxUsable(Init(), max), max)
  }

  lemma AtMaximumIs(max: nat)
    ensures AtMaximum(max) == Init().(maxSize := max, maxUsable := max) && WellFormed(AtMaximum(max))
  {
    InitWellFormed();
    WithMaxUsableWellFormed(Init(), max);
    WithMaxSizeWellFormed(WithMaxUsable(Init(), max), max);
  }

  predicate OnlyBlocks(ops: seq<Op>)
  {
    forall i :: 0 <= i < |ops| ==> ops[i].EncodeHeaders? && Sendable(ops[i])
  }

  /** Whatever header lists are sent, a decoder of this size gets them back. */
  ghost predicate AlwaysDecodes(c: State, decoderMax: nat, hash: Hash, huffman: Huffman)
    requires WellFormed(c)
  {
    forall ops: seq<Op> | OnlyBlocks(ops) ::
      Received(Table([], decoderMax, decoderMax), Blocks(c, ops, hash), huffman) == Some(Sent(ops))
  }

  lemma {:induction false} BlocksStayWithin(l: Limits, ops: seq<Op>, decoderMax: nat)
    requires OnlyBlocks(ops) && Safe(l.max, decoderMax)
    ensures Within(l, ops, decoderMax)
  {
    if ops != [] {
      BlocksStayWithin(l, ops[1..], decoderMax);
    }
  }

  /**
   * A compressor whose maximum is set writes, for every sequence of header lists, blocks that a decoder of
   * the other size decodes to them, if and only if its maximum is no larger or is at most 35: the smallest
   * field it ever enters takes 36 octets.
   */
  lemma DecodesIff(max: nat, decoderMax: nat, hash: Hash, huffman: Huffman)
    requires max < UINT32_LIMIT && decoderMax < UINT32_LIMIT
    ensures WellFormed(AtMaximum(max))
    ensures AlwaysDecodes(AtMaximum(max), decoderMax, hash, huffman) <==> max <= decoderMax || max <= 35
  {
    hide WellFormed, Blocks, Received, AtMaximum;
    var c, t := AtMaximum(max), Table([], decoderMax, decoderMax);
    AtMaximumIs(max);
    if Safe(max, decoderMax) {
      forall ops: seq<Op> | OnlyBlocks(ops) ensures Received(t, Blocks(c, ops, hash), huffman) == Some(Sent(ops)) {
        BlocksStayWithin(LimitsOf(c), ops, decoderMax);
        RunDecodes(c, t, ops, hash, huffman);
      }
    } else {
      TwiceFails(max, decoderMax, hash, huffman);
    }
  }

  /** The field of exactly the compressor's maximum, sent twice in one block. */
  lemma TwiceFails(max: nat, decoderMax: nat, hash: Hash, huffman: Huffman)
    requires decoderMax < max < UINT32_LIMIT && max >= StaticTable.SMALLEST_NEW && WellFormed(AtMaximum(max))
    ensures !AlwaysDecodes(AtMaximum(max), decoderMax, hash, huffman)
  {
    hide WellFormed, AtMaximum, StaticTable.KeyExists, StaticTable.FullMatch, EncodeBlock, DecodeSpec;
    var c, t, h := AtMaximum(max), Table([], decoderMax, decoderMax), StaticTable.NewField(max);
    AtMaximumIs(max);
    StaticTable.NewFieldIsNew(max);
    assert Emittable(h) by { AgeIsLower(max); }
    assert Matching(c.slots, c.tail, h, hash(h.key)) == NotMatch;
    BeyondTheDecoderFails(c, t, h, hash, huffman);
    var ops := [EncodeHeaders([h, h])];
    assert OnlyBlocks(ops);
    assert Blocks(c, ops, hash)[0] == EncodeBlock(c, [h, h], hash).octets;
    assert Received(t, Blocks(c, ops, hash), huffman) == None;
  }

  lemma AgeIsLower(size: nat)
    requires StaticTable.SMALLEST_NEW <= size < UINT32_LIMIT
    ensures Emittable(StaticTable.NewField(size))
  {
  }
}
