/** String literals (section 5.2 of RFC 7541) as src/hpack/decode.cc reads them. */
module StringLiterals {
  import opened Bytes
  import opened IntegerCodec

  /** `Overread` is a Huffman-coded literal longer than the octets left, which the parser does not check. */
  datatype StringResult = Str(value: bytes, consumed: nat) | Bad | Overread

  /** How a Huffman-coded string decodes, if it does. */
  type Huffman = bytes -> Option<bytes>

  predicate IsUpper(c: byte)
  {
    'A' as int <= c <= 'Z' as int
  }

  predicate NoUpper(s: bytes)
  {
    forall i :: 0 <= i < |s| ==> !IsUpper(s[i])
  }

  /** A value (`isKey` false) or a name, which is refused when a raw octet is an upper-case letter. */
  function ParseStringSpec(src: bytes, huffman: Huffman, isKey: bool): (r: StringResult)
    ensures r.Str? ==> r.consumed <= |src|
  {
    if src == [] then Bad
    else
      match DecodeInt(src, 127)
      case None => Bad
      case Some(Parsed(len, n)) =>
        if src[0] >= 128 then
          if n + len > |src| then Overread
          else
            match huffman(src[n..n + len])
            case None => Bad
            case Some(v) => Str(v, n + len)
        else if n + len > |src| || (isKey && !NoUpper(src[n..n + len])) then Bad
        else Str(src[n..n + len], n + len)
  }

  /** parse_string */
  method ParseString(buf: bytes, at: nat, huffman: Huffman) returns (r: StringResult)
    requires at <= |buf|
    ensures r == ParseStringSpec(buf[at..], huffman, false)
  {
    if at >= |buf| {
      return Bad;
    }
    var len := DecodeUint32(buf, at, 127);
    if len.None? {
      return Bad;
    }
    var start, end := at + len.value.consumed, at + len.value.consumed + len.value.value;
    if buf[at] >= 128 {
      r := DecodeHuffman(buf, at, start, end, huffman);
    } else if end <= |buf| {
      assert buf[at..][start - at..end - at] == buf[start..end];
      r := Str(buf[start..end], end - at);
    } else {
      r := Bad;
    }
  }

  /** decode_string, on the octets from `start` to `end` */
  method DecodeHuffman(buf: bytes, at: nat, start: nat, end: nat, huffman: Huffman) returns (r: StringResult)
    requires at <= start <= end && start <= |buf|
    ensures r == if end > |buf| then Overread
                 else match huffman(buf[at..][start - at..end - at])
                      case None => Bad
                      case Some(v) => Str(v, end - at)
  {
    if end > |buf| {
      return Overread;
    }
    assert buf[at..][start - at..end - at] == buf[start..end];
    match huffman(buf[start..end])
    case None => r := Bad;
    case Some(v) => r := Str(v, end - at);
  }

  /** parse_string_key */
  method ParseStringKey(buf: bytes, at: nat, huffman: Huffman) returns (r: StringResult)
    requires at <= |buf|
    ensures r == ParseStringSpec(buf[at..], huffman, true)
  {
    if at >= |buf| {
      return Bad;
    }
    var len := DecodeUint32(buf, at, 127);
    if len.None? {
      return Bad;
    }
    var start, end := at + len.value.consumed, at + len.value.consumed + len.value.value;
    if buf[at] >= 128 {
      r := DecodeHuffman(buf, at, start, end, huffman);
    } else if end <= |buf| {
      ghost var name := buf[at..][start - at..end - at];
      assert name == buf[start..end];
      var dst: bytes := [];
      var p := start;
      while p < end
        invariant start <= p <= end && dst == buf[start..p] && NoUpper(dst)
      {
        var c := buf[p];
        p := p + 1;
        if IsUpper(c) {
          assert name[p - 1 - start] == c;
          return Bad;
        }
        dst := dst + [c];
      }
      r := Str(dst, end - at);
    } else {
      r := Bad;
    }
  }
}

/** decode_headers (src/hpack/hpack.cc): the loop over the representations of section 6 of RFC 7541. */
module HeaderDecoder {
  import opened Bytes
  import opened DynamicTable
  import opened Headers
  import opened IntegerCodec
  import StaticTable
  import opened StringLiterals

  datatype Error = NoError | ProtocolError | CompressionError | ReadsPastEnd

  /** What one representation does: a field, a table size update, or an error that stops the block. */
  datatype Step =
    | Field(header: Header, table: Table, consumed: nat)
    | SizeUpdate(table: Table, consumed: nat)
    | Failed(error: Error)

  datatype Decoded = Decoded(error: Error, headers: seq<Header>, table: Table)

  /** The entry an index names: 1..61 static, above that dynamic. */
  function Lookup(t: Table, index: nat): (r: Option<Header>)
    requires index > 0
  {
    if index <= StaticTable.COUNT then Some(StaticTable.Entry(index))
    else if index - (StaticTable.COUNT + 1) < |t.entries| then Some(t.entries[index - (StaticTable.COUNT + 1)])
    else None
  }

  function IndexedField(src: bytes, t: Table): Step
    requires |src| > 0
  {
    match DecodeInt(src, 127)
    case None => Failed(CompressionError)
    case Some(Parsed(index, n)) =>
      if index == 0 then Failed(CompressionError)
      else
        match Lookup(t, index)
        case None => Failed(CompressionError)
        case Some(h) => Field(h, t, n)
  }

  function SizeUpdateField(src: bytes, t: Table): Step
    requires |src| > 0
  {
    match DecodeInt(src, 31)
    case None => Failed(CompressionError)
    case Some(Parsed(size, n)) => if size > t.limit then Failed(CompressionError) else SizeUpdate(Resized(t, size), n)
  }

  /** The name of a literal whose index has been read; `error` is None when there is a name. */
  datatype NameResult = Name(key: bytes, consumed: nat) | NoName(error: Error)

  function LiteralName(src: bytes, t: Table, mask: nat, huffman: Huffman): (r: NameResult)
    requires |src| > 0 && ValidMask(mask)
    ensures r.Name? ==> 0 < r.consumed <= |src|
    ensures r.NoName? ==> r.error != NoError
  {
    match DecodeInt(src, mask)
    case None => NoName(CompressionError)
    case Some(Parsed(index, n)) =>
      if index == 0 then
        match ParseStringSpec(src[n..], huffman, true)
        case Bad => NoName(ProtocolError)
        case Overread => NoName(ReadsPastEnd)
        case Str(key, m) => Name(key, n + m)
      else
        match Lookup(t, index)
        case None => NoName(CompressionError)
        case Some(h) => Name(h.key, n)
  }

  function LiteralField(src: bytes, t: Table, mask: nat, add: bool, huffman: Huffman): Step
    requires |src| > 0 && ValidMask(mask)
  {
    match LiteralName(src, t, mask, huffman)
    case NoName(e) => Failed(e)
    case Name(key, n) =>
      match ParseStringSpec(src[n..], huffman, false)
      case Bad => Failed(CompressionError)
      case Overread => Failed(ReadsPastEnd)
      case Str(value, m) =>
        var h := Header(key, value);
        Field(h, if add then Pushed(t, h) else t, n + m)
  }

  function StepSpec(src: bytes, t: Table, huffman: Huffman): (r: Step)
    requires |src| > 0
    ensures !r.Failed? ==> 0 < r.consumed <= |src|
    ensures r.Failed? ==> r.error != NoError
  {
    if HasFlag(src[0], 0x80) then IndexedField(src, t)
    else if HasFlag(src[0], 0x40) then LiteralField(src, t, 63, true, huffman)
    else if HasFlag(src[0], 0x20) then SizeUpdateField(src, t)
    else LiteralField(src, t, 15, false, huffman)
  }

  function DecodeSpec(src: bytes, t: Table, huffman: Huffman): Decoded
    decreases |src|
  {
    if src == [] then Decoded(NoError, [], t)
    else
      match StepSpec(src, t, huffman)
      case Failed(e) => Decoded(e, [], t)
      case SizeUpdate(t', n) => DecodeSpec(src[n..], t', huffman)
      case Field(h, t', n) => Prepend([h], DecodeSpec(src[n..], t', huffman))
  }

  function Prepend(hs: seq<Header>, r: Decoded): Decoded
  {
    r.(headers := hs + r.headers)
  }

  /** The literal representations: what follows once the kind, and so the prefix, is known. */
  method DecodeLiteral(buf: bytes, at: nat, table: DynamicMetadataTable, addToDynamicTable: bool, huffman: Huffman)
    returns (error: Error, mdel: Header, next: nat)
    requires at < |buf| && table.Valid()
    modifies table
    ensures table.Valid()
    ensures var step := LiteralField(buf[at..], old(table.State()), if addToDynamicTable then 63 else 15,
                                     addToDynamicTable, huffman);
            if error == NoError then at < next <= |buf| && step == Field(mdel, table.State(), next - at)
            else step == Failed(error) && table.State() == old(table.State())
  {
    hide Lookup, ParseStringSpec, DecodeInt, Pushed;
    ghost var src, t := buf[at..], table.State();
    mdel, next := Header([], []), at;
    var mask := if addToDynamicTable then 63 else 15;
    var index := DecodeUint32(buf, at, mask);
    if index.None? {
      return CompressionError, mdel, next;
    }
    next := at + index.value.consumed;
    assert src[next - at..] == buf[next..];
    if index.value.value == 0 {
      var key := ParseStringKey(buf, next, huffman);
      if !key.Str? {
        return if key.Bad? then ProtocolError else ReadsPastEnd, mdel, next;
      }
      mdel := mdel.(key := key.value);
      next := next + key.consumed;
    } else {
      var found := FindEntry(table, index.value.value);
      if found.None? {
        return CompressionError, mdel, next;
      }
      mdel := found.value;
    }
    assert LiteralName(src, t, mask, huffman) == Name(mdel.key, next - at);

    assert src[next - at..] == buf[next..];
    var value := ParseString(buf, next, huffman);
    if !value.Str? {
      return if value.Bad? then CompressionError else ReadsPastEnd, mdel, next;
    }
    mdel := mdel.(value := value.value);
    next := next + value.consumed;
    if addToDynamicTable {
      table.Push(mdel);
    }
    return NoError, mdel, next;
  }

  /** One turn of the loop: the field the representation at `at` yields, if it is one, and where it ends. */
  method DecodeRepresentation(buf: bytes, at: nat, table: DynamicMetadataTable, huffman: Huffman)
    returns (error: Error, field: Option<Header>, next: nat)
    requires at < |buf| && table.Valid()
    modifies table
    ensures table.Valid()
    ensures error != NoError ==>
              StepSpec(buf[at..], old(table.State()), huffman) == Failed(error) && table.State() == old(table.State())
    ensures error == NoError ==> at < next <= |buf|
    ensures error == NoError ==>
              StepSpec(buf[at..], old(table.State()), huffman) ==
              (if field.Some? then Field(field.value, table.State(), next - at)
               else SizeUpdate(table.State(), next - at))
  {
    hide Lookup, LiteralField, DecodeInt, Resized;
    if HasFlag(buf[at], 0x80) {
      var index := DecodeUint32(buf, at, 127);
      if index.None? || index.value.value == 0 {
        return CompressionError, None, at;
      }
      field := FindEntry(table, index.value.value);
      if field.None? {
        return CompressionError, None, at;
      }
      return NoError, field, at + index.value.consumed;
    } else if !HasFlag(buf[at], 0x40) && HasFlag(buf[at], 0x20) {
      var size := DecodeUint32(buf, at, 31);
      if size.None? || size.value.value > table.maxTableSizeLimit {
        return CompressionError, None, at;
      }
      table.UpdateMaxTableSize(size.value.value);
      return NoError, None, at + size.value.consumed;
    } else {
      var mdel;
      error, mdel, next := DecodeLiteral(buf, at, table, HasFlag(buf[at], 0x40), huffman);
      return error, Some(mdel), next;
    }
  }

  /** decode_headers, with the table it updates and the fields it had pushed when it stopped. */
  method DecodeHeaders(buf: bytes, table: DynamicMetadataTable, huffman: Huffman)
    returns (error: Error, headers: seq<Header>)
    requires table.Valid()
    modifies table
    ensures table.Valid()
    ensures Decoded(error, headers, table.State()) == DecodeSpec(buf, old(table.State()), huffman)
  {
    hide StepSpec;
    headers := [];
    var at := 0;
    ghost var whole := DecodeSpec(buf, table.State(), huffman);
    assert buf[0..] == buf && [] + whole.headers == whole.headers;
    while at < |buf|
      invariant at <= |buf| && table.Valid()
      invariant Prepend(headers, DecodeSpec(buf[at..], table.State(), huffman)) == whole
      decreases |buf| - at
    {
      ghost var src := buf[at..];
      var err, field, next := DecodeRepresentation(buf, at, table, huffman);
      if err != NoError {
        return err, headers;
      }
      assert src[next - at..] == buf[next..];
      at := next;
      if field.Some? {
        headers := headers + [field.value];
      }
    }
    assert buf[at..] == [];
    return NoError, headers;
  }

  /** The static array access and get_mdelem_data, chosen by the index. */
  method FindEntry(table: DynamicMetadataTable, index: nat) returns (r: Option<Header>)
    requires index > 0
    ensures r == Lookup(table.State(), index)
  {
    if index <= StaticTable.COUNT {
      r := Some(StaticTable.Entry(index));
    } else {
      r := table.Get(index - (StaticTable.COUNT + 1));
    }
  }

  // ---------------------------------------------------------------- blocks compose

  /** A decode that succeeded looked at nothing beyond what it consumed. */
  lemma {:induction false} DecodeFromLocal(a: bytes, b: bytes, pos: nat, dst: nat, k: nat)
    requires DecodeFrom(a, pos, dst, k).Some?
    ensures DecodeFrom(a + b, pos, dst, k) == DecodeFrom(a, pos, dst, k)
    decreases |a| - pos
  {
    var addend := ShiftLeft7(a[pos] % 128, k);
    if a[pos] >= 128 {
      DecodeFromLocal(a, b, pos + 1, dst + addend, k + 1);
    }
  }

  lemma DecodeIntLocal(a: bytes, b: bytes, mask: nat)
    requires |a| > 0 && ValidMask(mask) && DecodeInt(a, mask).Some?
    ensures DecodeInt(a + b, mask) == DecodeInt(a, mask)
  {
    if LowBits(a[0], mask) == mask {
      DecodeFromLocal(a, b, 1, mask, 0);
    }
  }

  lemma ParseStringLocal(a: bytes, b: bytes, huffman: Huffman, isKey: bool)
    requires ParseStringSpec(a, huffman, isKey).Str?
    ensures ParseStringSpec(a + b, huffman, isKey) == ParseStringSpec(a, huffman, isKey)
  {
    DecodeIntLocal(a, b, 127);
    var Parsed(len, n) := DecodeInt(a, 127).value;
    assert (a + b)[n..n + len] == a[n..n + len];
  }

  lemma LiteralNameLocal(a: bytes, b: bytes, t: Table, mask: nat, huffman: Huffman)
    requires |a| > 0 && ValidMask(mask) && LiteralName(a, t, mask, huffman).Name?
    ensures LiteralName(a + b, t, mask, huffman) == LiteralName(a, t, mask, huffman)
  {
    DecodeIntLocal(a, b, mask);
    var Parsed(index, n) := DecodeInt(a, mask).value;
    if index == 0 {
      ParseStringLocal(a[n..], b, huffman, true);
      assert (a + b)[n..] == a[n..] + b;
    }
  }

  lemma LiteralFieldLocal(a: bytes, b: bytes, t: Table, mask: nat, add: bool, huffman: Huffman)
    requires |a| > 0 && ValidMask(mask) && LiteralField(a, t, mask, add, huffman).Field?
    ensures LiteralField(a + b, t, mask, add, huffman) == LiteralField(a, t, mask, add, huffman)
  {
    LiteralNameLocal(a, b, t, mask, huffman);
    var n := LiteralName(a, t, mask, huffman).consumed;
    ParseStringLocal(a[n..], b, huffman, false);
    assert (a + b)[n..] == a[n..] + b;
  }

  lemma StepLocal(a: bytes, b: bytes, t: Table, huffman: Huffman)
    requires |a| > 0 && !StepSpec(a, t, huffman).Failed?
    ensures StepSpec(a + b, t, huffman) == StepSpec(a, t, huffman)
  {
    if HasFlag(a[0], 0x80) {
      DecodeIntLocal(a, b, 127);
    } else if HasFlag(a[0], 0x40) {
      LiteralFieldLocal(a, b, t, 63, true, huffman);
    } else if HasFlag(a[0], 0x20) {
      DecodeIntLocal(a, b, 31);
    } else {
      LiteralFieldLocal(a, b, t, 15, false, huffman);
    }
  }

  /**
   * A block followed by more octets decodes to its own fields followed by theirs, decoded from the
   * table it left, with their error: a header block may be cut at any representation boundary.
   */
  lemma {:induction false} DecodeComposes(a: bytes, b: bytes, t: Table, huffman: Huffman)
    requires DecodeSpec(a, t, huffman).error == NoError
    ensures var first := DecodeSpec(a, t, huffman);
            DecodeSpec(a + b, t, huffman) == Prepend(first.headers, DecodeSpec(b, first.table, huffman))
    decreases |a|
  {
    hide StepSpec;
    if a == [] {
      assert a + b == b;
    } else {
      StepLocal(a, b, t, huffman);
      var step := StepSpec(a, t, huffman);
      var n := step.consumed;
      assert (a + b)[n..] == a[n..] + b;
      DecodeComposes(a[n..], b, step.table, huffman);
      var rest := DecodeSpec(a[n..], step.table, huffman);
      var tail := DecodeSpec(b, rest.table, huffman).headers;
      if step.Field? {
        assert [step.header] + (rest.headers + tail) == [step.header] + rest.headers + tail;
      }
    }
  }
}
