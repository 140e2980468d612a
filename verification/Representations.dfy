/** The representations of section 6 of RFC 7541 as src/hpack/encode.cc writes them. */
module Representations {
  import opened Buffers
  import opened Bytes
  import opened Headers
  import opened IntegerCodec

  /** Sets the bit 0x80 of the first octet; the prefix leaves it clear. */
  function IndexedOctets(index: nat): bytes
  {
    var e := EncodeInt(index, 127);
    [e[0] + 0x80] + e[1..]
  }

  function SizeUpdateOctets(size: nat): bytes
  {
    var e := EncodeInt(size, 31);
    [e[0] + 0x20] + e[1..]
  }

  function StringOctets(s: bytes): bytes
  {
    EncodeInt(|s|, 127) + s
  }

  function LiteralOctets(kind: byte, h: Header): bytes
  {
    [kind] + StringOctets(h.key) + StringOctets(h.value)
  }

  function LiteralWithNameIndexOctets(nameIndex: nat, value: bytes): bytes
  {
    EncodeInt(nameIndex, 15) + StringOctets(value)
  }

  const INCREMENTAL: byte := 0x40
  const WITHOUT_INDEXING: byte := 0x0
  const NEVER_INDEXED: byte := 0x10

  /** encode_index */
  method EncodeIndex(index: nat) returns (s: bytes)
    ensures s == IndexedOctets(index)
  {
    s := Encode(index, 127);
    s := s[0 := s[0] + 0x80];
  }

  /** encode_update_max_size */
  method EncodeUpdateMaxSize(size: nat) returns (s: bytes)
    ensures s == SizeUpdateOctets(size)
  {
    s := Encode(size, 31);
    s := s[0 := s[0] + 0x20];
  }

  /** A length prefix and the octets themselves, written at `at`; returns the position after them. */
  method PutString(buf: array<byte>, at: nat, data: bytes) returns (next: nat)
    requires at + |StringOctets(data)| <= buf.Length
    modifies buf
    ensures next == at + |StringOctets(data)|
    ensures buf[..next] == old(buf[..at]) + StringOctets(data)
  {
    ghost var before := buf[..at];
    var n := EncodedLength(|data|, 127);
    EncodeImpl(buf, at, |data|, 127);
    assert buf[..at + n] == before + EncodeInt(|data|, 127);
    Copy(buf, at + n, data);
    next := at + n + |data|;
    assert buf[..next] == before + EncodeInt(|data|, 127) + data;
  }

  /** encode_mdelem_data_impl */
  method EncodeMdelem(mdel: Header, kind: byte) returns (s: bytes)
    ensures s == LiteralOctets(kind, mdel)
  {
    var keyLength := EncodedLength(|mdel.key|, 127);
    var valueLength := EncodedLength(|mdel.value|, 127);
    var buf := new byte[1 + keyLength + valueLength + |mdel.key| + |mdel.value|](_ => 0);
    buf[0] := kind;
    assert buf[..1] == [kind];
    var p := PutString(buf, 1, mdel.key);
    p := PutString(buf, p, mdel.value);
    assert p == buf.Length;
    s := buf[..];
    assert s == buf[..p];
  }

  /** encode_without_indexing, with the name given by an index */
  method EncodeWithNameIndex(mdel: Header, nameIndex: nat) returns (s: bytes)
    ensures s == LiteralWithNameIndexOctets(nameIndex, mdel.value)
  {
    var indexLength := EncodedLength(nameIndex, 15);
    var valueLength := EncodedLength(|mdel.value|, 127);
    var buf := new byte[indexLength + valueLength + |mdel.value|](_ => 0);
    EncodeImpl(buf, 0, nameIndex, 15);
    assert buf[..indexLength] == EncodeInt(nameIndex, 15);
    var p := PutString(buf, indexLength, mdel.value);
    assert p == buf.Length;
    s := buf[..];
    assert s == buf[..p];
  }
}

/** What the decoder makes of each representation the encoder writes, whatever octets follow. */
module RepresentationRoundTrips {
  import opened Bytes
  import opened DynamicTable
  import opened HeaderDecoder
  import opened Headers
  import opened IntegerCodec
  import opened Representations
  import StaticTable
  import opened StringLiterals

  lemma StringRoundTrip(s: bytes, rest: bytes, huffman: Huffman, isKey: bool)
    requires |s| < UINT32_LIMIT && (isKey ==> NoUpper(s))
    ensures ParseStringSpec(StringOctets(s) + rest, huffman, isKey) == Str(s, |StringOctets(s)|)
  {
    var e := EncodeInt(|s|, 127);
    var src := StringOctets(s) + rest;
    RoundTrip(|s|, 127, 0, s + rest);
    assert src == [e[0] + 0] + e[1..] + (s + rest);
    assert src[|e|..|e| + |s|] == s;
  }

  lemma IndexedRoundTrip(index: nat, rest: bytes, t: Table, huffman: Huffman)
    requires 0 < index < UINT32_LIMIT && Lookup(t, index).Some?
    ensures StepSpec(IndexedOctets(index) + rest, t, huffman) ==
            Field(Lookup(t, index).value, t, |IndexedOctets(index)|)
  {
    hide Lookup;
    var src := IndexedOctets(index) + rest;
    RoundTrip(index, 127, 0x80, rest);
    assert HasFlag(src[0], 0x80);
  }

  lemma SizeUpdateRoundTrip(size: nat, rest: bytes, t: Table, huffman: Huffman)
    requires size < UINT32_LIMIT
    ensures StepSpec(SizeUpdateOctets(size) + rest, t, huffman) ==
            if size <= t.limit then SizeUpdate(Resized(t, size), |SizeUpdateOctets(size)|)
            else Failed(CompressionError)
  {
    hide Resized;
    var src := SizeUpdateOctets(size) + rest;
    RoundTrip(size, 31, 0x20, rest);
    assert !HasFlag(src[0], 0x80) && !HasFlag(src[0], 0x40) && HasFlag(src[0], 0x20);
  }

  /** Incremental indexing adds the field; without-indexing and never-indexed leave the table alone. */
  lemma LiteralRoundTrip(kind: byte, h: Header, rest: bytes, t: Table, huffman: Huffman)
    requires kind in {INCREMENTAL, WITHOUT_INDEXING, NEVER_INDEXED}
    requires |h.key| < UINT32_LIMIT && |h.value| < UINT32_LIMIT && NoUpper(h.key)
    ensures StepSpec(LiteralOctets(kind, h) + rest, t, huffman) ==
            Field(h, if kind == INCREMENTAL then Pushed(t, h) else t, |LiteralOctets(kind, h)|)
  {
    hide Pushed, Lookup, ParseStringSpec;
    var src := LiteralOctets(kind, h) + rest;
    var mask := if kind == INCREMENTAL then 63 else 15;
    assert DecodeInt(src, mask) == Some(Parsed(0, 1));
    assert src[1..] == StringOctets(h.key) + (StringOctets(h.value) + rest);
    StringRoundTrip(h.key, StringOctets(h.value) + rest, huffman, true);
    var n := 1 + |StringOctets(h.key)|;
    assert src[n..] == StringOctets(h.value) + rest;
    StringRoundTrip(h.value, rest, huffman, false);
    assert LiteralName(src, t, mask, huffman) == Name(h.key, n);
  }

  lemma NameIndexRoundTrip(nameIndex: nat, value: bytes, rest: bytes, t: Table, huffman: Huffman)
    requires 0 < nameIndex < UINT32_LIMIT && Lookup(t, nameIndex).Some? && |value| < UINT32_LIMIT
    ensures StepSpec(LiteralWithNameIndexOctets(nameIndex, value) + rest, t, huffman) ==
            Field(Header(Lookup(t, nameIndex).value.key, value), t, |LiteralWithNameIndexOctets(nameIndex, value)|)
  {
    hide Lookup, ParseStringSpec;
    var e := EncodeInt(nameIndex, 15);
    var src := LiteralWithNameIndexOctets(nameIndex, value) + rest;
    RoundTrip(nameIndex, 15, 0, StringOctets(value) + rest);
    assert src == [e[0] + 0] + e[1..] + (StringOctets(value) + rest);
    assert !HasFlag(src[0], 0x80) && !HasFlag(src[0], 0x40) && !HasFlag(src[0], 0x20);
    assert src[|e|..] == StringOctets(value) + rest;
    StringRoundTrip(value, rest, huffman, false);
  }
}
