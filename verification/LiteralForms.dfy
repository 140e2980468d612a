/**
 * What decode_headers (src/hpack/hpack.cc) makes of every representation of section 6 of RFC 7541: each kind of
 * literal with each form of name and value, every index, and on arbitrary octets which of them enter the table.
 */
module LiteralForms {
  import opened Bytes
  import opened DynamicTable
  import Eviction
  import opened HeaderDecoder
  import opened Headers
  import opened IntegerCodec
  import opened Representations
  import opened RepresentationRoundTrips
  import StaticTable
  import opened StringLiterals

  // ---------------------------------------------------------------- arbitrary octets

  /**
   * Whatever the octets: a field leaves the table with that very field pushed exactly if its first octet is one
   * of incremental indexing, and otherwise as it was; a resizing comes exactly from the octets of size updates.
   */
  lemma FirstOctetDecides(src: bytes, t: Table, huffman: Huffman)
    requires src != []
    ensures var step := StepSpec(src, t, huffman);
            && (step.Field? ==>
                  (src[0] < 0x20 || src[0] >= 0x40) &&
                  step.table == if 0x40 <= src[0] < 0x80 then Pushed(t, step.header) else t)
            && (step.SizeUpdate? ==>
                  0x20 <= src[0] < 0x40 && exists size: nat :: size <= t.limit && step.table == Resized(t, size))
  {
    hide LiteralName, ParseStringSpec, DecodeInt, Lookup, Pushed, Resized;
  }

  // ---------------------------------------------------------------- every literal

  /** A string as it is or as its Huffman code. */
  datatype Text = Raw(octets: bytes) | Coded(octets: bytes)

  datatype NameForm = Spelled(text: Text) | Indexed(index: nat)

  function TextOctets(text: Text): bytes
  {
    var e := EncodeInt(|text.octets|, 127);
    (if text.Raw? then e else [e[0] + 0x80] + e[1..]) + text.octets
  }

  /** No octet is an upper-case letter of ASCII. */
  predicate Lower(s: bytes)
  {
    forall i :: 0 <= i < |s| ==> s[i] < 0x41 || s[i] > 0x5a
  }

  lemma LowerIs(s: bytes)
    ensures NoUpper(s) <==> Lower(s)
  {
  }

  /** The string that is meant, unless it is a raw name with an upper-case letter or no Huffman code. */
  function Meant(text: Text, isKey: bool, huffman: Huffman): Option<bytes>
  {
    match text
    case Raw(s) => if isKey && !Lower(s) then None else Some(s)
    case Coded(c) => huffman(c)
  }

  /** The octets of a literal: the kind in the bits above the prefix for the index of the name, 0 if it is spelled. */
  function FormOctets(kind: byte, name: NameForm, value: Text): bytes
    requires kind in {INCREMENTAL, WITHOUT_INDEXING, NEVER_INDEXED}
  {
    match name
    case Spelled(text) => [kind] + TextOctets(text) + TextOctets(value)
    case Indexed(index) =>
      var e := EncodeInt(index, if kind == INCREMENTAL then 63 else 15);
      [e[0] + kind] + e[1..] + TextOctets(value)
  }

  /** The name that is meant, or the error that an unreadable one is answered with. */
  function MeantName(t: Table, name: NameForm, huffman: Huffman): NameResult
    requires name.Indexed? ==> name.index > 0
  {
    match name
    case Spelled(text) =>
      (match Meant(text, true, huffman) case None => NoName(ProtocolError) case Some(key) => Name(key, 0))
    case Indexed(index) =>
      (match Lookup(t, index) case None => NoName(CompressionError) case Some(h) => Name(h.key, 0))
  }

  /** The field a literal stands for; only the incremental kind enters it in the table. */
  function FormMeans(t: Table, kind: byte, name: NameForm, value: Text, huffman: Huffman): Step
    requires kind in {INCREMENTAL, WITHOUT_INDEXING, NEVER_INDEXED} && (name.Indexed? ==> name.index > 0)
  {
    match MeantName(t, name, huffman)
    case NoName(error) => Failed(error)
    case Name(key, _) =>
      match Meant(value, false, huffman)
      case None => Failed(CompressionError)
      case Some(v) =>
        var h := Header(key, v);
        Field(h, if kind == INCREMENTAL then Pushed(t, h) else t, |FormOctets(kind, name, value)|)
  }

  lemma TextDecodes(text: Text, rest: bytes, huffman: Huffman, isKey: bool)
    requires |text.octets| < UINT32_LIMIT
    ensures ParseStringSpec(TextOctets(text) + rest, huffman, isKey) ==
            match Meant(text, isKey, huffman)
            case None => Bad
            case Some(s) => Str(s, |TextOctets(text)|)
  {
    hide DecodeInt, EncodeInt;
    var e := EncodeInt(|text.octets|, 127);
    var src := TextOctets(text) + rest;
    var high := if text.Raw? then 0 else 0x80;
    RoundTrip(|text.octets|, 127, high, text.octets + rest);
    LowerIs(text.octets);
    assert src == [e[0] + high] + e[1..] + (text.octets + rest);
    assert src[|e|..|e| + |text.octets|] == text.octets;
  }

  lemma IndexedNameDecodes(t: Table, kind: byte, index: nat, value: Text, rest: bytes, huffman: Huffman)
    requires kind in {INCREMENTAL, WITHOUT_INDEXING, NEVER_INDEXED} && 0 < index < UINT32_LIMIT
    ensures var mask := if kind == INCREMENTAL then 63 else 15;
            var n := |EncodeInt(index, mask)|;
            var src := FormOctets(kind, Indexed(index), value) + rest;
            && src[n..] == TextOctets(value) + rest
            && n + |TextOctets(value)| == |FormOctets(kind, Indexed(index), value)|
            && LiteralName(src, t, mask, huffman) ==
               match Lookup(t, index) case None => NoName(CompressionError) case Some(h) => Name(h.key, n)
    ensures var b := (FormOctets(kind, Indexed(index), value) + rest)[0];
            if kind == INCREMENTAL then 0x40 <= b < 0x80 else b < 0x20
  {
    hide DecodeInt, EncodeInt, TextOctets, Lookup;
    var mask := if kind == INCREMENTAL then 63 else 15;
    var e := EncodeInt(index, mask);
    var src := FormOctets(kind, Indexed(index), value) + rest;
    RoundTrip(index, mask, kind, TextOctets(value) + rest);
    assert src == [e[0] + kind] + e[1..] + (TextOctets(value) + rest);
  }

  lemma SpelledNameDecodes(t: Table, kind: byte, text: Text, value: Text, rest: bytes, huffman: Huffman)
    requires kind in {INCREMENTAL, WITHOUT_INDEXING, NEVER_INDEXED} && |text.octets| < UINT32_LIMIT
    ensures var mask := if kind == INCREMENTAL then 63 else 15;
            var n := 1 + |TextOctets(text)|;
            var src := FormOctets(kind, Spelled(text), value) + rest;
            && src[n..] == TextOctets(value) + rest
            && n + |TextOctets(value)| == |FormOctets(kind, Spelled(text), value)|
            && LiteralName(src, t, mask, huffman) ==
               match Meant(text, true, huffman) case None => NoName(ProtocolError) case Some(key) => Name(key, n)
    ensures (FormOctets(kind, Spelled(text), value) + rest)[0] == kind
  {
    hide ParseStringSpec, TextOctets, Lookup, Meant;
    var mask := if kind == INCREMENTAL then 63 else 15;
    var src := FormOctets(kind, Spelled(text), value) + rest;
    assert src[0] == kind && DecodeInt(src, mask) == Some(Parsed(0, 1));
    assert src[1..] == TextOctets(text) + (TextOctets(value) + rest);
    TextDecodes(text, TextOctets(value) + rest, huffman, true);
    assert src[1 + |TextOctets(text)|..] == TextOctets(value) + rest;
  }

  /**
   * Every literal, of each kind, with its name spelled or indexed, each string raw or Huffman-coded, and whatever
   * follows: it decodes to the field it stands for, or to the error it deserves.
   */
  lemma FormDecodes(t: Table, kind: byte, name: NameForm, value: Text, rest: bytes, huffman: Huffman)
    requires kind in {INCREMENTAL, WITHOUT_INDEXING, NEVER_INDEXED} && |value.octets| < UINT32_LIMIT
    requires match name case Spelled(text) => |text.octets| < UINT32_LIMIT case Indexed(i) => 0 < i < UINT32_LIMIT
    ensures StepSpec(FormOctets(kind, name, value) + rest, t, huffman) == FormMeans(t, kind, name, value, huffman)
  {
    hide FormOctets, TextOctets, LiteralName, ParseStringSpec, Pushed, Lookup, Meant;
    var src := FormOctets(kind, name, value) + rest;
    TextDecodes(value, rest, huffman, false);
    match name
    case Spelled(text) => SpelledNameDecodes(t, kind, text, value, rest, huffman);
    case Indexed(index) => IndexedNameDecodes(t, kind, index, value, rest, huffman);
    assert HasFlag(src[0], 0x40) == (kind == INCREMENTAL) && !HasFlag(src[0], 0x80);
    assert kind != INCREMENTAL ==> !HasFlag(src[0], 0x20);
  }

  /** Every index: 0 and those the tables do not know are errors, and the others stand for their entries. */
  lemma IndexDecodes(t: Table, index: nat, rest: bytes, huffman: Huffman)
    requires index < UINT32_LIMIT
    ensures StepSpec(IndexedOctets(index) + rest, t, huffman) ==
            if index == 0 then Failed(CompressionError)
            else match Lookup(t, index)
                 case None => Failed(CompressionError)
                 case Some(h) => Field(h, t, |IndexedOctets(index)|)
  {
    hide Lookup, DecodeInt, EncodeInt;
    var src := IndexedOctets(index) + rest;
    RoundTrip(index, 127, 0x80, rest);
    assert HasFlag(src[0], 0x80);
  }

  /** What the encoder writes are two of the forms. */
  lemma EncoderForms(kind: byte, h: Header, index: nat)
    requires kind in {INCREMENTAL, WITHOUT_INDEXING, NEVER_INDEXED}
    ensures LiteralOctets(kind, h) == FormOctets(kind, Spelled(Raw(h.key)), Raw(h.value))
    ensures LiteralWithNameIndexOctets(index, h.value) == FormOctets(WITHOUT_INDEXING, Indexed(index), Raw(h.value))
  {
    hide EncodeInt;
    var e := EncodeInt(index, 15);
    assert [e[0] + 0] + e[1..] == e;
  }

  /** The three octets that enter ":authority: a" in the table, and the index that then yields it. */
  lemma IndexedNameIsEntered(huffman: Huffman)
    ensures var t := Table([], 4096, 4096);
            var h := Header(StaticTable.Entry(1).key, [0x61]);
            && StepSpec([0x41, 1, 0x61], t, huffman) == Field(h, t.(entries := [h]), 3)
            && StepSpec([0xbe], t.(entries := [h]), huffman) == Field(h, t.(entries := [h]), 1)
  {
    hide StepSpec, StaticTable.Entry, Pushed;
    var t := Table([], 4096, 4096);
    var h := Header(StaticTable.Entry(1).key, [0x61]);
    assert FormOctets(INCREMENTAL, Indexed(1), Raw([0x61])) == [0x41, 1, 0x61];
    FormDecodes(t, INCREMENTAL, Indexed(1), Raw([0x61]), [], huffman);
    assert [0x41, 1, 0x61] + [] == [0x41, 1, 0x61];
    FirstEntry(h);
    IndexDecodes(t.(entries := [h]), 62, [], huffman);
    assert IndexedOctets(62) + [] == [0xbe];
  }

  lemma FirstEntry(h: Header)
    requires h == Header(StaticTable.Entry(1).key, [0x61])
    ensures Pushed(Table([], 4096, 4096), h) == Table([h], 4096, 4096)
  {
    AuthorityIsShort();
    Eviction.TotalCons(h, []);
    assert [h] + [] == [h];
  }

  lemma AuthorityIsShort()
    ensures |StaticTable.Entry(1).key| < 100
  {
  }
}
