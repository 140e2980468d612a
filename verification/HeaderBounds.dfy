/**
 * When decode_headers stays within its block (src/hpack/decode.cc). A raw string's length is compared with
 * the octets left; a Huffman-coded one's is not.
 */
module HeaderBounds {
  import opened Bytes
  import opened DynamicTable
  import opened HeaderDecoder
  import opened Headers
  import opened IntegerCodec
  import StaticTable
  import opened StringLiterals

  /** A string literal with its H flag set announces more octets than are left. */
  predicate Overlong(s: bytes)
  {
    s != [] && s[0] >= 128 &&
    match DecodeInt(s, 127) case None => false case Some(Parsed(len, n)) => n + len > |s|
  }

  /** The representation at the front is a literal, with this prefix for the index of its name. */
  function LiteralMask(b: bytes): (r: Option<nat>)
    ensures r.Some? ==> ValidMask(r.value)
  {
    if b == [] || HasFlag(b[0], 0x80) then None
    else if HasFlag(b[0], 0x40) then Some(63)
    else if HasFlag(b[0], 0x20) then None
    else Some(15)
  }

  /** A literal's name is spelled out, after `n` octets of prefix. */
  predicate NameAt(b: bytes, n: nat)
  {
    LiteralMask(b).Some? && n <= |b| && DecodeInt(b, LiteralMask(b).value) == Some(Parsed(0, n))
  }

  /** A literal's value starts after `n` octets, a readable name behind it. */
  predicate ValueAt(b: bytes, t: Table, huffman: Huffman, n: nat)
  {
    LiteralMask(b).Some? && n <= |b| &&
    var name := LiteralName(b, t, LiteralMask(b).value, huffman); name.Name? && name.consumed == n
  }

  /** The literal at the front announces a name or a value beyond the end. */
  predicate StartsOverlong(b: bytes, t: Table, huffman: Huffman)
  {
    exists n :: 0 <= n <= |b| && (NameAt(b, n) || ValueAt(b, t, huffman, n)) && Overlong(b[n..])
  }

  /** One representation reads past the end exactly if it starts with an overlong literal. */
  lemma StepReadsPastIff(b: bytes, t: Table, huffman: Huffman)
    requires b != []
    ensures StepSpec(b, t, huffman) == Failed(ReadsPastEnd) <==> StartsOverlong(b, t, huffman)
  {
    hide Lookup, Pushed, Resized;
    if LiteralMask(b).Some? {
      LiteralReadsPastIff(b, t, LiteralMask(b).value, HasFlag(b[0], 0x40), huffman);
    }
  }

  lemma LiteralReadsPastIff(b: bytes, t: Table, mask: nat, add: bool, huffman: Huffman)
    requires b != [] && LiteralMask(b) == Some(mask)
    ensures LiteralField(b, t, mask, add, huffman) == Failed(ReadsPastEnd) <==> StartsOverlong(b, t, huffman)
  {
    hide Lookup, Pushed, DecodeInt;
    match DecodeInt(b, mask)
    case None =>
    case Some(Parsed(index, n)) =>
      if index == 0 && Overlong(b[n..]) {
        assert NameAt(b, n);
      }
      var name := LiteralName(b, t, mask, huffman);
      if name.Name? && Overlong(b[name.consumed..]) {
        assert ValueAt(b, t, huffman, name.consumed);
      }
  }

  // ---------------------------------------------------------------- what follows does not matter

  /** A decode that consumed only octets of `a` needs none of those behind. */
  lemma {:induction false} DecodeFromCut(a: bytes, b: bytes, pos: nat, dst: nat, k: nat)
    requires DecodeFrom(a + b, pos, dst, k).Some? && DecodeFrom(a + b, pos, dst, k).value.consumed <= |a|
    ensures DecodeFrom(a, pos, dst, k) == DecodeFrom(a + b, pos, dst, k)
    decreases |a| - pos
  {
    if (a + b)[pos] >= 128 {
      DecodeFromCut(a, b, pos + 1, dst + ShiftLeft7(a[pos] % 128, k), k + 1);
    }
  }

  lemma DecodeIntCut(a: bytes, b: bytes, mask: nat)
    requires a != [] && ValidMask(mask)
    requires DecodeInt(a + b, mask).Some? && DecodeInt(a + b, mask).value.consumed <= |a|
    ensures DecodeInt(a, mask) == DecodeInt(a + b, mask)
  {
    if LowBits(a[0], mask) == mask {
      DecodeFromCut(a, b, 1, mask, 0);
    }
  }

  lemma ParseStringCut(a: bytes, b: bytes, huffman: Huffman, isKey: bool)
    requires ParseStringSpec(a + b, huffman, isKey).Str? && ParseStringSpec(a + b, huffman, isKey).consumed <= |a|
    ensures ParseStringSpec(a, huffman, isKey) == ParseStringSpec(a + b, huffman, isKey)
  {
    hide DecodeInt, DecodeFrom;
    var Parsed(len, n) := DecodeInt(a + b, 127).value;
    assert (a + b)[n..n + len] == a[n..n + len];
    DecodeIntCut(a, b, 127);
  }

  lemma LiteralNameCut(a: bytes, b: bytes, t: Table, mask: nat, huffman: Huffman)
    requires a != [] && ValidMask(mask)
    requires var name := LiteralName(a + b, t, mask, huffman); name.Name? && name.consumed <= |a|
    ensures LiteralName(a, t, mask, huffman) == LiteralName(a + b, t, mask, huffman)
  {
    hide DecodeInt, ParseStringSpec, Lookup;
    var Parsed(index, n) := DecodeInt(a + b, mask).value;
    DecodeIntCut(a, b, mask);
    if index == 0 {
      assert (a + b)[n..] == a[n..] + b;
      ParseStringCut(a[n..], b, huffman, true);
    }
  }

  lemma LiteralFieldCut(a: bytes, b: bytes, t: Table, mask: nat, add: bool, huffman: Huffman)
    requires a != [] && ValidMask(mask)
    requires var step := LiteralField(a + b, t, mask, add, huffman); step.Field? && step.consumed <= |a|
    ensures LiteralField(a, t, mask, add, huffman) == LiteralField(a + b, t, mask, add, huffman)
  {
    hide LiteralName, ParseStringSpec, Pushed;
    LiteralNameCut(a, b, t, mask, huffman);
    var n := LiteralName(a + b, t, mask, huffman).consumed;
    assert (a + b)[n..] == a[n..] + b;
    ParseStringCut(a[n..], b, huffman, false);
  }

  lemma StepCut(a: bytes, b: bytes, t: Table, huffman: Huffman)
    requires a != [] && !StepSpec(a + b, t, huffman).Failed? && StepSpec(a + b, t, huffman).consumed <= |a|
    ensures StepSpec(a, t, huffman) == StepSpec(a + b, t, huffman)
  {
    hide LiteralName, ParseStringSpec, Pushed, DecodeInt, Lookup, Resized, HasFlag;
    assert (a + b)[0] == a[0];
    if HasFlag(a[0], 0x80) {
      DecodeIntCut(a, b, 127);
    } else if HasFlag(a[0], 0x40) {
      LiteralFieldCut(a, b, t, 63, true, huffman);
    } else if HasFlag(a[0], 0x20) {
      DecodeIntCut(a, b, 31);
    } else {
      LiteralFieldCut(a, b, t, 15, false, huffman);
    }
  }

  // ---------------------------------------------------------------- whole blocks

  /** After `k` octets that decode, an overlong literal follows. */
  predicate OverlongAt(src: bytes, t: Table, huffman: Huffman, k: nat)
  {
    k < |src| && var a := DecodeSpec(src[..k], t, huffman);
    a.error == NoError && StartsOverlong(src[k..], a.table, huffman)
  }

  lemma AfterPrefix(src: bytes, t: Table, huffman: Huffman, k: nat)
    requires k <= |src| && DecodeSpec(src[..k], t, huffman).error == NoError
    ensures var after := DecodeSpec(src[..k], t, huffman).table;
            DecodeSpec(src, t, huffman).error == DecodeSpec(src[k..], after, huffman).error
  {
    hide DecodeSpec;
    assert src == src[..k] + src[k..];
    DecodeComposes(src[..k], src[k..], t, huffman);
  }

  /** One representation, and then what a block of octets behind it decodes to. */
  lemma FrontStep(a: bytes, part: bytes, t: Table, huffman: Huffman)
    requires a != [] && !StepSpec(a, t, huffman).Failed? && StepSpec(a, t, huffman).consumed == |a|
    ensures var d := DecodeSpec(part, StepSpec(a, t, huffman).table, huffman);
            var whole := DecodeSpec(a + part, t, huffman);
            whole.error == d.error && whole.table == d.table
  {
    hide StepSpec;
    StepLocal(a, part, t, huffman);
    assert (a + part)[|a|..] == part;
  }

  lemma {:induction false} ReadingPastIsFound(src: bytes, t: Table, huffman: Huffman) returns (k: nat)
    requires DecodeSpec(src, t, huffman).error == ReadsPastEnd
    ensures OverlongAt(src, t, huffman, k)
    decreases |src|
  {
    hide StepSpec, StartsOverlong;
    StepReadsPastIff(src, t, huffman);
    var step := StepSpec(src, t, huffman);
    if step.Failed? {
      k := 0;
      assert src[..0] == [] && src[0..] == src;
    } else {
      var n := step.consumed;
      var (a, rest) := (src[..n], src[n..]);
      assert src == a + rest;
      StepCut(a, rest, t, huffman);
      var j := ReadingPastIsFound(rest, step.table, huffman);
      FrontStep(a, rest[..j], t, huffman);
      k := n + j;
      assert src[..k] == a + rest[..j] && src[k..] == rest[j..];
    }
  }

  /**
   * A block makes the decoder read past its end if and only if some part of it decodes and is followed by
   * a literal whose Huffman-coded name or value announces more octets than are left.
   */
  lemma ReadsPastEndIff(src: bytes, t: Table, huffman: Huffman)
    ensures DecodeSpec(src, t, huffman).error == ReadsPastEnd <==> exists k: nat :: OverlongAt(src, t, huffman, k)
  {
    hide DecodeSpec, StepSpec, StartsOverlong;
    if DecodeSpec(src, t, huffman).error == ReadsPastEnd {
      var k := ReadingPastIsFound(src, t, huffman);
    }
    if k: nat :| OverlongAt(src, t, huffman, k) {
      AfterPrefix(src, t, huffman, k);
      StepReadsPastIff(src[k..], DecodeSpec(src[..k], t, huffman).table, huffman);
      FailedStep(src[k..], DecodeSpec(src[..k], t, huffman).table, huffman);
    }
  }

  lemma FailedStep(b: bytes, t: Table, huffman: Huffman)
    requires b != [] && StepSpec(b, t, huffman).Failed?
    ensures DecodeSpec(b, t, huffman).error == StepSpec(b, t, huffman).error
  {
    hide StepSpec;
  }

  // ---------------------------------------------------------------- raw strings

  /** Where a literal's name or value starts, its H flag is clear. */
  predicate RawAt(b: bytes, t: Table, huffman: Huffman)
  {
    forall n :: 0 <= n < |b| && (NameAt(b, n) || ValueAt(b, t, huffman, n)) ==> b[n] < 128
  }

  /** A block whose strings are all raw is decoded within its bounds, or refused. */
  lemma RawBlocksStayInside(src: bytes, t: Table, huffman: Huffman)
    requires forall k :: 0 <= k < |src| && DecodeSpec(src[..k], t, huffman).error == NoError ==>
               RawAt(src[k..], DecodeSpec(src[..k], t, huffman).table, huffman)
    ensures DecodeSpec(src, t, huffman).error != ReadsPastEnd
  {
    hide DecodeSpec, RawAt, StartsOverlong;
    ReadsPastEndIff(src, t, huffman);
    forall k: nat ensures !OverlongAt(src, t, huffman, k) {
      if k < |src| && DecodeSpec(src[..k], t, huffman).error == NoError {
        RawIsNotOverlong(src[k..], DecodeSpec(src[..k], t, huffman).table, huffman);
      }
    }
  }

  lemma RawIsNotOverlong(b: bytes, t: Table, huffman: Huffman)
    ensures RawAt(b, t, huffman) ==> !StartsOverlong(b, t, huffman)
  {
    hide NameAt, ValueAt, DecodeInt;
    forall n | 0 <= n <= |b| && Overlong(b[n..]) ensures n < |b| && b[n] >= 128 {
    }
  }

  /** Two octets announce a Huffman-coded name of one octet that is not there. */
  lemma OverreadExample(t: Table, huffman: Huffman)
    ensures DecodeSpec([0x00, 0x81], t, huffman).error == ReadsPastEnd
  {
    hide Lookup, StaticTable.Entry, Pushed, DecodeSpec;
    var b: bytes := [0x00, 0x81];
    assert !HasFlag(0, 0x80) && !HasFlag(0, 0x40) && !HasFlag(0, 0x20);
    assert LiteralMask(b) == Some(15);
    assert DecodeInt(b, 15) == Some(Parsed(0, 1));
    assert b[1..] == [0x81];
    assert DecodeInt([0x81], 127) == Some(Parsed(1, 1));
    assert NameAt(b, 1) && Overlong(b[1..]);
    StepReadsPastIff(b, t, huffman);
    FailedStep(b, t, huffman);
  }
}
