/** The encoder of src/hpack/huffman.cc: a 64-bit accumulator emptied four octets at a time. */
module HuffmanEncoder {
  import opened Bits
  import opened Bytes

  // ---------------------------------------------------------------- machine words as bits

  /** `a | b` */
  function Or(a: Bits, b: Bits): (r: Bits)
    requires |a| == |b|
    ensures |r| == |a|
  {
    seq(|a|, i requires 0 <= i < |a| => a[i] || b[i])
  }

  /** `w << n` in a word of fixed width. */
  function Shl(w: Bits, n: nat): (r: Bits)
    requires n <= |w|
    ensures |r| == |w|
  {
    w[n..] + Zeros(n)
  }

  /** http2_huff_sym: the code is aligned with the top of its 32-bit word. */
  datatype SymEntry = SymEntry(nbits: nat, code: Bits)

  function SymOf(code: Bits): SymEntry
    requires |code| <= 32
  {
    SymEntry(|code|, code + Zeros(32 - |code|))
  }

  /** Codes of five to thirty bits for the 256 octets and the end of string. */
  predicate CodesFit(codes: seq<Bits>)
  {
    |codes| == 257 && forall i :: 0 <= i < 257 ==> 5 <= |codes[i]| <= 30
  }

  // ---------------------------------------------------------------- what is to be written

  function CodeBits(codes: seq<Bits>, src: bytes): Bits
    requires CodesFit(codes)
  {
    if src == [] then [] else CodeBits(codes, src[..|src| - 1]) + codes[src[|src| - 1]]
  }

  /** Fewer than eight ones complete the last octet. */
  function Padding(n: nat): (r: Bits)
    ensures |r| <= 7 && (n + |r|) % 8 == 0 && AllOnes(r)
  {
    Ones((8 - n % 8) % 8)
  }

  function Octets(b: Bits): (r: bytes)
    requires |b| % 8 == 0
    ensures 8 * |r| == |b|
  {
    if b == [] then [] else [Octet(b[..8])] + Octets(b[8..])
  }

  function EncodedOctets(codes: seq<Bits>, src: bytes): bytes
    requires CodesFit(codes)
  {
    var b := CodeBits(codes, src);
    Octets(b + Padding(|b|))
  }

  lemma {:induction false} OctetsAppend(a: Bits, b: Bits)
    requires |a| % 8 == 0 && |b| % 8 == 0
    ensures (|a| + |b|) % 8 == 0
    ensures Octets(a + b) == Octets(a) + Octets(b)
    decreases |a|
  {
    if a == [] {
      assert a + b == b;
    } else {
      OctetsAppend(a[8..], b);
      assert (a + b)[..8] == a[..8] && (a + b)[8..] == a[8..] + b;
    }
  }

  lemma {:induction false} OctetsBack(b: Bits)
    requires |b| % 8 == 0
    ensures AllBits(Octets(b)) == b
    decreases |b|
  {
    hide Octet, OctetBits;
    if b != [] {
      OctetRoundTrip(b[..8]);
      OctetsBack(b[8..]);
      assert b == b[..8] + b[8..];
    }
  }

  lemma {:induction false} CodeBitsMonotone(codes: seq<Bits>, src: bytes, k: nat)
    requires CodesFit(codes) && k <= |src|
    ensures |CodeBits(codes, src[..k])| <= |CodeBits(codes, src)|
    decreases |src| - k
  {
    if k == |src| {
      assert src[..k] == src;
    } else {
      assert src[..k + 1][..k] == src[..k];
      CodeBitsMonotone(codes, src, k + 1);
    }
  }

  // ---------------------------------------------------------------- the methods

  /** http2_head_huffman_encode_count */
  method EncodeCount(codes: seq<Bits>, src: bytes) returns (n: nat)
    requires CodesFit(codes)
    ensures n == |EncodedOctets(codes, src)|
  {
    var nbits := 0;
    var i := 0;
    while i < |src|
      invariant i <= |src| && nbits == |CodeBits(codes, src[..i])|
    {
      assert src[..i + 1][..i] == src[..i];
      nbits := nbits + SymOf(codes[src[i]]).nbits;
      i := i + 1;
    }
    assert src[..i] == src;
    return (nbits + 7) / 8;
  }

  /** Adding a code below `pending` in the accumulator. */
  lemma Accumulate(pending: Bits, code: Bits)
    requires |pending| < 32 && |code| <= 30
    ensures var word := pending + Zeros(64 - |pending|);
            var wide := Shl(Zeros(32) + SymOf(code).code, 32 - |pending|);
            Or(word, wide) == pending + code + Zeros(64 - |pending| - |code|)
  {
    var wide := Shl(Zeros(32) + SymOf(code).code, 32 - |pending|);
    assert wide == Zeros(|pending|) + code + Zeros(64 - |pending| - |code|);
  }

  /** Whole octets of `bits` are in the buffer, the rest at the top of the accumulator. */
  ghost predicate Packed(dst: array<byte>, at: nat, code: Bits, nbits: nat, bits: Bits)
    reads dst
  {
    && at <= dst.Length && |bits| == 8 * at + nbits && nbits <= 64
    && dst[..at] == Octets(bits[..8 * at])
    && code == bits[8 * at..] + Zeros(64 - nbits)
  }

  /** `(uint8_t)(code >> 56)` followed by `code <<= 8`. */
  method TakeOctet(dst: array<byte>, at: nat, code: Bits, nbits: nat, ghost bits: Bits) returns (rest: Bits)
    requires at < dst.Length && nbits >= 8 && Packed(dst, at, code, nbits, bits)
    modifies dst
    ensures Packed(dst, at + 1, rest, nbits - 8, bits)
  {
    hide Octet, Octets;
    ghost var before, next := dst[..at], bits[8 * at..8 * at + 8];
    dst[at] := Octet(code[..8]);
    rest := Shl(code, 8);
    assert code[..8] == next;
    LastOctet(next);
    OctetsAppend(bits[..8 * at], next);
    assert bits[..8 * (at + 1)] == bits[..8 * at] + next;
    assert dst[..at + 1] == before + [dst[at]];
  }

  /** The byte-swapped 32-bit store followed by `code <<= 32`. */
  method TakeWord(dst: array<byte>, at: nat, code: Bits, nbits: nat, ghost bits: Bits) returns (rest: Bits)
    requires at + 4 <= dst.Length && nbits >= 32 && Packed(dst, at, code, nbits, bits)
    modifies dst
    ensures Packed(dst, at + 4, rest, nbits - 32, bits)
  {
    hide Octet, Octets;
    ghost var before, next := dst[..at], bits[8 * at..8 * at + 32];
    dst[at], dst[at + 1], dst[at + 2], dst[at + 3] :=
      Octet(code[..8]), Octet(code[8..16]), Octet(code[16..24]), Octet(code[24..32]);
    rest := Shl(code, 32);
    assert code[..32] == next;
    assert code[..8] == next[..8] && code[8..16] == next[8..16]
           && code[16..24] == next[16..24] && code[24..32] == next[24..32];
    FourOctets(next);
    OctetsAppend(bits[..8 * at], next);
    assert next[..32] == next;
    assert bits[..8 * (at + 4)] == bits[..8 * at] + next;
    assert dst[..at + 4] == before + [dst[at], dst[at + 1], dst[at + 2], dst[at + 3]];
  }

  lemma FourOctets(p: Bits)
    requires |p| >= 32
    ensures Octets(p[..32]) == [Octet(p[..8]), Octet(p[8..16]), Octet(p[16..24]), Octet(p[24..32])]
  {
    hide Octet;
    var w := p[..32];
    assert w[..8] == p[..8] && w[8..][..8] == p[8..16] && w[16..][..8] == p[16..24] && w[24..][..8] == p[24..32];
    assert w[8..][8..] == w[16..] && w[16..][8..] == w[24..] && w[24..][8..] == [];
    assert Octets(w[24..]) == [Octet(p[24..32])];
    assert Octets(w[16..]) == [Octet(p[16..24])] + Octets(w[24..]);
  }

  /** The accumulator takes one more code. */
  method AddCode(dst: array<byte>, at: nat, code: Bits, nbits: nat, sym: SymEntry, ghost c: Bits, ghost bits: Bits)
    returns (grown: Bits)
    requires Packed(dst, at, code, nbits, bits) && nbits < 32 && |c| <= 30 && sym == SymOf(c)
    ensures Packed(dst, at, grown, nbits + sym.nbits, bits + c)
  {
    hide Octets, Or, Shl;
    grown := Or(code, Shl(Zeros(32) + sym.code, 32 - nbits));
    Accumulate(bits[8 * at..], c);
    assert (bits + c)[..8 * at] == bits[..8 * at] && (bits + c)[8 * at..] == bits[8 * at..] + c;
  }

  /**
   * http2_head_huffman_encode into a buffer with room for what encode_count promises. The branch for a
   * buffer with fewer than four octets left is never taken; the accumulator never holds more than 61 bits.
   */
  method Encode(codes: seq<Bits>, dst: array<byte>, src: bytes) returns (n: nat)
    requires CodesFit(codes) && dst.Length >= |EncodedOctets(codes, src)|
    modifies dst
    ensures n == |EncodedOctets(codes, src)|
    ensures dst[..n] == EncodedOctets(codes, src)
  {
    hide Packed, Octets, CodeBits;
    var code := Zeros(64);
    var nbits := 0;
    var at: nat := 0;
    var i := 0;
    assert Packed(dst, at, code, nbits, CodeBits(codes, src[..i])) by { NothingPacked(codes, src, dst); }
    while i < |src|
      invariant i <= |src| && 0 <= nbits < 32
      invariant Packed(dst, at, code, nbits, CodeBits(codes, src[..i]))
    {
      var c := codes[src[i]];
      var sym := SymOf(c);
      ghost var bits := CodeBits(codes, src[..i]);
      code := AddCode(dst, at, code, nbits, sym, c, bits);
      nbits := nbits + sym.nbits;
      assert nbits <= 61;
      CodeBitsStep(codes, src, i);
      i := i + 1;
      if nbits < 32 {
        continue;
      }
      RoomLeft(codes, src, i, dst, at, code, nbits);
      if dst.Length - at >= 4 {
        code := TakeWord(dst, at, code, nbits, CodeBits(codes, src[..i]));
        at := at + 4;
        nbits := nbits - 32;
        continue;
      }
      assert false;
    }
    ghost var all := CodeBits(codes, src);
    assert src[..i] == src;
    while nbits >= 8
      invariant 0 <= nbits < 32
      invariant Packed(dst, at, code, nbits, all)
    {
      RoomLeft(codes, src, |src|, dst, at, code, nbits);
      code := TakeOctet(dst, at, code, nbits, all);
      at := at + 1;
      nbits := nbits - 8;
    }
    n := Finish(codes, dst, src, at, code, nbits);
  }

  lemma NothingPacked(codes: seq<Bits>, src: bytes, dst: array<byte>)
    requires CodesFit(codes)
    ensures Packed(dst, 0, Zeros(64), 0, CodeBits(codes, src[..0]))
  {
  }

  lemma CodeBitsStep(codes: seq<Bits>, src: bytes, i: nat)
    requires CodesFit(codes) && i < |src|
    ensures CodeBits(codes, src[..i + 1]) == CodeBits(codes, src[..i]) + codes[src[i]]
  {
    assert src[..i + 1][..i] == src[..i];
  }

  /** The bits still in the accumulator have their octets left in the buffer. */
  lemma RoomLeft(codes: seq<Bits>, src: bytes, i: nat, dst: array<byte>, at: nat, code: Bits, nbits: nat)
    requires CodesFit(codes) && i <= |src| && dst.Length >= |EncodedOctets(codes, src)|
    requires Packed(dst, at, code, nbits, CodeBits(codes, src[..i]))
    ensures 8 * at + nbits <= 8 * dst.Length
  {
    CodeBitsMonotone(codes, src, i);
  }

  /** The last octet, if bits are left over: they and ones. */
  method Finish(codes: seq<Bits>, dst: array<byte>, src: bytes, at: nat, code: Bits, nbits: nat) returns (n: nat)
    requires CodesFit(codes) && dst.Length >= |EncodedOctets(codes, src)|
    requires nbits < 8 && Packed(dst, at, code, nbits, CodeBits(codes, src))
    modifies dst
    ensures n == |EncodedOctets(codes, src)|
    ensures dst[..n] == EncodedOctets(codes, src)
  {
    hide Octet, Or, Octets, CodeBits;
    ghost var all := CodeBits(codes, src);
    ghost var pad := Padding(|all|);
    ghost var pending := all[8 * at..];
    assert |pad| == if nbits > 0 then 8 - nbits else 0;
    if nbits > 0 {
      assert code[..8] == (pending + Zeros(64 - |pending|))[..8];
      PadBits(pending, pad);
      dst[at] := Octet(Or(code[..8], Zeros(nbits) + Ones(8 - nbits)));
      LastOctet(pending + pad);
      OctetsAppend(all[..8 * at], pending + pad);
      assert all + pad == all[..8 * at] + (pending + pad);
      assert dst[..at + 1] == dst[..at] + [dst[at]];
      n := at + 1;
    } else {
      assert all + pad == all[..8 * at];
      n := at;
    }
  }

  /** `(uint8_t)(code >> 56) | ((1 << (8 - nbits)) - 1)` */
  lemma PadBits(pending: Bits, pad: Bits)
    requires |pending| + |pad| == 8 && AllOnes(pad)
    ensures Or((pending + Zeros(64 - |pending|))[..8], Zeros(|pending|) + Ones(8 - |pending|)) == pending + pad
  {
  }

  lemma LastOctet(b: Bits)
    requires |b| == 8
    ensures Octets(b) == [Octet(b)]
  {
    assert b[..8] == b && b[8..] == [];
  }
}

/** Huffman-coded strings come back, for every prefix code the generator can make a table of. */
module HuffmanRoundTrip {
  import opened Bits
  import opened Bytes
  import opened HuffmanDecoder
  import opened HuffmanEncoder
  import opened HuffmanTable
  import opened HuffmanTree

  /** No code is repeated, the draft they make is full, and the end of string is eight or more ones. */
  ghost predicate GoodCodes(codes: seq<Bits>)
  {
    && CodesFit(codes) && Distinct(codes) && Full(AddAll(codes))
    && |codes[EOS]| >= 8 && AllOnes(codes[EOS])
  }

  ghost predicate Distinct(a: seq<Bits>)
  {
    forall i, j :: 0 <= i < j < |a| ==> a[i] != a[j]
  }

  function Prefixed(b: bool, a: seq<Bits>): (r: seq<Bits>)
    ensures |r| == |a|
  {
    seq(|a|, i requires 0 <= i < |a| => [b] + a[i])
  }

  /** The paths to the leaves, in order. */
  function LeafPaths(t: Tree): (r: seq<Bits>)
    ensures |r| == Leaves(t)
  {
    if t.Leaf? then [[]] else Prefixed(false, LeafPaths(t.left)) + Prefixed(true, LeafPaths(t.right))
  }

  predicate LeadsToLeaf(t: Tree, p: Bits)
  {
    Sub(t, p).Some? && Sub(t, p).value.Leaf?
  }

  lemma PrefixedHas(b: bool, a: seq<Bits>, p: Bits)
    ensures p in Prefixed(b, a) <==> p != [] && p[0] == b && p[1..] in a
    ensures Distinct(a) ==> Distinct(Prefixed(b, a))
  {
    var r := Prefixed(b, a);
    assert forall i :: 0 <= i < |r| ==> r[i] == [b] + a[i] && r[i][1..] == a[i];
    if p != [] && p[0] == b && p[1..] in a {
      var i :| 0 <= i < |a| && a[i] == p[1..];
      assert p == [b] + a[i] && r[i] == p;
    }
  }

  lemma {:induction false} LeafPathsAre(t: Tree, p: Bits)
    ensures p in LeafPaths(t) <==> LeadsToLeaf(t, p)
    ensures Distinct(LeafPaths(t))
    decreases t
  {
    if t.Node? {
      var (l, r) := (LeafPaths(t.left), LeafPaths(t.right));
      LeafPathsAre(t.left, if p == [] then [] else p[1..]);
      LeafPathsAre(t.right, if p == [] then [] else p[1..]);
      PrefixedHas(false, l, p);
      PrefixedHas(true, r, p);
      forall i, j | 0 <= i < j < |l| + |r| ensures LeafPaths(t)[i] != LeafPaths(t)[j] {
        if i < |l| <= j {
          assert LeafPaths(t)[i][0] == false && LeafPaths(t)[j][0] == true;
        }
      }
    }
  }

  lemma {:induction false} DistinctSize(a: seq<Bits>)
    requires Distinct(a)
    ensures |set p | p in a| == |a|
  {
    if a != [] {
      DistinctSize(a[1..]);
      assert a[0] !in a[1..];
      assert (set p | p in a) == {a[0]} + (set p | p in a[1..]);
    } else {
      assert (set p | p in a) == {};
    }
  }

  lemma {:induction false} DeepIfPathsLong(t: Tree, n: nat)
    requires forall p :: LeadsToLeaf(t, p) ==> |p| >= n
    ensures Deep(t, n)
    decreases t
  {
    if t.Leaf? {
      assert LeadsToLeaf(t, []);
    } else if n > 0 {
      forall b, p | LeadsToLeaf(Child(t, b), p) ensures |p| >= n - 1 {
        assert ([b] + p)[1..] == p;
        assert LeadsToLeaf(t, [b] + p);
      }
      assert Child(t, false) == t.left && Child(t, true) == t.right;
      DeepIfPathsLong(t.left, n - 1);
      DeepIfPathsLong(t.right, n - 1);
    }
  }

  lemma {:induction false} FitIfLeavesFit(t: Tree)
    requires forall p :: LeadsToLeaf(t, p) ==> Sub(t, p).value.sym <= EOS
    ensures SymbolsFit(t)
  {
    if t.Leaf? {
      assert LeadsToLeaf(t, []);
    } else {
      forall b, p | LeadsToLeaf(Child(t, b), p) ensures Sub(Child(t, b), p).value.sym <= EOS {
        assert ([b] + p)[1..] == p;
        assert LeadsToLeaf(t, [b] + p);
      }
      assert Child(t, false) == t.left && Child(t, true) == t.right;
      FitIfLeavesFit(t.left);
      FitIfLeavesFit(t.right);
    }
  }

  /** The leaves of the generated tree are at the ends of the codes and nowhere else. */
  lemma LeavesAreCodes(codes: seq<Bits>, p: Bits)
    requires CodesFit(codes) && Distinct(codes) && Full(AddAll(codes))
    ensures LeadsToLeaf(Root(AddAll(codes)), p) <==> p in codes
    ensures p in codes ==> Sub(Root(AddAll(codes)), p).value.sym <= EOS
  {
    hide AddAll, Full, SetNodeId;
    AddAllFinds(codes, p);
    IdsKeepSymbols(AddAll(codes), 0, [], p);
  }

  /** 257 distinct codes of 5 to 30 bits that make a full tree make one the generator handles. */
  lemma CodesMakeGoodDraft(codes: seq<Bits>)
    requires CodesFit(codes) && Distinct(codes) && Full(AddAll(codes))
    ensures GoodDraft(AddAll(codes))
  {
    hide AddAll, Full, SetNodeId, Deep, SymbolsFit;
    var root := Root(AddAll(codes));
    forall p ensures LeadsToLeaf(root, p) <==> p in codes
      ensures LeadsToLeaf(root, p) ==> |p| >= 5 && Sub(root, p).value.sym <= EOS
    {
      LeavesAreCodes(codes, p);
    }
    DeepIfPathsLong(root, 5);
    FitIfLeavesFit(root);
    forall p ensures p in LeafPaths(root) <==> p in codes {
      LeafPathsAre(root, p);
    }
    LeafPathsAre(root, []);
    assert (set p | p in LeafPaths(root)) == (set p | p in codes);
    DistinctSize(LeafPaths(root));
    DistinctSize(codes);
  }

  /** Each code leads to its symbol on the generated tree. */
  lemma CodeLeadsToSymbol(codes: seq<Bits>, sym: nat)
    requires GoodCodes(codes) && sym < 257
    ensures Sub(Root(AddAll(codes)), codes[sym]) == Some(Leaf(sym))
  {
    hide AddAll, Full, GoodDraft, SetNodeId;
    AddAllFinds(codes, codes[sym]);
    IdsKeepSymbols(AddAll(codes), 0, [], codes[sym]);
  }

  lemma {:induction false} WalkCodes(codes: seq<Bits>, src: bytes)
    requires GoodCodes(codes)
    ensures Root(AddAll(codes)).Node?
    ensures var root := Root(AddAll(codes));
            BitWalk(root, At(root, []), CodeBits(codes, src)) == Walked(At(root, []), src)
    decreases |src|
  {
    CodesMakeGoodDraft(codes);
    hide AddAll, Full, Deep, Leaves, SetNodeId, Sub;
    var root := Root(AddAll(codes));
    assert Sub(root, []) == Some(root) by { SubRoot(root); }
    if src != [] {
      var init, last := src[..|src| - 1], src[|src| - 1];
      WalkCodes(codes, init);
      BitWalkAppend(root, At(root, []), CodeBits(codes, init), codes[last]);
      CodeLeadsToSymbol(codes, last);
      WalkCode(root, root, [], codes[last]);
      assert src == init + [last];
    }
  }

  lemma SubRoot(t: Tree)
    ensures Sub(t, []) == Some(t)
  {
  }

  /** Padding leads nowhere: it is a proper start of the end-of-string code. */
  lemma WalkPadding(codes: seq<Bits>, pad: Bits)
    requires GoodCodes(codes) && |pad| <= 7 && AllOnes(pad)
    ensures Root(AddAll(codes)).Node?
    ensures var root := Root(AddAll(codes));
            && OnTree(root, At(root, []))
            && BitWalk(root, At(root, []), pad).out == []
            && Accepted(BitWalk(root, At(root, []), pad).walk)
  {
    CodesMakeGoodDraft(codes);
    hide AddAll, Full, Deep, Leaves, SetNodeId;
    var root := Root(AddAll(codes));
    CodeLeadsToSymbol(codes, EOS);
    var eos := codes[EOS];
    assert eos == pad + eos[|pad|..];
    ProperStartIsInternal(root, pad, eos[|pad|..]);
    WalkInside(root, root, [], pad);
    assert [] + pad == pad;
  }

  lemma {:induction false} ProperStartIsInternal(t: Tree, a: Bits, b: Bits)
    requires Sub(t, a + b).Some? && b != []
    ensures Sub(t, a).Some? && Sub(t, a).value.Node?
    decreases |a|
  {
    if a == [] {
      assert a + b == b;
    } else {
      assert (a + b)[1..] == a[1..] + b;
      ProperStartIsInternal(Child(t, a[0]), a[1..], b);
    }
  }

  /** Decoding what was encoded gives every octet string back, and the end is accepted. */
  lemma DecodeOfEncode(codes: seq<Bits>, src: bytes)
    requires GoodCodes(codes)
    ensures Root(AddAll(codes)).Node?
    ensures var table := Table(Root(AddAll(codes)));
            && TableClosed(table) && StateId(ACCEPTED) < |table|
            && TableRun(table, ACCEPTED, EncodedOctets(codes, src)).out == src
            && Flagged(TableRun(table, ACCEPTED, EncodedOctets(codes, src)).fstate, ACCEPTED)
  {
    CodesMakeGoodDraft(codes);
    hide GoodDraft, AddAll, Full, Table, BitWalk, CodeBits, Flagged, StateId;
    var d := AddAll(codes);
    RootIsNode(d);
    var root := Root(d);
    var b := CodeBits(codes, src);
    var pad := Padding(|b|);
    OctetsBack(b + pad);
    WalkPadding(codes, pad);
    WalkCodes(codes, src);
    BitWalkAppend(root, At(root, []), b, pad);
    StartAtRoot(d);
    TableAgreesWithTree(d, ACCEPTED, At(root, []), EncodedOctets(codes, src));
    AcceptedIffPadding(d, EncodedOctets(codes, src));
  }
}
