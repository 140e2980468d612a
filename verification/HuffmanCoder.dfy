/** The nibble automaton of src/hpack/huffman.cc against decoding bit by bit. */
module HuffmanDecoder {
  import opened Bits
  import opened Bytes
  import opened HuffmanTable
  import opened HuffmanTree

  /** `fstate & 0x1ff` */
  function StateId(fstate: nat): nat
  {
    fstate % 512
  }

  predicate Flagged(fstate: nat, flag: nat)
    requires flag > 0
  {
    HasFlag(fstate, flag)
  }

  type DecodeTable = seq<seq<Entry>>

  /** Sixteen entries a row, every state a row, every symbol an octet. */
  predicate TableClosed(table: DecodeTable)
  {
    forall i :: 0 <= i < |table| ==>
      |table[i]| == 16 && forall j :: 0 <= j < 16 ==> StateId(table[i][j].fstate) < |table| && table[i][j].sym < 256
  }

  // ---------------------------------------------------------------- running the table

  datatype Run = Run(fstate: nat, out: seq<nat>)

  function Emit(e: Entry): seq<nat>
  {
    if Flagged(e.fstate, SYM) then [e.sym] else []
  }

  function Lookup(table: DecodeTable, fstate: nat, nibble: nat): Entry
    requires TableClosed(table) && StateId(fstate) < |table| && nibble < 16
  {
    table[StateId(fstate)][nibble]
  }

  /** Both nibbles of one octet. */
  function OctetRun(table: DecodeTable, fstate: nat, c: byte): (r: Run)
    requires TableClosed(table) && StateId(fstate) < |table|
    ensures StateId(r.fstate) < |table| && forall x :: x in r.out ==> x < 256
  {
    var high := Lookup(table, fstate, c / 16);
    var low := Lookup(table, high.fstate, c % 16);
    Run(low.fstate, Emit(high) + Emit(low))
  }

  function TableRun(table: DecodeTable, fstate: nat, src: bytes): (r: Run)
    requires TableClosed(table) && StateId(fstate) < |table|
    ensures StateId(r.fstate) < |table| && forall x :: x in r.out ==> x < 256
    decreases |src|
  {
    if src == [] then Run(fstate, [])
    else
      var one := OctetRun(table, fstate, src[0]);
      var rest := TableRun(table, one.fstate, src[1..]);
      Run(rest.fstate, one.out + rest.out)
  }

  /** Stopping after `a` and resuming from the saved state gives what one call on both gives. */
  lemma {:induction false} ResumeAnywhere(table: DecodeTable, fstate: nat, a: bytes, b: bytes)
    requires TableClosed(table) && StateId(fstate) < |table|
    ensures var first := TableRun(table, fstate, a);
            var second := TableRun(table, first.fstate, b);
            TableRun(table, fstate, a + b) == Run(second.fstate, first.out + second.out)
    decreases |a|
  {
    hide OctetRun, TableClosed;
    if a == [] {
      assert a + b == b;
    } else {
      assert (a + b)[1..] == a[1..] + b;
      ResumeAnywhere(table, OctetRun(table, fstate, a[0]).fstate, a[1..], b);
    }
  }

  /** http2_hd_huff_decode_context */
  class DecodeContext {
    var fstate: nat

    /** http2_head_huffman_decode_context_init */
    constructor ()
      ensures fstate == ACCEPTED
    {
      fstate := ACCEPTED;
    }
  }

  /** One symbol into the buffer, where the entry carries one and there is room. */
  method Put(buf: array<byte>, produced: nat, e: Entry) returns (ok: bool, now: nat)
    requires produced <= buf.Length && e.sym < 256
    modifies buf
    ensures ok <==> produced + |Emit(e)| <= buf.Length
    ensures ok ==> now == produced + |Emit(e)| && buf[..now] == old(buf[..produced]) + Emit(e)
                   && buf[now..] == old(buf[now..])
  {
    if Flagged(e.fstate, SYM) {
      if produced >= buf.Length {
        return false, produced;
      }
      buf[produced] := e.sym;
      return true, produced + 1;
    }
    return true, produced;
  }

  /** Both look-ups of one octet; `ok` is false where the buffer is full. */
  method DecodeOctet(table: DecodeTable, fstate: nat, buf: array<byte>, produced: nat, c: byte)
    returns (ok: bool, now: nat, next: nat)
    requires TableClosed(table) && StateId(fstate) < |table| && produced <= buf.Length
    modifies buf
    ensures var r := OctetRun(table, fstate, c);
            && (ok <==> produced + |r.out| <= buf.Length)
            && (ok ==> next == r.fstate && now == produced + |r.out| && buf[..now] == old(buf[..produced]) + r.out
                       && buf[now..] == old(buf[now..]))
  {
    hide Flagged, Emit, StateId;
    now, next := produced, fstate;
    var high := Lookup(table, fstate, c / 16);
    ok, now := Put(buf, now, high);
    if !ok {
      return;
    }
    var low := Lookup(table, high.fstate, c % 16);
    ok, now := Put(buf, now, low);
    next := low.fstate;
  }

  lemma TableRunSteps(table: DecodeTable, fstate: nat, src: bytes, i: nat)
    requires TableClosed(table) && StateId(fstate) < |table| && i <= |src|
    ensures i == |src| ==> TableRun(table, fstate, src[i..]) == Run(fstate, [])
    ensures i < |src| ==>
              var one := OctetRun(table, fstate, src[i]);
              var rest := TableRun(table, one.fstate, src[i + 1..]);
              TableRun(table, fstate, src[i..]) == Run(rest.fstate, one.out + rest.out)
  {
    hide OctetRun, TableClosed;
    if i < |src| {
      assert src[i..][1..] == src[i + 1..];
    }
  }

  /** http2_head_huffman_decode: -1 if the buffer is too small, or if the last block may not end there. */
  method Decode(table: DecodeTable, ctx: DecodeContext, buf: array<byte>, src: bytes, fin: bool) returns (n: int)
    requires TableClosed(table) && StateId(ctx.fstate) < |table|
    modifies ctx, buf
    ensures var r := TableRun(table, old(ctx.fstate), src);
            if |r.out| > buf.Length then n == -1 && ctx.fstate == old(ctx.fstate)
            else
              && ctx.fstate == r.fstate
              && buf[..|r.out|] == r.out && buf[|r.out|..] == old(buf[|r.out|..])
              && n == if fin && !Flagged(r.fstate, ACCEPTED) then -1 else |r.out|
  {
    hide Flagged, Emit, StateId, TableClosed, TableRun, OctetRun;
    var fstate := ctx.fstate;
    var produced: nat := 0;
    var i := 0;
    ghost var whole := TableRun(table, fstate, src);
    assert src[0..] == src;
    while i < |src|
      invariant i <= |src| && produced <= buf.Length && StateId(fstate) < |table|
      invariant ctx.fstate == old(ctx.fstate)
      invariant buf[produced..] == old(buf[produced..])
      invariant TableRun(table, fstate, src[i..]).fstate == whole.fstate
      invariant buf[..produced] + TableRun(table, fstate, src[i..]).out == whole.out
    {
      TableRunSteps(table, fstate, src, i);
      var ok;
      ok, produced, fstate := DecodeOctet(table, fstate, buf, produced, src[i]);
      if !ok {
        return -1;
      }
      i := i + 1;
    }
    TableRunSteps(table, fstate, src, i);
    ctx.fstate := fstate;
    if fin && !Flagged(fstate, ACCEPTED) {
      return -1;
    }
    return produced;
  }

  // ---------------------------------------------------------------- one nibble

  /** What the automaton's transition must be for what the bits do. */
  ghost predicate Agrees(tr: Transition, r: Walked, root: Tree)
  {
    match r.walk
    case Dead => tr == Transition(None, None) && r.out == []
    case At(node, path) =>
      && tr.node.Some? && Resumed(tr.node.value, root) == node
      && (tr.node.value.Leaf? ==> path == [])
      && r.out == match tr.sym case None => [] case Some(s) => [s]
  }

  /** After a symbol, the bits left in the nibble are too few for another. */
  lemma {:induction false} FollowAfterSymbol(root: Tree, node: Tree, sym: nat, path: Bits, bits: Bits)
    requires root.Node? && OnTree(root, At(Resumed(node, root), path)) && (node.Leaf? ==> path == [])
    requires Deep(Resumed(node, root), |bits| + 1)
    ensures var r := BitWalk(root, At(Resumed(node, root), path), bits);
            var tr := Follow(node, Some(sym), root, bits);
            if sym == EOS then tr == Transition(None, None)
            else r.out == [] && tr.sym == Some(sym) && Agrees(tr, Walked(r.walk, [sym]), root)
    decreases |bits|
  {
    if bits != [] {
      var from := Resumed(node, root);
      BitStepOnTree(root, At(from, path), bits[0]);
      FollowAfterSymbol(root, Child(from, bits[0]), sym, path + [bits[0]], bits[1..]);
    }
  }

  /** At most one symbol per nibble, and the row says which and where it leads. */
  lemma {:induction false} FollowAgrees(root: Tree, node: Tree, path: Bits, bits: Bits)
    requires root.Node? && OnTree(root, At(node, path)) && Deep(root, 5) && |bits| <= 4
    ensures Agrees(Follow(node, None, root, bits), BitWalk(root, At(node, path), bits), root)
    decreases |bits|
  {
    if bits != [] {
      var child := Child(node, bits[0]);
      BitStepOnTree(root, At(node, path), bits[0]);
      if child.Node? {
        FollowAgrees(root, child, path + [bits[0]], bits[1..]);
      } else {
        Deeper(root, 5, |bits|);
        FollowAfterSymbol(root, child, child.sym, [], bits[1..]);
        DeadStaysDead(root, bits[1..]);
      }
    }
  }

  lemma {:induction false} Deeper(t: Tree, n: nat, m: nat)
    requires Deep(t, n) && m <= n
    ensures Deep(t, m)
  {
    if m > 0 {
      Deeper(t.left, n - 1, m - 1);
      Deeper(t.right, n - 1, m - 1);
    }
  }

  lemma NibblePosition(n: nat)
    requires n < 16
    ensures BitsValue(NibbleBits(n)) == n
  {
    var b := NibbleBits(n);
    assert b[1..] == [b[1], b[2], b[3]] && b[2..] == [b[2], b[3]] && b[3..] == [b[3]] && b[4..] == [];
    assert b[1..][1..] == b[2..] && b[2..][1..] == b[3..] && b[3..][1..] == b[4..];
    assert Pow2(1) == 2 && Pow2(2) == 4 && Pow2(3) == 8;
    assert BitsValue(b[3..]) == Bit(b[3]);
    assert BitsValue(b[2..]) == 2 * Bit(b[2]) + Bit(b[3]);
    assert BitsValue(b[1..]) == 4 * Bit(b[1]) + 2 * Bit(b[2]) + Bit(b[3]);
  }

  // ---------------------------------------------------------------- the generated table

  /** A draft the generator can finish: 257 symbols, none with a code of fewer than five bits. */
  ghost predicate GoodDraft(d: Draft)
  {
    && Full(d)
    && var root := SetNodeId(d, 0, []).0;
       root.Node? && Leaves(root) == 257 && Deep(root, 5) && SymbolsFit(root)
  }

  predicate SymbolsFit(t: Tree)
  {
    if t.Leaf? then t.sym <= EOS else SymbolsFit(t.left) && SymbolsFit(t.right)
  }

  function Root(d: Draft): Tree
    requires Full(d)
  {
    SetNodeId(d, 0, []).0
  }

  /** A state of the automaton stands for a place on the tree, its accept flag for MayEnd. */
  ghost predicate StandsFor(fstate: nat, w: Walk)
  {
    match w
    case Dead => StateId(fstate) == FAILURE && !Flagged(fstate, ACCEPTED)
    case At(node, path) => node.Node? && StateId(fstate) == node.id && (Flagged(fstate, ACCEPTED) <==> MayEnd(path))
  }

  lemma PackedFields(id: nat, accept: bool, sym: bool)
    requires id < 512
    ensures var f := id + (if accept then ACCEPTED else 0) + (if sym then SYM else 0);
            StateId(f) == id && Flagged(f, ACCEPTED) == accept && Flagged(f, SYM) == sym
  {
  }

  /** Internal ids stay below 256, so that 256 is free for the failure row. */
  lemma IdsBelowFailure(d: Draft, p: Bits)
    requires GoodDraft(d) && Sub(Root(d), p).Some? && Sub(Root(d), p).value.Node?
    ensures Sub(Root(d), p).value.id < FAILURE == Internal(Root(d))
    ensures Table(Root(d))[Sub(Root(d), p).value.id] == PackRow(Row(Sub(Root(d), p).value, Root(d)))
    ensures Sub(Root(d), p).value.accept == MayEnd(p)
  {
    hide Row, Rows, Full, Deep, SymbolsFit, MayEnd, PackRow;
    InternalIsLeavesLessOne(Root(d));
    RowAtId(d, 0, [], p, Root(d));
    assert [] + p == p;
  }

  lemma PackAgrees(d: Draft, tr: Transition, r: Walked)
    requires GoodDraft(d) && OnTree(Root(d), r.walk) && Agrees(tr, r, Root(d))
    ensures StandsFor(Pack(tr).fstate, r.walk) && Emit(Pack(tr)) == r.out
  {
    hide Full, Leaves, Deep, SymbolsFit, Table, Row, Flagged, StateId;
    var root := Root(d);
    match r.walk
    case Dead => PackedFields(FAILURE, false, false);
    case At(node, path) =>
      IdsBelowFailure(d, path);
      IdsBelowFailure(d, []);
      PackedFields(node.id, node.accept, tr.sym.Some?);
      assert root.id == 0;
  }

  /** One table look-up does what four bits do. */
  lemma NibbleAgrees(d: Draft, fstate: nat, w: Walk, nibble: nat)
    requires GoodDraft(d) && OnTree(Root(d), w) && StandsFor(fstate, w) && nibble < 16
    ensures StateId(fstate) < |Table(Root(d))|
    ensures var e := Table(Root(d))[StateId(fstate)][nibble];
            var r := BitWalk(Root(d), w, NibbleBits(nibble));
            StandsFor(e.fstate, r.walk) && Emit(e) == r.out
  {
    hide Full, Leaves, Deep, SymbolsFit, BitWalk, NibbleBits;
    var root, bits := Root(d), NibbleBits(nibble);
    match w
    case Dead =>
      IdsBelowFailure(d, []);
      DeadStaysDead(root, bits);
      PackedFields(FAILURE, false, false);
    case At(node, path) =>
      IdsBelowFailure(d, path);
      RowPosition(node, root, nibble);
      FollowAgrees(root, node, path, bits);
      PackAgrees(d, Row(node, root)[nibble], BitWalk(root, w, bits));
  }

  lemma TableIsClosed(d: Draft)
    requires GoodDraft(d)
    ensures TableClosed(Table(Root(d)))
  {
    hide Full, Leaves, Deep, Pack, SymbolsFit, Rows, StateId;
    var root := Root(d);
    var table: DecodeTable := Table(root);
    IdsBelowFailure(d, []);
    assert StateId(FAILURE) == FAILURE by { PackedFields(FAILURE, false, false); }
    forall i: nat, j: nat | i < |table| && j < 16
      ensures StateId(table[i][j].fstate) < |table| && table[i][j].sym < 256
    {
      if i < FAILURE {
        RowsFit(d, root, 0, [], i, j);
      }
    }
  }

  /** Every packed transition of a row names a row and an octet. */
  lemma {:induction false} RowsFit(d: Draft, t: Tree, base: nat, p: Bits, i: nat, j: nat)
    requires GoodDraft(d) && Sub(Root(d), p) == Some(t) && i < Internal(t) && j < 16
    ensures var e := Pack(Rows(t, Root(d))[i][j]); StateId(e.fstate) < 257 && e.sym < 256
    decreases t
  {
    hide Full, Leaves, Deep, Pack, Row, Root, GoodDraft, SymbolsFit;
    RootIsNode(d);
    var root := Root(d);
    if i == 0 {
      RowFits(d, t, p, j);
    } else {
      SubAppend(root, p, false);
      SubAppend(root, p, true);
      if i <= Internal(t.left) {
        RowsFit(d, t.left, base, p + [false], i - 1, j);
      } else {
        RowsFit(d, t.right, base, p + [true], i - 1 - Internal(t.left), j);
      }
    }
  }

  lemma RootIsNode(d: Draft)
    requires GoodDraft(d)
    ensures Full(d) && Root(d).Node? && Internal(Root(d)) == FAILURE
  {
    InternalIsLeavesLessOne(Root(d));
  }

  lemma RowFits(d: Draft, node: Tree, p: Bits, j: nat)
    requires GoodDraft(d) && Sub(Root(d), p) == Some(node) && node.Node? && j < 16
    ensures var e := Pack(Row(node, Root(d))[j]); StateId(e.fstate) < 257 && e.sym < 256
  {
    hide Full, Leaves, Deep, BitWalk, NibbleBits, SymbolsFit, Pack, StateId, Emit, Row, Follow;
    var root, bits := Root(d), NibbleBits(j);
    assert Row(node, root)[j] == Follow(node, None, root, bits) by { RowPosition(node, root, j); }
    FollowAgrees(root, node, p, bits);
    var tr, r := Row(node, root)[j], BitWalk(root, At(node, p), bits);
    PackAgrees(d, tr, r);
    if r.walk.At? {
      IdsBelowFailure(d, r.walk.path);
    }
    SymbolsBelowEos(d, At(node, p), bits);
    PackedSymbol(tr);
    assert tr.sym.Some? ==> tr.sym.value in r.out;
  }

  lemma RowPosition(node: Tree, root: Tree, j: nat)
    requires root.Node? && j < 16
    ensures Row(node, root)[j] == Follow(node, None, root, NibbleBits(j))
  {
    hide Traverse, Follow, NibbleBits;
    TraverseAt(node, None, root, NibbleBits(j));
    NibblePosition(j);
  }

  lemma PackedSymbol(tr: Transition)
    ensures Pack(tr).sym == match tr.sym case None => 0 case Some(s) => s
  {
  }

  lemma {:induction false} SymbolsBelowEos(d: Draft, w: Walk, bits: Bits)
    requires GoodDraft(d) && OnTree(Root(d), w)
    ensures forall s :: s in BitWalk(Root(d), w, bits).out ==> s < 256
    decreases |bits|
  {
    hide Full, Leaves, Deep;
    if bits != [] {
      BitStepOnTree(Root(d), w, bits[0]);
      SymbolsBelowEos(d, BitStep(Root(d), w, bits[0]).walk, bits[1..]);
      if w.At? {
        SubAppend(Root(d), w.path, bits[0]);
        SubFits(Root(d), w.path + [bits[0]]);
      }
    }
  }

  lemma {:induction false} SubFits(t: Tree, p: Bits)
    requires SymbolsFit(t) && Sub(t, p).Some?
    ensures SymbolsFit(Sub(t, p).value)
    decreases |p|
  {
    if p != [] {
      SubFits(Child(t, p[0]), p[1..]);
    }
  }

  /**
   * On every octet string the generated automaton does what walking the tree bit by bit does: same
   * symbols, same place, and failure after the end-of-string code for ever.
   */
  lemma {:induction false} TableAgreesWithTree(d: Draft, fstate: nat, w: Walk, src: bytes)
    requires GoodDraft(d) && OnTree(Root(d), w) && StandsFor(fstate, w)
    ensures TableClosed(Table(Root(d))) && StateId(fstate) < |Table(Root(d))|
    ensures var run := TableRun(Table(Root(d)), fstate, src);
            var r := BitWalk(Root(d), w, AllBits(src));
            run.out == r.out && StandsFor(run.fstate, r.walk)
    decreases |src|
  {
    hide GoodDraft, Table, BitWalk, NibbleBits, StandsFor, Emit, TableClosed, StateId;
    RootIsNode(d);
    TableIsClosed(d);
    var root, table := Root(d), Table(Root(d));
    NibbleAgrees(d, fstate, w, 0);
    if src == [] {
      assert BitWalk(root, w, []) == Walked(w, []) by { WalkNothing(root, w); }
    } else {
      OctetAgrees(d, fstate, w, src[0]);
      var one := OctetRun(table, fstate, src[0]);
      var r := BitWalk(root, w, OctetBits(src[0]));
      TableAgreesWithTree(d, one.fstate, r.walk, src[1..]);
      BitWalkAppend(root, w, OctetBits(src[0]), AllBits(src[1..]));
    }
  }

  lemma WalkNothing(root: Tree, w: Walk)
    requires root.Node? && OnTree(root, w)
    ensures BitWalk(root, w, []) == Walked(w, [])
  {
  }

  lemma OctetAgrees(d: Draft, fstate: nat, w: Walk, c: byte)
    requires GoodDraft(d) && OnTree(Root(d), w) && StandsFor(fstate, w)
    requires TableClosed(Table(Root(d))) && StateId(fstate) < |Table(Root(d))|
    ensures var run := OctetRun(Table(Root(d)), fstate, c);
            var r := BitWalk(Root(d), w, OctetBits(c));
            run.out == r.out && StandsFor(run.fstate, r.walk)
  {
    hide GoodDraft, Table, BitWalk, NibbleBits, StandsFor, Emit, TableClosed, StateId;
    RootIsNode(d);
    var root := Root(d);
    NibbleAgrees(d, fstate, w, c / 16);
    var high := Lookup(Table(root), fstate, c / 16);
    var middle := BitWalk(root, w, NibbleBits(c / 16));
    NibbleAgrees(d, high.fstate, middle.walk, c % 16);
    BitWalkAppend(root, w, NibbleBits(c / 16), NibbleBits(c % 16));
  }

  /** A buffer of three times the input never overflows. */
  lemma ThreeTimesIsEnough(d: Draft, src: bytes)
    requires GoodDraft(d)
    ensures TableClosed(Table(Root(d))) && StateId(ACCEPTED) < |Table(Root(d))|
    ensures |TableRun(Table(Root(d)), ACCEPTED, src).out| <= 3 * |src|
  {
    hide Full, Leaves, Table, BitWalk;
    StartAtRoot(d);
    TableAgreesWithTree(d, ACCEPTED, At(Root(d), []), src);
    SymbolsCostBits(Root(d), At(Root(d), []), AllBits(src), 5);
  }

  lemma StartAtRoot(d: Draft)
    requires GoodDraft(d)
    ensures OnTree(Root(d), At(Root(d), [])) && StandsFor(ACCEPTED, At(Root(d), []))
  {
    hide Leaves, Deep, SymbolsFit, Table;
    IdsBelowFailure(d, []);
    PackedFields(0, true, false);
  }

  /** The last block is accepted exactly when the bits after the last symbol are at most seven ones. */
  lemma AcceptedIffPadding(d: Draft, src: bytes)
    requires GoodDraft(d)
    ensures TableClosed(Table(Root(d))) && StateId(ACCEPTED) < |Table(Root(d))|
    ensures Flagged(TableRun(Table(Root(d)), ACCEPTED, src).fstate, ACCEPTED) <==>
            Accepted(BitWalk(Root(d), At(Root(d), []), AllBits(src)).walk)
  {
    hide Full, Leaves, Deep, Table, BitWalk, Flagged;
    StartAtRoot(d);
    TableAgreesWithTree(d, ACCEPTED, At(Root(d), []), src);
  }
}
