/** Bit strings, most significant bit first. */
module Bits {
  import opened Bytes

  type Bits = seq<bool>

  function Zeros(n: nat): (r: Bits)
    ensures |r| == n && forall i :: 0 <= i < n ==> !r[i]
  {
    seq(n, _ => false)
  }

  function Ones(n: nat): (r: Bits)
    ensures |r| == n && forall i :: 0 <= i < n ==> r[i]
  {
    seq(n, _ => true)
  }

  predicate AllOnes(b: Bits)
  {
    forall i :: 0 <= i < |b| ==> b[i]
  }

  function Bit(b: bool): nat
  {
    if b then 1 else 0
  }

  /** The four bits of a nibble as a number. */
  function NibbleValue(b: Bits): (r: nat)
    requires |b| == 4
    ensures r < 16
  {
    8 * Bit(b[0]) + 4 * Bit(b[1]) + 2 * Bit(b[2]) + Bit(b[3])
  }

  function NibbleBits(n: nat): (r: Bits)
    requires n < 16
    ensures |r| == 4 && NibbleValue(r) == n
  {
    [n / 8 % 2 == 1, n / 4 % 2 == 1, n / 2 % 2 == 1, n % 2 == 1]
  }

  function OctetBits(c: byte): (r: Bits)
    ensures |r| == 8
  {
    NibbleBits(c / 16) + NibbleBits(c % 16)
  }

  function Octet(b: Bits): byte
    requires |b| == 8
  {
    16 * NibbleValue(b[..4]) + NibbleValue(b[4..])
  }

  lemma OctetRoundTrip(b: Bits)
    requires |b| == 8
    ensures OctetBits(Octet(b)) == b
  {
    hide NibbleBits, NibbleValue;
    NibbleUnique(b[..4]);
    NibbleUnique(b[4..]);
    var c: int := Octet(b);
    assert c / 16 == NibbleValue(b[..4]) && c % 16 == NibbleValue(b[4..]);
    assert b == b[..4] + b[4..];
  }

  lemma NibbleUnique(b: Bits)
    requires |b| == 4
    ensures NibbleBits(NibbleValue(b)) == b
  {
  }

  function AllBits(src: bytes): (r: Bits)
    ensures |r| == 8 * |src|
  {
    if src == [] then [] else OctetBits(src[0]) + AllBits(src[1..])
  }

  lemma {:induction false} AllBitsAppend(a: bytes, b: bytes)
    ensures AllBits(a + b) == AllBits(a) + AllBits(b)
  {
    if a == [] {
      assert a + b == b;
    } else {
      assert (a + b)[1..] == a[1..] + b;
      AllBitsAppend(a[1..], b);
    }
  }
}

/**
 * The decoding tree of tools/mkhufftbl.py, and what decoding one bit at a time along it means
 * (section 5.2 of RFC 7541).
 */
module HuffmanTree {
  import opened Bits
  import opened Bytes

  const EOS := 256

  /** Internal nodes carry the id and the accept mark that the generator gives them. */
  datatype Tree = Leaf(sym: nat) | Node(id: nat, accept: bool, left: Tree, right: Tree)

  function Child(t: Tree, b: bool): Tree
    requires t.Node?
  {
    if b then t.right else t.left
  }

  /** The subtree a path leads to. */
  function Sub(t: Tree, p: Bits): Option<Tree>
    decreases |p|
  {
    if p == [] then Some(t) else if t.Leaf? then None else Sub(Child(t, p[0]), p[1..])
  }

  lemma {:induction false} SubAppend(t: Tree, p: Bits, b: bool)
    requires Sub(t, p).Some? && Sub(t, p).value.Node?
    ensures Sub(t, p + [b]) == Some(Child(Sub(t, p).value, b))
    decreases |p|
  {
    if p != [] {
      assert (p + [b])[1..] == p[1..] + [b];
      SubAppend(Child(t, p[0]), p[1..], b);
    }
  }

  function Internal(t: Tree): nat
  {
    if t.Leaf? then 0 else 1 + Internal(t.left) + Internal(t.right)
  }

  function Leaves(t: Tree): nat
  {
    if t.Leaf? then 1 else Leaves(t.left) + Leaves(t.right)
  }

  lemma {:induction false} InternalIsLeavesLessOne(t: Tree)
    ensures Internal(t) == Leaves(t) - 1
  {
    if t.Node? {
      InternalIsLeavesLessOne(t.left);
      InternalIsLeavesLessOne(t.right);
    }
  }

  /** Every leaf is at least `n` bits below. */
  predicate Deep(t: Tree, n: nat)
  {
    n == 0 || (t.Node? && Deep(t.left, n - 1) && Deep(t.right, n - 1))
  }

  // ---------------------------------------------------------------- bit by bit

  /** The node reached since the last symbol and the bits that led there, or the end-of-string failure. */
  datatype Walk = At(node: Tree, path: Bits) | Dead

  datatype Walked = Walked(walk: Walk, out: seq<nat>)

  predicate OnTree(root: Tree, w: Walk)
  {
    w.At? ==> w.node.Node? && Sub(root, w.path) == Some(w.node)
  }

  function BitStep(root: Tree, w: Walk, b: bool): Walked
    requires OnTree(root, w)
  {
    match w
    case Dead => Walked(Dead, [])
    case At(node, path) =>
      match Child(node, b)
      case Leaf(sym) => if sym == EOS then Walked(Dead, []) else Walked(At(root, []), [sym])
      case Node(_, _, _, _) => Walked(At(Child(node, b), path + [b]), [])
  }

  lemma BitStepOnTree(root: Tree, w: Walk, b: bool)
    requires root.Node? && OnTree(root, w)
    ensures OnTree(root, BitStep(root, w, b).walk)
  {
    if w.At? {
      SubAppend(root, w.path, b);
    }
  }

  function BitWalk(root: Tree, w: Walk, bits: Bits): (r: Walked)
    requires root.Node? && OnTree(root, w)
    ensures OnTree(root, r.walk)
    decreases |bits|
  {
    if bits == [] then Walked(w, [])
    else
      BitStepOnTree(root, w, bits[0]);
      var one := BitStep(root, w, bits[0]);
      var rest := BitWalk(root, one.walk, bits[1..]);
      Walked(rest.walk, one.out + rest.out)
  }

  /** Padding: strictly fewer than eight bits, all ones, the start of the end-of-string code. */
  predicate MayEnd(path: Bits)
  {
    |path| <= 7 && AllOnes(path)
  }

  predicate Accepted(w: Walk)
  {
    w.At? && MayEnd(w.path)
  }

  lemma {:induction false} BitWalkAppend(root: Tree, w: Walk, a: Bits, b: Bits)
    requires root.Node? && OnTree(root, w)
    ensures var first := BitWalk(root, w, a);
            var second := BitWalk(root, first.walk, b);
            BitWalk(root, w, a + b) == Walked(second.walk, first.out + second.out)
    decreases |a|
  {
    hide BitStep, Sub;
    if a == [] {
      assert a + b == b;
    } else {
      assert (a + b)[1..] == a[1..] + b;
      BitStepOnTree(root, w, a[0]);
      BitWalkAppend(root, BitStep(root, w, a[0]).walk, a[1..], b);
    }
  }

  lemma {:induction false} DeadStaysDead(root: Tree, bits: Bits)
    requires root.Node?
    ensures BitWalk(root, Dead, bits) == Walked(Dead, [])
    decreases |bits|
  {
    if bits != [] {
      DeadStaysDead(root, bits[1..]);
    }
  }

  /** A path that ends in a leaf spells its symbol and comes back to the root. */
  lemma {:induction false} WalkCode(root: Tree, node: Tree, path: Bits, code: Bits)
    requires root.Node? && OnTree(root, At(node, path)) && code != []
    requires Sub(node, code).Some? && Sub(node, code).value.Leaf?
    ensures var sym := Sub(node, code).value.sym;
            BitWalk(root, At(node, path), code) == if sym == EOS then Walked(Dead, []) else Walked(At(root, []), [sym])
    decreases |code|
  {
    var child := Child(node, code[0]);
    BitStepOnTree(root, At(node, path), code[0]);
    if child.Node? {
      WalkCode(root, child, path + [code[0]], code[1..]);
    } else {
      assert code[1..] == [];
    }
  }

  /** A path that ends in an internal node spells nothing. */
  lemma {:induction false} WalkInside(root: Tree, node: Tree, path: Bits, bits: Bits)
    requires root.Node? && OnTree(root, At(node, path))
    requires Sub(node, bits).Some? && Sub(node, bits).value.Node?
    ensures BitWalk(root, At(node, path), bits) == Walked(At(Sub(node, bits).value, path + bits), [])
    decreases |bits|
  {
    if bits == [] {
      assert path + bits == path;
    } else {
      BitStepOnTree(root, At(node, path), bits[0]);
      WalkInside(root, Child(node, bits[0]), path + [bits[0]], bits[1..]);
      assert path + bits == path + [bits[0]] + bits[1..];
    }
  }

  /** Every symbol costs at least as many bits as the shortest code has. */
  lemma {:induction false} SymbolsCostBits(root: Tree, w: Walk, bits: Bits, least: nat)
    requires root.Node? && OnTree(root, w) && Deep(root, least)
    ensures var r := BitWalk(root, w, bits);
            least * |r.out| + Depth(r.walk) <= Depth(w) + |bits|
    decreases |bits|
  {
    hide Deep, Sub;
    if bits != [] {
      var one := BitStep(root, w, bits[0]);
      BitStepOnTree(root, w, bits[0]);
      SymbolsCostBits(root, one.walk, bits[1..], least);
      SymbolCostsBits(root, w, bits[0], least);
      DistributeCost(least, one.out, BitWalk(root, one.walk, bits[1..]).out);
    }
  }

  /** The bits spent since the last symbol. */
  function Depth(w: Walk): nat
  {
    if w.At? then |w.path| else 0
  }

  lemma SymbolCostsBits(root: Tree, w: Walk, b: bool, least: nat)
    requires root.Node? && OnTree(root, w) && Deep(root, least)
    ensures var r := BitStep(root, w, b);
            least * |r.out| + Depth(r.walk) <= Depth(w) + 1
  {
    if w.At? {
      SubAppend(root, w.path, b);
      if Child(w.node, b).Leaf? {
        LeafIsDeep(root, w.path + [b], least);
      }
    }
  }

  lemma DistributeCost(least: nat, a: seq<nat>, b: seq<nat>)
    ensures least * |a + b| == least * |a| + least * |b|
  {
  }

  lemma {:induction false} LeafIsDeep(t: Tree, p: Bits, n: nat)
    requires Deep(t, n) && Sub(t, p).Some? && Sub(t, p).value.Leaf?
    ensures |p| >= n
    decreases |p|
  {
    if n > 0 {
      LeafIsDeep(Child(t, p[0]), p[1..], n - 1);
    }
  }
}

/** The generator: codes into a tree, ids on its internal nodes, four-bit transition rows. */
module HuffmanTable {
  import opened Bits
  import opened Bytes
  import opened HuffmanTree

  // ---------------------------------------------------------------- _add

  /** A node of the tree under construction; a child or a symbol may still be missing. */
  datatype Draft = Draft(term: Option<nat>, left: Option<Draft>, right: Option<Draft>)

  const NEW_NODE := Draft(None, None, None)

  function DraftChild(d: Draft, b: bool): Option<Draft>
  {
    if b then d.right else d.left
  }

  /** _add */
  function Add(d: Draft, sym: nat, bits: Bits): Draft
    decreases |bits|
  {
    if bits == [] then d.(term := Some(sym))
    else
      var child := match DraftChild(d, bits[0]) case None => NEW_NODE case Some(c) => c;
      var grown := Add(child, sym, bits[1..]);
      if bits[0] then d.(right := Some(grown)) else d.(left := Some(grown))
  }

  /** The symbol at the end of a path. */
  function Find(d: Draft, p: Bits): Option<nat>
    decreases |p|
  {
    if p == [] then d.term
    else match DraftChild(d, p[0]) case None => None case Some(c) => Find(c, p[1..])
  }

  /** Adding a code sets the symbol at its end and no other. */
  lemma {:induction false} AddFinds(d: Draft, sym: nat, bits: Bits, p: Bits)
    ensures Find(Add(d, sym, bits), p) == if p == bits then Some(sym) else Find(d, p)
    decreases |bits|
  {
    if bits != [] && p != [] && p[0] == bits[0] {
      var child := match DraftChild(d, bits[0]) case None => NEW_NODE case Some(c) => c;
      AddFinds(child, sym, bits[1..], p[1..]);
      assert p == bits <==> p[1..] == bits[1..] by {
        assert p == [p[0]] + p[1..] && bits == [bits[0]] + bits[1..];
      }
      if DraftChild(d, bits[0]).None? {
        NewNodeIsEmpty(p[1..]);
      }
    }
  }

  lemma NewNodeIsEmpty(p: Bits)
    ensures Find(NEW_NODE, p) == None
  {
  }

  /** The main loop of the script: symbol i gets codes[i]. */
  function AddAll(codes: seq<Bits>): Draft
  {
    if codes == [] then NEW_NODE else Add(AddAll(codes[..|codes| - 1]), |codes| - 1, codes[|codes| - 1])
  }

  lemma {:induction false} AddAllFinds(codes: seq<Bits>, p: Bits)
    requires forall i, j :: 0 <= i < j < |codes| ==> codes[i] != codes[j]
    ensures match Find(AddAll(codes), p)
            case Some(sym) => sym < |codes| && codes[sym] == p
            case None => p !in codes
    decreases |codes|
  {
    if codes == [] {
      NewNodeIsEmpty(p);
    } else {
      var n := |codes| - 1;
      AddAllFinds(codes[..n], p);
      AddFinds(AddAll(codes[..n]), n, codes[n], p);
      assert codes == codes[..n] + [codes[n]];
    }
  }

  /** No node is both a symbol and a branch, and no branch lacks a child. */
  predicate Full(d: Draft)
  {
    if d.term.Some? then d.left.None? && d.right.None?
    else d.left.Some? && d.right.Some? && Full(d.left.value) && Full(d.right.value)
  }

  // ---------------------------------------------------------------- _set_node_id

  /** _set_node_id: preorder ids from `next` on; a node at up to seven ones is marked. */
  function SetNodeId(d: Draft, next: nat, prefix: Bits): (r: (Tree, nat))
    requires Full(d)
    ensures r.1 == next + Internal(r.0)
  {
    if d.term.Some? then (Leaf(d.term.value), next)
    else
      var l := SetNodeId(d.left.value, next + 1, prefix + [false]);
      var r := SetNodeId(d.right.value, l.1, prefix + [true]);
      (Node(next, MayEnd(prefix), l.0, r.0), r.1)
  }

  lemma {:induction false} IdsKeepSymbols(d: Draft, next: nat, prefix: Bits, p: Bits)
    requires Full(d)
    ensures var t := SetNodeId(d, next, prefix).0;
            Find(d, p).Some? <==> Sub(t, p).Some? && Sub(t, p).value.Leaf?
    ensures var t := SetNodeId(d, next, prefix).0;
            Find(d, p).Some? ==> Sub(t, p).value.sym == Find(d, p).value
    decreases |p|
  {
    if p != [] && d.term.None? {
      var n := SetNodeId(d.left.value, next + 1, prefix + [false]).1;
      if p[0] {
        IdsKeepSymbols(d.right.value, n, prefix + [true], p[1..]);
      } else {
        IdsKeepSymbols(d.left.value, next + 1, prefix + [false], p[1..]);
      }
    }
  }

  // ---------------------------------------------------------------- _traverse

  /** A transition: the node reached, or none after the end of string, and the symbol passed, if any. */
  datatype Transition = Transition(node: Option<Tree>, sym: Option<nat>)

  function Arrive(node: Tree, sym: Option<nat>): Transition
  {
    if sym == Some(EOS) then Transition(None, None) else Transition(Some(node), sym)
  }

  function Passing(child: Tree, sym: Option<nat>): Option<nat>
  {
    if child.Leaf? then Some(child.sym) else sym
  }

  /** A leaf behaves as the root. */
  function Resumed(node: Tree, root: Tree): Tree
  {
    if node.Leaf? then root else node
  }

  /** _traverse: the transitions of all strings of `left` bits, in numerical order. */
  function Traverse(node: Tree, sym: Option<nat>, root: Tree, left: nat): (r: seq<Transition>)
    requires root.Node?
    ensures |r| == Pow2(left)
    decreases left
  {
    if left == 0 then [Arrive(node, sym)]
    else
      var from := Resumed(node, root);
      Traverse(from.left, Passing(from.left, sym), root, left - 1) +
      Traverse(from.right, Passing(from.right, sym), root, left - 1)
  }

  function Pow2(n: nat): (r: nat)
    ensures r > 0
  {
    if n == 0 then 1 else 2 * Pow2(n - 1)
  }

  function BitsValue(b: Bits): (r: nat)
    ensures r < Pow2(|b|)
  {
    if b == [] then 0 else (if b[0] then Pow2(|b| - 1) else 0) + BitsValue(b[1..])
  }

  /** One string of bits through the same recursion. */
  function Follow(node: Tree, sym: Option<nat>, root: Tree, bits: Bits): Transition
    requires root.Node?
    decreases |bits|
  {
    if bits == [] then Arrive(node, sym)
    else
      var child := Child(Resumed(node, root), bits[0]);
      Follow(child, Passing(child, sym), root, bits[1..])
  }

  /** The position of a transition in the row is the number its bits spell. */
  lemma {:induction false} TraverseAt(node: Tree, sym: Option<nat>, root: Tree, bits: Bits)
    requires root.Node?
    ensures Traverse(node, sym, root, |bits|)[BitsValue(bits)] == Follow(node, sym, root, bits)
    decreases |bits|
  {
    if bits != [] {
      var child := Child(Resumed(node, root), bits[0]);
      TraverseAt(child, Passing(child, sym), root, bits[1..]);
    }
  }

  function Row(node: Tree, root: Tree): (r: seq<Transition>)
    requires root.Node?
    ensures |r| == 16
  {
    SixteenTransitions();
    Traverse(node, None, root, 4)
  }

  lemma SixteenTransitions()
    ensures Pow2(4) == 16
  {
    assert Pow2(2) == 4;
  }

  /** _build_transition_table and the print order: the rows of the internal nodes in preorder. */
  function Rows(t: Tree, root: Tree): (r: seq<seq<Transition>>)
    requires root.Node?
    ensures |r| == Internal(t)
    ensures forall i :: 0 <= i < |r| ==> |r[i]| == 16
  {
    if t.Leaf? then [] else [Row(t, root)] + Rows(t.left, root) + Rows(t.right, root)
  }

  /** The row at a node's id is that node's row, and its mark says whether padding may end there. */
  lemma {:induction false} RowAtId(d: Draft, next: nat, prefix: Bits, p: Bits, root: Tree)
    requires Full(d) && root.Node?
    requires var t := SetNodeId(d, next, prefix).0; Sub(t, p).Some? && Sub(t, p).value.Node?
    ensures var (t, last) := (SetNodeId(d, next, prefix).0, SetNodeId(d, next, prefix).1);
            var node := Sub(t, p).value;
            && next <= node.id < last
            && Rows(t, root)[node.id - next] == Row(node, root)
            && node.accept == MayEnd(prefix + p)
    decreases |p|
  {
    hide Row, MayEnd;
    var t := SetNodeId(d, next, prefix).0;
    if p == [] {
      assert prefix + p == prefix;
    } else {
      var n := SetNodeId(d.left.value, next + 1, prefix + [false]).1;
      assert prefix + p == prefix + [p[0]] + p[1..];
      var id := Sub(t, p).value.id;
      if p[0] {
        RowAtId(d.right.value, n, prefix + [true], p[1..], root);
        assert id - next == 1 + Internal(t.left) + (id - n);
      } else {
        RowAtId(d.left.value, next + 1, prefix + [false], p[1..], root);
        assert id - next == 1 + (id - (next + 1));
      }
    }
  }

  // ---------------------------------------------------------------- _print_transition_table

  /** One printed entry: node id and flags packed in 16 bits, and the symbol to emit. */
  datatype Entry = Entry(fstate: nat, sym: nat)

  const ACCEPTED := 0x4000
  const SYM := 0x8000
  const FAILURE := 256

  function Pack(t: Transition): Entry
  {
    var sym := match t.sym case None => 0 case Some(s) => s;
    var symFlag := if t.sym.Some? then SYM else 0;
    match t.node
    case None => Entry(FAILURE + symFlag, sym)
    case Some(Leaf(_)) => Entry(0 + ACCEPTED + symFlag, sym)
    case Some(Node(id, accept, _, _)) => Entry(id + (if accept then ACCEPTED else 0) + symFlag, sym)
  }

  function PackRow(row: seq<Transition>): (r: seq<Entry>)
    ensures |r| == |row|
  {
    seq(|row|, i requires 0 <= i < |row| => Pack(row[i]))
  }

  function PackRows(rows: seq<seq<Transition>>): (r: seq<seq<Entry>>)
    ensures |r| == |rows|
  {
    seq(|rows|, i requires 0 <= i < |rows| => PackRow(rows[i]))
  }

  function FailureRow(): (r: seq<Entry>)
    ensures |r| == 16 && forall i :: 0 <= i < 16 ==> r[i] == Entry(0x100, 0)
  {
    seq(16, _ => Entry(0x100, 0))
  }

  /** The printed table: the rows of all internal nodes, then the failure row. */
  function Table(root: Tree): (r: seq<seq<Entry>>)
    requires root.Node?
    ensures |r| == Internal(root) + 1
    ensures forall i :: 0 <= i < |r| ==> |r[i]| == 16
  {
    PackRows(Rows(root, root)) + [FailureRow()]
  }
}
