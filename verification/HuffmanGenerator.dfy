/** tools/mkhufftbl.py as it runs: nodes linked in place, an id counter, transition lists that grow. */
module HuffmanGenerator {
  import opened Bits
  import opened Bytes
  import opened HuffmanTable
  import opened HuffmanTree

  class DraftNode {
    var term: Option<nat>
    var left: DraftNode?
    var right: DraftNode?
    ghost var value: Draft
    ghost var Repr: set<DraftNode>

    ghost predicate Valid()
      reads this, Repr
      ensures Valid() ==> this in Repr
    {
      && this in Repr
      && (left != null ==> left in Repr && left.Repr <= Repr && this !in left.Repr && left.Valid())
      && (right != null ==> right in Repr && right.Repr <= Repr && this !in right.Repr && right.Valid())
      && (left != null && right != null ==> left.Repr !! right.Repr)
      && value == Draft(term, if left == null then None else Some(left.value),
                        if right == null then None else Some(right.value))
    }

    constructor ()
      ensures Valid() && fresh(Repr) && value == NEW_NODE
    {
      term, left, right := None, null, null;
      value, Repr := NEW_NODE, {this};
    }

    /** _add */
    method Add(sym: nat, bits: Bits)
      requires Valid()
      modifies Repr
      ensures Valid() && fresh(Repr - old(Repr))
      ensures value == HuffmanTable.Add(old(value), sym, bits)
      decreases |bits|
    {
      if |bits| == 0 {
        term := Some(sym);
        value := value.(term := Some(sym));
        return;
      }
      if !bits[0] {
        if left == null {
          left := new DraftNode();
          Repr := Repr + left.Repr;
          value := value.(left := Some(NEW_NODE));
        }
        left.Add(sym, bits[1..]);
        Repr := Repr + left.Repr;
        value := value.(left := Some(left.value));
      } else {
        if right == null {
          right := new DraftNode();
          Repr := Repr + right.Repr;
          value := value.(right := Some(NEW_NODE));
        }
        right.Add(sym, bits[1..]);
        Repr := Repr + right.Repr;
        value := value.(right := Some(right.value));
      }
    }
  }

  /** The loop of the script over the code table. */
  method BuildTree(codes: seq<Bits>) returns (root: DraftNode)
    ensures root.Valid() && fresh(root.Repr)
    ensures root.value == AddAll(codes)
  {
    root := new DraftNode();
    var i := 0;
    while i < |codes|
      invariant i <= |codes| && root.Valid() && fresh(root.Repr)
      invariant root.value == AddAll(codes[..i])
    {
      root.Add(i, codes[i]);
      assert codes[..i + 1][..i] == codes[..i];
      i := i + 1;
    }
    assert codes[..i] == codes;
  }

  class Context {
    var nextId: nat

    constructor ()
      ensures nextId == 0
    {
      nextId := 0;
    }

    method NextId() returns (id: nat)
      modifies this
      ensures id == old(nextId) && nextId == id + 1
    {
      id := nextId;
      nextId := nextId + 1;
    }

    /** _set_node_id */
    method SetNodeId(d: Draft, prefix: Bits) returns (t: Tree)
      requires Full(d)
      modifies this
      ensures (t, nextId) == HuffmanTable.SetNodeId(d, old(nextId), prefix)
      decreases d
    {
      if d.term.Some? {
        return Leaf(d.term.value);
      }
      var accept := |prefix| <= 7 && AllOnes(prefix);
      var id := NextId();
      var l := SetNodeId(d.left.value, prefix + [false]);
      var r := SetNodeId(d.right.value, prefix + [true]);
      return Node(id, accept, l, r);
    }
  }

  lemma {:induction false} DeepEnough(t: Tree, n: nat, m: nat)
    requires Deep(t, n) && m <= n
    ensures Deep(t, m)
  {
    if m > 0 {
      DeepEnough(t.left, n - 1, m - 1);
      DeepEnough(t.right, n - 1, m - 1);
    }
  }

  /** No symbol lies within the bits still to read, once there is one. */
  predicate OneSymbolAtMost(node: Tree, sym: Option<nat>, root: Tree, left: nat)
  {
    Deep(root, 5) && left <= 4 && (sym.Some? ==> Deep(Resumed(node, root), left + 1))
  }

  /** The assertion in `go` holds, and so it does further down. */
  lemma GoIsSafe(node: Tree, sym: Option<nat>, root: Tree, left: nat, b: bool)
    requires root.Node? && left > 0 && OneSymbolAtMost(node, sym, root, left)
    ensures var child := Child(Resumed(node, root), b);
            (child.Leaf? ==> sym.None?) && OneSymbolAtMost(child, Passing(child, sym), root, left - 1)
  {
    hide Deep;
    var from := Resumed(node, root);
    DeepEnough(root, 5, left);
    if sym.Some? {
      DeepChild(from, left + 1, b);
      DeepIsNode(Child(from, b), left);
    }
  }

  lemma DeepChild(t: Tree, n: nat, b: bool)
    requires Deep(t, n) && n > 0
    ensures t.Node? && Deep(Child(t, b), n - 1)
  {
  }

  lemma DeepIsNode(t: Tree, n: nat)
    requires Deep(t, n) && n > 0
    ensures t.Node?
  {
  }

  lemma TraverseSplits(node: Tree, sym: Option<nat>, root: Tree, left: nat)
    requires root.Node?
    ensures left == 0 ==> Traverse(node, sym, root, left) == [Arrive(node, sym)]
    ensures left > 0 ==>
              var from := Resumed(node, root);
              Traverse(node, sym, root, left) ==
              Traverse(from.left, Passing(from.left, sym), root, left - 1) +
              Traverse(from.right, Passing(from.right, sym), root, left - 1)
  {
    hide Pow2;
  }

  /** The node whose transition list is being filled. */
  class StartNode {
    var trans: seq<Transition>

    constructor ()
      ensures trans == []
    {
      trans := [];
    }

    /** _traverse; a second symbol within four bits would fail the script's assertion. */
    method Traverse(node: Tree, sym: Option<nat>, root: Tree, left: nat)
      requires root.Node? && OneSymbolAtMost(node, sym, root, left)
      modifies this
      ensures trans == old(trans) + HuffmanTable.Traverse(node, sym, root, left)
      decreases left
    {
      hide Pow2, OneSymbolAtMost, HuffmanTable.Traverse;
      TraverseSplits(node, sym, root, left);
      if left == 0 {
        trans := trans + [if sym == Some(EOS) then Transition(None, None) else Transition(Some(node), sym)];
        return;
      }
      var from := if node.Leaf? then root else node;
      GoIsSafe(node, sym, root, left, false);
      GoIsSafe(node, sym, root, left, true);
      assert from.left.Leaf? || from.right.Leaf? ==> sym.None?;
      var symLeft := if from.left.Leaf? then Some(from.left.sym) else sym;
      var symRight := if from.right.Leaf? then Some(from.right.sym) else sym;
      ghost var a := HuffmanTable.Traverse(from.left, symLeft, root, left - 1);
      ghost var b := HuffmanTable.Traverse(from.right, symRight, root, left - 1);
      ghost var before := trans;
      Traverse(from.left, symLeft, root, left - 1);
      Traverse(from.right, symRight, root, left - 1);
      assert trans == before + a + b == before + (a + b);
    }
  }

  /** _build_transition_table: rows appended in preorder. */
  method BuildRows(t: Tree, root: Tree, before: seq<seq<Transition>>) returns (rows: seq<seq<Transition>>)
    requires root.Node? && Deep(root, 5)
    ensures rows == before + Rows(t, root)
    decreases t
  {
    hide Row, Deep;
    if t.Leaf? {
      return before;
    }
    var row := TransitionsOf(t, root);
    rows := BuildRows(t.left, root, before + [row]);
    rows := BuildRows(t.right, root, rows);
  }

  method TransitionsOf(t: Tree, root: Tree) returns (row: seq<Transition>)
    requires root.Node? && Deep(root, 5)
    ensures row == Row(t, root)
  {
    hide Traverse, Deep;
    var start := new StartNode();
    assert OneSymbolAtMost(t, None, root, 4);
    start.Traverse(t, None, root, 4);
    row := start.trans;
  }
}
