/** The memory that holds a red-black tree, and what the pointer steps of src/rbtree.c do to
    the tree it holds.

    A `Memory` records the four fields of every node.  `At(m, z, t)` says that it holds the
    tree `Plug(z, t)`, with all parent links and colours in place.  Every lemma here takes
    one pointer step of the C code and names the tree that is there afterwards.
  */
module RbMemory {
  import opened RbShape
  import opened RbErasure

  /** The contents of one `struct rb_node`. */
  datatype Cell = Cell(parent: RbNode?, red: bool, left: RbNode?, right: RbNode?)

  type Memory = map<RbNode, Cell>

  function PutParent(m: Memory, n: RbNode?, p: RbNode?): Memory {
    if n != null && n in m then m[n := m[n].(parent := p)] else m
  }

  function PutRed(m: Memory, n: RbNode?, red: bool): Memory {
    if n != null && n in m then m[n := m[n].(red := red)] else m
  }

  function PutLeft(m: Memory, n: RbNode?, l: RbNode?): Memory {
    if n != null && n in m then m[n := m[n].(left := l)] else m
  }

  function PutRight(m: Memory, n: RbNode?, r: RbNode?): Memory {
    if n != null && n in m then m[n := m[n].(right := r)] else m
  }

  /** The child pointer of `p` that leads to `before` leads to `after` instead. */
  function PutChild(m: Memory, p: RbNode?, before: RbNode, after: RbNode?): Memory {
    if p != null && p in m && m[p].left == before then PutLeft(m, p, after) else PutRight(m, p, after)
  }

  /** The same, looking at the right child pointer first. */
  function PutChildFromRight(m: Memory, p: RbNode?, before: RbNode, after: RbNode?): Memory {
    if p != null && p in m && m[p].right == before then PutRight(m, p, after) else PutLeft(m, p, after)
  }

  // ---------- trees in memory ----------

  /** The node above the hole of `z`. */
  function Above(z: Path): RbNode? {
    if z.Top? then null else z.node
  }

  /** The root of the whole tree when a subtree with root `sub` is in the hole of `z`. */
  function TopNode(z: Path, sub: RbNode?): RbNode? {
    if z.Top? then sub else TopNode(z.up, z.node)
  }

  /** The pointers and colours in `m` describe `t`, hanging below `p`. */
  ghost predicate Linked(m: Memory, t: Tree, p: RbNode?) {
    match t
    case Leaf => true
    case Fork(c, l, n, r) => n in m && m[n] == Cell(p, c, Root(l), Root(r)) && Linked(m, l, n) && Linked(m, r, n)
  }

  /** The same for the surroundings of a hole that holds a subtree with root `sub`. */
  ghost predicate LinkedUp(m: Memory, z: Path, sub: RbNode?) {
    match z
    case Top => true
    case InLeft(up, c, n, r) =>
      n in m && m[n] == Cell(Above(up), c, sub, Root(r)) && Linked(m, r, n) && LinkedUp(m, up, n)
    case InRight(up, c, l, n) =>
      n in m && m[n] == Cell(Above(up), c, Root(l), sub) && Linked(m, l, n) && LinkedUp(m, up, n)
  }

  /** `m` holds the ordered tree `Plug(z, t)`. */
  ghost predicate At(m: Memory, z: Path, t: Tree) {
    Ordered(t, Lo(z), Hi(z)) && OrderedUp(z) && Linked(m, t, Above(z)) && LinkedUp(m, z, Root(t))
  }

  // ---------- memory that is left alone ----------

  ghost predicate SameWithin(m: Memory, m': Memory, lo: int, hi: int) {
    forall k :: k in m && lo < k.msecs < hi ==> k in m' && m'[k] == m[k]
  }

  ghost predicate SameOutside(m: Memory, m': Memory, lo: int, hi: int) {
    forall k :: k in m && !(lo < k.msecs < hi) ==> k in m' && m'[k] == m[k]
  }

  lemma {:induction false} LinkedFrame(m: Memory, m': Memory, t: Tree, p: RbNode?, lo: int, hi: int)
    requires Linked(m, t, p) && Ordered(t, lo, hi) && SameWithin(m, m', lo, hi)
    ensures Linked(m', t, p)
  {
    match t
    case Leaf =>
    case Fork(_, l, n, r) =>
      LinkedFrame(m, m', l, n, lo, n.msecs);
      LinkedFrame(m, m', r, n, n.msecs, hi);
  }

  lemma {:induction false} LinkedUpFrame(m: Memory, m': Memory, z: Path, sub: RbNode?)
    requires LinkedUp(m, z, sub) && OrderedUp(z) && SameOutside(m, m', Lo(z), Hi(z))
    ensures LinkedUp(m', z, sub)
  {
    match z
    case Top =>
    case InLeft(up, _, n, r) =>
      LinkedFrame(m, m', r, n, n.msecs, Hi(up));
      LinkedUpFrame(m, m', up, n);
    case InRight(up, _, l, n) =>
      LinkedFrame(m, m', l, n, Lo(up), n.msecs);
      LinkedUpFrame(m, m', up, n);
  }

  /** Inside the bounds of `t`, only the parent pointer of its root has changed, to `q`. */
  lemma {:induction false} Reparented(m: Memory, m': Memory, t: Tree, p: RbNode?, q: RbNode?, lo: int, hi: int)
    requires Linked(m, t, p) && Ordered(t, lo, hi)
    requires forall k :: k in m && lo < k.msecs < hi ==>
      k in m' && m'[k] == if k == Root(t) then m[k].(parent := q) else m[k]
    ensures Linked(m', t, q)
  {
    if t.Fork? {
      LinkedFrame(m, m', t.left, t.node, lo, t.node.msecs);
      LinkedFrame(m, m', t.right, t.node, t.node.msecs, hi);
    }
  }

  function ReplacedChild(z: Path, cell: Cell, k: RbNode, sub: RbNode?): Cell {
    if k != Above(z) then cell else if z.InLeft? then cell.(left := sub) else cell.(right := sub)
  }

  /** Outside the hole of `z`, only the child pointer to the hole has changed, to `sub'`. */
  lemma {:induction false} Rechilded(m: Memory, m': Memory, z: Path, sub: RbNode?, sub': RbNode?)
    requires LinkedUp(m, z, sub) && OrderedUp(z)
    requires forall k :: k in m && !(Lo(z) < k.msecs < Hi(z)) ==>
      k in m' && m'[k] == ReplacedChild(z, m[k], k, sub')
    ensures LinkedUp(m', z, sub')
  {
    match z
    case Top =>
    case InLeft(up, _, n, r) =>
      LinkedFrame(m, m', r, n, n.msecs, Hi(up));
      LinkedUpFrame(m, m', up, n);
    case InRight(up, _, l, n) =>
      LinkedFrame(m, m', l, n, Lo(up), n.msecs);
      LinkedUpFrame(m, m', up, n);
  }

  /** A tree only depends on the cells of its own nodes. */
  lemma {:induction false} LinkedOn(m: Memory, m': Memory, t: Tree, p: RbNode?)
    requires Linked(m, t, p)
    requires forall k :: k in Inorder(t) && k in m ==> k in m' && m'[k] == m[k]
    ensures Linked(m', t, p)
  {
    match t
    case Leaf =>
    case Fork(_, l, n, r) =>
      assert forall k :: k in Inorder(l) || k == n || k in Inorder(r) ==> k in Inorder(t);
      LinkedOn(m, m', l, n);
      LinkedOn(m, m', r, n);
  }

  /** `rb_link_node`: a new red leaf in an empty hole. */
  lemma {:induction false} LinkedNew(m: Memory, m': Memory, z: Path, n: RbNode)
    requires At(m, z, Leaf) && n !in m && Lo(z) < n.msecs < Hi(z)
    requires n in m' && m'[n] == Cell(Above(z), true, null, null)
    requires forall k :: k in m ==> k in m' && m'[k] == ReplacedChild(z, m[k], k, n)
    ensures At(m', z, Fork(true, Leaf, n, Leaf))
  {
    Rechilded(m, m', z, null, n);
  }

  // ---------- moving the focus ----------

  /** The subtree in the hole of `z.up` when `t` is in the hole of `z`. */
  function Joined(z: Path, t: Tree): (j: Tree)
    requires !z.Top?
    ensures Plug(z.up, j) == Plug(z, t)
  {
    if z.InLeft? then Fork(z.red, t, z.node, z.right) else Fork(z.red, z.left, z.node, t)
  }

  lemma Descend(m: Memory, z: Path, t: Tree)
    requires t.Fork? && At(m, z, t)
    ensures At(m, InLeft(z, t.red, t.node, t.right), t.left)
    ensures At(m, InRight(z, t.red, t.left, t.node), t.right)
  {
  }

  lemma Ascend(m: Memory, z: Path, t: Tree)
    requires !z.Top? && At(m, z, t)
    ensures At(m, z.up, Joined(z, t))
  {
  }

  // ---------- colours ----------

  lemma {:induction false} Recoloured(m: Memory, z: Path, t: Tree, red: bool)
    requires t.Fork? && At(m, z, t)
    ensures At(PutRed(m, t.node, red), z, t.(red := red))
  {
    var m' := PutRed(m, t.node, red);
    LinkedFrame(m, m', t.left, t.node, Lo(z), t.node.msecs);
    LinkedFrame(m, m', t.right, t.node, t.node.msecs, Hi(z));
    LinkedUpFrame(m, m', z, t.node);
  }

  // ---------- rotations ----------

  function RotatedLeft(t: Tree): Tree
    requires t.Fork? && t.right.Fork?
  {
    Fork(t.right.red, Fork(t.red, t.left, t.node, t.right.left), t.right.node, t.right.right)
  }

  function RotatedRight(t: Tree): Tree
    requires t.Fork? && t.left.Fork?
  {
    Fork(t.left.red, t.left.left, t.left.node, Fork(t.red, t.left.right, t.node, t.right))
  }

  /** `n` has a right child, and the four nodes that a left rotation writes to are different. */
  predicate CanRotateLeft(m: Memory, n: RbNode) {
    n in m && m[n].right != null &&
    var y, p := m[n].right, m[n].parent;
    y in m && (p != null ==> p in m) && n != y && p != n && p != y &&
    var b := m[y].left;
    b != null ==> b in m && b != n && b != y && b != p
  }

  predicate CanRotateRight(m: Memory, n: RbNode) {
    n in m && m[n].left != null &&
    var y, p := m[n].left, m[n].parent;
    y in m && (p != null ==> p in m) && n != y && p != n && p != y &&
    var b := m[y].right;
    b != null ==> b in m && b != n && b != y && b != p
  }

  /** The stores of `__rb_rotate_left`, in their order. */
  function RotateLeft(m: Memory, n: RbNode): Memory
    requires CanRotateLeft(m, n)
  {
    var y, p := m[n].right, m[n].parent;
    var b := m[y].left;
    var m := PutRight(m, n, b);
    var m := PutParent(m, b, n);
    var m := PutLeft(m, y, n);
    var m := PutParent(m, y, p);
    var m := PutChild(m, p, n, y);
    PutParent(m, n, y)
  }

  /** The stores of `__rb_rotate_right`, in their order. */
  function RotateRight(m: Memory, n: RbNode): Memory
    requires CanRotateRight(m, n)
  {
    var y, p := m[n].left, m[n].parent;
    var b := m[y].right;
    var m := PutLeft(m, n, b);
    var m := PutParent(m, b, n);
    var m := PutRight(m, y, n);
    var m := PutParent(m, y, p);
    var m := PutChildFromRight(m, p, n, y);
    PutParent(m, n, y)
  }

  lemma RotateLeftCell(m: Memory, n: RbNode, k: RbNode)
    requires CanRotateLeft(m, n) && k in m
    ensures
      var y, p := m[n].right, m[n].parent;
      var b := m[y].left;
      k in RotateLeft(m, n) && RotateLeft(m, n)[k] ==
        if k == n then m[n].(parent := y, right := b)
        else if k == y then m[y].(parent := p, left := n)
        else if k == b then m[k].(parent := n)
        else if k != p then m[k]
        else if m[k].left == n then m[k].(left := y) else m[k].(right := y)
  {
  }

  lemma RotateRightCell(m: Memory, n: RbNode, k: RbNode)
    requires CanRotateRight(m, n) && k in m
    ensures
      var y, p := m[n].left, m[n].parent;
      var b := m[y].right;
      k in RotateRight(m, n) && RotateRight(m, n)[k] ==
        if k == n then m[n].(parent := y, left := b)
        else if k == y then m[y].(parent := p, right := n)
        else if k == b then m[k].(parent := n)
        else if k != p then m[k]
        else if m[k].right == n then m[k].(right := y) else m[k].(left := y)
  {
  }

  /** The child pointer above the hole of `z` is the one that a store through `PutChild` hits. */
  lemma ChildSide(m: Memory, z: Path, n: RbNode)
    requires LinkedUp(m, z, n) && OrderedUp(z) && Lo(z) < n.msecs < Hi(z) && !z.Top?
    ensures z.node in m && !(Lo(z) < z.node.msecs < Hi(z))
    ensures z.InLeft? <==> m[z.node].left == n
    ensures z.InRight? <==> m[z.node].right == n
  {
  }

  /** What the four stores of a left rotation leave in the cell of `k`. */
  function RotatedLeftCell(z: Path, t: Tree, k: RbNode, cell: Cell): Cell
    requires t.Fork? && t.right.Fork?
  {
    if k == t.node then Cell(t.right.node, t.red, Root(t.left), Root(t.right.left))
    else if k == t.right.node then Cell(Above(z), t.right.red, t.node, Root(t.right.right))
    else if k == Root(t.right.left) then cell.(parent := t.node)
    else ReplacedChild(z, cell, k, t.right.node)
  }

  lemma {:induction false} RotateLeftCells(m: Memory, z: Path, t: Tree)
    requires t.Fork? && t.right.Fork? && At(m, z, t)
    ensures CanRotateLeft(m, t.node)
    ensures forall k :: k in m ==>
      k in RotateLeft(m, t.node) && RotateLeft(m, t.node)[k] == RotatedLeftCell(z, t, k, m[k])
  {
    var n, s := t.node, t.right;
    assert Linked(m, s, n) && Ordered(s, n.msecs, Hi(z)) && Linked(m, s.left, s.node);
    assert Ordered(s.left, n.msecs, s.node.msecs);
    if !z.Top? {
      ChildSide(m, z, n);
    }
    forall k | k in m
      ensures k in RotateLeft(m, n) && RotateLeft(m, n)[k] == RotatedLeftCell(z, t, k, m[k])
    {
      RotateLeftCell(m, n, k);
    }
  }

  lemma {:induction false} RotateLeftFrames(m: Memory, m': Memory, z: Path, t: Tree)
    requires t.Fork? && t.right.Fork?
    requires Lo(z) < t.node.msecs < t.right.node.msecs < Hi(z)
    requires Ordered(t.left, Lo(z), t.node.msecs) && Linked(m, t.left, t.node)
    requires Ordered(t.right.left, t.node.msecs, t.right.node.msecs) && Linked(m, t.right.left, t.right.node)
    requires Ordered(t.right.right, t.right.node.msecs, Hi(z)) && Linked(m, t.right.right, t.right.node)
    requires forall k :: k in m ==> k in m' && m'[k] == RotatedLeftCell(z, t, k, m[k])
    ensures Linked(m', t.left, t.node) && Linked(m', t.right.left, t.node)
    ensures Linked(m', t.right.right, t.right.node)
  {
    var n, y, b := t.node, t.right.node, t.right.left;
    assert b.Fork? ==> n.msecs < b.node.msecs < y.msecs;
    assert !z.Top? ==> !(Lo(z) < z.node.msecs < Hi(z));
    LinkedFrame(m, m', t.left, n, Lo(z), n.msecs);
    LinkedFrame(m, m', t.right.right, y, y.msecs, Hi(z));
    Reparented(m, m', b, y, n, n.msecs, y.msecs);
  }

  lemma {:induction false} RotateLeftAbove(m: Memory, m': Memory, z: Path, t: Tree)
    requires t.Fork? && t.right.Fork? && OrderedUp(z) && LinkedUp(m, z, t.node)
    requires Ordered(t, Lo(z), Hi(z))
    requires forall k :: k in m ==> k in m' && m'[k] == RotatedLeftCell(z, t, k, m[k])
    ensures LinkedUp(m', z, t.right.node)
  {
    var s := t.right;
    assert Ordered(s, t.node.msecs, Hi(z)) && Ordered(s.left, t.node.msecs, s.node.msecs);
    Rechilded(m, m', z, t.node, s.node);
  }

  /** A left rotation at the focus. */
  lemma {:induction false} RotateLeftAt(m: Memory, z: Path, t: Tree)
    requires t.Fork? && t.right.Fork? && At(m, z, t)
    ensures CanRotateLeft(m, t.node) && At(RotateLeft(m, t.node), z, RotatedLeft(t))
  {
    var s := t.right;
    assert Ordered(s, t.node.msecs, Hi(z)) && Linked(m, s, t.node);
    RotateLeftCells(m, z, t);
    RotateLeftFrames(m, RotateLeft(m, t.node), z, t);
    RotateLeftAbove(m, RotateLeft(m, t.node), z, t);
    var t' := Fork(t.red, t.left, t.node, s.left);
    assert Linked(RotateLeft(m, t.node), t', s.node) && Ordered(t', Lo(z), s.node.msecs);
  }

  function RotatedRightCell(z: Path, t: Tree, k: RbNode, cell: Cell): Cell
    requires t.Fork? && t.left.Fork?
  {
    if k == t.node then Cell(t.left.node, t.red, Root(t.left.right), Root(t.right))
    else if k == t.left.node then Cell(Above(z), t.left.red, Root(t.left.left), t.node)
    else if k == Root(t.left.right) then cell.(parent := t.node)
    else ReplacedChild(z, cell, k, t.left.node)
  }

  lemma {:induction false} RotateRightCells(m: Memory, z: Path, t: Tree)
    requires t.Fork? && t.left.Fork? && At(m, z, t)
    ensures CanRotateRight(m, t.node)
    ensures forall k :: k in m ==>
      k in RotateRight(m, t.node) && RotateRight(m, t.node)[k] == RotatedRightCell(z, t, k, m[k])
  {
    var n, s := t.node, t.left;
    assert Linked(m, s, n) && Ordered(s, Lo(z), n.msecs) && Linked(m, s.right, s.node);
    assert Ordered(s.right, s.node.msecs, n.msecs);
    if !z.Top? {
      ChildSide(m, z, n);
    }
    forall k | k in m
      ensures k in RotateRight(m, n) && RotateRight(m, n)[k] == RotatedRightCell(z, t, k, m[k])
    {
      RotateRightCell(m, n, k);
    }
  }

  lemma {:induction false} RotateRightFrames(m: Memory, m': Memory, z: Path, t: Tree)
    requires t.Fork? && t.left.Fork?
    requires Lo(z) < t.left.node.msecs < t.node.msecs < Hi(z)
    requires Ordered(t.left.left, Lo(z), t.left.node.msecs) && Linked(m, t.left.left, t.left.node)
    requires Ordered(t.left.right, t.left.node.msecs, t.node.msecs) && Linked(m, t.left.right, t.left.node)
    requires Ordered(t.right, t.node.msecs, Hi(z)) && Linked(m, t.right, t.node)
    requires forall k :: k in m ==> k in m' && m'[k] == RotatedRightCell(z, t, k, m[k])
    ensures Linked(m', t.left.left, t.left.node) && Linked(m', t.left.right, t.node)
    ensures Linked(m', t.right, t.node)
  {
    var n, y, b := t.node, t.left.node, t.left.right;
    assert b.Fork? ==> y.msecs < b.node.msecs < n.msecs;
    assert !z.Top? ==> !(Lo(z) < z.node.msecs < Hi(z));
    LinkedFrame(m, m', t.left.left, y, Lo(z), y.msecs);
    LinkedFrame(m, m', t.right, n, n.msecs, Hi(z));
    Reparented(m, m', b, y, n, y.msecs, n.msecs);
  }

  lemma {:induction false} RotateRightAbove(m: Memory, m': Memory, z: Path, t: Tree)
    requires t.Fork? && t.left.Fork? && OrderedUp(z) && LinkedUp(m, z, t.node)
    requires Ordered(t, Lo(z), Hi(z))
    requires forall k :: k in m ==> k in m' && m'[k] == RotatedRightCell(z, t, k, m[k])
    ensures LinkedUp(m', z, t.left.node)
  {
    var s := t.left;
    assert Ordered(s, Lo(z), t.node.msecs) && Ordered(s.right, s.node.msecs, t.node.msecs);
    Rechilded(m, m', z, t.node, s.node);
  }

  /** A right rotation at the focus. */
  lemma {:induction false} RotateRightAt(m: Memory, z: Path, t: Tree)
    requires t.Fork? && t.left.Fork? && At(m, z, t)
    ensures CanRotateRight(m, t.node) && At(RotateRight(m, t.node), z, RotatedRight(t))
  {
    var s := t.left;
    assert Ordered(s, Lo(z), t.node.msecs) && Linked(m, s, t.node);
    RotateRightCells(m, z, t);
    RotateRightFrames(m, RotateRight(m, t.node), z, t);
    RotateRightAbove(m, RotateRight(m, t.node), z, t);
    var t' := Fork(t.red, s.right, t.node, t.right);
    assert Linked(RotateRight(m, t.node), t', s.node) && Ordered(t', s.node.msecs, Hi(z));
  }
}
